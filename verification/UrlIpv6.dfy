/** The validator of IPv6 addresses, against the text representation of section 2.2 of RFC 4291. */
module UrlIpv6 {
  import opened Text
  import opened UrlChars
  import opened UrlNumbers

  // ----- the language -----

  predicate Group(t: string) {
    1 <= |t| <= 4 && forall i :: 0 <= i < |t| ==> IsHexDigit(t[i])
  }

  /** Groups separated by single colons. */
  predicate Groups(x: string) {
    forall i :: 0 <= i < |Split(x, ':')| ==> Group(Split(x, ':')[i])
  }

  function Number(x: string): nat {
    if x == "" then 0 else |Split(x, ':')|
  }

  predicate Uncompressed(y: string, full: nat) {
    Groups(y) && Number(y) == full
  }

  /** Two colons with at most seven groups around them in all; `open` lets them end the text. */
  predicate Around(l: string, r: string, open: bool) {
    && (l == "" || Groups(l))
    && ((r == "" && open) || Groups(r))
    && Number(l) + Number(r) <= 7
  }

  predicate PairAt(y: string, k: int) {
    0 <= k && k + 2 <= |y| && y[k] == ':' && y[k + 1] == ':'
  }

  ghost predicate Compressed(y: string, open: bool) {
    exists k :: PairAt(y, k) && Around(y[..k], y[k + 2..], open)
  }

  /** The first two forms of section 2.2 of RFC 4291. */
  ghost predicate Ipv6Text(y: string) {
    Uncompressed(y, 8) || Compressed(y, true)
  }

  /** Where the part after the last colon begins. */
  function LastPart(y: string): (b: nat)
    ensures b <= |y| && (forall i :: b <= i < |y| ==> y[i] != ':') && (b > 0 ==> y[b - 1] == ':')
  {
    if y == "" then 0 else if y[|y| - 1] == ':' then |y| else LastPart(y[..|y| - 1])
  }

  /** The third form, with an IPv4 address in place of the last groups: the part cut off at the first dot
      counts as one group more. */
  ghost predicate MixedText(s: string) {
    var y := s[..Until(s, ".")];
    && (Uncompressed(y, 7) || Compressed(y, false))
    && Octets(s[LastPart(y)..], 4)
  }

  ghost predicate ValidIpv6(s: string) {
    2 <= |s| <= 39 && if '.' in s then MixedText(s) else Ipv6Text(s)
  }

  // ----- the scan, char by char -----

  /** The text continues a group of d digits to a list of groups. */
  predicate Continues(x: string, d: nat) {
    if x == "" then 1 <= d <= 4
    else if x[0] == ':' then 1 <= d <= 4 && Continues(x[1..], 0)
    else IsHexDigit(x[0]) && d < 4 && Continues(x[1..], d + 1)
  }

  function Colons(x: string): nat {
    if x == "" then 0 else (if x[0] == ':' then 1 else 0) + Colons(x[1..])
  }

  /** What the loop decides from here on: `pair` says that a pair of colons was seen, `just` that it was right
      before, n counts the groups and d the digits of the current one. */
  predicate Scan(x: string, pair: bool, just: bool, n: nat, d: nat, full: nat, open: bool) {
    if x == "" then
      if d > 0 then (!pair && n + 1 == full) || (pair && n + 1 < 8)
      else open && just && n < 8
    else if x[0] == ':' then
      if d == 0 then !pair && Scan(x[1..], true, true, n, 0, full, open)
      else Scan(x[1..], pair, false, n + 1, 0, full, open)
    else d < 4 && IsHexDigit(x[0]) && Scan(x[1..], pair, false, n, d + 1, full, open)
  }

  predicate EndsWell(x: string, n: nat, open: bool) {
    (x == "" && open && n < 8) || (Continues(x, 0) && n + Colons(x) + 1 < 8)
  }

  /** After a pair of colons. */
  lemma {:induction false} ScanAfterPair(x: string, just: bool, n: nat, d: nat, full: nat, open: bool)
    requires d <= 4 && (just ==> d == 0)
    ensures Scan(x, true, just, n, d, full, open) <==>
            (x == "" && just && open && n < 8) || (Continues(x, d) && n + Colons(x) + 1 < 8)
    decreases |x|
  {
    if x != "" && x[0] == ':' && d > 0 {
      ScanAfterPair(x[1..], false, n + 1, 0, full, open);
    } else if x != "" && x[0] != ':' && d < 4 {
      ScanAfterPair(x[1..], false, n, d + 1, full, open);
    }
  }

  predicate PairAhead(x: string, k: int, n: nat, d: nat, open: bool) {
    PairAt(x, k) && Continues(x[..k], d) && EndsWell(x[k + 2..], n + Colons(x[..k]) + 1, open)
  }

  ghost predicate SomePairAhead(x: string, n: nat, d: nat, open: bool) {
    exists k :: PairAhead(x, k, n, d, open)
  }

  /** Before any pair of colons. `half` says that one colon was right before. */
  lemma {:induction false} ScanBeforePair(x: string, half: bool, n: nat, d: nat, full: nat, open: bool)
    requires d <= 4 && (half ==> d == 0) && (!half && d == 0 && x != "" ==> x[0] != ':')
    ensures Scan(x, false, false, n, d, full, open) <==>
            || (Continues(x, d) && n + Colons(x) + 1 == full)
            || (half && x != "" && x[0] == ':' && EndsWell(x[1..], n, open))
            || SomePairAhead(x, n, d, open)
    decreases |x|
  {
    if x == "" {
    } else if x[0] == ':' && d == 0 {
      ScanAfterPair(x[1..], true, n, 0, full, open);
    } else if x[0] == ':' {
      ScanBeforePair(x[1..], true, n + 1, 0, full, open);
      PairFurtherOn(x, n, d, open);
    } else if d < 4 && IsHexDigit(x[0]) {
      ScanBeforePair(x[1..], false, n, d + 1, full, open);
      PairFurtherOn(x, n, d, open);
    }
  }

  lemma PairShifts(x: string, k: nat, n: nat, d: nat, open: bool)
    requires x != "" && d <= 4
    ensures x[0] == ':' && d > 0 ==> (PairAhead(x, k + 1, n, d, open) <==> PairAhead(x[1..], k, n + 1, 0, open))
    ensures x[0] != ':' && IsHexDigit(x[0]) && d < 4 ==>
            (PairAhead(x, k + 1, n, d, open) <==> PairAhead(x[1..], k, n, d + 1, open))
  {
    if PairAt(x[1..], k) {
      assert x[..k + 1][1..] == x[1..][..k] && x[k + 1 + 2..] == x[1..][k + 2..];
      assert Colons(x[..k + 1]) == (if x[0] == ':' then 1 else 0) + Colons(x[1..][..k]);
    }
  }

  /** One char on, a pair ahead is a pair ahead. */
  lemma PairFurtherOn(x: string, n: nat, d: nat, open: bool)
    requires x != "" && d <= 4 && (x[0] == ':' ==> d > 0) && (x[0] != ':' ==> IsHexDigit(x[0]) && d < 4)
    ensures SomePairAhead(x, n, d, open) <==>
            if x[0] == ':' then
              (|x| > 1 && x[1] == ':' && EndsWell(x[1..][1..], n + 1, open)) || SomePairAhead(x[1..], n + 1, 0, open)
            else SomePairAhead(x[1..], n, d + 1, open)
  {
    if |x| > 1 && PairAt(x, 0) {
      assert x[2..] == x[1..][1..];
      assert PairAhead(x, 0, n, d, open) <==> EndsWell(x[1..][1..], n + 1, open);
    }
    if k :| PairAhead(x, k, n, d, open) && k > 0 {
      PairShifts(x, k - 1, n, d, open);
    }
    var rest, n', d' := x[1..], if x[0] == ':' then n + 1 else n, if x[0] == ':' then 0 else d + 1;
    if k :| PairAhead(rest, k, n', d', open) {
      PairShifts(x, k, n, d, open);
    }
  }

  // ----- the scan decides the language -----

  lemma {:induction false} ContinuesIsGroups(x: string, d: nat)
    ensures Continues(x, d) <==>
            var parts := Split(x, ':');
            && 1 <= |parts[0]| + d <= 4 && (forall i :: 0 <= i < |parts[0]| ==> IsHexDigit(parts[0][i]))
            && forall i :: 1 <= i < |parts| ==> Group(parts[i])
    ensures Colons(x) + 1 == |Split(x, ':')|
    decreases |x|
  {
    if x != "" {
      var parts, rest := Split(x, ':'), Split(x[1..], ':');
      if x[0] == ':' {
        ContinuesIsGroups(x[1..], 0);
        assert parts == [""] + rest;
        assert Group(rest[0]) <==> Group(parts[1]);
        assert forall i :: 1 <= i < |rest| ==> parts[i + 1] == rest[i];
        assert forall i :: 2 <= i < |parts| ==> parts[i] == rest[i - 1];
      } else {
        ContinuesIsGroups(x[1..], d + 1);
        assert parts == [[x[0]] + rest[0]] + rest[1..];
        assert forall i :: 1 <= i < |rest| ==> parts[i] == rest[i];
        assert parts[0][0] == x[0] && forall i :: 0 <= i < |rest[0]| ==> parts[0][i + 1] == rest[0][i];
        assert forall i :: 1 <= i < |parts[0]| ==> parts[0][i] == rest[0][i - 1];
      }
    }
  }

  lemma GroupsContinueNothing(x: string)
    ensures Groups(x) <==> Continues(x, 0)
    ensures x != "" ==> Number(x) == Colons(x) + 1
    ensures Groups(x) ==> x != ""
  {
    ContinuesIsGroups(x, 0);
    if Groups(x) {
      assert Group(Split(x, ':')[0]);
    }
    if Continues(x, 0) {
      assert Group(Split(x, ':')[0]);
    }
  }

  /** A text that does not begin with a colon. */
  lemma ScanDecides(y: string, full: nat, open: bool)
    requires y != "" ==> y[0] != ':'
    ensures Scan(y, false, false, 0, 0, full, open) <==> Uncompressed(y, full) || Compressed(y, open)
  {
    ScanBeforePair(y, false, 0, 0, full, open);
    GroupsContinueNothing(y);
    forall k | PairAt(y, k)
      ensures PairAhead(y, k, 0, 0, open) <==> Around(y[..k], y[k + 2..], open)
    {
      GroupsContinueNothing(y[..k]);
      GroupsContinueNothing(y[k + 2..]);
      assert k > 0;
    }
  }

  /** A text that begins with a pair of colons. */
  lemma ScanDecidesAfterPair(y: string, full: nat, open: bool)
    requires PairAt(y, 0)
    ensures Scan(y[2..], true, true, 0, 0, full, open) <==> Uncompressed(y, full) || Compressed(y, open)
  {
    ScanAfterPair(y[2..], true, 0, 0, full, open);
    GroupsContinueNothing(y);
    GroupsContinueNothing(y[2..]);
    assert Around(y[..0], y[0 + 2..], open) <==> EndsWell(y[2..], 0, open);
    forall k | PairAt(y, k) && k != 0 ensures !Around(y[..k], y[k + 2..], open) {
      GroupsContinueNothing(y[..k]);
      assert y[..k][0] == ':';
    }
  }

  /** A text that begins with a single colon. */
  lemma SingleColonFirst(y: string, full: nat, open: bool)
    requires y != "" && y[0] == ':' && !PairAt(y, 0)
    ensures !Uncompressed(y, full) && !Compressed(y, open)
  {
    GroupsContinueNothing(y);
    forall k | PairAt(y, k) ensures !Around(y[..k], y[k + 2..], open) {
      GroupsContinueNothing(y[..k]);
      assert y[..k][0] == ':';
    }
  }

  // ----- the loop -----

  /** What is left to decide at position p of a text whose first dot is at f. */
  predicate Pending(s: string, p: nat, f: nat, pair: bool, just: bool, n: nat, d: nat)
    requires p <= f <= |s|
  {
    Scan(s[p..f], pair, just, n, d, if f < |s| then 7 else 8, f == |s|)
  }

  ghost predicate Decision(s: string) {
    var f := Until(s, ".");
    Awaits(s, f) &&
    (Uncompressed(s[..f], if f < |s| then 7 else 8) || Compressed(s[..f], f == |s|))
  }

  lemma DecisionIs(s: string)
    ensures 2 <= |s| <= 39 ==> (ValidIpv6(s) <==> Decision(s))
  {
    var f := Until(s, ".");
    if f == |s| {
      assert s[..f] == s;
    }
  }

  lemma LastPartIs(y: string, b: nat)
    requires b <= |y| && (forall i :: b <= i < |y| ==> y[i] != ':') && (b > 0 ==> y[b - 1] == ':')
    ensures LastPart(y) == b
  {
    var c := LastPart(y);
    if b > c {
      assert c <= b - 1 < |y|;
    }
  }

  /** A dotted tail must hold an IPv4 address. */
  predicate Awaits(s: string, f: nat)
    requires f <= |s|
  {
    f < |s| ==> Octets(s[LastPart(s[..f])..], 4)
  }

  lemma NoOctetBeforeDot(q: string, k: nat)
    requires q != "" && q[0] == '.'
    ensures !Octets(q, k)
  {
    assert Split(q, '.')[0] == "";
  }

  /** Where the loop stands: at p, with the current part begun at b and no dot seen. `verdict` is what it must
      come to. */
  ghost predicate Standing(verdict: bool, s: string, b: nat, p: nat, pair: bool, just: bool, n: nat, d: nat) {
    var f := Until(s, ".");
    && b <= p <= f && p - b == d <= 4 && (just ==> pair && d == 0)
    && (forall i :: b <= i < p ==> s[i] != ':') && (b > 0 ==> s[b - 1] == ':') && (p == 0 ==> s != "" && s[0] != ':')
    && (b > 1 && d == 0 ==> (just <==> s[b - 2] == ':'))
    && (verdict <==> Awaits(s, f) && Pending(s, p, f, pair, just, n, d))
  }

  /** The two ways to begin: with a pair of colons and without a colon. */
  lemma Begins(s: string)
    requires s != ""
    ensures if s[0] != ':' then Standing(Decision(s), s, 0, 0, false, false, 0, 0)
            else if |s| > 1 && s[1] == ':' then Standing(Decision(s), s, 2, 2, true, true, 0, 0)
            else !Decision(s)
  {
    var f := Until(s, ".");
    var y, full, open := s[..f], if f < |s| then 7 else 8, f == |s|;
    assert s[0..f] == y;
    if s[0] != ':' {
      ScanDecides(y, full, open);
    } else if |s| > 1 && s[1] == ':' {
      assert PairAt(y, 0);
      assert s[2..f] == y[2..];
      ScanDecidesAfterPair(y, full, open);
    } else {
      SingleColonFirst(y, full, open);
    }
  }

  lemma ToTheEnd(s: string, b: nat)
    requires b <= |s|
    ensures s[b..|s|] == s[b..]
  {
  }

  lemma AtDot(verdict: bool, s: string, b: nat, p: nat, pair: bool, just: bool, n: nat, d: nat)
    requires Standing(verdict, s, b, p, pair, just, n, d) && p < |s| && s[p] == '.'
    ensures verdict <==> ((!pair && n == 6) || (pair && n < 7)) && Octets(s[b..|s|], 4)
  {
    LastPartIs(s[..p], b);
    ToTheEnd(s, b);
    if d == 0 {
      NoOctetBeforeDot(s[b..], 4);
    }
  }

  lemma AtColon(verdict: bool, s: string, b: nat, p: nat, pair: bool, just: bool, n: nat, d: nat)
    requires Standing(verdict, s, b, p, pair, just, n, d) && p < |s| && s[p] == ':'
    ensures d == 0 && pair ==> !verdict
    ensures d == 0 && !pair ==> Standing(verdict, s, p + 1, p + 1, true, true, n, 0)
    ensures d > 0 ==> Standing(verdict, s, p + 1, p + 1, pair, false, n + 1, 0)
  {
    var f := Until(s, ".");
    assert s[p..f][1..] == s[p + 1..f];
  }

  lemma AtOther(verdict: bool, s: string, b: nat, p: nat, pair: bool, just: bool, n: nat, d: nat)
    requires Standing(verdict, s, b, p, pair, just, n, d) && p < |s| && s[p] != '.' && s[p] != ':'
    ensures d == 4 || !IsHexDigit(s[p]) ==> !verdict
    ensures d < 4 && IsHexDigit(s[p]) ==> Standing(verdict, s, b, p + 1, pair, false, n, d + 1)
  {
    var f := Until(s, ".");
    assert s[p..f][1..] == s[p + 1..f];
  }

  lemma AtEnd(verdict: bool, s: string, b: nat, p: nat, pair: bool, just: bool, n: nat, d: nat)
    requires Standing(verdict, s, b, p, pair, just, n, d) && p == |s| && p >= 2
    ensures verdict <==> if d > 0 then (!pair && n + 1 == 8) || (pair && n + 1 < 8)
                             else s[|s| - 2] == ':' && n < 8
    ensures d == 0 <==> s[|s| - 1] == ':'
  {
  }

  method IsValidIpv6(s: string) returns (ok: bool)
    ensures ok <==> ValidIpv6(s)
  {
    if |s| > 39 || |s| < 2 {
      return false;
    }
    DecisionIs(s);
    ok := Decide(s);
  }

  /** The loop, for a text of a possible length. */
  method Decide(s: string) returns (ok: bool)
    requires |s| >= 2
    ensures ok <==> Decision(s)
  {
    Begins(s);
    ghost var verdict := Decision(s);
    var nullField, nfields, ndigits := false, 0, 0;
    ghost var just := false;
    var b, p := 0, 0;
    if s[0] == ':' {
      if s[1] != ':' {
        return false;
      }
      nullField, just := true, true;
      p := p + 2;
      b := p;
      if p == |s| {
        AtEnd(verdict, s, b, p, true, true, 0, 0);
        return true;
      }
    }
    while p != |s|
      invariant Standing(verdict, s, b, p, nullField, just, nfields, ndigits)
      decreases |s| - p
    {
      if s[p] == '.' {
        AtDot(verdict, s, b, p, nullField, just, nfields, ndigits);
        if (!nullField && nfields == 6) || (nullField && nfields < 7) {
          ok := IsValidIpv4(s, b, |s|);
          return;
        }
        return false;
      } else if s[p] == ':' {
        AtColon(verdict, s, b, p, nullField, just, nfields, ndigits);
        if ndigits == 0 {
          if nullField {
            return false;
          }
          nullField := true;
          just := true;
        } else {
          nfields := nfields + 1;
          ndigits := 0;
          just := false;
        }
        p := p + 1;
        b := p;
      } else {
        AtOther(verdict, s, b, p, nullField, just, nfields, ndigits);
        ndigits := ndigits + 1;
        if ndigits > 4 || !IsHexDigit(s[p]) {
          return false;
        }
        just := false;
        p := p + 1;
      }
    }
    AtEnd(verdict, s, b, p, nullField, just, nfields, ndigits);
    if ndigits > 0 {
      nfields := nfields + 1;
    } else if s[|s| - 1] == ':' {
      return s[|s| - 2] == ':' && nfields < 8;
    }
    return (!nullField && nfields == 8) || (nullField && nfields < 8);
  }

  // ----- texts without dots -----

  lemma {:induction false} ContinuesShape(x: string, d: nat)
    requires Continues(x, d)
    ensures Colons(x) <= |x| && |x| + d <= 5 * Colons(x) + 4
    ensures x != "" && d == 0 ==> x[0] != ':'
    ensures x != "" ==> x[|x| - 1] != ':'
    ensures forall k :: !PairAt(x, k)
    decreases |x|
  {
    if x != "" {
      ContinuesShape(x[1..], if x[0] == ':' then 0 else d + 1);
      assert |x| > 1 ==> x[|x| - 1] == x[1..][|x| - 2];
      forall k | PairAt(x, k) ensures false {
        assert k > 0 ==> PairAt(x[1..], k - 1);
      }
    }
  }

  /** A list of groups neither begins nor ends with a colon and has no pair of colons. */
  lemma GroupsShape(x: string)
    requires Groups(x)
    ensures x != "" && x[0] != ':' && x[|x| - 1] != ':' && forall k :: !PairAt(x, k)
    ensures Number(x) <= |x| < 5 * Number(x)
  {
    GroupsContinueNothing(x);
    ContinuesShape(x, 0);
    GroupsReachTheirColons(x, 0);
  }

  lemma {:induction false} GroupsReachTheirColons(x: string, d: nat)
    requires Continues(x, d)
    ensures Colons(x) + 1 <= |x| + d
    decreases |x|
  {
    if x != "" {
      GroupsReachTheirColons(x[1..], if x[0] == ':' then 0 else d + 1);
    }
  }

  /** On text without dots the validator accepts exactly the first two forms of section 2.2 of RFC 4291: its
      limits on the length never matter. */
  lemma DotFreeIsRfc4291(s: string)
    requires '.' !in s
    ensures ValidIpv6(s) <==> Ipv6Text(s)
  {
    if Uncompressed(s, 8) {
      GroupsShape(s);
    }
    if k :| PairAt(s, k) && Around(s[..k], s[k + 2..], true) {
      if s[..k] != "" {
        GroupsShape(s[..k]);
      }
      if s[k + 2..] != "" {
        GroupsShape(s[k + 2..]);
      }
    }
  }

  /** The pair of colons is the only one. */
  lemma OnePair(s: string, k: int, j: int)
    requires PairAt(s, k) && Around(s[..k], s[k + 2..], true) && PairAt(s, j)
    ensures j == k
  {
    var l, r := s[..k], s[k + 2..];
    assert j < k ==> l != "" && (j + 1 < k ==> PairAt(l, j)) && (j + 1 == k ==> l[|l| - 1] == ':');
    assert j > k ==> r != "" && (j > k + 1 ==> PairAt(r, j - k - 2)) && (j == k + 1 ==> r[0] == ':');
    if j < k {
      GroupsShape(l);
    } else if j > k {
      GroupsShape(r);
    }
  }

  lemma HexGroup(t: string)
    requires Group(t)
    ensures forall i :: 0 <= i < |t| ==> t[i] != '.' && t[i] != ':'
  {
    assert forall i :: 0 <= i < |t| ==> IsHexDigit(t[i]);
  }

  // ----- texts with an IPv4 address at the end -----

  /** The text up to its first dot, and the dotted address that its last part begins. */
  function Front(s: string): string {
    s[..Until(s, ".")]
  }

  function Dotted(s: string): string {
    s[LastPart(Front(s))..]
  }

  ghost predicate PairStandsFor(y: string, k: int, groups: nat) {
    PairAt(y, k) && Around(y[..k], y[k + 2..], false) && Number(y[..k]) + Number(y[k + 2..]) + groups == 7
  }

  /** Six groups, or fewer with a pair of colons that stands for at least one. The part before the first dot
      counts as a group. */
  ghost predicate RfcFront(y: string) {
    Uncompressed(y, 7) || exists k, groups: nat :: groups >= 1 && PairStandsFor(y, k, groups)
  }

  /** The third form of section 2.2 of RFC 4291, with a dotted address at the end. */
  ghost predicate RfcMixed(s: string) {
    RfcFront(Front(s)) && DottedQuad(Dotted(s))
  }

  /** The pair of colons stands for nothing at all. */
  ghost predicate EmptyPair(y: string) {
    exists k :: PairStandsFor(y, k, 0)
  }

  lemma {:induction false} FrontIs(y: string)
    ensures Uncompressed(y, 7) || Compressed(y, false) <==> RfcFront(y) || EmptyPair(y)
    ensures !(RfcFront(y) && EmptyPair(y))
  {
    forall k, j, n: nat, m: nat | PairStandsFor(y, k, n) && PairStandsFor(y, j, m) ensures k == j && n == m {
      OnePair(y, k, j);
    }
    if k :| PairAt(y, k) && Around(y[..k], y[k + 2..], false) {
      assert PairStandsFor(y, k, 7 - Number(y[..k]) - Number(y[k + 2..]));
    }
    if Uncompressed(y, 7) {
      GroupsShape(y);
    }
  }

  /** Why the validator misjudges a text with dots: an address of more than 39 chars is refused; a pair of
      colons that stands for nothing is accepted; numbers that wrap around are accepted. */
  ghost predicate Misjudged(s: string) {
    var front, dotted := Front(s), Dotted(s);
    if |s| > 39 then RfcFront(front) && DottedQuad(dotted)
    else (EmptyPair(front) && (DottedQuad(dotted) || WrappedQuad(dotted))) || (RfcFront(front) && WrappedQuad(dotted))
  }

  /** On text with dots the validator agrees with section 2.2 of RFC 4291 but for exactly those families. */
  lemma {:induction false} MixedTestIsRight(s: string)
    requires '.' in s
    ensures (ValidIpv6(s) <==> RfcMixed(s)) <==> !Misjudged(s)
  {
    FrontIs(Front(s));
    Ipv4TestIsRight(Dotted(s));
    if DottedQuad(Dotted(s)) || WrappedQuad(Dotted(s)) {
      OctetsAreLong(Dotted(s));
    }
  }

  // ----- an instance of each family -----

  lemma {:induction false} PartsOfFront(y: string, q: string)
    requires '.' !in y && q != "" && q[0] == '.'
    ensures Until(y + q, ".") == |y| && Front(y + q) == y
  {
    UntilIs(y + q, ".", |y|);
  }

  /** The text of a list of groups. */
  lemma {:induction false} GroupsOf(parts: seq<string>)
    requires parts != [] && forall i :: 0 <= i < |parts| ==> Group(parts[i])
    ensures Groups(Join(parts, ":")) && Number(Join(parts, ":")) == |parts| && '.' !in Join(parts, ":")
  {
    forall i | 0 <= i < |parts| ensures ':' !in parts[i] {
      HexGroup(parts[i]);
    }
    SplitJoin(parts, ':');
    JoinHasNoDots(parts);
    JoinSplit(Join(parts, ":"), ':');
    assert Split(Join(parts, ":"), ':')[0] != "";
  }

  lemma {:induction false} JoinHasNoDots(parts: seq<string>)
    requires parts != [] && forall i :: 0 <= i < |parts| ==> Group(parts[i])
    ensures '.' !in Join(parts, ":")
    decreases |parts|
  {
    HexGroup(parts[0]);
    if |parts| > 1 {
      JoinHasNoDots(parts[1..]);
    }
  }

  lemma {:induction false} DottedOf(l: string, w: string, q: string)
    requires '.' !in l && '.' !in w && ':' !in w && q != "" && q[0] == '.' && (l == "" || l[|l| - 1] == ':')
    ensures var s := l + (w + q); '.' in s && Front(s) == l + w && Dotted(s) == w + q
  {
    var s := l + (w + q);
    assert s == (l + w) + q;
    PartsOfFront(l + w, q);
    LastPartIs(l + w, |l|);
    assert s[|l|..] == w + q;
  }

  /** A group, such as the first number of a dotted quad. */
  lemma OctetIsGroup(w: string)
    requires DecOctet(w)
    ensures Group(w) && '.' !in w && ':' !in w
  {
    assert forall i :: 0 <= i < |w| ==> IsNum(w[i]) && IsHexDigit(w[i]);
    HexGroup(w);
  }

  lemma {:induction false} PairBefore(l: string, w: string)
    requires (l == "" || Groups(l)) && Group(w) && Number(l) <= 6
    ensures PairStandsFor(l + "::" + w, |l|, 6 - Number(l))
  {
    var y := l + "::" + w;
    HexGroup(w);
    SplitPlain(w, ':');
    assert y[..|l|] == l && y[|l| + 2..] == w;
  }

  /** A pair of colons, alone or behind groups, and a dotted tail. */
  lemma {:induction false} PairThenDots(l: string, a: string, b: string, c: string, d: string)
    requires (l == "" || (Groups(l) && '.' !in l)) && Number(l) <= 6
    requires DecOctet(a) && AllDigits(b) && AllDigits(c) && AllDigits(d)
    ensures var s := l + "::" + Dots(a, b, c, d);
            && '.' in s && Dotted(s) == Dots(a, b, c, d) && |s| == |l| + 2 + |Dots(a, b, c, d)|
            && PairStandsFor(Front(s), |l|, 6 - Number(l))
  {
    var q := "." + Join([b, c, d], ".");
    OctetIsGroup(a);
    PartsOfDots(a, b, c, d);
    DottedOf(l + "::", a, q);
    PairBefore(l, a);
  }

  /** Six groups, a pair of colons and a dotted quad are accepted: "1:2:3:4:5:6::1.2.3.4" and the like. */
  lemma {:induction false} EmptyPairPasses(l: string, a: string, b: string, c: string, d: string)
    requires Groups(l) && '.' !in l && Number(l) == 6 && |l| + 2 + |Dots(a, b, c, d)| <= 39
    requires DecOctet(a) && DecOctet(b) && DecOctet(c) && DecOctet(d)
    ensures var s := l + "::" + Dots(a, b, c, d); '.' in s && EmptyPair(Front(s)) && ValidIpv6(s) && !RfcMixed(s)
  {
    var s := l + "::" + Dots(a, b, c, d);
    PairThenDots(l, a, b, c, d);
    PartsOfDots(a, b, c, d);
    assert DottedQuad(Dotted(s));
    EmptyPairIsJudgedWrong(s, |l|);
  }

  lemma {:induction false} EmptyPairIsJudgedWrong(s: string, k: int)
    requires '.' in s && |s| <= 39 && PairStandsFor(Front(s), k, 0) && DottedQuad(Dotted(s))
    ensures EmptyPair(Front(s)) && ValidIpv6(s) && !RfcMixed(s)
  {
    FrontIs(Front(s));
    MixedTestIsRight(s);
  }

  /** "1:2:3:4:5:6::1.2.3.4" */
  lemma EmptyPairInstance()
    ensures var s := Join(["1", "2", "3", "4", "5", "6"], ":") + "::" + Dots("1", "2", "3", "4");
            ValidIpv6(s) && !RfcMixed(s)
  {
    var parts := ["1", "2", "3", "4", "5", "6"];
    GroupsOf(parts);
    ShortJoin(parts, 1);
    PartsOfDots("1", "2", "3", "4");
    EmptyPairPasses(Join(parts, ":"), "1", "2", "3", "4");
  }

  lemma {:induction false} ShortJoin(parts: seq<string>, n: nat)
    requires parts != [] && forall i :: 0 <= i < |parts| ==> |parts[i]| == n
    ensures |Join(parts, ":")| == |parts| * (n + 1) - 1
    decreases |parts|
  {
    if |parts| > 1 {
      ShortJoin(parts[1..], n);
    }
  }

  /** A number that has wrapped around is accepted behind a pair of colons. */
  lemma {:induction false} WrappedPasses(l: string, a: string, b: string)
    requires (l == "" || (Groups(l) && '.' !in l)) && Number(l) <= 5
    requires DecOctet(a) && WrappedOctet(b) && Decimal(b) >= WRAP && |l| + 2 + |Dots(a, b, a, a)| <= 39
    ensures var s := l + "::" + Dots(a, b, a, a); ValidIpv6(s) && !RfcMixed(s)
  {
    DecOctetIsSmall(a);
    WrappedNumberPasses(a, b);
    PairThenDots(l, a, b, a, a);
    WrappedIsJudgedWrong(l + "::" + Dots(a, b, a, a), |l|, 6 - Number(l));
  }

  lemma {:induction false} WrappedIsJudgedWrong(s: string, k: int, groups: nat)
    requires '.' in s && |s| <= 39 && PairStandsFor(Front(s), k, groups) && groups >= 1 && WrappedQuad(Dotted(s))
    ensures ValidIpv6(s) && !RfcMixed(s)
  {
    FrontIs(Front(s));
    Ipv4TestIsRight(Dotted(s));
    MixedTestIsRight(s);
  }

  /** "::1.4294967296.1.1" */
  lemma WrappedInstance()
    ensures var s := "::" + Dots("1", "4294967296", "1", "1"); ValidIpv6(s) && !RfcMixed(s)
  {
    var a, b := "1", "4294967296";
    WrappedPort();
    DecOctetIsSmall(a);
    PartsOfDots(a, b, a, a);
    WrappedPasses("", a, b);
    assert "" + "::" == "::";
  }

  lemma {:induction false} SevenGroups(l: string, w: string)
    requires Groups(l) && Number(l) == 6 && Group(w)
    ensures Uncompressed(l + ":" + w, 7)
  {
    HexGroup(w);
    SplitPlain(w, ':');
    SplitAround(l, ':', w);
  }

  /** An address of section 2.2 of RFC 4291 with six groups and a dotted quad is refused when it is longer than
      39 chars. */
  lemma {:induction false} LongIsRefused(l: string, a: string, b: string, c: string, d: string)
    requires Groups(l) && '.' !in l && Number(l) == 6 && |l| + 1 + |Dots(a, b, c, d)| > 39
    requires DecOctet(a) && DecOctet(b) && DecOctet(c) && DecOctet(d)
    ensures var s := l + ":" + Dots(a, b, c, d);
            |s| == |l| + 4 + |a| + |b| + |c| + |d| && RfcMixed(s) && !ValidIpv6(s)
  {
    var s, q := l + ":" + Dots(a, b, c, d), "." + Join([b, c, d], ".");
    OctetIsGroup(a);
    PartsOfDots(a, b, c, d);
    assert s == l + ":" + (a + q);
    DottedOf(l + ":", a, q);
    SevenGroups(l, a);
    RefusedIfLong(s);
  }

  lemma {:induction false} RefusedIfLong(s: string)
    requires '.' in s && |s| > 39 && Uncompressed(Front(s), 7) && DottedQuad(Dotted(s))
    ensures RfcMixed(s) && !ValidIpv6(s)
  {
    MixedTestIsRight(s);
  }

  /** Six groups of four digits and the longest dotted quad, 45 chars in all. */
  lemma LongInstance()
    ensures var l, q := Join(["ffff", "ffff", "ffff", "ffff", "ffff", "ffff"], ":"), Dots("255", "255", "255", "255");
            var s := l + ":" + q;
            |s| == 45 && RfcMixed(s) && !ValidIpv6(s)
  {
    var parts := ["ffff", "ffff", "ffff", "ffff", "ffff", "ffff"];
    GroupsOf(parts);
    ShortJoin(parts, 4);
    var a := "255";
    OctetIsGroup(a);
    PartsOfDots(a, a, a, a);
    LongIsRefused(Join(parts, ":"), a, a, a, a);
  }
}
