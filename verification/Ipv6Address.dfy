/** What a text of an IPv6 address stands for, and the text that section 4 of RFC 5952 recommends for it. */
module Ipv6Address {
  import opened Text
  import opened UrlChars
  import opened UrlIpv6

  // ----- the value of a text -----

  predicate AllHex(t: string) {
    forall i :: 0 <= i < |t| ==> IsHexDigit(t[i])
  }

  function HexValue(t: string): nat
    requires AllHex(t)
  {
    if t == "" then 0 else 16 * HexValue(t[..|t| - 1]) + GetHexDigit(t[|t| - 1])
  }

  predicate AllGroups(parts: seq<string>) {
    forall i :: 0 <= i < |parts| ==> Group(parts[i])
  }

  function Values(parts: seq<string>): (f: seq<nat>)
    requires AllGroups(parts)
    ensures |f| == |parts| && forall i :: 0 <= i < |parts| ==> f[i] == HexValue(parts[i])
  {
    seq(|parts|, i requires 0 <= i < |parts| => HexValue(parts[i]))
  }

  /** The groups of a side of the pair of colons, which may be empty. */
  function Parts(x: string): seq<string> {
    if x == "" then [] else Split(x, ':')
  }

  function Zeros(n: nat): (f: seq<nat>)
    ensures |f| == n && forall i :: 0 <= i < n ==> f[i] == 0
  {
    seq(n, i => 0)
  }

  /** The eight fields of two lists of groups with a pair of colons between them. */
  function Filled(l: seq<string>, r: seq<string>): (f: seq<nat>)
    requires AllGroups(l) && AllGroups(r) && |l| + |r| <= 8
    ensures |f| == 8
  {
    Values(l) + Zeros(8 - |l| - |r|) + Values(r)
  }

  ghost function Value(s: string): (f: seq<nat>)
    requires Ipv6Text(s)
    ensures |f| == 8
  {
    if k :| PairAt(s, k) && Around(s[..k], s[k + 2..], true) then Filled(Parts(s[..k]), Parts(s[k + 2..]))
    else Values(Parts(s))
  }

  lemma ValueAround(s: string, k: int)
    requires PairAt(s, k) && Around(s[..k], s[k + 2..], true)
    ensures Ipv6Text(s) && Value(s) == Filled(Parts(s[..k]), Parts(s[k + 2..]))
  {
    assert Compressed(s, true);
    forall j | PairAt(s, j) ensures j == k {
      OnePair(s, k, j);
    }
  }

  lemma ValueUncompressed(s: string)
    requires Uncompressed(s, 8)
    ensures Ipv6Text(s) && Value(s) == Values(Parts(s)) && forall k :: !PairAt(s, k)
  {
    GroupsShape(s);
  }

  predicate Address(f: seq<nat>) {
    |f| == 8 && forall i :: 0 <= i < 8 ==> f[i] < 0x10000
  }

  function Pow16(n: nat): nat {
    if n == 0 then 1 else 16 * Pow16(n - 1)
  }

  lemma {:induction false} HexBelow(t: string)
    requires AllHex(t)
    ensures HexValue(t) < Pow16(|t|)
    decreases |t|
  {
    if t != "" {
      HexBelow(t[..|t| - 1]);
    }
  }

  lemma GroupValue(t: string)
    requires Group(t)
    ensures HexValue(t) < 0x10000
  {
    HexBelow(t);
    assert Pow16(2) == 0x100 && Pow16(4) == 0x100 * Pow16(2);
    assert |t| == 1 || |t| == 2 || |t| == 3 || |t| == 4;
  }

  lemma ValueIsAddress(s: string)
    requires Ipv6Text(s)
    ensures Address(Value(s))
  {
    if k :| PairAt(s, k) && Around(s[..k], s[k + 2..], true) {
      ValueAround(s, k);
      FilledIsAddress(Parts(s[..k]), Parts(s[k + 2..]));
    } else {
      GroupValues(Parts(s));
    }
  }

  lemma FilledIsAddress(l: seq<string>, r: seq<string>)
    requires AllGroups(l) && AllGroups(r) && |l| + |r| <= 8
    ensures Address(Filled(l, r))
  {
    GroupValues(l);
    GroupValues(r);
  }

  lemma GroupValues(parts: seq<string>)
    requires AllGroups(parts)
    ensures forall i :: 0 <= i < |parts| ==> Values(parts)[i] < 0x10000
  {
    forall i | 0 <= i < |parts| ensures Values(parts)[i] < 0x10000 {
      GroupValue(parts[i]);
    }
  }

  // ----- the hexadecimal text of a field -----

  function LowerHexDigit(n: nat): char
    requires n < 16
  {
    if n < 10 then ('0' as int + n) as char else ('a' as int + n - 10) as char
  }

  function HexText(n: nat): (t: string)
    ensures t != ""
  {
    if n < 16 then [LowerHexDigit(n)] else HexText(n / 16) + [LowerHexDigit(n % 16)]
  }

  predicate LowerHex(t: string) {
    forall i :: 0 <= i < |t| ==> IsHexDigit(t[i]) && LowerChar(t[i]) == t[i]
  }

  /** A lower-case numeral without leading zeros. */
  predicate ShortHex(t: string) {
    t != "" && LowerHex(t) && (t[0] == '0' ==> |t| == 1)
  }

  lemma {:induction false} HexTextValue(n: nat)
    ensures ShortHex(HexText(n)) && AllHex(HexText(n)) && HexValue(HexText(n)) == n
    ensures HexText(n)[0] == '0' <==> n == 0
  {
    var t := HexText(n);
    if n < 16 {
      assert t[..0] == "";
    } else {
      HexTextValue(n / 16);
      assert t[..|t| - 1] == HexText(n / 16);
    }
  }

  lemma {:induction false} HexTextOfValue(t: string)
    requires ShortHex(t) && AllHex(t)
    ensures HexText(HexValue(t)) == t
    ensures t[0] != '0' ==> HexValue(t) > 0
    decreases |t|
  {
    var init, last := t[..|t| - 1], t[|t| - 1];
    assert t == init + [last];
    assert LowerHexDigit(GetHexDigit(last)) == last;
    if init == "" {
      assert HexValue(t) == GetHexDigit(last);
    } else {
      HexTextOfValue(init);
      assert HexValue(t) / 16 == HexValue(init) && HexValue(t) % 16 == GetHexDigit(last);
    }
  }

  lemma FieldIsGroup(n: nat)
    requires n < 0x10000
    ensures Group(HexText(n)) && ':' !in HexText(n)
  {
    HexTextValue(n);
    var a := n / 16;
    assert a < 0x1000 && a / 16 < 0x100 && a / 16 / 16 < 16;
    if n >= 16 {
      assert |HexText(n)| == |HexText(a)| + 1;
      if a >= 16 {
        assert |HexText(a)| == |HexText(a / 16)| + 1;
      }
    }
  }

  function Texts(f: seq<nat>): (parts: seq<string>)
    ensures |parts| == |f| && forall i :: 0 <= i < |f| ==> parts[i] == HexText(f[i])
  {
    seq(|f|, i requires 0 <= i < |f| => HexText(f[i]))
  }

  function JoinHex(f: seq<nat>): string {
    Join(Texts(f), ":")
  }

  /** The joined texts of fields are a list of groups with those values. */
  lemma JoinedFields(f: seq<nat>)
    requires forall i :: 0 <= i < |f| ==> f[i] < 0x10000
    ensures f == [] <==> JoinHex(f) == ""
    ensures Parts(JoinHex(f)) == Texts(f) && Number(JoinHex(f)) == |f|
    ensures AllGroups(Texts(f)) && Values(Texts(f)) == f
    ensures f != [] ==> Groups(JoinHex(f))
  {
    forall i | 0 <= i < |f| ensures Group(HexText(f[i])) && ':' !in HexText(f[i]) && HexValue(HexText(f[i])) == f[i] {
      FieldIsGroup(f[i]);
      HexTextValue(f[i]);
    }
    if f != [] {
      SplitJoin(Texts(f), ':');
      JoinSplit(JoinHex(f), ':');
      assert Split(JoinHex(f), ':')[0] != "";
    }
  }

  // ----- the recommended text -----

  /** The number of zero fields in a row from i on. */
  function RunFrom(f: seq<nat>, i: nat): (n: nat)
    requires i <= |f|
    ensures i + n <= |f| && (forall j :: i <= j < i + n ==> f[j] == 0) && (i + n < |f| ==> f[i + n] != 0)
    decreases |f| - i
  {
    if i == |f| || f[i] != 0 then 0 else 1 + RunFrom(f, i + 1)
  }

  /** Where the longest run of zero fields begins, the first of several; the end when there is none. */
  function LongestRun(f: seq<nat>, i: nat): (b: nat)
    requires i <= |f|
    ensures i <= b <= |f|
    ensures forall j :: i <= j <= |f| ==> RunFrom(f, j) <= RunFrom(f, b)
    ensures forall j :: i <= j < b ==> RunFrom(f, j) < RunFrom(f, b) || (b == |f| && RunFrom(f, j) == 0)
    decreases |f| - i
  {
    if i == |f| then i
    else
      var b := LongestRun(f, i + 1);
      if RunFrom(f, i) > 0 && RunFrom(f, i) >= RunFrom(f, b) then i else b
  }

  /** The text with the first longest run of at least two zero fields elided. */
  function Canon(f: seq<nat>): string {
    var b := LongestRun(f, 0);
    var n := RunFrom(f, b);
    if n < 2 then JoinHex(f) else JoinHex(f[..b]) + "::" + JoinHex(f[b + n..])
  }

  /** The recommended text is accepted and stands for the address. */
  lemma {:induction false} CanonStandsFor(f: seq<nat>)
    requires Address(f)
    ensures Ipv6Text(Canon(f)) && Value(Canon(f)) == f
  {
    var b := LongestRun(f, 0);
    var n := RunFrom(f, b);
    if n < 2 {
      JoinedFields(f);
      ValueUncompressed(Canon(f));
    } else {
      FieldsAroundRun(f, b);
      ElidedStandsFor(f[..b], f[b + n..]);
    }
  }

  lemma FieldsAroundRun(f: seq<nat>, b: nat)
    requires b <= |f|
    ensures f[..b] + Zeros(RunFrom(f, b)) + f[b + RunFrom(f, b)..] == f
  {
  }

  lemma ElidedStandsFor(l: seq<nat>, r: seq<nat>)
    requires (forall i :: 0 <= i < |l| ==> l[i] < 0x10000) && (forall i :: 0 <= i < |r| ==> r[i] < 0x10000)
    requires |l| + |r| <= 7
    ensures var t := JoinHex(l) + "::" + JoinHex(r);
            Ipv6Text(t) && Value(t) == l + Zeros(8 - |l| - |r|) + r
  {
    JoinedFields(l);
    JoinedFields(r);
    SidesStandFor(JoinHex(l), JoinHex(r));
  }

  lemma SidesStandFor(l: string, r: string)
    requires Around(l, r, true)
    ensures Ipv6Text(l + "::" + r) && Value(l + "::" + r) == Filled(Parts(l), Parts(r))
  {
    CutAround(l, r);
    ValueAround(l + "::" + r, |l|);
  }

  lemma CutAround(l: string, r: string)
    ensures var t := l + "::" + r; PairAt(t, |l|) && t[..|l|] == l && t[|l| + 2..] == r
  {
  }

  /** The recommendations of section 4 of RFC 5952, for a text without dots: no leading zeros (4.1), a pair of
      colons that elides all of the first longest run of zero fields, but not a single one (4.2), and lower
      case (4.3). */
  ghost predicate Recommended(t: string) {
    && Ipv6Text(t)
    && (forall k :: PairAt(t, k) ==> PairElides(t, k))
    && ((forall k :: !PairAt(t, k)) ==> ShortHexParts(Parts(t)) && RunFrom(Value(t), LongestRun(Value(t), 0)) < 2)
  }

  predicate ShortHexParts(parts: seq<string>) {
    forall i :: 0 <= i < |parts| ==> ShortHex(parts[i])
  }

  ghost predicate PairElides(t: string, k: int)
    requires Ipv6Text(t) && PairAt(t, k)
  {
    var l, r, f := Parts(t[..k]), Parts(t[k + 2..]), Value(t);
    && ShortHexParts(l) && ShortHexParts(r)
    && |l| == LongestRun(f, 0)
    && |l| + |r| + RunFrom(f, |l|) == 8
    && RunFrom(f, |l|) >= 2
  }

  /** Those recommendations leave exactly one text for each address. */
  lemma RecommendedIsCanon(t: string)
    requires Recommended(t)
    ensures t == Canon(Value(t))
  {
    if k :| PairAt(t, k) && Around(t[..k], t[k + 2..], true) {
      RecommendedPair(t, k);
    } else {
      ValueUncompressed(t);
      TextsOfValues(t);
    }
  }

  lemma RecommendedPair(t: string, k: int)
    requires Ipv6Text(t) && PairAt(t, k) && Around(t[..k], t[k + 2..], true) && PairElides(t, k)
    ensures t == Canon(Value(t))
  {
    ValueAround(t, k);
    ElidedIsCanon(t[..k], t[k + 2..], Value(t));
    PairRejoins(t, k);
  }

  lemma PairRejoins(t: string, k: int)
    requires PairAt(t, k)
    ensures t == t[..k] + "::" + t[k + 2..]
  {
  }

  lemma ElidedIsCanon(x: string, y: string, f: seq<nat>)
    requires AllGroups(Parts(x)) && AllGroups(Parts(y)) && |Parts(x)| + |Parts(y)| <= 7
    requires f == Filled(Parts(x), Parts(y)) && ShortHexParts(Parts(x)) && ShortHexParts(Parts(y))
    requires |Parts(x)| == LongestRun(f, 0) && |Parts(x)| + |Parts(y)| + RunFrom(f, |Parts(x)|) == 8
    requires RunFrom(f, |Parts(x)|) >= 2
    ensures Canon(f) == x + "::" + y
  {
    var l, r := Parts(x), Parts(y);
    FilledEnds(Values(l), Zeros(8 - |l| - |r|), Values(r));
    TextsOfValues(x);
    TextsOfValues(y);
  }

  lemma FilledEnds(l: seq<nat>, z: seq<nat>, r: seq<nat>)
    ensures var f := l + z + r; f[..|l|] == l && f[|l| + |z|..] == r
  {
  }

  lemma TextsOfValues(x: string)
    requires AllGroups(Parts(x)) && ShortHexParts(Parts(x))
    ensures JoinHex(Values(Parts(x))) == x
  {
    var parts := Parts(x);
    forall i | 0 <= i < |parts| ensures HexText(HexValue(parts[i])) == parts[i] {
      HexTextOfValue(parts[i]);
    }
    assert Texts(Values(parts)) == parts;
    JoinSplit(x, ':');
  }

  lemma CanonIsRecommended(f: seq<nat>)
    requires Address(f)
    ensures Recommended(Canon(f))
  {
    if RunFrom(f, LongestRun(f, 0)) < 2 {
      UncompressedIsRecommended(f);
    } else {
      ElidedIsRecommended(f);
    }
  }

  lemma UncompressedIsRecommended(f: seq<nat>)
    requires Address(f) && RunFrom(f, LongestRun(f, 0)) < 2
    ensures Recommended(Canon(f))
  {
    JoinedFields(f);
    ValueUncompressed(JoinHex(f));
    ShortTexts(f);
  }

  lemma {:induction false} ElidedIsRecommended(f: seq<nat>)
    requires Address(f) && RunFrom(f, LongestRun(f, 0)) >= 2
    ensures Recommended(Canon(f))
  {
    var b := LongestRun(f, 0);
    CanonStandsFor(f);
    RunIsElided(f);
    PairIsRecommended(Canon(f), f, f[..b], f[b + RunFrom(f, b)..]);
  }

  /** The fields around the first longest run. */
  predicate Elides(f: seq<nat>, l: seq<nat>, r: seq<nat>) {
    && |f| == 8 && |l| == LongestRun(f, 0) && |l| + |r| + RunFrom(f, |l|) == 8 && RunFrom(f, |l|) >= 2
    && (forall i :: 0 <= i < |l| ==> l[i] < 0x10000) && (forall i :: 0 <= i < |r| ==> r[i] < 0x10000)
  }

  lemma RunIsElided(f: seq<nat>)
    requires Address(f) && RunFrom(f, LongestRun(f, 0)) >= 2
    ensures var b := LongestRun(f, 0); Elides(f, f[..b], f[b + RunFrom(f, b)..])
  {
  }

  lemma {:induction false} PairIsRecommended(t: string, f: seq<nat>, l: seq<nat>, r: seq<nat>)
    requires Ipv6Text(t) && Value(t) == f && t == JoinHex(l) + "::" + JoinHex(r)
    requires Elides(f, l, r)
    ensures Recommended(t)
  {
    JoinedFields(l);
    JoinedFields(r);
    ShortTexts(l);
    ShortTexts(r);
    CutAround(JoinHex(l), JoinHex(r));
    forall k | PairAt(t, k) ensures PairElides(t, k) {
      OnePair(t, |JoinHex(l)|, k);
    }
  }

  lemma ShortTexts(f: seq<nat>)
    ensures ShortHexParts(Texts(f))
  {
    forall i | 0 <= i < |f| ensures ShortHex(HexText(f[i])) {
      HexTextValue(f[i]);
    }
  }
}
