/** The normaliser of IPv6 addresses: its arrays of tokens and fields, stage by stage, for texts without dots. */
module Ipv6Normal {
  import opened Results
  import opened Text
  import opened UrlChars
  import opened UrlIpv6
  import opened Ipv6Address

  // ----- tokens -----

  /** One more char at the end: a separator opens a new part, any other char belongs to the last. */
  function Append(parts: seq<string>, c: char, sep: char): seq<string>
    requires parts != []
  {
    if c == sep then parts + [""] else parts[..|parts| - 1] + [parts[|parts| - 1] + [c]]
  }

  lemma {:induction false} SplitSnoc(x: string, c: char, sep: char)
    ensures Split(x + [c], sep) == Append(Split(x, sep), c, sep)
    decreases |x|
  {
    if x != "" {
      SplitSnoc(x[1..], c, sep);
      assert (x + [c])[1..] == x[1..] + [c];
      PrependAppend(x[0], Split(x[1..], sep), c, sep);
    } else {
      assert x + [c] == [c] && [c][1..] == "" && [c] + "" == [c];
      assert [""][1..] == [] && [""][..0] == [];
    }
  }

  lemma PrependAppend(x: char, parts: seq<string>, c: char, sep: char)
    requires parts != []
    ensures Prepend(x, sep, Append(parts, c, sep)) == Append(Prepend(x, sep, parts), c, sep)
  {
    if x != sep && |parts| == 1 {
      assert [x] + (parts[0] + [c]) == ([x] + parts[0]) + [c];
    }
  }

  lemma {:induction false} FewerParts(x: string, n: nat, sep: char)
    requires n <= |x|
    ensures |Split(x[..n], sep)| <= |Split(x, sep)|
    decreases n
  {
    if n > 0 {
      FewerParts(x[1..], n - 1, sep);
      assert x[..n][1..] == x[1..][..n - 1];
    }
  }

  /** The token array points to a part. */
  predicate Points(s: string, ts: seq<nat>, part: string, j: nat) {
    j < |ts| && ts[j] + |part| <= |s| && s[ts[j]..ts[j] + |part|] == part
  }

  /** The next token begins after the colon that ends this part. */
  predicate ColonThen(s: string, ts: seq<nat>, part: string, j: nat, next: nat) {
    j < |ts| && ts[j] + |part| < |s| && s[ts[j] + |part|] == ':' && next == ts[j] + |part| + 1
  }

  predicate Tokenized(s: string, ts: seq<nat>, parts: seq<string>, n: nat, next: nat) {
    && n <= |parts| && n <= |ts|
    && (forall j :: 0 <= j < n ==> Points(s, ts, parts[j], j))
    && (forall j :: 0 <= j < n ==> ColonThen(s, ts, parts[j], j, if j + 1 < n then ts[j + 1] else next))
  }

  /** All the tokens, closed by the end of the text. */
  predicate AllTokens(s: string, ts: seq<nat>, parts: seq<string>) {
    var n := |parts|;
    && 0 < n < |ts|
    && Tokenized(s, ts, parts, n - 1, ts[n - 1])
    && Points(s, ts, parts[n - 1], n - 1)
    && ts[n] == ts[n - 1] + |parts[n - 1]|
  }

  /** One more char makes one part more or the last one longer. */
  lemma NextChar(s: string, start: nat, p: nat, e: nat)
    requires start <= p < e <= |s|
    ensures var parts, more := Split(s[start..p], ':'), Split(s[start..p + 1], ':');
            && more == Append(parts, s[p], ':')
            && |more| <= |Split(s[start..e], ':')|
  {
    assert s[start..p + 1] == s[start..p] + [s[p]];
    SplitSnoc(s[start..p], s[p], ':');
    assert s[start..e][..p + 1 - start] == s[start..p + 1];
    FewerParts(s[start..e], p + 1 - start, ':');
  }

  /** Where the loop stands: i tokens are stored and the current one runs from b to p. */
  ghost predicate Cut(s: string, ts: seq<nat>, parts: seq<string>, i: nat, b: nat, p: nat) {
    b <= p <= |s| && |parts| == i + 1 && parts[i] == s[b..p] && Tokenized(s, ts, parts, i, b)
  }

  method SplitTokens(s: string, start: nat, e: nat, tokens: array<nat>) returns (ntokens: nat)
    requires start <= e <= |s| && tokens.Length == 10
    requires |Split(s[start..e], ':')| <= 8
    modifies tokens
    ensures ntokens == |Split(s[start..e], ':')|
    ensures AllTokens(s, tokens[..], Split(s[start..e], ':'))
  {
    var p: nat, b: nat, i: nat := start, start, 0;
    ghost var parts := Split(s[start..p], ':');
    while p != e
      invariant start <= p <= e && i < 8 && parts == Split(s[start..p], ':')
      invariant Cut(s, tokens[..], parts, i, b, p)
      decreases e - p
    {
      NextChar(s, start, p, e);
      ghost var more := Split(s[start..p + 1], ':');
      p := p + 1;
      if s[p - 1] == ':' {
        OneMoreToken(s, tokens[..], tokens[..][i := b], parts, more, i, b, p - 1);
        tokens[i] := b;
        i := i + 1;
        b := p;
      } else {
        LongerToken(s, tokens[..], parts, more, i, b, p - 1);
      }
      parts := more;
    }
    LastToken(s, tokens[..], parts, i, b, p);
    if i < 8 {
      tokens[i] := b;
      i := i + 1;
    }
    tokens[i] := p;
    return i;
  }

  lemma LongerToken(s: string, ts: seq<nat>, parts: seq<string>, more: seq<string>, i: nat, b: nat, p: nat)
    requires Cut(s, ts, parts, i, b, p) && p < |s| && more == parts[..i] + [parts[i] + [s[p]]]
    ensures Cut(s, ts, more, i, b, p + 1)
  {
    assert s[b..p + 1] == s[b..p] + [s[p]];
    assert forall j :: 0 <= j < i ==> more[j] == parts[j];
  }

  lemma LastToken(s: string, ts: seq<nat>, parts: seq<string>, i: nat, b: nat, p: nat)
    requires Cut(s, ts, parts, i, b, p) && i + 1 < |ts|
    ensures AllTokens(s, ts[i := b][i + 1 := p], parts)
  {
    var after := ts[i := b][i + 1 := p];
    forall j | 0 <= j < i
      ensures Points(s, after, parts[j], j)
      ensures ColonThen(s, after, parts[j], j, if j + 1 < i then after[j + 1] else b)
    {
      assert Points(s, ts, parts[j], j);
      assert ColonThen(s, ts, parts[j], j, if j + 1 < i then ts[j + 1] else b);
    }
  }

  lemma OneMoreToken(s: string, before: seq<nat>, after: seq<nat>, parts: seq<string>, more: seq<string>,
                     i: nat, b: nat, p: nat)
    requires Cut(s, before, parts, i, b, p) && i < |before| && p < |s| && s[p] == ':'
    requires after == before[i := b] && more == parts + [""]
    ensures Cut(s, after, more, i + 1, p + 1, p + 1)
  {
    forall j | 0 <= j < i + 1
      ensures Points(s, after, more[j], j)
      ensures ColonThen(s, after, more[j], j, if j < i then after[j + 1] else p + 1)
    {
      if j < i {
        assert Points(s, before, parts[j], j);
        assert ColonThen(s, before, parts[j], j, if j + 1 < i then before[j + 1] else b);
      }
    }
  }

  /** Where a token ends: at the next one, or at the colon before it. */
  lemma TokenEnds(s: string, ts: seq<nat>, parts: seq<string>, i: nat)
    requires AllTokens(s, ts, parts) && i < |parts|
    ensures Points(s, ts, parts[i], i)
    ensures var end := ts[i] + |parts[i]|;
            ts[i + 1] == end || (ts[i + 1] == end + 1 && end < |s| && s[end] == ':')
  {
    var n := |parts| - 1;
    if i < n {
      assert Points(s, ts, parts[i], i);
      assert ColonThen(s, ts, parts[i], i, if i + 1 < n then ts[i + 1] else ts[n]);
    }
  }

  // ----- fields -----

  /** The index of the first empty part, or the number of parts. */
  function Hole(parts: seq<string>): (m: nat)
    ensures m <= |parts| && (m < |parts| ==> parts[m] == "") && forall i :: 0 <= i < m ==> parts[i] != ""
  {
    HoleFrom(parts, 0)
  }

  function HoleFrom(parts: seq<string>, i: nat): (m: nat)
    requires i <= |parts|
    ensures i <= m <= |parts| && (m < |parts| ==> parts[m] == "") && forall j :: i <= j < m ==> parts[j] != ""
    decreases |parts| - i
  {
    if i == |parts| || parts[i] == "" then i else HoleFrom(parts, i + 1)
  }

  /** All parts but the one at the hole are groups. */
  predicate Holed(parts: seq<string>) {
    forall i :: 0 <= i < |parts| && i != Hole(parts) ==> Group(parts[i])
  }

  function Kept(parts: seq<string>): (groups: seq<string>)
    requires Holed(parts)
    ensures AllGroups(groups)
  {
    var m := Hole(parts);
    if m == |parts| then parts else parts[..m] + parts[m + 1..]
  }

  lemma HexStep(part: string, k: nat)
    requires Group(part) && k < |part|
    ensures Group(part[..k + 1])
    ensures HexValue(part[..k + 1]) == 16 * HexValue(part[..k]) + GetHexDigit(part[k]) < 0x10000
  {
    GroupValue(part[..k + 1]);
    assert part[..k + 1][..k] == part[..k];
  }

  /** The part seen through the text. */
  lemma CharsOf(s: string, b: nat, part: string)
    requires b + |part| <= |s| && s[b..b + |part|] == part && Group(part)
    ensures forall p :: b <= p < b + |part| ==> s[p] == part[p - b] && IsHexDigit(s[p]) && s[p] != ':'
  {
    HexGroup(part);
    forall p | b <= p < b + |part| ensures s[p] == part[p - b] && IsHexDigit(part[p - b]) {
      assert s[b..b + |part|][p - b] == s[p];
    }
  }

  method ReadField(s: string, b: nat, stop: nat, ghost part: string) returns (field: nat)
    requires Reads(s, b, stop, part)
    ensures field == HexValue(part)
  {
    CharsOf(s, b, part);
    HexStep(part, 0);
    var p := b;
    field := GetHexDigit(s[p]);
    p := p + 1;
    while p != stop && s[p] != ':'
      invariant b < p <= b + |part|
      invariant field == HexValue(part[..p - b])
      decreases b + |part| - p
    {
      HexStep(part, p - b);
      field := (field * 16 + GetHexDigit(s[p])) % 0x10000;
      p := p + 1;
    }
    assert part[..|part|] == part;
  }

  predicate Reads(s: string, b: nat, stop: nat, part: string) {
    && b + |part| <= |s| && s[b..b + |part|] == part && Group(part)
    && (stop == b + |part| || (stop == b + |part| + 1 && stop <= |s| && s[stop - 1] == ':'))
  }

  /** The test for an empty token is right. */
  lemma TokenKind(s: string, b: nat, stop: nat, part: string)
    requires b + |part| <= |s| && s[b..b + |part|] == part && (part == "" || Group(part))
    requires stop == b + |part| || (stop == b + |part| + 1 && b + |part| < |s| && s[b + |part|] == ':')
    ensures b < |s| || b == stop
    ensures if b == stop || s[b] == ':' then part == "" else Reads(s, b, stop, part)
  {
    if part != "" {
      CharsOf(s, b, part);
    }
  }

  /** The first n fields hold the values of the groups among the first i parts. */
  predicate Holds(f: seq<nat>, parts: seq<string>, i: nat, n: nat)
    requires Holed(parts) && i <= |parts|
  {
    var m := Hole(parts);
    && n == (if m < i then i - 1 else i) && n <= |f|
    && forall j :: 0 <= j < n ==> f[j] == HexValue(parts[if j < m then j else j + 1])
  }

  lemma {:induction false} HoldsNext(f: seq<nat>, parts: seq<string>, i: nat, n: nat)
    requires Holed(parts) && i < |parts| && Holds(f, parts, i, n) && |parts| <= |f|
    ensures if i == Hole(parts) then Holds(f, parts, i + 1, n)
            else n < |f| && Holds(f[n := HexValue(parts[i])], parts, i + 1, n + 1)
  {
  }

  lemma {:induction false} HoldsAll(f: seq<nat>, parts: seq<string>, n: nat)
    requires Holed(parts) && Holds(f, parts, |parts|, n)
    ensures n == |Kept(parts)| && f[..n] == Values(Kept(parts))
  {
  }

  method DecodeFields(s: string, tokens: array<nat>, ntokens: nat, fields: array<nat>, ghost parts: seq<string>)
    returns (nfields: nat, nullPos: nat)
    requires AllTokens(s, tokens[..], parts) && ntokens == |parts| <= 8 && Holed(parts)
    requires fields.Length == 8 && fields != tokens
    modifies fields
    ensures nfields == |Kept(parts)| <= 8
    ensures fields[..nfields] == Values(Kept(parts))
    ensures nullPos == if Hole(parts) < |parts| then Hole(parts) else 8
  {
    nullPos, nfields := 8, 0;
    ghost var m, ts := Hole(parts), tokens[..];
    for i := 0 to ntokens
      invariant tokens[..] == ts
      invariant nullPos == if m < i then m else 8
      invariant Holds(fields[..], parts, i, nfields)
    {
      TokenEnds(s, ts, parts, i);
      var p, stop := tokens[i], tokens[i + 1];
      TokenKind(s, p, stop, parts[i]);
      HoldsNext(fields[..], parts, i, nfields);
      if p == stop || s[p] == ':' {
        nullPos := i;
      } else {
        var field := ReadField(s, p, stop, parts[i]);
        fields[nfields] := field;
        nfields := nfields + 1;
      }
    }
    HoldsAll(fields[..], parts, nfields);
  }

  // ----- filling the hole -----

  /** Moves the fields behind the hole to the end and fills the gap with zeros. Each do loop of the source is
      entered only when its condition already holds. */
  method Spread(fields: array<nat>, count: nat, nullPos: nat)
    requires fields.Length == 8 && (count < 8 ==> nullPos <= count) && count <= 8
    modifies fields
    ensures fields[..] == if count < 8 then old(fields[..nullPos]) + Zeros(8 - count) + old(fields[nullPos..count])
                          else old(fields[..])
  {
    ghost var f := fields[..];
    var i := count;
    if i < 8 {
      var last := 8;
      while i != nullPos
        invariant nullPos <= i <= count && last - i == 8 - count
        invariant forall j :: 0 <= j < i ==> fields[j] == f[j]
        invariant forall j :: last <= j < 8 ==> fields[j] == f[j - (8 - count)]
        decreases i
      {
        last := last - 1;
        i := i - 1;
        fields[last] := fields[i];
      }
      ghost var gap := last;
      while last != nullPos
        invariant nullPos <= last <= gap
        invariant forall j :: 0 <= j < nullPos ==> fields[j] == f[j]
        invariant forall j :: last <= j < gap ==> fields[j] == 0
        invariant forall j :: gap <= j < 8 ==> fields[j] == f[j - (8 - count)]
        decreases last
      {
        last := last - 1;
        fields[last] := 0;
      }
    }
  }

  // ----- the longest run of zeros -----

  /** Every run that begins before i is accounted for. */
  ghost predicate Seen(f: seq<nat>, i: nat, pos: nat, len: nat)
    requires i <= |f|
  {
    && (forall j :: 0 <= j < i ==> RunFrom(f, j) <= len)
    && (if len == 0 then pos == |f|
        else pos < i && RunFrom(f, pos) == len && forall j :: 0 <= j < pos ==> RunFrom(f, j) < len)
  }

  lemma {:induction false} RunIs(f: seq<nat>, i: nat, e: nat)
    requires i <= e <= |f| && (forall j :: i <= j < e ==> f[j] == 0) && (e < |f| ==> f[e] != 0)
    ensures RunFrom(f, i) == e - i
    decreases e - i
  {
    if i < e {
      RunIs(f, i + 1, e);
    }
  }

  lemma SeenRun(f: seq<nat>, i: nat, first: nat, e: nat, pos: nat, len: nat)
    requires i <= first < e <= |f| && Seen(f, i, pos, len)
    requires (forall j :: i <= j < first ==> f[j] != 0) && (forall j :: first <= j < e ==> f[j] == 0)
    requires e < |f| ==> f[e] != 0
    ensures if e - first > len then Seen(f, e, first, e - first) else Seen(f, e, pos, len)
  {
    forall j | i <= j < e ensures RunFrom(f, j) == if j < first then 0 else e - j {
      if j >= first {
        RunIs(f, j, e);
      }
    }
  }

  lemma SeenAll(f: seq<nat>, i: nat, pos: nat, len: nat)
    requires i <= |f| && Seen(f, i, pos, len) && forall j :: i <= j < |f| ==> f[j] != 0
    ensures len == RunFrom(f, LongestRun(f, 0)) && (len > 0 ==> pos == LongestRun(f, 0))
  {
    var b := LongestRun(f, 0);
    assert forall j :: i <= j < |f| ==> RunFrom(f, j) == 0;
    if len > 0 {
      assert RunFrom(f, pos) <= RunFrom(f, b);
    }
  }

  /** A run of one field is not worth eliding. */
  method LocateRun(fields: array<nat>) returns (nullPos: nat, nullLen: nat)
    requires fields.Length == 8
    ensures nullLen == RunFrom(fields[..], LongestRun(fields[..], 0))
    ensures nullPos == if nullLen < 2 then 8 else LongestRun(fields[..], 0)
  {
    var i := 0;
    nullPos, nullLen := 8, 0;
    ghost var f := fields[..];
    while true
      invariant i <= 8 && Seen(f, i, nullPos, nullLen)
      decreases 8 - i
    {
      ghost var start := i;
      while i < 8 && fields[i] != 0
        invariant start <= i <= 8 && forall j :: start <= j < i ==> f[j] != 0
      {
        i := i + 1;
      }
      if i == 8 {
        SeenAll(f, start, nullPos, nullLen);
        break;
      }
      var first := i;
      while i < 8 && fields[i] == 0
        invariant first <= i <= 8 && forall j :: first <= j < i ==> f[j] == 0
        invariant i == first ==> f[i] == 0
      {
        i := i + 1;
      }
      SeenRun(f, start, first, i, nullPos, nullLen);
      if i - first > nullLen {
        nullPos := first;
        nullLen := i - first;
      }
      if i == 8 {
        SeenAll(f, i, nullPos, nullLen);
        break;
      }
    }
    if nullLen == 1 {
      nullPos := 8;
      nullLen := 1;
    }
  }

  // ----- printing -----

  /** The fields of a range, each behind a colon. */
  function Colonned(f: seq<nat>, from: nat, end: nat): string
    requires end <= |f|
    decreases end
  {
    if end <= from then "" else Colonned(f, from, end - 1) + ":" + HexText(f[end - 1])
  }

  lemma {:induction false} ColonnedIsJoined(f: seq<nat>, from: nat, end: nat)
    requires from < end <= |f|
    ensures Colonned(f, from, end) == ":" + JoinHex(f[from..end])
    decreases end
  {
    if end == from + 1 {
      assert Texts(f[from..end]) == [HexText(f[from])];
      assert Colonned(f, from, end) == "" + ":" + HexText(f[from]);
    } else {
      ColonnedIsJoined(f, from, end - 1);
      assert Texts(f[from..end]) == Texts(f[from..end - 1]) + [HexText(f[end - 1])];
      JoinAppend(Texts(f[from..end - 1]), ":", HexText(f[end - 1]));
      Longer(":", JoinHex(f[from..end - 1]), HexText(f[end - 1]));
    }
  }

  lemma HeadPrints(f: seq<nat>, i: nat)
    requires 0 < i < |f|
    ensures JoinHex(f[..i + 1]) == JoinHex(f[..i]) + ":" + HexText(f[i])
  {
    assert Texts(f[..i + 1]) == Texts(f[..i]) + [HexText(f[i])];
    JoinAppend(Texts(f[..i]), ":", HexText(f[i]));
  }

  /** What is printed: the recommended text, except that a whole run of eight zeros leaves a single colon. */
  function PrintedFields(f: seq<nat>): string {
    if RunFrom(f, LongestRun(f, 0)) == 8 then ":" else Canon(f)
  }

  /** The fields before the run and the colons of the run; i is where the rest begins. */
  method PrintHead(fields: array<nat>, nullPos: nat, nullLen: nat) returns (str: string, i: nat)
    requires fields.Length == 8 && (if nullLen < 2 then nullPos == 8 else nullPos + nullLen <= 8)
    ensures i == nullPos + nullLen
    ensures str == if nullPos == 0 then ":"
                   else JoinHex(fields[..][..nullPos]) + (if i < 8 then ":" else if nullPos < 8 then "::" else "")
  {
    if nullPos == 0 {
      str := ":";
      i := nullLen;
    } else {
      ghost var f := fields[..];
      str := HexText(fields[0]);
      assert Texts(f[..1]) == [HexText(f[0])];
      i := 1;
      while i < nullPos
        invariant 1 <= i <= nullPos
        invariant str == JoinHex(f[..i])
      {
        HeadPrints(f, i);
        str := str + ":" + HexText(fields[i]);
        i := i + 1;
      }
      if i < 8 {
        str := str + ":";
      }
      i := i + nullLen;
      if i == 8 && nullLen != 0 {
        str := str + ":";
      }
    }
  }

  lemma Longer(head: string, tail: string, h: string)
    ensures head + tail + ":" + h == head + (tail + ":" + h)
  {
  }

  lemma TwoColons(x: string, y: string)
    ensures (x + ":") + (":" + y) == x + "::" + y
    ensures ":" + (":" + y) == "" + "::" + y
    ensures x + "::" == x + "::" + "" && x + "" == x
  {
  }

  lemma OneMoreField(f: seq<nat>, head: string, from: nat, i: nat)
    requires from <= i < |f|
    ensures head + Colonned(f, from, i) + ":" + HexText(f[i]) == head + Colonned(f, from, i + 1)
  {
    Longer(head, Colonned(f, from, i), HexText(f[i]));
  }

  /** The fields behind the run. */
  method PrintRest(fields: array<nat>, head: string, from: nat) returns (str: string)
    requires fields.Length == 8
    ensures str == head + Colonned(fields[..], from, 8)
  {
    str := head;
    var i := from;
    ghost var f := fields[..];
    assert head + "" == head;
    while i < 8
      invariant from <= i && (i <= 8 || i == from)
      invariant str == head + Colonned(f, from, if i < 8 then i else 8)
    {
      OneMoreField(f, head, from, i);
      str := str + ":" + HexText(fields[i]);
      i := i + 1;
    }
  }

  method Print(fields: array<nat>, nullPos: nat, nullLen: nat) returns (str: string)
    requires fields.Length == 8
    requires nullLen == RunFrom(fields[..], LongestRun(fields[..], 0))
    requires nullPos == if nullLen < 2 then 8 else LongestRun(fields[..], 0)
    ensures str == PrintedFields(fields[..])
  {
    ghost var f := fields[..];
    var head, i := PrintHead(fields, nullPos, nullLen);
    PrintedIs(f, head, nullPos, nullLen);
    str := PrintRest(fields, head, i);
  }

  lemma {:induction false} PrintedIs(f: seq<nat>, head: string, pos: nat, n: nat)
    requires |f| == 8 && n == RunFrom(f, LongestRun(f, 0)) && pos == if n < 2 then 8 else LongestRun(f, 0)
    requires head == if pos == 0 then ":"
                     else JoinHex(f[..pos]) + (if pos + n < 8 then ":" else if pos < 8 then "::" else "")
    ensures PrintedFields(f) == head + Colonned(f, pos + n, 8)
  {
    var from := pos + n;
    TwoColons(head, "");
    if pos == 8 {
      assert f[..8] == f;
      TwoColons(JoinHex(f[..8]), "");
    } else {
      PrintedRun(f, f[..pos], f[from..], head, pos, n);
    }
  }

  lemma {:induction false} PrintedRun(f: seq<nat>, l: seq<nat>, r: seq<nat>, head: string, pos: nat, n: nat)
    requires |f| == 8 && pos + n <= 8 && n >= 2 && l == f[..pos] && r == f[pos + n..]
    requires head == if l == [] then ":" else JoinHex(l) + if r != [] then ":" else "::"
    ensures (if n == 8 then ":" else JoinHex(l) + "::" + JoinHex(r)) == head + Colonned(f, pos + n, 8)
  {
    TwoColons(head, "");
    if r != [] {
      ColonnedIsJoined(f, pos + n, 8);
      assert f[pos + n..8] == r;
      TwoColons(JoinHex(l), JoinHex(r));
    } else {
      TwoColons(JoinHex(l), "");
    }
  }

  // ----- the normaliser -----

  /** The text without the first and the last colon, where the loop over the tokens begins and ends. */
  function TrimStart(s: string): (b: nat)
    requires s != ""
    ensures b <= 1
  {
    if s[0] == ':' then 1 else 0
  }

  function TrimEnd(s: string): (e: nat)
    requires s != ""
    ensures |s| - 1 <= e <= |s|
  {
    if s[|s| - 1] == ':' then |s| - 1 else |s|
  }

  /** The fields that the parts around the hole stand for. */
  function FieldsOf(parts: seq<string>): (f: seq<nat>)
    requires Holed(parts) && |parts| <= 8 && (Hole(parts) == |parts| ==> |parts| == 8)
    ensures |f| == 8
  {
    var m := Hole(parts);
    if m == |parts| then Values(parts) else Filled(parts[..m], parts[m + 1..])
  }

  /** The parts of an accepted text: all its groups, with a hole where the pair of colons was. */
  lemma TrimmedParts(s: string)
    requires Ipv6Text(s) && s != "::"
    ensures s != "" && TrimStart(s) <= TrimEnd(s)
    ensures var parts := Split(s[TrimStart(s)..TrimEnd(s)], ':');
            && Holed(parts) && |parts| <= 8 && (Hole(parts) == |parts| ==> |parts| == 8)
            && FieldsOf(parts) == Value(s)
  {
    if k :| PairAt(s, k) && Around(s[..k], s[k + 2..], true) {
      ValueAround(s, k);
      PairRejoins(s, k);
      PairTrims(s[..k], s[k + 2..]);
      HoleBetween(Parts(s[..k]), Parts(s[k + 2..]));
    } else {
      GroupsShape(s);
      ValueUncompressed(s);
      assert s[0..|s|] == s;
      NoHole(Parts(s));
    }
  }

  lemma NoHole(parts: seq<string>)
    requires AllGroups(parts)
    ensures Hole(parts) == |parts|
  {
    assert forall i :: 0 <= i < |parts| ==> Group(parts[i]) && parts[i] != "";
  }

  lemma HoleBetween(l: seq<string>, r: seq<string>)
    requires AllGroups(l) && AllGroups(r) && |l| + |r| <= 7
    ensures var parts := l + [""] + r;
            Holed(parts) && Hole(parts) == |l| && FieldsOf(parts) == Filled(l, r)
  {
    var parts := l + [""] + r;
    var m := Hole(parts);
    assert parts[|l|] == "";
    assert forall i :: 0 <= i < |l| ==> parts[i] == l[i] && Group(l[i]);
    assert parts[..|l|] == l && parts[|l| + 1..] == r;
    forall i | 0 <= i < |parts| && i != |l| ensures Group(parts[i]) {
      assert parts[i] == if i < |l| then l[i] else r[i - |l| - 1];
    }
  }

  /** Splitting what is left of a text with a pair of colons. */
  lemma PairTrims(l: string, r: string)
    requires (l == "" || Groups(l)) && (r == "" || Groups(r)) && (l != "" || r != "")
    ensures var s := l + "::" + r;
            && TrimStart(s) <= TrimEnd(s)
            && Split(s[TrimStart(s)..TrimEnd(s)], ':') == Parts(l) + [""] + Parts(r)
  {
    var s := l + "::" + r;
    if l != "" {
      GroupsShape(l);
    }
    if r != "" {
      GroupsShape(r);
    }
    TrimmedText(l, r);
    if l == "" {
      SplitAround("", ':', r);
    } else if r == "" {
      SplitAround(l, ':', "");
    } else {
      PairSplits(l, r);
    }
  }

  lemma PairSplits(l: string, r: string)
    ensures Split(l + ":" + (":" + r), ':') == Split(l, ':') + [""] + Split(r, ':')
  {
    SplitAround(l, ':', ":" + r);
    SplitAround("", ':', r);
    assert "" + ":" + r == ":" + r;
  }

  lemma TrimmedText(l: string, r: string)
    requires l != "" || r != ""
    requires l != "" ==> l[0] != ':'
    requires r != "" ==> r[|r| - 1] != ':'
    ensures var s := l + "::" + r;
            && TrimStart(s) <= TrimEnd(s)
            && s[TrimStart(s)..TrimEnd(s)] == if l == "" then "" + ":" + r
                                              else if r == "" then l + ":" + ""
                                              else l + ":" + (":" + r)
  {
  }

  /** The shape that the normaliser insists on before it reads a text. */
  predicate Ipv6Shaped(s: string) {
    2 <= |s| <= 254 && forall i :: 0 <= i < |s| ==> s[i] == ':' || s[i] == '.' || IsHexDigit(s[i])
  }

  method IsIpv6(s: string, b: nat, e: nat) returns (ok: bool)
    requires b <= e <= |s|
    ensures ok <==> Ipv6Shaped(s[b..e])
  {
    var l := e - b;
    if l < 2 || l > 254 {
      return false;
    }
    for p := b to e
      invariant forall i :: b <= i < p ==> s[i] == ':' || s[i] == '.' || IsHexDigit(s[i])
    {
      if s[p] != ':' && s[p] != '.' && !IsHexDigit(s[p]) {
        assert s[b..e][p - b] == s[p];
        return false;
      }
    }
    return true;
  }

  /** What becomes of an accepted text without dots. */
  ghost function Normalized(s: string): string
    requires Ipv6Text(s)
  {
    if s == "::" then s else PrintedFields(Value(s))
  }

  method NormalizeIpv6(s: string) returns (r: Result<string>)
    requires Ipv6Shaped(s) ==> Ipv6Text(s)
    ensures r == if Ipv6Shaped(s) then Success(Normalized(s)) else Failure("IPv6 [" + s + "] is invalid")
  {
    var shaped := IsIpv6(s, 0, |s|);
    assert s[0..|s|] == s;
    if !shaped {
      return Failure("IPv6 [" + s + "] is invalid");
    }
    if |s| == 2 && s[0] == ':' && s[1] == ':' {
      return Success(s);
    }
    TrimmedParts(s);
    var text := NormalizeTrimmed(s);
    return Success(text);
  }

  method NormalizeTrimmed(s: string) returns (text: string)
    requires s != "" && TrimStart(s) <= TrimEnd(s)
    requires var parts := Split(s[TrimStart(s)..TrimEnd(s)], ':');
             Holed(parts) && |parts| <= 8 && (Hole(parts) == |parts| ==> |parts| == 8)
    ensures text == PrintedFields(FieldsOf(Split(s[TrimStart(s)..TrimEnd(s)], ':')))
  {
    var p, e := 0, |s|;
    if s[p] == ':' {
      p := p + 1;
    }
    if s[|s| - 1] == ':' {
      e := e - 1;
    }
    text := NormalizeTokens(s, p, e);
  }

  method NormalizeTokens(s: string, p: nat, e: nat) returns (text: string)
    requires p <= e <= |s|
    requires var parts := Split(s[p..e], ':');
             Holed(parts) && |parts| <= 8 && (Hole(parts) == |parts| ==> |parts| == 8)
    ensures text == PrintedFields(FieldsOf(Split(s[p..e], ':')))
  {
    ghost var parts := Split(s[p..e], ':');
    var tokens, fields := new nat[10], new nat[8];
    var ntokens := SplitTokens(s, p, e, tokens);
    NoIpv4Token(s, tokens[..], parts);
    var nfields, nullPos := DecodeFields(s, tokens, ntokens, fields, parts);
    HoleFills(fields[..], parts, nfields, nullPos);
    Spread(fields, nfields, nullPos);
    var pos, len := LocateRun(fields);
    text := Print(fields, pos, len);
  }

  /** The last token of a text without dots is never so long that it is taken for an IPv4 address. */
  lemma NoIpv4Token(s: string, ts: seq<nat>, parts: seq<string>)
    requires AllTokens(s, ts, parts) && Holed(parts)
    ensures ts[|parts|] - ts[|parts| - 1] <= 4
  {
  }

  lemma {:induction false} HoleFills(f: seq<nat>, parts: seq<string>, n: nat, nullPos: nat)
    requires Holed(parts) && 0 < |parts| <= 8 && (Hole(parts) == |parts| ==> |parts| == 8) && |f| == 8
    requires n == |Kept(parts)| && f[..n] == Values(Kept(parts))
    requires nullPos == if Hole(parts) < |parts| then Hole(parts) else 8
    ensures n < 8 ==> nullPos <= n
    ensures FieldsOf(parts) == if n < 8 then f[..nullPos] + Zeros(8 - n) + f[nullPos..n] else f
  {
    if Hole(parts) < |parts| {
      SidesFill(f, parts[..Hole(parts)], parts[Hole(parts) + 1..]);
    } else {
      assert f[..8] == f;
    }
  }

  lemma {:induction false} SidesFill(f: seq<nat>, l: seq<string>, r: seq<string>)
    requires AllGroups(l) && AllGroups(r) && |l| + |r| <= 7 && |f| == 8
    requires AllGroups(l + r) && f[..|l| + |r|] == Values(l + r)
    ensures var n := |l| + |r|; Filled(l, r) == f[..|l|] + Zeros(8 - n) + f[|l|..n]
  {
    ValuesConcat(l, r);
    FirstFields(f, |l| + |r|, Values(l), Values(r));
  }

  lemma ValuesConcat(l: seq<string>, r: seq<string>)
    requires AllGroups(l) && AllGroups(r)
    ensures AllGroups(l + r) && Values(l + r) == Values(l) + Values(r)
  {
  }

  lemma FirstFields(f: seq<nat>, n: nat, l: seq<nat>, r: seq<nat>)
    requires n <= |f| && f[..n] == l + r
    ensures f[..|l|] == l && f[|l|..n] == r
  {
    assert f[..|l|] == f[..n][..|l|] && f[|l|..n] == f[..n][|l|..];
  }
}
