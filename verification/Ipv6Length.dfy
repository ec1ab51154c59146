/** How long the normal form of an IPv6 address can get: a pair of colons that stood for a single zero, or for
    the later of two equal runs, makes it one char longer than the text it came from, and nothing more. */
module Ipv6Length {
  import opened Text
  import opened UrlChars
  import opened UrlIpv6
  import opened Ipv6Address
  import opened Ipv6Normal
  import opened Ipv6RoundTrip

  /** The hexadecimal digits of all fields. */
  function Digits(f: seq<nat>): nat
    decreases |f|
  {
    if f == [] then 0 else |HexText(f[0])| + Digits(f[1..])
  }

  /** The single colons between n groups. */
  function Gaps(n: nat): nat {
    if n == 0 then 0 else n - 1
  }

  lemma {:induction false} JoinedLength(f: seq<nat>)
    ensures |JoinHex(f)| == Digits(f) + Gaps(|f|)
    decreases |f|
  {
    if f != [] {
      JoinedLength(f[1..]);
      assert Texts(f)[1..] == Texts(f[1..]);
    }
  }

  lemma {:induction false} DigitsConcat(f: seq<nat>, g: seq<nat>)
    ensures Digits(f + g) == Digits(f) + Digits(g)
    decreases |f|
  {
    if f == [] {
      assert f + g == g;
    } else {
      assert (f + g)[1..] == f[1..] + g;
      DigitsConcat(f[1..], g);
    }
  }

  lemma {:induction false} DigitsOfZeros(n: nat)
    ensures Digits(Zeros(n)) == n
    decreases n
  {
    if n > 0 {
      assert Zeros(n)[1..] == Zeros(n - 1);
      DigitsOfZeros(n - 1);
    }
  }

  /** The digits around a run of zeros. */
  lemma DigitsAround(f: seq<nat>, l: seq<nat>, n: nat, r: seq<nat>)
    requires f == l + Zeros(n) + r
    ensures Digits(f) == Digits(l) + n + Digits(r)
  {
    DigitsConcat(l + Zeros(n), r);
    DigitsConcat(l, Zeros(n));
    DigitsOfZeros(n);
  }

  /** No numeral of the same value is shorter. */
  lemma {:induction false} HexTextIsShortest(t: string)
    requires t != "" && AllHex(t)
    ensures |HexText(HexValue(t))| <= |t|
    decreases |t|
  {
    var init := t[..|t| - 1];
    if init != "" {
      HexTextIsShortest(init);
      assert HexValue(t) / 16 == HexValue(init);
    }
  }

  lemma {:induction false} JoinNoLonger(a: seq<string>, b: seq<string>)
    requires |a| == |b| && forall i :: 0 <= i < |a| ==> |a[i]| <= |b[i]|
    ensures |Join(a, ":")| <= |Join(b, ":")|
    decreases |a|
  {
    if |a| > 1 {
      JoinNoLonger(a[1..], b[1..]);
    }
  }

  /** A list of groups is at least as long as the shortest texts of its fields. */
  lemma SideIsNoShorter(x: string)
    requires x == "" || Groups(x)
    ensures AllGroups(Parts(x)) && |JoinHex(Values(Parts(x)))| <= |x|
  {
    var parts := Parts(x);
    forall i | 0 <= i < |parts| ensures |Texts(Values(parts))[i]| <= |parts[i]| {
      HexTextIsShortest(parts[i]);
    }
    JoinNoLonger(Texts(Values(parts)), parts);
    JoinSplit(x, ':');
  }

  /** The text of an address with that many digits and a longest run that starts at b. */
  function LengthWith(digits: nat, b: nat, run: nat): int {
    if run < 2 then digits + 7 else digits - run + 2 + Gaps(b) + Gaps(if b + run <= 8 then 8 - b - run else 0)
  }

  lemma {:induction false} CanonLength(f: seq<nat>)
    requires |f| == 8
    ensures |Canon(f)| == LengthWith(Digits(f), LongestRun(f, 0), RunFrom(f, LongestRun(f, 0)))
  {
    var b := LongestRun(f, 0);
    var n := RunFrom(f, b);
    if n < 2 {
      JoinedLength(f);
    } else {
      FieldsAroundRun(f, b);
      ElidedLength(f, f[..b], n, f[b + n..]);
    }
  }

  lemma {:induction false} ElidedLength(f: seq<nat>, l: seq<nat>, n: nat, r: seq<nat>)
    requires f == l + Zeros(n) + r
    ensures |JoinHex(l) + "::" + JoinHex(r)| == Digits(f) - n + 2 + Gaps(|l|) + Gaps(|r|)
  {
    JoinedLength(l);
    JoinedLength(r);
    DigitsAround(f, l, n, r);
  }

  lemma {:induction false} RunReaches(f: seq<nat>, b: nat, n: nat)
    requires b + n <= |f| && forall j :: b <= j < b + n ==> f[j] == 0
    ensures RunFrom(f, b) >= n
    decreases n
  {
    if n > 0 {
      RunReaches(f, b + 1, n - 1);
    }
  }

  /** The run that was elided is part of one, and none is longer than the longest. */
  lemma {:induction false} ElidedRunIsNoLonger(f: seq<nat>, l: seq<nat>, n: nat, r: seq<nat>)
    requires f == l + Zeros(n) + r
    ensures n <= RunFrom(f, LongestRun(f, 0))
  {
    RunReaches(f, |l|, n);
  }

  lemma {:induction false} PairLength(s: string, l: seq<string>, r: seq<string>)
    requires AllGroups(l) && AllGroups(r) && |l| + |r| <= 7
    requires |s| >= |JoinHex(Values(l))| + 2 + |JoinHex(Values(r))|
    ensures |Canon(Filled(l, r))| <= |s| + 1
  {
    var f, z := Filled(l, r), 8 - |l| - |r|;
    ElidedLength(f, Values(l), z, Values(r));
    ElidedRunIsNoLonger(f, Values(l), z, Values(r));
    CanonLength(f);
    LongerByOne(Digits(f), |l|, |r|, LongestRun(f, 0), RunFrom(f, LongestRun(f, 0)));
  }

  lemma LongerByOne(digits: nat, left: nat, right: nat, b: nat, run: nat)
    requires left + right <= 7 && b + run <= 8 && run >= 8 - left - right
    ensures LengthWith(digits, b, run) <= digits - (8 - left - right) + 2 + Gaps(left) + Gaps(right) + 1
  {
  }

  lemma {:induction false} ElidedIsNoLonger(s: string, k: int)
    requires PairAt(s, k) && Around(s[..k], s[k + 2..], true)
    ensures |Canon(Value(s))| <= |s| + 1
  {
    ValueAround(s, k);
    SideIsNoShorter(s[..k]);
    SideIsNoShorter(s[k + 2..]);
    PairLength(s, Parts(s[..k]), Parts(s[k + 2..]));
  }

  lemma {:induction false} WrittenOutIsNoLonger(s: string)
    requires Uncompressed(s, 8)
    ensures |Canon(Value(s))| <= |s| + 1
  {
    ValueUncompressed(s);
    GroupsShape(s);
    SideIsNoShorter(s);
    JoinedLength(Value(s));
    CanonLength(Value(s));
  }

  lemma {:induction false} NormalizedIsNoLonger(s: string)
    requires Ipv6Text(s)
    ensures |Normalized(s)| <= |s| + 1
  {
    NormalizedIsCanon(s);
    AcceptedIsShaped(s);
    if k :| PairAt(s, k) && Around(s[..k], s[k + 2..], true) {
      ElidedIsNoLonger(s, k);
    } else {
      WrittenOutIsNoLonger(s);
    }
  }

  /** The bound is met: "1::3:4:5:6:7:8" gets a zero written out. */
  lemma OneLonger(f: seq<nat>)
    requires Address(f) && f[1] == 0 && forall i :: 0 <= i < 8 && i != 1 ==> f[i] != 0
    ensures var s := JoinHex(f[..1]) + "::" + JoinHex(f[2..]);
            Ipv6Text(s) && |Normalized(s)| == |s| + 1
  {
    var s := JoinHex(f[..1]) + "::" + JoinHex(f[2..]);
    ElidedStandsFor(f[..1], f[2..]);
    assert f[..1] + Zeros(1) + f[2..] == f;
    NormalizedIsCanon(s);
    CanonLength(f);
    JoinedLength(f[..1]);
    JoinedLength(f[2..]);
    DigitsAround(f, f[..1], 1, f[2..]);
    assert RunFrom(f, 2) == 0 && RunFrom(f, 1) == 1;
  }
}
