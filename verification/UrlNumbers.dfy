/** The wrapping integer scanner of the URL engine, and the ports and IPv4 addresses it decides. */
module UrlNumbers {
  import opened Results
  import opened Text
  import opened UrlChars

  /** The number of values of the 32-bit accumulator. */
  const WRAP := 0x1_0000_0000

  predicate AllDigits(s: string) {
    forall i :: 0 <= i < |s| ==> IsNum(s[i])
  }

  function DigitValue(c: char): nat
    requires IsNum(c)
  {
    c as int - '0' as int
  }

  /** The number that a run of decimal digits stands for. */
  function Decimal(s: string): nat
    requires AllDigits(s)
  {
    if s == "" then 0 else 10 * Decimal(s[..|s| - 1]) + DigitValue(s[|s| - 1])
  }

  function DigitRun(s: string): (n: nat)
    ensures n <= |s| && AllDigits(s[..n]) && (n < |s| ==> !IsNum(s[n]))
  {
    if s == "" || !IsNum(s[0]) then 0
    else
      assert forall i :: 0 < i < 1 + DigitRun(s[1..]) ==> s[i] == s[1..][i - 1];
      1 + DigitRun(s[1..])
  }

  /** How far the scanner reads: a leading zero stands alone. */
  function Extent(s: string): (n: nat)
    ensures n <= |s| && AllDigits(s[..n])
  {
    if s != "" && s[0] == '0' then 1 else DigitRun(s)
  }

  /** What the scanner accepts: the value is taken modulo 2^32 before it is compared. */
  function Scanned(s: string, max: nat): (r: Option<nat>)
    ensures r.Some? ==> 0 < r.value <= |s|
  {
    var n := Extent(s);
    if n > 0 && Decimal(s[..n]) % WRAP <= max then Some(n) else None
  }

  lemma DecimalStep(s: string, c: char)
    requires AllDigits(s) && IsNum(c)
    ensures AllDigits(s + [c]) && Decimal(s + [c]) == 10 * Decimal(s) + DigitValue(c)
  {
    assert (s + [c])[..|s|] == s;
  }

  lemma WrapStep(v: nat, d: nat)
    ensures (10 * (v % WRAP) + d) % WRAP == (10 * v + d) % WRAP
  {
    var q := v / WRAP;
    assert 10 * v + d == 10 * (v % WRAP) + d + WRAP * (10 * q);
  }

  lemma ExtentIs(s: string, n: nat)
    requires 0 < n <= |s| && AllDigits(s[..n])
    requires if s[0] == '0' then n == 1 else n < |s| ==> !IsNum(s[n])
    ensures Extent(s) == n
  {
    var m := DigitRun(s);
    assert forall i :: 0 <= i < n ==> s[..n][i] == s[i];
    assert forall i :: 0 <= i < m ==> s[..m][i] == s[i];
  }

  /** On success p is past the number; otherwise the pointer stays. */
  method IsUint(s: string, b: nat, e: nat, max: nat) returns (ok: bool, p: nat)
    requires b <= e <= |s| && max < WRAP
    ensures ok <==> Scanned(s[b..e], max).Some?
    ensures p == if ok then b + Scanned(s[b..e], max).value else b
  {
    if b == e || !IsNum(s[b]) {
      return false, b;
    }
    ghost var whole := s[b..e];
    var t := b;
    var val := DigitValue(s[t]);
    t := t + 1;
    DecimalStep("", s[b]);
    assert whole[..1] == "" + [s[b]];
    if val != 0 {
      while t != e && IsNum(s[t])
        invariant b < t <= e
        invariant AllDigits(whole[..t - b]) && val == Decimal(whole[..t - b]) % WRAP
        decreases e - t
      {
        WrapStep(Decimal(whole[..t - b]), DigitValue(s[t]));
        DecimalStep(whole[..t - b], s[t]);
        assert whole[..t + 1 - b] == whole[..t - b] + [s[t]];
        val := (val * 10 + DigitValue(s[t])) % WRAP;
        t := t + 1;
      }
    }
    ExtentIs(whole, t - b);
    if val > max {
      return false, b;
    }
    return true, t;
  }

  /** A decimal numeral without leading zeros. */
  predicate Canonical(s: string) {
    s != "" && AllDigits(s) && (s[0] == '0' ==> |s| == 1)
  }

  /** The scanner reads the whole text exactly when it is canonical and small modulo 2^32. */
  lemma ScansWhole(s: string, max: nat)
    ensures Scanned(s, max) == Some(|s|) <==> Canonical(s) && Decimal(s) % WRAP <= max
  {
    assert s[..|s|] == s;
    if Canonical(s) {
      ExtentIs(s, |s|);
    }
  }

  // ----- ports -----

  method IsPort(s: string, b: nat, e: nat) returns (ok: bool)
    requires b <= e <= |s|
    ensures ok <==> PortText(s[b..e])
  {
    var scanned, p := IsUint(s, b, e, 65535);
    ScansWhole(s[b..e], 65535);
    return scanned && p == e;
  }

  predicate PortText(s: string) {
    Canonical(s) && Decimal(s) % WRAP <= 65535
  }

  /** A port number as section 3.2.3 of RFC 3986 and TCP have it, in its shortest form. */
  predicate RealPort(s: string) {
    Canonical(s) && Decimal(s) <= 65535
  }

  /** The port test is right exactly on the texts that do not wrap around to a small number. */
  lemma PortTestIsRight(s: string)
    ensures (PortText(s) <==> RealPort(s)) <==> !(Canonical(s) && Decimal(s) >= WRAP && Decimal(s) % WRAP <= 65535)
    ensures |s| <= 9 ==> (PortText(s) <==> RealPort(s))
  {
    if Canonical(s) && |s| <= 9 {
      DecimalBounds(s);
    }
  }

  /** 2^32, written out, is accepted as a port. */
  lemma WrappedPort()
    ensures PortText("4294967296") && !RealPort("4294967296")
    ensures Decimal("4294967296") == WRAP
  {
    LeadingHalf();
    DecimalStep("42949", '6');
    DecimalStep("42949" + "6", '7');
    DecimalStep("42949" + "6" + "7", '2');
    DecimalStep("42949" + "6" + "7" + "2", '9');
    DecimalStep("42949" + "6" + "7" + "2" + "9", '6');
    assert "42949" + "6" + "7" + "2" + "9" + "6" == "4294967296";
  }

  lemma LeadingHalf()
    ensures AllDigits("42949") && Decimal("42949") == 42949
  {
    DecimalStep("", '4');
    DecimalStep("" + "4", '2');
    DecimalStep("" + "4" + "2", '9');
    DecimalStep("" + "4" + "2" + "9", '4');
    DecimalStep("" + "4" + "2" + "9" + "4", '9');
    assert "" + "4" + "2" + "9" + "4" + "9" == "42949";
  }

  function Pow10(n: nat): nat {
    if n == 0 then 1 else 10 * Pow10(n - 1)
  }

  /** The length of a canonical numeral tells its size. */
  lemma {:induction false} DecimalBounds(s: string)
    requires AllDigits(s)
    ensures Decimal(s) < Pow10(|s|)
    ensures |s| <= 9 ==> Decimal(s) < WRAP
    ensures |s| > 1 && Canonical(s) ==> Decimal(s) >= Pow10(|s| - 1)
    decreases |s|
  {
    if s != "" {
      var init := s[..|s| - 1];
      DecimalBounds(init);
      if |s| == 2 {
        assert init[..0] == "";
        assert Decimal(init) == DigitValue(s[0]);
      }
    }
    PowersGrow(|s|, 9);
  }

  lemma {:induction false} PowersGrow(m: nat, n: nat)
    ensures m <= n ==> Pow10(m) <= Pow10(n)
    ensures Pow10(3) == 1000 && Pow10(9) == 1_000_000_000
    decreases n
  {
    if m < n {
      PowersGrow(m, n - 1);
    }
    assert Pow10(6) == 1000 * Pow10(3) && Pow10(9) == 1000 * Pow10(6);
  }

  // ----- IPv4 -----

  /** The shape that parse_url asks of an IPv4 address: digits and dots. */
  predicate Ipv4Shaped(s: string) {
    7 <= |s| <= 254 && forall i :: 0 <= i < |s| ==> s[i] == '.' || IsNum(s[i])
  }

  method IsIpv4(s: string, b: nat, e: nat) returns (ok: bool)
    requires b <= e <= |s|
    ensures ok <==> Ipv4Shaped(s[b..e])
  {
    var l := e - b;
    if l < 7 || l > 254 {
      return false;
    }
    for p := b to e
      invariant forall i :: b <= i < p ==> s[i] == '.' || IsNum(s[i])
    {
      if s[p] != '.' && !IsNum(s[p]) {
        assert s[b..e][p - b] == s[p];
        return false;
      }
    }
    return true;
  }

  predicate WrappedOctet(s: string) {
    Canonical(s) && Decimal(s) % WRAP <= 255
  }

  /** k numbers between dots, each at most 255 modulo 2^32. */
  predicate Octets(s: string, k: nat) {
    |Split(s, '.')| == k && forall i :: 0 <= i < k ==> WrappedOctet(Split(s, '.')[i])
  }

  lemma SplitAtFirst(s: string, c: char)
    ensures var m := Until(s, [c]);
            Split(s, c) == if m < |s| then [s[..m]] + Split(s[m + 1..], c) else [s]
  {
    var m := Until(s, [c]);
    if m < |s| {
      assert s == s[..m] + [c] + s[m + 1..];
      SplitAround(s[..m], c, s[m + 1..]);
      SplitPlain(s[..m], c);
    } else {
      SplitPlain(s, c);
    }
  }

  /** The first of several numbers is what the scanner reads up to the first dot. */
  lemma FirstOctet(s: string, k: nat)
    requires k > 1
    ensures Octets(s, k) <==> var r := Scanned(s, 255);
              r.Some? && r.value < |s| && s[r.value] == '.' && Octets(s[r.value + 1..], k - 1)
  {
    var r := Scanned(s, 255);
    var m := Until(s, ".");
    SplitAtFirst(s, '.');
    ScansWhole(s[..m], 255);
    if r.Some? && r.value < |s| && s[r.value] == '.' {
      DotEndsNumber(s, r.value);
      ExtentOfPrefix(s, m);
      FirstPart(s, s[..m], s[m + 1..], k);
    } else if Octets(s, k) {
      assert Split(s, '.')[0] == s[..m];
      ExtentOfPrefix(s, m);
    }
  }

  lemma FirstPart(s: string, head: string, rest: string, k: nat)
    requires k > 1 && Split(s, '.') == [head] + Split(rest, '.')
    ensures Octets(s, k) <==> WrappedOctet(head) && Octets(rest, k - 1)
  {
    var parts, others := Split(s, '.'), Split(rest, '.');
    if Octets(s, k) {
      assert parts[0] == head;
      forall i | 0 <= i < k - 1 ensures WrappedOctet(others[i]) {
        assert parts[i + 1] == others[i];
      }
    } else if WrappedOctet(head) && Octets(rest, k - 1) {
      forall i | 0 <= i < k ensures WrappedOctet(parts[i]) {
        assert i > 0 ==> parts[i] == others[i - 1];
      }
    }
  }

  lemma DotEndsNumber(s: string, n: nat)
    requires n < |s| && s[n] == '.' && AllDigits(s[..n])
    ensures Until(s, ".") == n
  {
    assert forall i :: 0 <= i < n ==> s[..n][i] == s[i];
    UntilIs(s, ".", n);
  }

  lemma ExtentOfPrefix(s: string, m: nat)
    requires m < |s| && s[m] == '.'
    ensures Extent(s[..m]) == m && m > 0 ==> Extent(s) == m && s[..m][..m] == s[..m]
    ensures Extent(s) == m && m > 0 ==> Extent(s[..m]) == m && s[..m][..m] == s[..m]
  {
    assert s[..m][..m] == s[..m];
    if m > 0 && (Extent(s[..m]) == m || Extent(s) == m) {
      ExtentIs(s, m);
      ExtentIs(s[..m], m);
    }
  }

  /** One of the three numbers that a dot must follow. */
  method NumberThenDot(s: string, b: nat, e: nat, ghost k: nat) returns (ok: bool, p: nat)
    requires b <= e <= |s| && k > 1
    ensures ok ==> b < p <= e
    ensures Octets(s[b..e], k) <==> ok && Octets(s[p..e], k - 1)
  {
    FirstOctet(s[b..e], k);
    ok, p := IsUint(s, b, e, 255);
    if !ok || p == e || s[p] != '.' {
      return false, b;
    }
    p := p + 1;
    assert s[b..e][p - b..] == s[p..e];
  }

  method IsValidIpv4(s: string, b: nat, e: nat) returns (ok: bool)
    requires b <= e <= |s|
    ensures ok <==> Octets(s[b..e], 4)
  {
    var p := b;
    ok, p := NumberThenDot(s, p, e, 4);
    if !ok { return; }
    ok, p := NumberThenDot(s, p, e, 3);
    if !ok { return; }
    ok, p := NumberThenDot(s, p, e, 2);
    if !ok { return; }
    OnlyOctet(s[p..e]);
    ok, p := IsUint(s, p, e, 255);
    return ok && p == e;
  }

  lemma OnlyOctet(s: string)
    ensures Octets(s, 1) <==> Scanned(s, 255) == Some(|s|)
  {
    ScansWhole(s, 255);
    SplitAtFirst(s, '.');
    if Until(s, ".") < |s| {
      assert !IsNum(s[Until(s, ".")]);
    } else {
      assert Split(s, '.')[0] == s;
    }
  }

  /** The dec-octet of section 3.2.2 of RFC 3986, alternative by alternative. */
  predicate DecOctet(s: string) {
    && AllDigits(s)
    && (|| |s| == 1
        || (|s| == 2 && s[0] != '0')
        || (|s| == 3 && s[0] == '1')
        || (|s| == 3 && s[0] == '2' && s[1] <= '4')
        || (|s| == 3 && s[0] == '2' && s[1] == '5' && s[2] <= '5'))
  }

  predicate DottedQuad(s: string) {
    |Split(s, '.')| == 4 && forall i :: 0 <= i < 4 ==> DecOctet(Split(s, '.')[i])
  }

  lemma DecOctetIsSmall(s: string)
    ensures DecOctet(s) <==> Canonical(s) && Decimal(s) <= 255
  {
    if AllDigits(s) && |s| > 3 {
      if Canonical(s) {
        DecimalBounds(s);
        PowersGrow(3, |s| - 1);
      }
    } else if AllDigits(s) && s != "" {
      assert s[..|s| - 1][..|s[..|s| - 1]|] == s[..|s| - 1];
      if |s| == 1 {
        DecimalStep("", s[0]);
        assert s == "" + [s[0]];
      } else if |s| == 2 {
        DecimalStep("", s[0]);
        DecimalStep("" + [s[0]], s[1]);
        assert s == "" + [s[0]] + [s[1]];
      } else {
        DecimalStep("", s[0]);
        DecimalStep("" + [s[0]], s[1]);
        DecimalStep("" + [s[0]] + [s[1]], s[2]);
        assert s == "" + [s[0]] + [s[1]] + [s[2]];
      }
    }
  }

  /** On texts of at most 15 chars, which are all that an IPv4 address needs, no number can wrap. */
  lemma ValidIpv4IsDottedQuad(s: string)
    requires |s| <= 15
    ensures Octets(s, 4) <==> DottedQuad(s)
  {
    var parts := Split(s, '.');
    if |parts| == 4 {
      PartLengths(s);
      forall i | 0 <= i < 4 ensures (forall j :: 0 <= j < 4 ==> parts[j] != "") ==>
                                      (WrappedOctet(parts[i]) <==> DecOctet(parts[i])) {
        DecOctetIsSmall(parts[i]);
        if AllDigits(parts[i]) && forall j :: 0 <= j < 4 ==> parts[j] != "" {
          DecimalBounds(parts[i]);
        }
      }
    }
  }

  /** Four canonical numbers of which one is 2^32 or more and all are at most 255 modulo 2^32. */
  predicate WrappedQuad(s: string) {
    && |Split(s, '.')| == 4
    && (forall i :: 0 <= i < 4 ==> WrappedOctet(Split(s, '.')[i]))
    && exists i :: 0 <= i < 4 && Decimal(Split(s, '.')[i]) >= WRAP
  }

  /** What passes is a dotted quad or, on longer texts, has wrapped around; never both. */
  lemma Ipv4TestIsRight(s: string)
    ensures Octets(s, 4) <==> DottedQuad(s) || WrappedQuad(s)
    ensures !(DottedQuad(s) && WrappedQuad(s))
  {
    forall i | 0 <= i < |Split(s, '.')|
      ensures DecOctet(Split(s, '.')[i]) <==> Canonical(Split(s, '.')[i]) && Decimal(Split(s, '.')[i]) <= 255
    {
      DecOctetIsSmall(Split(s, '.')[i]);
    }
    if WrappedQuad(s) {
      var i :| 0 <= i < 4 && Decimal(Split(s, '.')[i]) >= WRAP;
      assert !DecOctet(Split(s, '.')[i]);
    } else if Octets(s, 4) {
      forall i | 0 <= i < 4 ensures DecOctet(Split(s, '.')[i]) {
        assert WrappedOctet(Split(s, '.')[i]) && Decimal(Split(s, '.')[i]) < WRAP;
      }
    }
  }

  lemma OctetsAreLong(s: string)
    requires Octets(s, 4)
    ensures |s| >= 7
  {
    assert forall i :: 0 <= i < 4 ==> WrappedOctet(Split(s, '.')[i]) && Split(s, '.')[i] != "";
    PartLengths(s);
  }

  /** Four numbers with dots between them. */
  function Dots(a: string, b: string, c: string, d: string): string {
    Join([a, b, c, d], ".")
  }

  lemma PartsOfDots(a: string, b: string, c: string, d: string)
    requires AllDigits(a) && AllDigits(b) && AllDigits(c) && AllDigits(d)
    ensures Split(Dots(a, b, c, d), '.') == [a, b, c, d]
    ensures Dots(a, b, c, d) == a + ("." + Join([b, c, d], "."))
    ensures |Dots(a, b, c, d)| == |a| + |b| + |c| + |d| + 3
  {
    SplitJoin([a, b, c, d], '.');
    assert [a, b, c, d][1..] == [b, c, d];
    PartLengths(Dots(a, b, c, d));
  }

  /** A number such as 2^32, written out, passes as one of four. */
  lemma WrappedNumberPasses(a: string, b: string)
    requires WrappedOctet(b) && Decimal(b) >= WRAP && DecOctet(a)
    ensures WrappedQuad(Dots(a, b, a, a)) && Octets(Dots(a, b, a, a), 4) && !DottedQuad(Dots(a, b, a, a))
  {
    DecOctetIsSmall(a);
    PartsOfDots(a, b, a, a);
    assert [a, b, a, a][1] == b;
    Ipv4TestIsRight(Dots(a, b, a, a));
  }

  lemma PartLengths(s: string)
    requires |Split(s, '.')| == 4
    ensures var p := Split(s, '.'); |s| == |p[0]| + |p[1]| + |p[2]| + |p[3]| + 3
  {
    var p := Split(s, '.');
    JoinSplit(s, '.');
    assert p[1..][1..][1..] == [p[3]];
    assert Join(p[1..][1..], ".") == p[2] + "." + p[3];
    assert Join(p[1..], ".") == p[1] + "." + Join(p[1..][1..], ".");
  }
}
