/** What the normaliser of IPv6 addresses guarantees for every accepted text without dots. */
module Ipv6RoundTrip {
  import opened Text
  import opened UrlChars
  import opened UrlIpv6
  import opened Ipv6Address
  import opened Ipv6Normal

  lemma {:induction false} ContinuesChars(x: string, d: nat)
    requires Continues(x, d)
    ensures forall i :: 0 <= i < |x| ==> x[i] == ':' || IsHexDigit(x[i])
    decreases |x|
  {
    if x != "" {
      ContinuesChars(x[1..], if x[0] == ':' then 0 else d + 1);
      forall i | 0 < i < |x| ensures x[i] == ':' || IsHexDigit(x[i]) {
        assert x[i] == x[1..][i - 1];
      }
    }
  }

  lemma SideChars(x: string)
    requires x == "" || Groups(x)
    ensures forall i :: 0 <= i < |x| ==> x[i] == ':' || IsHexDigit(x[i])
  {
    if x != "" {
      GroupsContinueNothing(x);
      ContinuesChars(x, 0);
    }
  }

  /** An accepted text without dots has the shape that the normaliser and the parser ask for. */
  lemma AcceptedIsShaped(s: string)
    requires Ipv6Text(s)
    ensures '.' !in s && ValidIpv6(s) && Ipv6Shaped(s)
    ensures forall i :: 0 <= i < |s| ==> s[i] == ':' || IsHexDigit(s[i])
  {
    if k :| PairAt(s, k) && Around(s[..k], s[k + 2..], true) {
      SideChars(s[..k]);
      SideChars(s[k + 2..]);
      PairRejoins(s, k);
      forall i | 0 <= i < |s| ensures s[i] == ':' || IsHexDigit(s[i]) {
        if i < k {
          assert s[i] == s[..k][i];
        } else if i >= k + 2 {
          assert s[i] == s[k + 2..][i - k - 2];
        }
      }
    } else {
      SideChars(s);
    }
    DotFreeIsRfc4291(s);
  }

  lemma AllZero(f: seq<nat>)
    requires |f| == 8
    ensures RunFrom(f, LongestRun(f, 0)) == 8 <==> f == Zeros(8)
    ensures f == Zeros(8) ==> Canon(f) == "::"
  {
    if f == Zeros(8) {
      RunIs(f, 0, 8);
      assert LongestRun(f, 0) == 0;
      assert f[..0] == [] && f[8..] == [];
    }
  }

  lemma OnlyPair()
    ensures Ipv6Text("::") && Value("::") == Zeros(8)
  {
    assert PairAt("::", 0) && "::"[..0] == "" && "::"[2..] == "";
    ValueAround("::", 0);
  }

  /** The source prints the address of eight zeros as a single colon, unless it was spelled "::". */
  predicate Wrecked(s: string, f: seq<nat>) {
    f == Zeros(8) && s != "::"
  }

  lemma NormalizedIsCanon(s: string)
    requires Ipv6Text(s)
    ensures Normalized(s) == if Wrecked(s, Value(s)) then ":" else Canon(Value(s))
  {
    AllZero(Value(s));
    if s == "::" {
      OnlyPair();
    }
  }

  /** Normalising keeps the eight fields, is accepted again and follows the recommendations of RFC 5952,
      exactly when the text is not an address of zeros spelled out. */
  lemma NormalizingKeepsTheAddress(s: string)
    requires Ipv6Text(s)
    ensures ValidIpv6(Normalized(s)) <==> !Wrecked(s, Value(s))
    ensures !Wrecked(s, Value(s)) ==>
            && Ipv6Text(Normalized(s)) && Value(Normalized(s)) == Value(s)
            && Recommended(Normalized(s)) && '.' !in Normalized(s)
  {
    NormalizedIsCanon(s);
    ValueIsAddress(s);
    if !Wrecked(s, Value(s)) {
      CanonStandsFor(Value(s));
      CanonIsRecommended(Value(s));
      AcceptedIsShaped(Normalized(s));
    }
  }

  /** Normalising twice is normalising once. */
  lemma NormalizingIsIdempotent(s: string)
    requires Ipv6Text(s) && !Wrecked(s, Value(s))
    ensures Ipv6Text(Normalized(s)) && Normalized(Normalized(s)) == Normalized(s)
  {
    NormalizingKeepsTheAddress(s);
    NormalizedIsCanon(s);
    NormalizedIsCanon(Normalized(s));
    AllZero(Value(s));
  }

  /** Two texts have the same normal form exactly when they stand for the same address. */
  lemma EqualAddressesEqualTexts(s: string, t: string)
    requires Ipv6Text(s) && !Wrecked(s, Value(s)) && Ipv6Text(t) && !Wrecked(t, Value(t))
    ensures Normalized(s) == Normalized(t) <==> Value(s) == Value(t)
  {
    NormalizingKeepsTheAddress(s);
    NormalizingKeepsTheAddress(t);
    NormalizedIsCanon(s);
    NormalizedIsCanon(t);
  }

  /** A text that already follows the recommendations is left alone. */
  lemma RecommendedIsNormal(s: string)
    requires Recommended(s)
    ensures Normalized(s) == s
  {
    RecommendedIsCanon(s);
    NormalizedIsCanon(s);
    AllZero(Value(s));
  }

  /** All eight zeros spelled out come out as a colon, which is no address. */
  lemma ZerosAreWrecked()
    ensures var s := JoinHex(Zeros(8)); Ipv6Text(s) && Normalized(s) == ":" && !ValidIpv6(":")
  {
    var s := JoinHex(Zeros(8));
    JoinedFields(Zeros(8));
    ValueUncompressed(s);
    assert !PairAt(s, 0);
    NormalizedIsCanon(s);
  }
}
