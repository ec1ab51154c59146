/** Percent encoding and decoding.

    The encoders index a table of hexadecimal digits by a signed char shifted right, so they are defined on
    chars below 128; the decoders are defined on every text. */
module UrlCodec {
  import opened Results
  import opened UrlChars

  const INVALID_PERCENT := "Invalid percent encoding"

  predicate Ascii(s: string) {
    forall i :: 0 <= i < |s| ==> s[i] as int < 128
  }

  // ----- decoding -----

  /** With `plus`, a plus sign stands for a space. */
  function Plain(c: char, plus: bool): char {
    if plus && c == '+' then ' ' else c
  }

  function Unescaped(a: char, b: char): char
    requires IsHexDigit(a) && IsHexDigit(b)
  {
    (16 * GetHexDigit(a) + GetHexDigit(b)) as char
  }

  predicate Escape(s: string) {
    |s| >= 3 && s[0] == '%' && IsHexDigit(s[1]) && IsHexDigit(s[2])
  }

  function Decoded(s: string, plus: bool): (r: Result<string>)
    ensures r.Failure? ==> r.error == INVALID_PERCENT
    decreases |s|
  {
    if s == "" then Success("")
    else if s[0] != '%' then Before(Plain(s[0], plus), Decoded(s[1..], plus))
    else if Escape(s) then Before(Unescaped(s[1], s[2]), Decoded(s[3..], plus))
    else Failure(INVALID_PERCENT)
  }

  function Before(c: char, rest: Result<string>): Result<string> {
    match rest
    case Success(t) => Success([c] + t)
    case Failure(e) => Failure(e)
  }

  /** What was decoded so far, in front of what the rest decodes to. */
  function After(o: string, rest: Result<string>): Result<string> {
    match rest
    case Success(t) => Success(o + t)
    case Failure(e) => Failure(e)
  }

  lemma AfterBefore(o: string, c: char, rest: Result<string>)
    ensures After(o + [c], rest) == After(o, Before(c, rest))
  {
    if rest.Success? {
      assert o + [c] + rest.value == o + ([c] + rest.value);
    }
  }

  lemma AfterNothing(o: string, rest: Result<string>)
    ensures After("", rest) == rest && After(o, Success("")) == Success(o)
  {
    assert o + "" == o;
    if rest.Success? {
      assert "" + rest.value == rest.value;
    }
  }

  method Decode(s: string, b: nat, e: nat) returns (r: Result<string>)
    requires b <= e <= |s|
    ensures r == Decoded(s[b..e], false)
  {
    var p, o := b, "";
    AfterNothing("", Decoded(s[b..e], false));
    while p != e
      invariant b <= p <= e
      invariant Decoded(s[b..e], false) == After(o, Decoded(s[p..e], false))
      decreases e - p
    {
      ghost var rest := s[p..e];
      var c := s[p];
      p := p + 1;
      if c == '%' {
        var x, y := -1, -1;
        if p != e {
          x := GetHexDigit(s[p]);
          p := p + 1;
        }
        if x >= 0 && p != e {
          y := GetHexDigit(s[p]);
          p := p + 1;
        }
        if y < 0 {
          return Failure(INVALID_PERCENT);
        }
        c := (16 * x + y) as char;
        assert rest[3..] == s[p..e];
      } else {
        assert rest[1..] == s[p..e];
      }
      AfterBefore(o, c, Decoded(s[p..e], false));
      o := o + [c];
    }
    AfterNothing(o, Success(""));
    return Success(o);
  }

  method DecodePlus(s: string, b: nat, e: nat) returns (r: Result<string>)
    requires b <= e <= |s|
    ensures r == Decoded(s[b..e], true)
  {
    var p, o := b, "";
    AfterNothing("", Decoded(s[b..e], true));
    while p != e
      invariant b <= p <= e
      invariant Decoded(s[b..e], true) == After(o, Decoded(s[p..e], true))
      decreases e - p
    {
      ghost var rest := s[p..e];
      var c := s[p];
      p := p + 1;
      if c == '+' {
        c := ' ';
        assert rest[1..] == s[p..e];
      } else if c == '%' {
        var x, y := -1, -1;
        if p != e {
          x := GetHexDigit(s[p]);
          p := p + 1;
        }
        if x >= 0 && p != e {
          y := GetHexDigit(s[p]);
          p := p + 1;
        }
        if y < 0 {
          return Failure(INVALID_PERCENT);
        }
        c := (16 * x + y) as char;
        assert rest[3..] == s[p..e];
      } else {
        assert rest[1..] == s[p..e];
      }
      AfterBefore(o, c, Decoded(s[p..e], true));
      o := o + [c];
    }
    AfterNothing(o, Success(""));
    return Success(o);
  }

  /** Decoding fails exactly when some percent sign is not followed by two hexadecimal digits. */
  lemma {:induction false} DecodesExactlyTheWellFormed(s: string, plus: bool)
    ensures Decoded(s, plus).Success? <==> forall i :: 0 <= i < |s| && s[i] == '%' ==> Escape(s[i..])
    decreases |s|
  {
    if s != "" {
      if s[0] != '%' {
        DecodesExactlyTheWellFormed(s[1..], plus);
        EscapesShift(s, 1);
      } else if Escape(s) {
        DecodesExactlyTheWellFormed(s[3..], plus);
        EscapesShift(s, 3);
        assert s[0..] == s;
      } else {
        assert s[0..] == s;
      }
    }
  }

  lemma EscapesShift(s: string, n: nat)
    requires n <= |s|
    ensures (forall i :: 0 <= i < |s| - n && s[n..][i] == '%' ==> Escape(s[n..][i..]))
       <==> (forall i :: n <= i < |s| && s[i] == '%' ==> Escape(s[i..]))
  {
    forall i | n <= i < |s| && s[i] == '%' ensures s[n..][i - n..] == s[i..] && s[n..][i - n] == s[i] {
    }
    forall i | 0 <= i < |s| - n && s[n..][i] == '%' ensures s[n..][i..] == s[n + i..] && s[n + i] == s[n..][i] {
    }
  }

  // ----- encoding -----

  /** The three encoders: a query writes a space as a plus sign and escapes its own separators, of which the
      equals sign separates only keys. */
  datatype Style = Component | QueryKey | QueryVal

  function HexDigit(n: nat): char
    requires n < 16
  {
    if n < 10 then ('0' as int + n) as char else ('A' as int + n - 10) as char
  }

  function Escaped(c: char): string
    requires c as int < 128
  {
    ['%', HexDigit(c as int / 16), HexDigit(c as int % 16)]
  }

  predicate Separates(c: char, style: Style) {
    !style.Component? && (c == '+' || c == '&' || c == ';' || (c == '=' && style.QueryKey?))
  }

  function EncodedChar(c: char, mask: bv8, style: Style): string
    requires c as int < 128
  {
    if c == ' ' && !style.Component? then "+"
    else if !Separates(c, style) && IsChar(c, mask) then [c]
    else Escaped(c)
  }

  function Encoded(s: string, mask: bv8, style: Style): string
    requires Ascii(s)
  {
    if s == "" then "" else EncodedChar(s[0], mask, style) + Encoded(s[1..], mask, style)
  }

  lemma {:induction false} EncodedConcat(s: string, t: string, mask: bv8, style: Style)
    requires Ascii(s) && Ascii(t)
    ensures Ascii(s + t)
    ensures Encoded(s + t, mask, style) == Encoded(s, mask, style) + Encoded(t, mask, style)
    decreases |s|
  {
    if s == "" {
      assert s + t == t;
    } else {
      EncodedConcat(s[1..], t, mask, style);
      assert (s + t)[1..] == s[1..] + t;
    }
  }

  lemma EncodedOneMore(s: string, i: nat, mask: bv8, style: Style)
    requires Ascii(s) && i < |s|
    ensures Encoded(s[..i + 1], mask, style) == Encoded(s[..i], mask, style) + EncodedChar(s[i], mask, style)
  {
    assert s[..i + 1] == s[..i] + [s[i]];
    EncodedConcat(s[..i], [s[i]], mask, style);
    assert Encoded([s[i]], mask, style) == EncodedChar(s[i], mask, style) + Encoded("", mask, style);
  }

  method Encode(s: string, mask: bv8) returns (o: string)
    requires Ascii(s)
    ensures o == Encoded(s, mask, Component)
  {
    o := "";
    for i := 0 to |s|
      invariant o == Encoded(s[..i], mask, Component)
    {
      EncodedOneMore(s, i, mask, Component);
      if IsChar(s[i], mask) {
        o := o + [s[i]];
      } else {
        o := o + Escaped(s[i]);
      }
    }
    assert s[..|s|] == s;
  }

  method EncodeQueryKey(s: string, mask: bv8) returns (o: string)
    requires Ascii(s)
    ensures o == Encoded(s, mask, QueryKey)
  {
    o := "";
    for i := 0 to |s|
      invariant o == Encoded(s[..i], mask, QueryKey)
    {
      EncodedOneMore(s, i, mask, QueryKey);
      var c := s[i];
      if c == ' ' {
        o := o + "+";
      } else if c == '+' {
        o := o + "%2B";
      } else if c == '=' {
        o := o + "%3D";
      } else if c == '&' {
        o := o + "%26";
      } else if c == ';' {
        o := o + "%3B";
      } else if IsChar(c, mask) {
        o := o + [c];
      } else {
        o := o + Escaped(c);
      }
    }
    assert s[..|s|] == s;
  }

  method EncodeQueryVal(s: string, mask: bv8) returns (o: string)
    requires Ascii(s)
    ensures o == Encoded(s, mask, QueryVal)
  {
    o := "";
    for i := 0 to |s|
      invariant o == Encoded(s[..i], mask, QueryVal)
    {
      EncodedOneMore(s, i, mask, QueryVal);
      var c := s[i];
      if c == ' ' {
        o := o + "+";
      } else if c == '+' {
        o := o + "%2B";
      } else if c == '&' {
        o := o + "%26";
      } else if c == ';' {
        o := o + "%3B";
      } else if IsChar(c, mask) {
        o := o + [c];
      } else {
        o := o + Escaped(c);
      }
    }
    assert s[..|s|] == s;
  }

  // ----- the round trip -----

  lemma EscapedUnescapes(c: char)
    requires c as int < 128
    ensures IsHexDigit(Escaped(c)[1]) && IsHexDigit(Escaped(c)[2])
    ensures Unescaped(Escaped(c)[1], Escaped(c)[2]) == c
  {
  }

  /** What is encoded decodes to itself, as soon as the mask does not let a percent sign through. */
  lemma {:induction false} DecodeEncode(s: string, mask: bv8, style: Style)
    requires Ascii(s) && !IsChar('%', mask)
    ensures Decoded(Encoded(s, mask, style), !style.Component?) == Success(s)
    decreases |s|
  {
    if s != "" {
      var c, rest := s[0], Encoded(s[1..], mask, style);
      var o := EncodedChar(c, mask, style) + rest;
      DecodeEncode(s[1..], mask, style);
      EscapedUnescapes(c);
      if |EncodedChar(c, mask, style)| == 1 {
        assert o[1..] == rest;
      } else {
        assert o[3..] == rest && o[..3] == Escaped(c);
      }
      assert [c] + s[1..] == s;
    }
  }

  /** A mask that lets a percent sign through loses the round trip, already on the text "%". */
  lemma RoundTripNeedsPercentEscaped(mask: bv8, style: Style)
    ensures (forall s: string | Ascii(s) :: Decoded(Encoded(s, mask, style), !style.Component?) == Success(s))
       <==> !IsChar('%', mask)
  {
    if IsChar('%', mask) {
      assert Encoded("%", mask, style) == "%" + Encoded("", mask, style) == "%";
      assert Ascii("%") && Decoded("%", !style.Component?).Failure?;
    } else {
      forall s: string | Ascii(s) ensures Decoded(Encoded(s, mask, style), !style.Component?) == Success(s) {
        DecodeEncode(s, mask, style);
      }
    }
  }

  // ----- lengths -----

  /** A char that stands for itself in a text read with one mask is written as one char with another. */
  predicate Shrinks(c: char, plus: bool, mask: bv8, style: Style) {
    c != '%' && (plus <==> !style.Component?) &&
    (Plain(c, plus) as int < 128 ==> |EncodedChar(Plain(c, plus), mask, style)| == 1)
  }

  /** Encoding what was decoded never makes a text longer. */
  lemma {:induction false} EncodeDecodeIsNoLonger(x: string, d: string, plus: bool, mask: bv8, style: Style)
    requires Decoded(x, plus) == Success(d) && Ascii(d)
    requires forall i :: 0 <= i < |x| ==> x[i] == '%' || IsHexDigit(x[i]) || Shrinks(x[i], plus, mask, style)
    requires forall c :: IsHexDigit(c) ==> Shrinks(c, plus, mask, style)
    ensures |Encoded(d, mask, style)| <= |x|
    decreases |x|
  {
    if x != "" {
      var y := if x[0] == '%' then x[3..] else x[1..];
      assert d[1..] == Decoded(y, plus).value;
      assert forall i :: 0 <= i < |d| - 1 ==> d[1..][i] == d[i + 1];
      EncodeDecodeIsNoLonger(y, d[1..], plus, mask, style);
    }
  }

  /** An encoded text consists of chars of the mask, escapes and, in a query, plus signs. */
  lemma {:induction false} EncodedChars(s: string, mask: bv8, style: Style, i: nat)
    requires Ascii(s) && i < |Encoded(s, mask, style)|
    ensures var c := Encoded(s, mask, style)[i];
            c == '%' || IsHexDigit(c) || (c == '+' && !style.Component?) || (IsChar(c, mask) && !Separates(c, style))
    decreases |s|
  {
    var head := EncodedChar(s[0], mask, style);
    if i >= |head| {
      EncodedChars(s[1..], mask, style, i - |head|);
    }
  }

  /** An encoded text is at least as long, so it is empty only when the text was. */
  lemma {:induction false} EncodedGrows(s: string, mask: bv8, style: Style)
    requires Ascii(s)
    ensures |Encoded(s, mask, style)| >= |s|
    decreases |s|
  {
    if s != "" {
      EncodedGrows(s[1..], mask, style);
    }
  }

  /** The length of the text that the first encoder writes, counted without writing it. */
  function Width(s: string, mask: bv8): nat {
    if s == "" then 0 else (if IsChar(s[0], mask) then 1 else 3) + Width(s[1..], mask)
  }

  lemma {:induction false} WidthIsLength(s: string, mask: bv8)
    requires Ascii(s)
    ensures |Encoded(s, mask, Component)| == Width(s, mask)
    decreases |s|
  {
    if s != "" {
      WidthIsLength(s[1..], mask);
    }
  }

  lemma {:induction false} WidthConcat(s: string, t: string, mask: bv8)
    ensures Width(s + t, mask) == Width(s, mask) + Width(t, mask)
    decreases |s|
  {
    if s == "" {
      assert s + t == t;
    } else {
      WidthConcat(s[1..], t, mask);
      assert (s + t)[1..] == s[1..] + t;
    }
  }

  /** Decoding never makes a text wider, whatever bytes it decodes to. */
  lemma {:induction false} DecodedIsNoWider(x: string, mask: bv8)
    requires Decoded(x, false).Success?
    requires forall i :: 0 <= i < |x| ==> x[i] == '%' || IsChar(x[i], mask)
    ensures Width(Decoded(x, false).value, mask) <= |x|
    decreases |x|
  {
    if x != "" {
      var y := if x[0] == '%' then x[3..] else x[1..];
      var d := Decoded(x, false).value;
      assert d[1..] == Decoded(y, false).value;
      DecodedIsNoWider(y, mask);
    }
  }
}
