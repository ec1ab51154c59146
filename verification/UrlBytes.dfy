/** The codecs byte by byte, against tables of digits and the character classes of RFC 3986. */
module UrlBytes {
  import opened Results
  import opened UrlChars
  import opened UrlCodec
  import opened UrlNumbers
  import opened Ipv6Address

  const LOWER_DIGITS := "0123456789abcdef"
  const UPPER_DIGITS := "0123456789ABCDEF"
  const DECIMALS := "0123456789"
  const CAPITALS := "ABCDEFGHIJKLMNOPQRSTUVWXYZ"
  const SMALL_LETTERS := "abcdefghijklmnopqrstuvwxyz"

  // ----- tables -----

  /** The place of a digit in either table is its value, and nothing else is a digit. */
  lemma DigitTables(i: nat)
    requires i < 16
    ensures GetHexDigit(LOWER_DIGITS[i]) == i && GetHexDigit(UPPER_DIGITS[i]) == i
    ensures LowerHexDigit(i) == LOWER_DIGITS[i] && HexDigit(i) == UPPER_DIGITS[i]
    ensures i < 10 ==> IsNum(LOWER_DIGITS[i]) && DigitValue(LOWER_DIGITS[i]) == i
  {
  }

  /** A table of consecutive chars has exactly those of a range. */
  lemma InTable(table: string, first: char, c: char)
    requires first as int + |table| < 128
    requires forall i :: 0 <= i < |table| ==> table[i] as int == first as int + i
    ensures c in table <==> first as int <= c as int < first as int + |table|
  {
    if first as int <= c as int < first as int + |table| {
      assert table[c as int - first as int] == c;
    }
  }

  lemma DecimalTable(i: nat)
    requires i < 10
    ensures DECIMALS[i] as int == '0' as int + i
  {
  }

  lemma CapitalTable(i: nat)
    requires i < 26
    ensures CAPITALS[i] as int == 'A' as int + i
  {
  }

  lemma SmallTable(i: nat)
    requires i < 26
    ensures SMALL_LETTERS[i] as int == 'a' as int + i
  {
  }

  lemma Decimals(c: char)
    ensures c in DECIMALS <==> '0' <= c <= '9'
  {
    forall i | 0 <= i < |DECIMALS| ensures DECIMALS[i] as int == '0' as int + i {
      DecimalTable(i);
    }
    InTable(DECIMALS, '0', c);
  }

  lemma Capitals(c: char)
    ensures c in CAPITALS <==> 'A' <= c <= 'Z'
  {
    forall i | 0 <= i < |CAPITALS| ensures CAPITALS[i] as int == 'A' as int + i {
      CapitalTable(i);
    }
    InTable(CAPITALS, 'A', c);
  }

  lemma SmallLetters(c: char)
    ensures c in SMALL_LETTERS <==> 'a' <= c <= 'z'
  {
    forall i | 0 <= i < |SMALL_LETTERS| ensures SMALL_LETTERS[i] as int == 'a' as int + i {
      SmallTable(i);
    }
    InTable(SMALL_LETTERS, 'a', c);
  }

  lemma OnlyDigits(c: char)
    ensures IsHexDigit(c) <==> c in DECIMALS || c in "abcdef" || c in "ABCDEF"
    ensures IsNum(c) <==> c in DECIMALS
  {
    Decimals(c);
  }

  /** Lower case by the tables of letters; what is no capital stays. */
  lemma LowerTable(i: nat)
    requires i < 26
    ensures Lower([CAPITALS[i]]) == [SMALL_LETTERS[i]] && Lower([SMALL_LETTERS[i]]) == [SMALL_LETTERS[i]]
  {
    CapitalTable(i);
    SmallTable(i);
  }

  lemma LowerOthers(c: char)
    requires c !in CAPITALS
    ensures Lower([c]) == [c]
  {
    Capitals(c);
  }

  // ----- the character classes of RFC 3986 -----

  /** Section 2.3. */
  predicate RfcUnreserved(c: char) {
    c in CAPITALS || c in SMALL_LETTERS || c in DECIMALS || c in "-._~"
  }

  /** Section 2.2. */
  predicate RfcSubDelim(c: char) {
    c in "!$&'()*+,;="
  }

  /** Section 3.3, without the escapes. */
  predicate RfcPchar(c: char) {
    RfcUnreserved(c) || RfcSubDelim(c) || c in ":@"
  }

  /** A registered name, user information, a path, and a query or a fragment have exactly the chars that sections
      3.2.2, 3.2.1, 3.3, 3.4 and 3.5 of RFC 3986 give them. */
  lemma MasksAreRfc3986(c: char)
    ensures IsChar(c, 0x01) <==> RfcUnreserved(c) || RfcSubDelim(c)
    ensures IsChar(c, 0x05) <==> RfcUnreserved(c) || RfcSubDelim(c) || c == ':'
    ensures IsChar(c, 0x0F) <==> RfcPchar(c) || c == '/'
    ensures IsChar(c, 0x1F) <==> RfcPchar(c) || c == '/' || c == '?'
  {
    Masks(c);
    Capitals(c);
    SmallLetters(c);
    Decimals(c);
  }

  // ----- decoding -----

  /** The result with one char in front. */
  function Front(c: char, rest: Result<string>): Result<string> {
    match rest
    case Success(t) => Success([c] + t)
    case Failure(e) => Failure(e)
  }

  lemma OneDigit(x: char)
    requires IsHexDigit(x)
    ensures AllHex([x]) && HexValue([x]) == GetHexDigit(x)
  {
    assert [x][..0] == "";
  }

  lemma PairValue(x: char, y: char)
    requires IsHexDigit(x) && IsHexDigit(y)
    ensures AllHex([x, y]) && HexValue([x, y]) == 16 * GetHexDigit(x) + GetHexDigit(y) < 256
  {
    OneDigit(x);
    assert [x, y][..1] == [x];
  }

  /** Two hexadecimal digits, of either case, behind a percent sign are the byte of that value. */
  lemma EscapeDecodes(x: char, y: char, t: string, plus: bool)
    requires IsHexDigit(x) && IsHexDigit(y)
    ensures AllHex([x, y]) && HexValue([x, y]) < 256
    ensures Decoded(['%', x, y] + t, plus) == Front(HexValue([x, y]) as char, Decoded(t, plus))
  {
    PairValue(x, y);
    assert (['%', x, y] + t)[3..] == t;
  }

  /** Any other char stands for itself, but a plus sign in a query for a space. */
  lemma CharDecodes(c: char, t: string, plus: bool)
    requires c != '%'
    ensures Decoded([c] + t, plus) == Front(if c == '+' && plus then ' ' else c, Decoded(t, plus))
  {
    assert ([c] + t)[1..] == t;
  }

  /** A percent sign without two digits behind it is refused, wherever it stands behind well-formed text. */
  lemma {:induction false} StrayPercentFails(t: string, plus: bool)
    requires |t| < 2 || !IsHexDigit(t[0]) || !IsHexDigit(t[1])
    ensures Decoded("%" + t, plus) == Failure("Invalid percent encoding")
  {
    assert ("%" + t)[1..] == t;
  }

  /** Each byte of the text as a percent sign and its two digits. */
  function Percent(text: string, digits: string): string
    requires |digits| == 16 && forall i :: 0 <= i < |text| ==> text[i] as int < 256
  {
    if text == "" then ""
    else ['%', digits[text[0] as int / 16], digits[text[0] as int % 16]] + Percent(text[1..], digits)
  }

  lemma DigitOf(digits: string, i: nat)
    requires digits == LOWER_DIGITS || digits == UPPER_DIGITS
    requires i < 16
    ensures IsHexDigit(digits[i]) && GetHexDigit(digits[i]) == i
  {
    DigitTables(i);
  }

  lemma ByteDecodes(n: nat, digits: string, t: string, plus: bool)
    requires digits == LOWER_DIGITS || digits == UPPER_DIGITS
    requires n < 256
    ensures Decoded(['%', digits[n / 16], digits[n % 16]] + t, plus) == Front(n as char, Decoded(t, plus))
  {
    DigitOf(digits, n / 16);
    DigitOf(digits, n % 16);
    PairValue(digits[n / 16], digits[n % 16]);
    EscapeDecodes(digits[n / 16], digits[n % 16], t, plus);
  }

  /** Any text of bytes comes back from its escapes, in either case of the digits. */
  lemma {:induction false} BytesComeBack(text: string, digits: string, plus: bool)
    requires digits == LOWER_DIGITS || digits == UPPER_DIGITS
    requires forall i :: 0 <= i < |text| ==> text[i] as int < 256
    ensures Decoded(Percent(text, digits), plus) == Success(text)
    decreases |text|
  {
    if text != "" {
      BytesComeBack(text[1..], digits, plus);
      ByteDecodes(text[0] as int, digits, Percent(text[1..], digits), plus);
      assert [text[0]] + text[1..] == text;
    }
  }

  // ----- encoding -----

  /** What a char is written as: itself, or a percent sign and two upper-case digits; in a query a space is a
      plus sign, and what separates its entries is escaped, an equals sign only in keys. */
  lemma CharEncodes(c: char, t: string, mask: bv8, style: Style)
    requires c as int < 128 && Ascii(t)
    ensures Ascii([c] + t)
    ensures var n := c as int;
            Encoded([c] + t, mask, style) ==
            (if style != Component && c == ' ' then "+"
             else if IsChar(c, mask) && !(style != Component && c in "+&;") && !(style == QueryKey && c == '=') then [c]
             else ['%', UPPER_DIGITS[n / 16], UPPER_DIGITS[n % 16]]) + Encoded(t, mask, style)
  {
    DigitTables(c as int / 16);
    DigitTables(c as int % 16);
    assert ([c] + t)[1..] == t && ([c] + t)[0] == c;
    assert c in "+&;" <==> c == '+' || c == '&' || c == ';';
  }
}
