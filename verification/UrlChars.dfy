/** The character classes of the URL engine, and its small scanning loops.

    A char stands for one byte, so it is expected below 256; the loops take the text and two positions in it,
    where the source takes two pointers. */
module UrlChars {

  predicate IsAlpha(c: char) {
    'A' <= c <= 'Z' || 'a' <= c <= 'z'
  }

  predicate IsNum(c: char) {
    '0' <= c <= '9'
  }

  predicate IsAlnum(c: char) {
    IsAlpha(c) || IsNum(c)
  }

  predicate IsHexDigit(c: char) {
    IsNum(c) || 'A' <= c <= 'F' || 'a' <= c <= 'f'
  }

  predicate Unreserved(c: char) {
    || IsAlnum(c)
    || c == '!' || c == '$' || c == '&' || c == '\'' || c == '(' || c == ')' || c == '*' || c == '+' || c == ','
    || c == '-' || c == '.' || c == ';' || c == '=' || c == '_' || c == '~'
  }

  /** The table of character classes; every char is in at most one. */
  function Tbl(c: char): bv8 {
    if Unreserved(c) then 0x01
    else if c == '@' then 0x02
    else if c == ':' then 0x04
    else if c == '/' then 0x08
    else if c == '?' then 0x10
    else if c == '%' then 0x20
    else 0x00
  }

  predicate IsChar(c: char, mask: bv8) {
    Tbl(c) & mask != 0
  }

  predicate IsChars(s: string, mask: bv8) {
    forall i :: 0 <= i < |s| ==> IsChar(s[i], mask)
  }

  method CheckChars(s: string, b: nat, e: nat, mask: bv8) returns (ok: bool)
    requires b <= e <= |s|
    ensures ok <==> IsChars(s[b..e], mask)
  {
    var p := b;
    while p != e
      invariant b <= p <= e
      invariant forall i :: b <= i < p ==> IsChar(s[i], mask)
      decreases e - p
    {
      if !IsChar(s[p], mask) {
        assert s[b..e][p - b] == s[p];
        return false;
      }
      p := p + 1;
    }
    return true;
  }

  /** The six masks in use, char by char. */
  lemma Masks(c: char)
    ensures IsChar(c, 0x01) <==> Unreserved(c)
    ensures IsChar(c, 0x05) <==> Unreserved(c) || c == ':'
    ensures IsChar(c, 0x0F) <==> Unreserved(c) || c == '@' || c == ':' || c == '/'
    ensures IsChar(c, 0x1F) <==> Unreserved(c) || c == '@' || c == ':' || c == '/' || c == '?'
    ensures IsChar(c, 0x2F) <==> IsChar(c, 0x0F) || c == '%'
    ensures IsChar(c, 0x3F) <==> IsChar(c, 0x1F) || c == '%'
  {
  }

  /** The value of a hexadecimal digit, and -1 for any other char. */
  function GetHexDigit(c: char): (d: int)
    ensures d >= 0 <==> IsHexDigit(c)
    ensures -1 <= d < 16
  {
    if IsNum(c) then c as int - '0' as int
    else if 'A' <= c <= 'F' then c as int - 'A' as int + 10
    else if 'a' <= c <= 'f' then c as int - 'a' as int + 10
    else -1
  }

  function LowerChar(c: char): char {
    if 'A' <= c <= 'Z' then (c as int + 32) as char else c
  }

  /** The text in lower case. */
  function Lower(s: string): (r: string)
    ensures |r| == |s|
    ensures forall i :: 0 <= i < |s| ==> r[i] == LowerChar(s[i])
  {
    seq(|s|, i requires 0 <= i < |s| => LowerChar(s[i]))
  }

  /** The loop sets bit 0x20 of each capital. */
  method ToLower(s: string) returns (r: string)
    ensures r == Lower(s)
  {
    r := "";
    for i := 0 to |s|
      invariant r == Lower(s[..i])
    {
      var c := s[i];
      if 'A' <= c <= 'Z' {
        SetBit(c);
        c := (c as bv8 | 0x20) as char;
      }
      r := r + [c];
      assert Lower(s[..i + 1]) == Lower(s[..i]) + [LowerChar(s[i])];
    }
    assert s[..|s|] == s;
  }

  lemma SetBit(c: char)
    requires 'A' <= c <= 'Z'
    ensures (c as bv8 | 0x20) as char == LowerChar(c)
  {
    var b := c as bv8;
    assert 65 <= b <= 90;
    assert b | 0x20 == b + 0x20;
  }

  /** The first position from i on with a char of q, or the length of s. */
  function Search(s: string, q: string, i: nat): (n: nat)
    requires i <= |s|
    ensures i <= n <= |s|
    ensures forall j :: i <= j < n ==> s[j] !in q
    ensures n < |s| ==> s[n] in q
    decreases |s| - i
  {
    if i == |s| || s[i] in q then i else Search(s, q, i + 1)
  }

  /** The length of the longest prefix of s without a char of q. */
  function Until(s: string, q: string): (n: nat)
    ensures n <= |s|
    ensures forall i :: 0 <= i < n ==> s[i] !in q
    ensures n < |s| ==> s[n] in q
  {
    Search(s, q, 0)
  }

  lemma UntilIs(s: string, q: string, n: nat)
    requires n <= |s| && (forall i :: 0 <= i < n ==> s[i] !in q) && (n < |s| ==> s[n] in q)
    ensures Until(s, q) == n
  {
  }

  method FindFirstOf(s: string, b: nat, e: nat, q: string) returns (p: nat)
    requires b <= e <= |s|
    ensures p == b + Until(s[b..e], q)
  {
    p := b;
    while p != e
      invariant b <= p <= e
      invariant forall i :: b <= i < p ==> s[i] !in q
      decreases e - p
    {
      for t := 0 to |q|
        invariant s[p] !in q[..t]
      {
        if s[p] == q[t] {
          UntilIs(s[b..e], q, p - b);
          return;
        }
      }
      p := p + 1;
    }
    UntilIs(s[b..e], q, p - b);
  }

  method FindChar(s: string, b: nat, e: nat, c: char) returns (p: nat)
    requires b <= e <= |s|
    ensures p == b + Until(s[b..e], [c])
  {
    p := b;
    while p != e && s[p] != c
      invariant b <= p <= e
      invariant forall i :: b <= i < p ==> s[i] != c
      decreases e - p
    {
      p := p + 1;
    }
    UntilIs(s[b..e], [c], p - b);
  }
}
