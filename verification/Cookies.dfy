/** The checks on cookies and headers, and the Cookie header of the handshake request. */
module CookieRules {
  import opened Text
  import opened UrlChars

  predicate IsAlphaNum(c: char) {
    'A' <= c <= 'Z' || 'a' <= c <= 'z' || '0' <= c <= '9'
  }

  /** A tchar of section 3.2.6 of RFC 7230. */
  predicate IsTokenChar(c: char) {
    IsAlphaNum(c) || c in "!#$%&'*+-.^_`|~"
  }

  predicate IsToken(s: string) {
    s != "" && forall i :: 0 <= i < |s| ==> IsTokenChar(s[i])
  }

  /** Any octet but the controls, with TAB allowed. */
  predicate IsFieldValue(s: string) {
    forall i :: 0 <= i < |s| ==> s[i] == '\t' || (' ' <= s[i] && s[i] as int != 127 && s[i] as int < 256)
  }

  /** A cookie-octet of section 4.1.1 of RFC 6265, without the quotes that may surround a value there. */
  predicate IsCookieOctet(c: char) {
    '!' <= c <= '~' && c != '"' && c != ',' && c != ';' && c != '\\'
  }

  predicate IsCookieValue(s: string) {
    forall i :: 0 <= i < |s| ==> IsCookieOctet(s[i])
  }

  /** A token is any visible char but the delimiters of section 3.2.6 of RFC 7230. */
  lemma TokenCharsAreRfc7230(c: char)
    ensures IsTokenChar(c) <==> '!' <= c <= '~' && c !in "\"(),/:;<=>?@[\\]{}"
  {
  }

  /** The ranges of section 4.1.1 of RFC 6265. */
  lemma CookieOctetsAreRfc6265(c: char)
    ensures var n := c as int;
            IsCookieOctet(c) <==>
            n == 0x21 || 0x23 <= n <= 0x2B || 0x2D <= n <= 0x3A || 0x3C <= n <= 0x5B || 0x5D <= n <= 0x7E
  {
  }

  ghost predicate AllCookiesPass(cookies: map<string, string>) {
    forall k :: k in cookies ==> IsToken(k) && IsCookieValue(cookies[k])
  }

  ghost predicate AllHeadersPass(headers: map<string, string>) {
    forall k :: k in headers ==> IsToken(k) && IsFieldValue(headers[k])
  }

  // ----- writing the header -----

  function Pair(key: string, value: string): string {
    key + "=" + value
  }

  /** The pairs in the order in which the hash map is iterated. */
  function Pairs(cookies: map<string, string>, order: seq<string>): (pairs: seq<string>)
    requires forall k :: k in order ==> k in cookies
    ensures |pairs| == |order|
    ensures forall i :: 0 <= i < |order| ==> pairs[i] == Pair(order[i], cookies[order[i]])
  {
    seq(|order|, i requires 0 <= i < |order| => Pair(order[i], cookies[order[i]]))
  }

  /** `order` is an order in which the map may be iterated: every key once. */
  ghost predicate IterationOrder(cookies: map<string, string>, order: seq<string>) {
    && (forall k :: k in order <==> k in cookies)
    && (forall i, j :: 0 <= i < j < |order| ==> order[i] != order[j])
  }

  /** The decorator's loop. */
  method CookieHeader(cookies: map<string, string>, order: seq<string>) returns (header: string)
    requires IterationOrder(cookies, order)
    ensures header == Join(Pairs(cookies, order), "; ")
  {
    header := "";
    var first := true;
    for i := 0 to |order|
      invariant first <==> i == 0
      invariant header == Join(Pairs(cookies, order)[..i], "; ")
    {
      var key, value := order[i], cookies[order[i]];
      ghost var done := Pairs(cookies, order)[..i];
      assert Pairs(cookies, order)[..i + 1] == done + [Pair(key, value)];
      if !first {
        JoinAppend(done, "; ", Pair(key, value));
        header := header + "; ";
      }
      first := false;
      header := header + key + "=" + value;
    }
    assert Pairs(cookies, order)[..|order|] == Pairs(cookies, order);
  }

  /** A field that the decorator adds to the handshake request. */
  datatype Field = Field(name: string, value: string)

  function HeaderFields(headers: map<string, string>, order: seq<string>): (fields: seq<Field>)
    requires forall k :: k in order ==> k in headers
    ensures |fields| == |order|
  {
    seq(|order|, i requires 0 <= i < |order| => Field(order[i], headers[order[i]]))
  }

  /** Every header is a field of its own with its value, and there are no others. */
  ghost predicate Carries(fields: seq<Field>, headers: map<string, string>) {
    && (forall k :: k in headers ==> Field(k, headers[k]) in fields)
    && (forall f :: f in fields ==> f.name in headers && f.value == headers[f.name])
    && (forall i, j :: 0 <= i < j < |fields| ==> fields[i].name != fields[j].name)
  }

  lemma HeaderFieldsCarry(headers: map<string, string>, order: seq<string>)
    requires IterationOrder(headers, order)
    ensures Carries(HeaderFields(headers, order), headers)
  {
    var fields := HeaderFields(headers, order);
    forall k | k in headers ensures Field(k, headers[k]) in fields {
      var i :| 0 <= i < |order| && order[i] == k;
      assert fields[i] == Field(k, headers[k]);
    }
  }

  // ----- reading it back, as section 4.2.1 of RFC 6265 has it -----

  function WithoutSpace(part: string): string {
    if part != "" && part[0] == ' ' then part[1..] else part
  }

  function FirstEquals(s: string): (i: nat)
    ensures i <= |s|
  {
    if s == "" || s[0] == '=' then 0 else 1 + FirstEquals(s[1..])
  }

  function Key(pair: string): string {
    pair[..FirstEquals(pair)]
  }

  function Value(pair: string): string {
    var i := FirstEquals(pair);
    if i < |pair| then pair[i + 1..] else ""
  }

  function ReadPairs(parts: seq<string>): map<string, string> {
    if parts == [] then map[]
    else
      var pair := WithoutSpace(parts[|parts| - 1]);
      ReadPairs(parts[..|parts| - 1])[Key(pair) := Value(pair)]
  }

  /** Split at the semicolons, drop the space after each, and split each piece at its first equals sign. */
  function ReadHeader(header: string): map<string, string> {
    if header == "" then map[] else ReadPairs(Split(header, ';'))
  }

  lemma {:induction false} PairReadsBack(key: string, value: string)
    requires '=' !in key
    ensures FirstEquals(Pair(key, value)) == |key|
    ensures Key(Pair(key, value)) == key && Value(Pair(key, value)) == value
    decreases |key|
  {
    var pair := Pair(key, value);
    if key != "" {
      PairReadsBack(key[1..], value);
      assert pair[1..] == Pair(key[1..], value);
    }
    assert pair[|key| + 1..] == value;
  }

  /** The pairs as they stand between the semicolons. */
  function Spaced(pairs: seq<string>): (parts: seq<string>)
    ensures |parts| == |pairs|
    ensures forall i :: 0 <= i < |pairs| ==> parts[i] == (if i == 0 then "" else " ") + pairs[i]
  {
    seq(|pairs|, i requires 0 <= i < |pairs| => (if i == 0 then "" else " ") + pairs[i])
  }

  lemma {:induction false} SpacedJoin(pairs: seq<string>)
    requires pairs != []
    ensures Join(Spaced(pairs), ";") == Join(pairs, "; ")
    decreases |pairs|
  {
    if |pairs| == 1 {
      assert "" + pairs[0] == pairs[0];
      assert Spaced(pairs) == pairs;
    } else {
      var n := |pairs| - 1;
      SpacedJoin(pairs[..n]);
      JoinAppend(pairs[..n], "; ", pairs[n]);
      assert pairs == pairs[..n] + [pairs[n]];
      JoinAppend(Spaced(pairs[..n]), ";", " " + pairs[n]);
      assert Spaced(pairs) == Spaced(pairs[..n]) + [" " + pairs[n]];
      assert ";" + (" " + pairs[n]) == "; " + pairs[n];
    }
  }

  lemma CheckedPair(key: string, value: string)
    requires IsToken(key) && IsCookieValue(value)
    ensures '=' !in key && ';' !in Pair(key, value)
    ensures Pair(key, value)[0] != ' '
  {
    assert !IsTokenChar('=') && !IsTokenChar(';') && !IsTokenChar(' ') && !IsCookieOctet(';');
  }

  /** m holds the cookies of the first n keys. */
  ghost predicate Holds(m: map<string, string>, cookies: map<string, string>, keys: seq<string>) {
    && (forall k :: k in m <==> k in keys)
    && (forall k :: k in m && k in cookies ==> m[k] == cookies[k])
  }

  lemma OnePairReadsBack(part: string, key: string, value: string)
    requires IsToken(key) && IsCookieValue(value)
    requires part == Pair(key, value) || part == " " + Pair(key, value)
    ensures ';' !in part
    ensures Key(WithoutSpace(part)) == key && Value(WithoutSpace(part)) == value
  {
    CheckedPair(key, value);
    PairReadsBack(key, value);
    assert WithoutSpace(part) == Pair(key, value);
  }

  lemma HoldsMore(m: map<string, string>, cookies: map<string, string>, keys: seq<string>, key: string)
    requires Holds(m, cookies, keys) && key in cookies
    ensures Holds(m[key := cookies[key]], cookies, keys + [key])
  {
  }

  lemma {:induction false} ReadPairsBack(cookies: map<string, string>, order: seq<string>, parts: seq<string>)
    requires AllCookiesPass(cookies) && (forall i :: 0 <= i < |order| ==> order[i] in cookies)
    requires |parts| == |order|
    requires forall i :: 0 <= i < |parts| ==>
               parts[i] == Pair(order[i], cookies[order[i]]) || parts[i] == " " + Pair(order[i], cookies[order[i]])
    ensures Holds(ReadPairs(parts), cookies, order)
    decreases |parts|
  {
    if parts != [] {
      var n := |parts| - 1;
      ReadPairsBack(cookies, order[..n], parts[..n]);
      OnePairReadsBack(parts[n], order[n], cookies[order[n]]);
      HoldsMore(ReadPairs(parts[..n]), cookies, order[..n], order[n]);
      InitAndLast(order);
    }
  }

  /** Whatever the iteration order, the header that is sent reads back as exactly the cookies that were set. */
  lemma CookieHeaderReadsBack(cookies: map<string, string>, order: seq<string>)
    requires AllCookiesPass(cookies) && IterationOrder(cookies, order)
    ensures ReadHeader(Join(Pairs(cookies, order), "; ")) == cookies
  {
    if order == [] {
      assert forall k :: k !in cookies;
    } else {
      var parts := Spaced(Pairs(cookies, order));
      PiecesOfHeader(cookies, order);
      ReadPairsBack(cookies, order, parts);
      assert ReadHeader(Join(Pairs(cookies, order), "; ")) == ReadPairs(parts);
    }
  }

  lemma PiecesOfHeader(cookies: map<string, string>, order: seq<string>)
    requires AllCookiesPass(cookies) && (forall i :: 0 <= i < |order| ==> order[i] in cookies) && order != []
    ensures var pairs := Pairs(cookies, order);
            Join(pairs, "; ") != "" && Split(Join(pairs, "; "), ';') == Spaced(pairs)
  {
    var parts := Spaced(Pairs(cookies, order));
    SpacedJoin(Pairs(cookies, order));
    forall i | 0 <= i < |parts| ensures ';' !in parts[i] {
      OnePairReadsBack(parts[i], order[i], cookies[order[i]]);
    }
    SplitJoin(parts, ';');
    HeaderNotEmpty(parts);
  }

  lemma HeaderNotEmpty(parts: seq<string>)
    requires parts != [] && parts[0] != ""
    ensures Join(parts, ";") != ""
  {
  }

  // ----- what is sent cannot end its line -----

  lemma {:induction false} JoinIsFieldValue(pieces: seq<string>, sep: string)
    requires IsFieldValue(sep) && forall i :: 0 <= i < |pieces| ==> IsFieldValue(pieces[i])
    ensures IsFieldValue(Join(pieces, sep))
    decreases |pieces|
  {
    if |pieces| > 1 {
      JoinIsFieldValue(pieces[1..], sep);
    }
  }

  /** The Cookie header has no control chars, so that no cookie can add a line to the request. */
  lemma CookieHeaderIsFieldValue(cookies: map<string, string>, order: seq<string>)
    requires AllCookiesPass(cookies) && forall k :: k in order ==> k in cookies
    ensures IsFieldValue(Join(Pairs(cookies, order), "; "))
  {
    var pairs := Pairs(cookies, order);
    forall i | 0 <= i < |pairs| ensures IsFieldValue(pairs[i]) {
      assert order[i] in cookies;
      PairIsFieldValue(order[i], cookies[order[i]]);
    }
    JoinIsFieldValue(pairs, "; ");
  }

  lemma PairIsFieldValue(key: string, value: string)
    requires IsToken(key) && IsCookieValue(value)
    ensures IsFieldValue(Pair(key, value))
  {
    forall i | 0 <= i < |key| ensures ' ' <= key[i] < 127 as char {
      assert IsTokenChar(key[i]);
    }
  }

  // ----- the decorator -----

  predicate Sendable(fields: seq<Field>) {
    forall i :: 0 <= i < |fields| ==> IsToken(fields[i].name) && IsFieldValue(fields[i].value)
  }

  /** The Cookie field, if there are cookies. */
  method CookieFields(cookies: map<string, string>, order: seq<string>) returns (fields: seq<Field>)
    requires AllCookiesPass(cookies) && IterationOrder(cookies, order)
    ensures cookies == map[] ==> fields == []
    ensures cookies != map[] ==>
              |fields| == 1 && fields[0].name == "Cookie" && ReadHeader(fields[0].value) == cookies
    ensures Sendable(fields)
  {
    if |cookies| == 0 {
      return [];
    }
    var header := CookieHeader(cookies, order);
    CookieHeaderReadsBack(cookies, order);
    CookieHeaderIsFieldValue(cookies, order);
    CookieFieldIsSendable(header);
    fields := [Field("Cookie", header)];
  }

  lemma CookieFieldIsSendable(header: string)
    requires IsFieldValue(header)
    ensures Sendable([Field("Cookie", header)])
  {
    assert forall c :: c in "Cookie" ==> IsTokenChar(c);
  }

  method AppendHeaders(fields: seq<Field>, headers: map<string, string>, order: seq<string>)
    returns (more: seq<Field>)
    requires AllHeadersPass(headers) && IterationOrder(headers, order) && Sendable(fields)
    ensures more == fields + HeaderFields(headers, order) && Sendable(more)
  {
    more := fields;
    for i := 0 to |order|
      invariant more == fields + HeaderFields(headers, order)[..i] && Sendable(more)
    {
      assert order[i] in headers;
      more := more + [Field(order[i], headers[order[i]])];
    }
  }

  predicate IsCookieName(name: string) {
    Lower(name) == "cookie"
  }

  /** The Cookie fields of a request, whose names are compared without regard to case. */
  function Mine(fields: seq<Field>): seq<Field>
    decreases |fields|
  {
    if fields == [] then []
    else
      var n := |fields| - 1;
      Mine(fields[..n]) + if IsCookieName(fields[n].name) then [fields[n]] else []
  }

  /** The server reads exactly these cookies: there is no Cookie field, or one that says so. */
  ghost predicate Sends(fields: seq<Field>, cookies: map<string, string>) {
    if cookies == map[] then Mine(fields) == []
    else |Mine(fields)| == 1 && ReadHeader(Mine(fields)[0].value) == cookies
  }

  ghost predicate NamesNoCookie(headers: map<string, string>) {
    forall k :: k in headers ==> !IsCookieName(k)
  }

  lemma {:induction false} MineConcat(a: seq<Field>, b: seq<Field>)
    ensures Mine(a + b) == Mine(a) + Mine(b)
    decreases |b|
  {
    if b == [] {
      assert a + b == a;
    } else {
      var n := |b| - 1;
      assert a + b == (a + b[..n]) + [b[n]];
      assert (a + b)[..|a + b| - 1] == a + b[..n];
      MineConcat(a, b[..n]);
    }
  }

  lemma {:induction false} NoneMine(fields: seq<Field>)
    ensures Mine(fields) == [] <==> forall i :: 0 <= i < |fields| ==> !IsCookieName(fields[i].name)
    decreases |fields|
  {
    if fields != [] {
      NoneMine(fields[..|fields| - 1]);
    }
  }

  lemma CookieIsCookieName()
    ensures IsCookieName("Cookie")
  {
    assert Lower("Cookie") == "cookie";
  }

  /** Of the headers, those named Cookie are Cookie fields too. */
  lemma HeadersMine(headers: map<string, string>, order: seq<string>)
    requires IterationOrder(headers, order)
    ensures Mine(HeaderFields(headers, order)) == [] <==> NamesNoCookie(headers)
  {
    var fields := HeaderFields(headers, order);
    NoneMine(fields);
    if Mine(fields) == [] {
      forall k | k in headers ensures !IsCookieName(k) {
        var i :| 0 <= i < |order| && order[i] == k;
        assert fields[i].name == k;
      }
    }
  }

  /** What the server reads are the cookies that were set, if and only if no header is named Cookie. */
  lemma SendsIff(front: seq<Field>, rest: seq<Field>, cookies: map<string, string>, headers: map<string, string>)
    requires cookies == map[] ==> front == []
    requires cookies != map[] ==> |front| == 1 && front[0].name == "Cookie" && ReadHeader(front[0].value) == cookies
    requires Mine(rest) == [] <==> NamesNoCookie(headers)
    ensures Sends(front + rest, cookies) <==> NamesNoCookie(headers)
  {
    MineConcat(front, rest);
    if cookies != map[] {
      CookieIsCookieName();
      assert front[..0] == [] && Mine(front) == [front[0]];
    }
  }

  /** The fields of the request, each map in the order in which it is iterated. Whatever the orders, nothing that
      was set can end its line, and the server reads exactly the cookies that were set if and only if no header
      has the name of the Cookie field, in whatever case. */
  method Decorate(cookies: map<string, string>, cookieOrder: seq<string>, headers: map<string, string>,
                  headerOrder: seq<string>)
    returns (fields: seq<Field>)
    requires AllCookiesPass(cookies) && IterationOrder(cookies, cookieOrder)
    requires AllHeadersPass(headers) && IterationOrder(headers, headerOrder)
    ensures cookies == map[] ==> fields == HeaderFields(headers, headerOrder) && Carries(fields, headers)
    ensures cookies != map[] ==>
              && fields != [] && fields[0].name == "Cookie" && ReadHeader(fields[0].value) == cookies
              && fields[1..] == HeaderFields(headers, headerOrder) && Carries(fields[1..], headers)
    ensures Sendable(fields)
    ensures Sends(fields, cookies) <==> NamesNoCookie(headers)
  {
    HeaderFieldsCarry(headers, headerOrder);
    var front := CookieFields(cookies, cookieOrder);
    fields := AppendHeaders(front, headers, headerOrder);
    HeadersMine(headers, headerOrder);
    SendsIff(front, HeaderFields(headers, headerOrder), cookies, headers);
  }

  lemma {:induction false} OneCookieReadsBack(key: string, value: string)
    requires IsToken(key) && IsCookieValue(value)
    ensures ReadHeader(Pair(key, value)) == map[key := value]
  {
    var cookies, order := map[key := value], [key];
    assert Pairs(cookies, order) == [Pair(key, value)];
    CookieHeaderReadsBack(cookies, order);
  }

  /** setHeader accepts the name of the Cookie field, and then a request carries a cookie that was never set. */
  lemma {:induction false} CookieBySetHeader(name: string, key: string, value: string)
    requires IsToken(name) && IsCookieName(name) && IsToken(key) && IsCookieValue(value)
    ensures var headers, fields := map[name := Pair(key, value)], [Field(name, Pair(key, value))];
            && AllHeadersPass(headers) && IterationOrder(headers, [name]) && !NamesNoCookie(headers)
            && HeaderFields(headers, [name]) == fields && !Sends(fields, map[])
            && ReadHeader(fields[0].value) == map[key := value]
  {
    PairIsFieldValue(key, value);
    OneCookieReadsBack(key, value);
    var fields := [Field(name, Pair(key, value))];
    assert HeaderFields(map[name := Pair(key, value)], [name]) == fields;
    NoneMine(fields);
    assert IsCookieName(fields[0].name);
  }

  /** setHeader("Cookie", "a=b") */
  lemma CookieBySetHeaderInstance()
    ensures IsToken("Cookie") && IsCookieName("Cookie") && IsToken("a") && IsCookieValue("b") && Pair("a", "b") == "a=b"
  {
    CookieIsCookieName();
    assert forall c :: c in "Cookie" ==> IsTokenChar(c);
  }
}
