/** Every text cut at its marks, and what the parser says of each cut: the parts, or the first complaint in order.
    Which of its parts a text has is written as options; the marks are the chars between them. */
module UrlComplaints {
  import opened Results
  import opened UrlChars
  import opened UrlNumbers
  import opened UrlQuery
  import opened UrlParts
  import opened UrlRoundTrip
  import opened Ipv6Normal

  function InFront(part: Option<string>, mark: string): string {
    if part.Some? then part.value + mark else ""
  }

  function BehindMark(mark: string, part: Option<string>): string {
    if part.Some? then mark + part.value else ""
  }

  /** A part that is not there is stored as an empty one. */
  function Stored(part: Option<string>): string {
    if part.Some? then part.value else ""
  }

  /** None of the chars is in the text. */
  predicate Free(s: string, chars: set<char>) {
    forall i :: 0 <= i < |s| ==> s[i] !in chars
  }

  lemma {:induction false} CutAt(front: string, rest: string, stops: string, chars: set<char>)
    requires forall c :: c in stops ==> c in chars
    requires Free(front, chars) && (rest != "" ==> rest[0] in stops)
    ensures Until(front + rest, stops) == |front|
    ensures (front + rest)[..|front|] == front && (front + rest)[|front|..] == rest
    ensures rest != "" ==> (front + rest)[|front|] == rest[0] && (front + rest)[|front| + 1..] == rest[1..]
  {
    assert Inert(front, stops);
    UntilEnd(front, rest, stops);
  }

  lemma BehindOne(mark: char, rest: string)
    ensures ([mark] + rest)[1..] == rest && ([mark] + rest)[0] == mark
  {
  }

  // ----- path, query and fragment -----

  function TailOfParts(path: string, query: Option<string>, fragment: Option<string>): string {
    path + (BehindMark("?", query) + BehindMark("#", fragment))
  }

  lemma {:induction false} FragmentVerdict(path: string, query: string, fragment: Option<string>, url: string)
    ensures FragmentOf(path, query, BehindMark("#", fragment), url) ==
            if fragment.Some? && !IsChars(fragment.value, 0x3F) then
              Rejected("Fragment" + " '" + fragment.value + "' in '" + url + "' is invalid")
            else Parsed(Tail(path, query, Stored(fragment)))
  {
    if fragment.Some? {
      BehindOne('#', fragment.value);
    }
  }

  /** The path is complained of before the fragment; a query only when it is read. */
  lemma {:induction false} TailVerdict(path: string, query: Option<string>, fragment: Option<string>, url: string)
    requires Free(path, {'?', '#'}) && Free(Stored(query), {'#'})
    ensures TailOf(TailOfParts(path, query, fragment), url) ==
            if !IsChars(path, 0x2F) then Rejected("Path" + " '" + path + "' in '" + url + "' is invalid")
            else if fragment.Some? && !IsChars(fragment.value, 0x3F) then
              Rejected("Fragment" + " '" + fragment.value + "' in '" + url + "' is invalid")
            else Parsed(Tail(path, Stored(query), Stored(fragment)))
  {
    var rest := BehindMark("#", fragment);
    Separators('?');
    Separators('#');
    FragmentVerdict(path, Stored(query), fragment, url);
    CutAt(path, BehindMark("?", query) + rest, "?#", {'?', '#'});
    if query.Some? {
      CutAt(query.value, rest, "#", {'#'});
      assert ("?" + query.value + rest)[1..] == query.value + rest;
    } else {
      assert "" + rest == rest;
    }
  }

  // ----- the authority -----

  lemma {:induction false} PortVerdict(user: string, host: string, ipv: int, port: Option<string>, url: string)
    ensures PortOf(user, host, ipv, BehindMark(":", port), url) ==
            if port.Some? && !PortText(port.value) then
              Rejected("Port" + " '" + port.value + "' in '" + url + "' is invalid")
            else Parsed(Authority(user, host, ipv, Stored(port)))
  {
    if port.Some? {
      BehindOne(':', port.value);
    }
  }

  /** A host that is not in brackets, and the port behind it. */
  lemma {:induction false} HostVerdict(user: string, host: string, port: Option<string>, url: string)
    requires Free(host, {':'}) && (host != "" ==> host[0] != '[')
    ensures HostOf(user, host + BehindMark(":", port), url) ==
            if !Ipv4Shaped(host) && !IsChars(host, 0x01) then Rejected("Host address" + " in '" + url + "' is invalid")
            else if port.Some? && !PortText(port.value) then
              Rejected("Port" + " '" + port.value + "' in '" + url + "' is invalid")
            else Parsed(Authority(user, host, if Ipv4Shaped(host) then 4 else 0, Stored(port)))
  {
    var rest := BehindMark(":", port);
    Separators(':');
    CutAt(host, rest, ":", {':'});
    PortVerdict(user, host, if Ipv4Shaped(host) then 4 else 0, port, url);
    assert host + rest != "" ==> (host + rest)[0] == if host == "" then ':' else host[0];
  }

  lemma BracketBegins(user: string, text: string, url: string)
    ensures HostOf(user, "[" + text, url) == LiteralOf(user, text, url)
  {
    BehindOne('[', text);
  }

  lemma {:induction false} OpenVerdict(user: string, inner: string, url: string)
    requires Free(inner, {']'})
    ensures LiteralOf(user, inner, url) == Rejected("Missing ] in '" + url + "'")
  {
    UntilIs(inner, "]", |inner|);
  }

  lemma {:induction false} ClosedVerdict(user: string, inner: string, rest: string, url: string)
    requires Free(inner, {']'})
    ensures LiteralOf(user, inner + ("]" + rest), url) ==
            if inner != "" && inner[0] == 'v' then OutOfModel
            else if !Ipv6Shaped(inner) then Rejected("Host address" + " in '" + url + "' is invalid")
            else PortOf(user, inner, 6, rest, url)
  {
    Separators(']');
    BehindOne(']', rest);
    CutAt(inner, "]" + rest, "]", {']'});
    assert (inner + ("]" + rest))[0] == if inner == "" then ']' else inner[0];
  }

  /** A host in brackets. What follows the bracket is a port behind a colon, or is dropped. */
  lemma {:induction false} LiteralVerdict(user: string, inner: string, rest: string, url: string)
    requires Free(inner, {']'})
    ensures HostOf(user, "[" + (inner + BehindMark("]", None)), url) == Rejected("Missing ] in '" + url + "'")
    ensures HostOf(user, "[" + (inner + BehindMark("]", Some(rest))), url) ==
            if inner != "" && inner[0] == 'v' then OutOfModel
            else if !Ipv6Shaped(inner) then Rejected("Host address" + " in '" + url + "' is invalid")
            else if rest != "" && rest[0] == ':' && !PortText(rest[1..]) then
              Rejected("Port" + " '" + rest[1..] + "' in '" + url + "' is invalid")
            else Parsed(Authority(user, inner, 6, if rest != "" && rest[0] == ':' then rest[1..] else ""))
  {
    assert inner + "" == inner;
    BracketBegins(user, inner, url);
    OpenVerdict(user, inner, url);
    BracketBegins(user, inner + ("]" + rest), url);
    ClosedVerdict(user, inner, rest, url);
  }

  /** The user is complained of before the host. */
  lemma {:induction false} UserVerdict(user: Option<string>, host: string, url: string)
    requires Free(if user.Some? then user.value else host, {'@'})
    ensures AuthorityOf(InFront(user, "@") + host, url) ==
            if user.Some? && !IsChars(user.value, 0x05) then Rejected("User info" + " in '" + url + "' is invalid")
            else HostOf(Stored(user), host, url)
  {
    Separators('@');
    if user.Some? {
      assert user.value + "@" + host == user.value + ("@" + host);
      BehindOne('@', host);
      CutAt(user.value, "@" + host, "@", {'@'});
    } else {
      assert "" + host == host && host + "" == host;
      CutAt(host, "", "@", {'@'});
    }
  }

  // ----- the whole -----

  /** The first complaint of the two, or both. */
  function BothParts(scheme: string, authority: Outcome<Authority>, tail: Outcome<Tail>): Outcome<Pieces> {
    if authority.Rejected? then Rejected(authority.reason)
    else if authority.OutOfModel? then OutOfModel
    else if tail.Rejected? then Rejected(tail.reason)
    else if tail.OutOfModel? then OutOfModel
    else Parsed(Pieces(scheme, authority.value, tail.value))
  }

  lemma {:induction false} SchemeVerdict(scheme: Option<string>, rest: string, url: string)
    requires scheme.Some? ==> Free(scheme.value, {':', '/', '?', '#'})
    requires scheme.None? ==> Until(rest, ":/?#") == |rest| || rest[Until(rest, ":/?#")] != ':'
    requires url == InFront(scheme, ":") + rest
    ensures Layout(url) ==
            if scheme.Some? && !IsScheme(scheme.value) then Rejected("Scheme" + " in '" + url + "' is invalid")
            else UrlParts.Behind(Stored(scheme), rest, url)
  {
    if scheme.Some? {
      assert scheme.value + ":" + rest == scheme.value + (":" + rest);
      BehindOne(':', rest);
      forall c | c in ":/?#" ensures c in {':', '/', '?', '#'} {
        Separators(c);
      }
      Separators(':');
      CutAt(scheme.value, ":" + rest, ":/?#", {':', '/', '?', '#'});
    } else {
      assert "" + rest == rest;
    }
  }

  /** A text with an authority: its scheme is complained of first, then its authority, then what follows. */
  lemma {:induction false} UrlVerdict(scheme: Option<string>, authority: string, tail: string, url: string)
    requires scheme.Some? ==> Free(scheme.value, {':', '/', '?', '#'})
    requires Free(authority, {'/', '?', '#'}) && (tail != "" ==> tail[0] in {'/', '?', '#'})
    requires url == InFront(scheme, ":") + ("//" + (authority + tail))
    ensures Layout(url) ==
            if scheme.Some? && !IsScheme(scheme.value) then Rejected("Scheme" + " in '" + url + "' is invalid")
            else BothParts(Stored(scheme), AuthorityOf(authority, url), TailOf(tail, url))
  {
    var rest := authority + tail;
    BehindTwo(rest);
    SchemeVerdict(scheme, "//" + rest, url);
    SlashesVerdict(Stored(scheme), authority, tail, url);
  }

  lemma {:induction false} BehindTwo(rest: string)
    ensures ("//" + rest)[2..] == rest && HasAuthority("//" + rest) && Until("//" + rest, ":/?#") == 0
  {
    Separators('/');
    assert ("//" + rest)[0] == '/';
    UntilIs("//" + rest, ":/?#", 0);
  }

  lemma {:induction false} SlashesVerdict(scheme: string, authority: string, tail: string, url: string)
    requires Free(authority, {'/', '?', '#'}) && (tail != "" ==> tail[0] in {'/', '?', '#'})
    ensures BehindSlashes(scheme, authority + tail, url) ==
            BothParts(scheme, AuthorityOf(authority, url), TailOf(tail, url))
  {
    forall c | c in "/?#" ensures c in {'/', '?', '#'} {
      Separators(c);
    }
    if tail != "" {
      Separators(tail[0]);
    }
    CutAt(authority, tail, "/?#", {'/', '?', '#'});
  }

  /** A text without one. */
  lemma {:induction false} HostlessVerdict(scheme: Option<string>, tail: string, url: string)
    requires scheme.Some? ==> Free(scheme.value, {':', '/', '?', '#'})
    requires scheme.None? ==> Until(tail, ":/?#") == |tail| || tail[Until(tail, ":/?#")] != ':'
    requires !("//" <= tail) && url == InFront(scheme, ":") + tail
    ensures Layout(url) ==
            if scheme.Some? && !IsScheme(scheme.value) then Rejected("Scheme" + " in '" + url + "' is invalid")
            else BothParts(Stored(scheme), Parsed(Authority("", "", -1, "")), TailOf(tail, url))
  {
    SchemeVerdict(scheme, tail, url);
  }

  // ----- every text is cut in one of these ways -----

  lemma {:induction false} Cut(s: string, stops: string, n: nat)
    requires n == Until(s, stops)
    ensures s[..n] + s[n..] == s && (n < |s| ==> s[n] in stops)
    ensures forall i :: 0 <= i < n ==> s[..n][i] !in stops
  {
  }

  lemma MarkAndRest(s: string, n: nat)
    requires n < |s|
    ensures s[n..] == [s[n]] + s[n + 1..]
  {
  }

  /** Every text is a scheme or none, and an authority behind two slashes or none, and what follows. */
  lemma {:induction false} EveryUrl(url: string) returns (scheme: Option<string>, rest: string)
    ensures url == InFront(scheme, ":") + rest
    ensures scheme.Some? ==> Free(scheme.value, {':', '/', '?', '#'})
    ensures scheme.None? ==> Until(rest, ":/?#") == |rest| || rest[Until(rest, ":/?#")] != ':'
  {
    var n := Until(url, ":/?#");
    Cut(url, ":/?#", n);
    if n < |url| && url[n] == ':' {
      scheme, rest := Some(url[..n]), url[n + 1..];
      forall i | 0 <= i < n ensures url[..n][i] !in {':', '/', '?', '#'} {
        Separators(url[..n][i]);
      }
      MarkAndRest(url, n);
      assert url[..n] + ":" + rest == url[..n] + ([':'] + rest);
    } else {
      scheme, rest := None, url;
      assert "" + url == url;
    }
  }

  lemma {:induction false} EveryRest(rest: string) returns (authority: string, tail: string)
    requires "//" <= rest
    ensures rest == "//" + (authority + tail)
    ensures Free(authority, {'/', '?', '#'}) && (tail != "" ==> tail[0] in {'/', '?', '#'})
  {
    var s := rest[2..];
    var n := Until(s, "/?#");
    Cut(s, "/?#", n);
    authority, tail := s[..n], s[n..];
    forall i | 0 <= i < n ensures s[..n][i] !in {'/', '?', '#'} {
      Separators(s[..n][i]);
    }
    if n < |s| {
      Separators(s[n]);
    }
    assert rest == "//" + s;
  }

  lemma {:induction false} EveryTail(tail: string)
    returns (path: string, query: Option<string>, fragment: Option<string>)
    ensures tail == TailOfParts(path, query, fragment) && Free(path, {'?', '#'}) && Free(Stored(query), {'#'})
  {
    var n := Until(tail, "?#");
    Cut(tail, "?#", n);
    path := tail[..n];
    forall i | 0 <= i < n ensures tail[..n][i] !in {'?', '#'} {
      Separators(tail[..n][i]);
    }
    query, fragment := QueryOrNone(tail[n..]);
  }

  lemma {:induction false} QueryOrNone(rest: string) returns (query: Option<string>, fragment: Option<string>)
    requires rest != "" ==> rest[0] in "?#"
    ensures rest == BehindMark("?", query) + BehindMark("#", fragment) && Free(Stored(query), {'#'})
  {
    query, fragment := None, None;
    if rest != "" {
      Separators(rest[0]);
      MarkAndRest(rest, 0);
      if rest[0] == '#' {
        fragment := Some(rest[1..]);
      } else {
        query, fragment := QueryAndFragment(rest[1..]);
        Joins("?", query.value, BehindMark("#", fragment));
      }
    }
  }

  lemma {:induction false} Joins(a: string, b: string, c: string)
    ensures a + (b + c) == a + b + c
  {
  }

  lemma {:induction false} QueryAndFragment(rest: string) returns (query: Option<string>, fragment: Option<string>)
    ensures query.Some? && rest == query.value + BehindMark("#", fragment) && Free(query.value, {'#'})
  {
    var q := Until(rest, "#");
    Cut(rest, "#", q);
    query := Some(rest[..q]);
    forall i | 0 <= i < q ensures rest[..q][i] !in {'#'} {
      Separators(rest[..q][i]);
    }
    fragment := None;
    if q < |rest| {
      Separators(rest[q]);
      MarkAndRest(rest, q);
      fragment := Some(rest[q + 1..]);
    } else {
      assert rest[..q] + "" == rest;
    }
  }

  /** A text is one part, or a part and what is behind the first mark. */
  lemma {:induction false} EveryPart(s: string, mark: char) returns (part: string, rest: Option<string>)
    requires mark == ']' || mark == ':' || mark == '@'
    ensures Free(part, {mark}) && s == part + BehindMark([mark], rest)
  {
    var n := Until(s, [mark]);
    Cut(s, [mark], n);
    part, rest := s[..n], None;
    if n < |s| {
      MarkAndRest(s, n);
      rest := Some(s[n + 1..]);
    } else {
      assert s[..n] == s && s + "" == s;
    }
  }

  lemma {:induction false} EveryAuthority(text: string) returns (user: Option<string>, host: string)
    ensures text == InFront(user, "@") + host && Free(if user.Some? then user.value else host, {'@'})
  {
    var part, rest := EveryPart(text, '@');
    if rest.Some? {
      user, host := Some(part), rest.value;
      Joins(part, "@", host);
    } else {
      user, host := None, part;
      assert "" + part == part && part + "" == part;
    }
  }

  /** A host is in brackets, or begins a bracket that nothing closes, or is in none. */
  lemma {:induction false} EveryHost(text: string) returns (host: string, rest: Option<string>)
    ensures text != "" && text[0] == '[' ==> Free(host, {']'}) && text == "[" + (host + BehindMark("]", rest))
    ensures text == "" || text[0] != '[' ==>
              Free(host, {':'}) && (host != "" ==> host[0] != '[') && text == host + BehindMark(":", rest)
  {
    if text != "" && text[0] == '[' {
      MarkAndRest(text, 0);
      host, rest := EveryPart(text[1..], ']');
    } else {
      host, rest := EveryPart(text, ':');
      assert host != "" ==> text[0] == host[0];
    }
  }
}
