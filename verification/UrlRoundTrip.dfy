/** Parsing what was printed, and printing what was parsed. */
module UrlRoundTrip {
  import opened Results
  import opened Text
  import opened UrlChars
  import opened UrlCodec
  import opened UrlIpv6
  import opened UrlNumbers
  import opened UrlPath
  import opened UrlQuery
  import opened UrlParts
  import opened Urls
  import opened Ipv6Address
  import opened Ipv6Length
  import opened Ipv6Normal
  import opened Ipv6RoundTrip

  // ----- what can be printed and read back -----

  /** The parser takes the host for what it is. */
  predicate ReadableAuthority(a: Authority) {
    && a.host != "" && (a.ipv == 0 || a.ipv == 4 || a.ipv == 6)
    && (a.ipv == 0 ==> IsChars(a.host, 0x01) && !Ipv4Shaped(a.host))
    && (a.ipv == 4 ==> Ipv4Shaped(a.host))
    && (a.ipv == 6 ==> Ipv6Shaped(a.host))
    && IsChars(a.user, 0x05)
    && (a.port == "" || PortText(a.port))
  }

  /** And stores it as it is. */
  ghost predicate PrintableAuthority(a: Authority) {
    ReadableAuthority(a) && StoredHost(a.host, a.ipv) == Parsed(a.host)
  }

  ghost predicate PrintableRest(f: Fields) {
    && (f.scheme == "" || (IsScheme(f.scheme) && Lower(f.scheme) == f.scheme))
    && AsciiFields(f)
    && (f.path == "" || f.path[0] == '/') && NormalPath(f.path) == f.path
    && HasKeys(f.query)
  }

  ghost predicate Printable(f: Fields) {
    PrintableAuthority(f.authority) && PrintableRest(f)
  }

  function ShownPort(f: Fields): string {
    if DefaultPort(f.scheme, f.authority.port) then "" else f.authority.port
  }

  /** The port that the scheme implies is the one thing that printing drops. */
  function Shown(f: Fields): Fields {
    f.(authority := f.authority.(port := ShownPort(f)))
  }

  // ----- texts without certain chars -----

  /** Chars that end neither the user, nor the host, nor the port. */
  predicate InAuthority(c: char) {
    c != '@' && c != '/' && c != '?' && c != '#'
  }

  predicate AllInAuthority(s: string) {
    forall i :: 0 <= i < |s| ==> InAuthority(s[i])
  }

  lemma Separators(c: char)
    ensures c in "@" <==> c == '@'
    ensures c in ":" <==> c == ':'
    ensures c in "]" <==> c == ']'
    ensures c in "#" <==> c == '#'
    ensures c in "?#" <==> c == '?' || c == '#'
    ensures c in "/?#" <==> c == '/' || c == '?' || c == '#'
    ensures c in ":/?#" <==> c == ':' || c == '/' || c == '?' || c == '#'
  {
  }

  lemma InertIf(s: string, stops: string)
    requires stops == "@" || stops == "/?#"
    requires AllInAuthority(s)
    ensures Inert(s, stops)
  {
    forall i | 0 <= i < |s| ensures s[i] !in stops {
      Separators(s[i]);
    }
  }

  /** A text of one mask is encoded as itself. */
  lemma {:induction false} EncodedPlain(s: string, mask: bv8)
    requires Ascii(s) && IsChars(s, mask)
    ensures Encoded(s, mask, Component) == s
    decreases |s|
  {
    if s != "" {
      assert forall i :: 0 <= i < |s| - 1 ==> s[1..][i] == s[i + 1];
      EncodedPlain(s[1..], mask);
      assert [s[0]] + s[1..] == s;
    }
  }

  lemma UserInAuthority(user: string)
    requires IsChars(user, 0x05)
    ensures AllInAuthority(user) && Ascii(user)
  {
    forall i | 0 <= i < |user| ensures InAuthority(user[i]) && user[i] as int < 128 {
      Masks(user[i]);
    }
  }

  lemma HostChars(a: Authority)
    requires ReadableAuthority(a)
    ensures AllInAuthority(a.host)
    ensures a.ipv != 6 ==> Inert(a.host, ":") && a.host[0] != '['
    ensures a.ipv == 6 ==> Inert(a.host, "]") && a.host[0] != 'v'
  {
    forall i | 0 <= i < |a.host|
      ensures InAuthority(a.host[i]) && a.host[i] != '[' && a.host[i] != ']'
      ensures a.ipv != 6 ==> a.host[i] !in ":"
      ensures a.ipv == 6 ==> a.host[i] !in "]" && a.host[i] != 'v'
    {
      Masks(a.host[i]);
      Separators(a.host[i]);
      if a.ipv == 0 {
        assert IsChar(a.host[i], 0x01);
      }
    }
  }

  lemma PortChars(port: string)
    requires port == "" || PortText(port)
    ensures AllInAuthority(port)
  {
    if port != "" {
      assert forall i :: 0 <= i < |port| ==> IsNum(port[i]);
    }
  }

  // ----- the authority -----

  function PortSuffix(port: string): string {
    if port == "" then "" else ":" + port
  }

  lemma PortReadsBack(user: string, host: string, ipv: int, port: string, url: string)
    requires port == "" || PortText(port)
    ensures PortOf(user, host, ipv, PortSuffix(port), url) == Parsed(Authority(user, host, ipv, port))
  {
    if port != "" {
      assert (":" + port)[1..] == port;
    }
  }

  lemma HostReadsBack(a: Authority, url: string)
    requires ReadableAuthority(a)
    ensures HostOf(a.user, HostText(a.host, a.ipv) + PortSuffix(a.port), url) == Parsed(a)
  {
    var suffix := PortSuffix(a.port);
    HostChars(a);
    PortReadsBack(a.user, a.host, a.ipv, a.port, url);
    if a.ipv == 6 {
      LiteralReadsBack(a, suffix, url);
    } else {
      var text := a.host + suffix;
      Separators(':');
      UntilEnd(a.host, suffix, ":");
      assert text[|a.host|..] == suffix && text[0] == a.host[0];
    }
  }

  lemma Brackets(host: string, suffix: string)
    requires host != ""
    ensures var text, inner := "[" + host + "]" + suffix, host + ("]" + suffix);
            && text[0] == '[' && text[1..] == inner
            && inner[|host|..] == "]" + suffix && inner[|host| + 1..] == suffix && inner[0] == host[0]
  {
  }

  lemma LiteralReadsBack(a: Authority, suffix: string, url: string)
    requires ReadableAuthority(a) && a.ipv == 6 && suffix == PortSuffix(a.port)
    ensures HostOf(a.user, "[" + a.host + "]" + suffix, url) == Parsed(a)
  {
    Brackets(a.host, suffix);
    InnerReadsBack(a, a.host + ("]" + suffix), suffix, url);
  }

  lemma InnerReadsBack(a: Authority, inner: string, suffix: string, url: string)
    requires ReadableAuthority(a) && a.ipv == 6 && suffix == PortSuffix(a.port)
    requires inner == a.host + ("]" + suffix) && inner[|a.host| + 1..] == suffix && inner[0] == a.host[0]
    ensures LiteralOf(a.user, inner, url) == Parsed(a)
  {
    HostChars(a);
    PortReadsBack(a.user, a.host, a.ipv, a.port, url);
    Separators(']');
    UntilEnd(a.host, "]" + suffix, "]");
  }

  function AuthorityString(a: Authority): string
    requires Ascii(a.user)
  {
    UserText(a.user) + (HostText(a.host, a.ipv) + PortSuffix(a.port))
  }

  lemma AuthorityChars(a: Authority)
    requires ReadableAuthority(a)
    ensures AllInAuthority(HostText(a.host, a.ipv) + PortSuffix(a.port))
  {
    HostChars(a);
    PortChars(a.port);
    if a.ipv == 6 {
      Together("[", a.host);
      Together("[" + a.host, "]");
    }
    if a.port != "" {
      Together(":", a.port);
    }
    Together(HostText(a.host, a.ipv), PortSuffix(a.port));
  }

  lemma Together(s: string, t: string)
    requires AllInAuthority(s) && AllInAuthority(t)
    ensures AllInAuthority(s + t)
  {
  }

  lemma AuthorityReadsBack(a: Authority, url: string)
    requires ReadableAuthority(a) && Ascii(a.user)
    ensures AuthorityOf(AuthorityString(a), url) == Parsed(a)
    ensures Inert(AuthorityString(a), "/?#")
  {
    var host := HostText(a.host, a.ipv) + PortSuffix(a.port);
    UserInAuthority(a.user);
    AuthorityChars(a);
    HostReadsBack(a, url);
    if a.user == "" {
      assert "" + host == host;
      HostAlone(host, url);
    } else {
      EncodedPlain(a.user, 0x05);
      UserThenHost(a.user, host, url);
    }
  }

  lemma HostAlone(host: string, url: string)
    requires AllInAuthority(host)
    ensures AuthorityOf(host, url) == HostOf("", host, url) && Inert(host, "/?#")
  {
    InertIf(host, "@");
    InertIf(host, "/?#");
    UntilIs(host, "@", |host|);
  }

  lemma UserThenHost(user: string, host: string, url: string)
    requires AllInAuthority(user) && AllInAuthority(host) && IsChars(user, 0x05)
    ensures AuthorityOf(user + "@" + host, url) == HostOf(user, host, url) && Inert(user + "@" + host, "/?#")
  {
    var text := user + "@" + host;
    InertIf(user, "@");
    InertIf(user, "/?#");
    InertIf(host, "/?#");
    Separators('@');
    UntilIs(text, "@", |user|);
    assert text[..|user|] == user && text[|user| + 1..] == host;
  }

  // ----- path, query and fragment -----

  lemma ComponentText(s: string, mask: bv8)
    requires Ascii(s) && (mask == 0x0F || mask == 0x1F)
    ensures var t := Encoded(s, mask, Component);
            && (mask == 0x0F ==> IsChars(t, 0x2F) && Inert(t, "?#"))
            && IsChars(t, 0x3F) && Inert(t, "#") && Decoded(t, false) == Success(s)
  {
    var t := Encoded(s, mask, Component);
    forall i | 0 <= i < |t|
      ensures IsChar(t[i], 0x3F) && t[i] !in "#"
      ensures mask == 0x0F ==> IsChar(t[i], 0x2F) && t[i] !in "?#"
    {
      EncodedChars(s, mask, Component, i);
      Masks(t[i]);
      Separators(t[i]);
    }
    Masks('%');
    DecodeEncode(s, mask, Component);
  }

  /** A query text has no hash, which would end it. */
  lemma {:induction false} QueryTextChars(list: seq<KeyVal>)
    requires AsciiList(list) && list != []
    ensures Inert(QueryText(list), "#")
    decreases |list|
  {
    EntryTextChars(list[0]);
    if |list| > 1 {
      QueryTextChars(list[1..]);
    }
  }

  lemma EntryTextChars(kv: KeyVal)
    requires Ascii(kv.key) && Ascii(kv.val)
    ensures Inert(EntryText(kv), "#") && Inert("&", "#")
  {
    var key, val := Encoded(kv.key, 0x1F, QueryKey), Encoded(kv.val, 0x1F, QueryVal);
    forall i | 0 <= i < |key| ensures key[i] !in "#" {
      EncodedChars(kv.key, 0x1F, QueryKey, i);
      Masks(key[i]);
      Separators(key[i]);
    }
    forall i | 0 <= i < |val| ensures val[i] !in "#" {
      EncodedChars(kv.val, 0x1F, QueryVal, i);
      Masks(val[i]);
      Separators(val[i]);
    }
    Separators('=');
    Separators('&');
  }

  function QuerySuffix(query: string): string {
    if query == "" then "" else "?" + query
  }

  function FragmentSuffix(fragment: string): string {
    if fragment == "" then "" else "#" + fragment
  }

  lemma FragmentReadsBack(path: string, query: string, fragment: string, url: string)
    requires IsChars(fragment, 0x3F)
    ensures FragmentOf(path, query, FragmentSuffix(fragment), url) == Parsed(Tail(path, query, fragment))
  {
    if fragment != "" {
      assert ("#" + fragment)[1..] == fragment;
    }
  }

  lemma TailReadsBack(t: Tail, url: string)
    requires IsChars(t.path, 0x2F) && Inert(t.path, "?#") && Inert(t.query, "#") && IsChars(t.fragment, 0x3F)
    ensures TailOf(t.path + (QuerySuffix(t.query) + FragmentSuffix(t.fragment)), url) == Parsed(t)
  {
    var suffix := FragmentSuffix(t.fragment);
    FragmentReadsBack(t.path, t.query, t.fragment, url);
    if t.query == "" {
      assert "" + suffix == suffix;
      PathAlone(t.path, suffix, url);
    } else {
      PathThenQuery(t.path, t.query, suffix, url);
      QueryThenFragment(t.path, t.query, suffix, url);
    }
  }

  lemma PathAlone(path: string, suffix: string, url: string)
    requires IsChars(path, 0x2F) && Inert(path, "?#") && (suffix != "" ==> suffix[0] == '#')
    ensures TailOf(path + suffix, url) == FragmentOf(path, "", suffix, url)
  {
    Separators('#');
    UntilEnd(path, suffix, "?#");
    assert (path + suffix)[|path|..] == suffix;
  }

  lemma PathThenQuery(path: string, query: string, suffix: string, url: string)
    requires IsChars(path, 0x2F) && Inert(path, "?#")
    ensures TailOf(path + ("?" + query + suffix), url) == QueryOf(path, query + suffix, url)
  {
    var text := path + ("?" + query + suffix);
    Separators('?');
    UntilEnd(path, "?" + query + suffix, "?#");
    assert text[|path| + 1..] == query + suffix;
  }

  lemma QueryThenFragment(path: string, query: string, suffix: string, url: string)
    requires Inert(query, "#") && (suffix != "" ==> suffix[0] == '#')
    ensures QueryOf(path, query + suffix, url) == FragmentOf(path, query, suffix, url)
  {
    Separators('#');
    UntilEnd(query, suffix, "#");
    assert (query + suffix)[|query|..] == suffix;
  }

  // ----- the whole -----

  /** The parts that the printed tail is cut into. */
  function TailPieces(f: Fields): Tail
    requires AsciiFields(f)
  {
    Tail(Encoded(f.path, 0x0F, Component), if f.query == [] then "" else QueryText(f.query),
         Encoded(f.fragment, 0x1F, Component))
  }

  lemma BehindReadsBack(scheme: string, authority: string, tail: string, a: Authority, t: Tail, url: string)
    requires AuthorityOf(authority, url) == Parsed(a) && Inert(authority, "/?#")
    requires TailOf(tail, url) == Parsed(t) && (tail != "" ==> tail[0] in "/?#")
    ensures Behind(scheme, "//" + authority + tail, url) == Parsed(Pieces(scheme, a, t))
  {
    var text := "//" + authority + tail;
    assert text[2..] == authority + tail;
    UntilEnd(authority, tail, "/?#");
    assert (authority + tail)[|authority|..] == tail;
  }

  lemma SchemeReadsBack(scheme: string, rest: string, url: string)
    requires IsScheme(scheme) && url == scheme + ":" + rest
    ensures Layout(url) == Behind(scheme, rest, url)
  {
    forall i | 0 <= i < |scheme| ensures scheme[i] !in ":/?#" {
      Separators(scheme[i]);
      assert SchemeChar(scheme[i]);
    }
    Separators(':');
    assert url == scheme + (":" + rest);
    UntilEnd(scheme, ":" + rest, ":/?#");
    assert url[|scheme| + 1..] == rest;
  }

  lemma LayoutReadsBack(scheme: string, rest: string, url: string)
    requires (scheme == "" || IsScheme(scheme)) && HasAuthority(rest) && url == SchemeText(scheme) + rest
    ensures Layout(url) == Behind(scheme, rest, url)
  {
    if scheme == "" {
      Separators('/');
      assert "" + rest == rest;
      UntilEnd("", rest, ":/?#");
    } else {
      SchemeReadsBack(scheme, rest, url);
    }
  }

  /** The printed tail, with empty parts left out. */
  lemma TailTextIs(f: Fields)
    requires AsciiFields(f) && HasKeys(f.query)
    ensures var t := TailPieces(f); TailText(f) == t.path + (QuerySuffix(t.query) + FragmentSuffix(t.fragment))
  {
    EncodedGrows(f.fragment, 0x1F, Component);
    if f.query != [] {
      EncodedGrows(f.query[0].key, 0x1F, QueryKey);
    }
  }

  /** Behind an authority, where a path is absolute. */
  lemma TailFirst(f: Fields)
    requires AsciiFields(f) && (f.path == "" || f.path[0] == '/')
    ensures TailText(f) != "" ==> TailText(f)[0] in "/?#"
  {
    PathFirst(f.path);
    Separators('/');
    Separators('?');
    Separators('#');
  }

  lemma TailPiecesReadBack(f: Fields, url: string)
    requires AsciiFields(f) && HasKeys(f.query)
    ensures TailOf(TailText(f), url) == Parsed(TailPieces(f))
  {
    TailTextIs(f);
    ComponentText(f.path, 0x0F);
    ComponentText(f.fragment, 0x1F);
    if f.query != [] {
      QueryTextChars(f.query);
    }
    TailReadsBack(TailPieces(f), url);
  }

  lemma PathFirst(path: string)
    requires Ascii(path) && (path == "" || path[0] == '/')
    ensures path == "" <==> Encoded(path, 0x0F, Component) == ""
    ensures path != "" ==> Encoded(path, 0x0F, Component)[0] == '/'
  {
    Masks('/');
  }

  lemma ShownIsPrintable(f: Fields)
    requires Printable(f)
    ensures PrintableAuthority(Shown(f).authority)
    ensures AuthorityText(f) == "//" + AuthorityString(Shown(f).authority)
  {
  }

  /** f is what the authority a stands for, with the rest of f. */
  ghost predicate Spells(a: Authority, f: Fields) {
    f.authority == a.(host := f.authority.host) && StoredHost(a.host, a.ipv) == Parsed(f.authority.host)
  }

  lemma {:induction false} CutBehindSlashes(scheme: string, authority: string, tail: string, a: Authority, t: Tail,
                                            url: string)
    requires scheme == "" || IsScheme(scheme)
    requires AuthorityOf(authority, url) == Parsed(a) && Inert(authority, "/?#")
    requires TailOf(tail, url) == Parsed(t) && (tail != "" ==> tail[0] in "/?#")
    requires url == SchemeText(scheme) + ("//" + authority + tail)
    ensures Layout(url) == Parsed(Pieces(scheme, a, t))
  {
    BehindReadsBack(scheme, authority, tail, a, t, url);
    LayoutReadsBack(scheme, "//" + authority + tail, url);
  }

  lemma {:induction false} SpelledPieces(a: Authority, f: Fields, url: string)
    requires ReadableAuthority(a) && Ascii(a.user) && PrintableRest(f)
    requires url == SchemeText(f.scheme) + ("//" + AuthorityString(a) + TailText(f))
    ensures Layout(url) == Parsed(Pieces(f.scheme, a, TailPieces(f)))
  {
    AuthorityReadsBack(a, url);
    TailPiecesReadBack(f, url);
    TailFirst(f);
    CutBehindSlashes(f.scheme, AuthorityString(a), TailText(f), a, TailPieces(f), url);
  }

  /** The parts of the text stand for the fields. */
  lemma SpelledMeaning(a: Authority, f: Fields, url: string)
    requires Spells(a, f) && AsciiFields(f) && HasKeys(f.query) && NormalPath(f.path) == f.path
    requires Lower(f.scheme) == f.scheme
    ensures Meaning(Pieces(f.scheme, a, TailPieces(f)), url) == Parsed(f)
  {
    ComponentText(f.path, 0x0F);
    ComponentText(f.fragment, 0x1F);
    if f.query != [] {
      QueryRoundTrip(f.query, url);
    }
  }

  /** Whatever spelling of the host and the port is put in front of the printed tail, the text parses to what
      it stands for. */
  lemma SpellingParses(a: Authority, f: Fields)
    requires ReadableAuthority(a) && Ascii(a.user) && Spells(a, f) && PrintableRest(f)
    requires |SchemeText(f.scheme) + ("//" + AuthorityString(a) + TailText(f))| <= 8000
    ensures Parse(SchemeText(f.scheme) + ("//" + AuthorityString(a) + TailText(f))) == Parsed(f)
  {
    var url := SchemeText(f.scheme) + ("//" + AuthorityString(a) + TailText(f));
    SpelledPieces(a, f, url);
    assert f.scheme == "" ==> Lower(f.scheme) == f.scheme;
    SpelledMeaning(a, f, url);
  }

  /** What can be printed reads back as it was, but for a port that the scheme implies. */
  lemma PrintParse(f: Fields)
    requires Printable(f) && |Printed(f)| <= 8000
    ensures Parse(Printed(f)) == Parsed(Shown(f))
  {
    ShownIsPrintable(f);
    assert TailText(Shown(f)) == TailText(f);
    SpellingParses(Shown(f).authority, Shown(f));
  }

  /** The port that is dropped changes nothing in the text. */
  lemma ShownPrintsTheSame(f: Fields)
    requires Printable(f)
    ensures Printable(Shown(f)) && Build(Shown(f)) == Build(f) == Success(Printed(f))
  {
  }

  // ----- from the parser to the printer and back -----

  lemma LowerAgain(s: string)
    ensures Lower(Lower(s)) == Lower(s)
    ensures IsChars(s, 0x01) ==> IsChars(Lower(s), 0x01)
    ensures Ipv4Shaped(Lower(s)) <==> Ipv4Shaped(s)
    ensures IsScheme(s) ==> IsScheme(Lower(s))
  {
    forall i | 0 <= i < |s|
      ensures LowerChar(LowerChar(s[i])) == LowerChar(s[i])
      ensures IsChar(s[i], 0x01) ==> IsChar(LowerChar(s[i]), 0x01)
      ensures (LowerChar(s[i]) == '.' || IsNum(LowerChar(s[i]))) <==> (s[i] == '.' || IsNum(s[i]))
      ensures SchemeChar(s[i]) ==> SchemeChar(LowerChar(s[i]))
    {
      Masks(s[i]);
      Masks(LowerChar(s[i]));
    }
    if Ipv4Shaped(Lower(s)) {
      forall i | 0 <= i < |s| ensures s[i] == '.' || IsNum(s[i]) {
        assert Lower(s)[i] == '.' || IsNum(Lower(s)[i]);
      }
    }
  }

  /** A URL that can be written is printable once it is parsed. The one host that is not is the single colon
      that the address of eight zeros is turned into. */
  lemma ParsedIsPrintable(url: string)
    requires Parse(url).Parsed? && Parse(url).value.authority.host != ""
    requires AsciiFields(Parse(url).value) && HasKeys(Parse(url).value.query)
    requires Parse(url).value.authority.ipv == 6 ==> Parse(url).value.authority.host != ":"
    ensures Printable(Parse(url).value)
  {
    LayoutWellCut(url);
    MeaningIsPrintable(Layout(url).value, Parse(url).value, url);
  }

  lemma MeaningIsPrintable(p: Pieces, f: Fields, url: string)
    requires WellCut(p) && Meaning(p, url) == Parsed(f)
    requires f.authority.host != "" && (f.authority.ipv == 6 ==> f.authority.host != ":")
    requires AsciiFields(f) && HasKeys(f.query)
    ensures Printable(f)
  {
    LowerAgain(p.scheme);
    HostIsPrintable(p.authority, f.authority);
    PathIsPrintable(p.tail.path);
  }

  lemma {:induction false} NormalIsStored(host: string)
    requires Ipv6Text(host) && Normalized(host) != ":"
    ensures Ipv6Text(Normalized(host)) && Normalized(Normalized(host)) == Normalized(host)
    ensures Ipv6Shaped(Normalized(host))
  {
    NormalizedIsCanon(host);
    NormalizingIsIdempotent(host);
    AcceptedIsShaped(Normalized(host));
  }

  lemma HostIsPrintable(cut: Authority, stored: Authority)
    requires WellCutAuthority(cut) && stored == cut.(host := stored.host)
    requires StoredHost(cut.host, cut.ipv) == Parsed(stored.host)
    requires stored.host != "" && (stored.ipv == 6 ==> stored.host != ":")
    ensures PrintableAuthority(stored)
  {
    if cut.ipv == 0 {
      LowerAgain(cut.host);
    } else if cut.ipv == 6 {
      NormalIsStored(cut.host);
    }
  }

  lemma PathIsPrintable(raw: string)
    requires Decoded(raw, false).Success? && (raw != "" ==> raw[0] == '/')
    ensures var path := NormalPath(Decoded(raw, false).value);
            (path == "" || path[0] == '/') && NormalPath(path) == path
  {
    var d := Decoded(raw, false).value;
    KeepsAbsolute(d);
    NormalPathIsIdempotent(d);
  }

  // ----- lengths -----

  lemma PathIsNoLonger(raw: string, path: string)
    requires IsChars(raw, 0x2F) && Decoded(raw, false).Success? && path == NormalPath(Decoded(raw, false).value)
    requires Ascii(path)
    ensures |Encoded(path, 0x0F, Component)| <= |raw|
  {
    forall i | 0 <= i < |raw| ensures raw[i] == '%' || IsChar(raw[i], 0x0F) {
      Masks(raw[i]);
    }
    Masks('/');
    DecodedIsNoWider(raw, 0x0F);
    NormalPathIsNoWider(Decoded(raw, false).value, 0x0F);
    WidthIsLength(path, 0x0F);
  }

  lemma FragmentIsNoLonger(raw: string, fragment: string)
    requires IsChars(raw, 0x3F) && Decoded(raw, false) == Success(fragment) && Ascii(fragment)
    ensures |FragmentPart(fragment)| <= PartCost(raw)
  {
    forall i | 0 <= i < |raw| ensures raw[i] == '%' || IsChar(raw[i], 0x1F) {
      Masks(raw[i]);
    }
    DecodedIsNoWider(raw, 0x1F);
    WidthIsLength(fragment, 0x1F);
  }

  lemma QueryPartIsNoLonger(raw: string, url: string)
    requires QueryList(raw, url).Success? && AsciiList(QueryList(raw, url).value)
    ensures |QueryPart(QueryList(raw, url).value)| <= PartCost(raw)
  {
    if raw != "" {
      QueryIsNoLonger(raw, url);
    }
  }

  /** By how much a host's text can grow: a pair of colons may have stood for a single zero. */
  function Growth(ipv: int): nat {
    if ipv == 6 then 1 else 0
  }

  lemma HostIsNoLonger(cut: Authority, stored: Authority)
    requires WellCutAuthority(cut) && StoredHost(cut.host, cut.ipv) == Parsed(stored.host)
    requires stored == cut.(host := stored.host)
    ensures HostCost(stored) <= HostCost(cut) + Growth(cut.ipv)
  {
    if cut.ipv == 6 {
      NormalizedIsNoLonger(cut.host);
    }
  }

  lemma AuthorityIsNoLonger(f: Fields)
    requires IsChars(f.authority.user, 0x05) && Ascii(f.authority.user) && f.authority.host != ""
    ensures |AuthorityText(f)| <= 2 + AuthorityCost(f.authority)
  {
    EncodedPlain(f.authority.user, 0x05);
  }

  /** The text of a URL with a name or an IPv4 address is never longer than what was parsed, and that of one
      with an IPv6 address by one char at most. */
  lemma PrintedIsNoLonger(url: string)
    requires Parse(url).Parsed? && Parse(url).value.authority.host != "" && AsciiFields(Parse(url).value)
    ensures |Printed(Parse(url).value)| <= |url| + Growth(Parse(url).value.authority.ipv)
  {
    LayoutWellCut(url);
    MeaningIsNoLonger(Layout(url).value, Parse(url).value, url);
  }

  lemma MeaningIsNoLonger(p: Pieces, f: Fields, url: string)
    requires WellCut(p) && Meaning(p, url) == Parsed(f)
    requires f.authority.host != "" && AsciiFields(f)
    ensures |Printed(f)| <= PiecesCost(p) + Growth(f.authority.ipv)
  {
    HostIsNoLonger(p.authority, f.authority);
    AuthorityIsNoLonger(f);
    TailIsNoLonger(p.tail, f, url);
    assert |SchemeText(f.scheme)| == PartCost(p.scheme);
  }

  lemma TailIsNoLonger(t: Tail, f: Fields, url: string)
    requires IsChars(t.path, 0x2F) && Decoded(t.path, false).Success?
    requires IsChars(t.fragment, 0x3F) && Decoded(t.fragment, false) == Success(f.fragment)
    requires QueryList(t.query, url) == Success(f.query) && f.path == NormalPath(Decoded(t.path, false).value)
    requires AsciiFields(f)
    ensures |TailText(f)| <= TailCost(t)
  {
    PathIsNoLonger(t.path, f.path);
    QueryPartIsNoLonger(t.query, url);
    FragmentIsNoLonger(t.fragment, f.fragment);
  }

  // ----- the main result -----

  /** A parsed URL with a host can be written exactly when each of its query entries has a key. */
  lemma WritableIfKeys(url: string)
    requires Parse(url).Parsed? && Parse(url).value.authority.host != "" && AsciiFields(Parse(url).value)
    ensures Build(Parse(url).value).Success? <==> HasKeys(Parse(url).value.query)
  {
    var f, p := Parse(url).value, Layout(url).value;
    LayoutWellCut(url);
    PathIsPrintable(p.tail.path);
  }

  /** Parse, print and parse again. For every text that parses to a name or an IPv4 address, if it can be
      written at all, then what is written is no longer and parses to the same fields, exactly if the port is
      not the one that the scheme implies. Writing those fields gives the same text once more. */
  lemma ParsePrintParse(url: string)
    requires Parse(url).Parsed? && Parse(url).value.authority.host != ""
    requires Parse(url).value.authority.ipv == 0 || Parse(url).value.authority.ipv == 4
    requires AsciiFields(Parse(url).value) && Build(Parse(url).value).Success?
    ensures var f, text := Parse(url).value, Build(Parse(url).value).value;
            && |text| <= |url|
            && Parse(text) == Parsed(Shown(f))
            && (Parse(text) == Parse(url) <==> !DefaultPort(f.scheme, f.authority.port))
            && AsciiFields(Parse(text).value) && Build(Parse(text).value) == Success(text)
  {
    var f := Parse(url).value;
    WritableIfKeys(url);
    ParsedIsPrintable(url);
    PrintedIsNoLonger(url);
    PrintParse(f);
    ShownPrintsTheSame(f);
    assert DefaultPort(f.scheme, f.authority.port) ==> Shown(f).authority.port != f.authority.port;
  }

  // ----- users that do not come back -----

  function WithoutUser(f: Fields): Fields {
    f.(authority := f.authority.(user := ""))
  }

  /** A user that needs an escape gets one. */
  lemma {:induction false} EscapeInUser(user: string)
    requires Ascii(user) && !IsChars(user, 0x05)
    ensures '%' in Encoded(user, 0x05, Component)
    decreases |user|
  {
    if IsChar(user[0], 0x05) {
      assert forall i :: 0 < i < |user| ==> user[i] == user[1..][i - 1];
      EscapeInUser(user[1..]);
    } else {
      assert Encoded(user, 0x05, Component)[0] == '%';
    }
  }

  lemma EscapedUserInAuthority(user: string)
    requires Ascii(user)
    ensures AllInAuthority(Encoded(user, 0x05, Component))
  {
    var text := Encoded(user, 0x05, Component);
    forall i | 0 <= i < |text| ensures InAuthority(text[i]) {
      EncodedChars(user, 0x05, Component, i);
      Masks(text[i]);
    }
  }

  /** The parser lets no percent sign into the user. */
  lemma EscapedUserIsRefused(user: string, host: string, url: string)
    requires Ascii(user) && !IsChars(user, 0x05) && AllInAuthority(host)
    ensures var text := Encoded(user, 0x05, Component) + "@" + host;
            AuthorityOf(text, url) == Rejected(InvalidPart("User info", url)) && Inert(text, "/?#")
  {
    var encoded := Encoded(user, 0x05, Component);
    var text := encoded + "@" + host;
    EscapeInUser(user);
    EscapedUserInAuthority(user);
    InertIf(encoded, "@");
    InertIf(encoded, "/?#");
    InertIf(host, "/?#");
    Separators('@');
    Masks('%');
    UntilIs(text, "@", |encoded|);
    assert text[..|encoded|] == encoded;
  }

  lemma RefusedBehind(scheme: string, authority: string, tail: string, reason: string, url: string)
    requires AuthorityOf(authority, url) == Rejected(reason) && Inert(authority, "/?#")
    requires tail != "" ==> tail[0] in "/?#"
    ensures Behind(scheme, "//" + authority + tail, url) == Rejected(reason)
  {
    var text := "//" + authority + tail;
    assert text[2..] == authority + tail;
    UntilEnd(authority, tail, "/?#");
  }

  /** The printer escapes a user that the parser then refuses, so that such a URL does not come back: it does
      exactly when the user needs no escapes. */
  lemma UserMustBePlain(f: Fields)
    requires Ascii(f.authority.user) && Printable(WithoutUser(f)) && |Printed(f)| <= 8000
    ensures Parse(Printed(f)) == Parsed(Shown(f)) <==> IsChars(f.authority.user, 0x05)
    ensures !IsChars(f.authority.user, 0x05) ==>
            Parse(Printed(f)) == Rejected(InvalidPart("User info", Printed(f)))
  {
    if IsChars(f.authority.user, 0x05) {
      PrintParse(f);
    } else {
      EscapedUserLayout(f);
    }
  }

  lemma EscapedUserLayout(f: Fields)
    requires Ascii(f.authority.user) && Printable(WithoutUser(f)) && !IsChars(f.authority.user, 0x05)
    ensures Printed(f) != "" && Layout(Printed(f)) == Rejected(InvalidPart("User info", Printed(f)))
  {
    var url, a := Printed(f), Shown(WithoutUser(f)).authority;
    var host := HostText(a.host, a.ipv) + PortSuffix(a.port);
    ShownIsPrintable(WithoutUser(f));
    AuthorityChars(a);
    EscapedUserIsRefused(f.authority.user, host, url);
    RefusedLayout(f, WithoutUser(f), UserText(f.authority.user) + host, InvalidPart("User info", url));
  }

  /** Fields that are printable but for their authority, which is refused. */
  lemma RefusedLayout(f: Fields, g: Fields, authority: string, reason: string)
    requires Printable(g) && AsciiFields(f) && f == g.(authority := f.authority)
    requires AuthorityText(f) == "//" + authority && Inert(authority, "/?#")
    requires AuthorityOf(authority, Printed(f)) == Rejected(reason)
    ensures Printed(f) != "" && Layout(Printed(f)) == Rejected(reason)
  {
    var url, tail := Printed(f), TailText(f);
    TailFirst(g);
    assert TailText(f) == TailText(g);
    RefusedBehind(f.scheme, authority, tail, reason, url);
    LayoutReadsBack(f.scheme, "//" + authority + tail, url);
  }

  // ----- hosts that do not come back -----

  function WithPairHost(f: Fields): Fields {
    f.(authority := f.authority.(host := "::"))
  }

  lemma PairIsPrintable(a: Authority)
    requires a.ipv == 6 && IsChars(a.user, 0x05) && (a.port == "" || PortText(a.port))
    ensures PrintableAuthority(a.(host := "::"))
  {
    OnlyPair();
  }

  /** What the parser stores is printable but for the host, if that is a colon. */
  lemma ParsedButForHost(url: string)
    requires Parse(url).Parsed? && Parse(url).value.authority.ipv == 6
    requires AsciiFields(Parse(url).value) && HasKeys(Parse(url).value.query)
    ensures Printable(WithPairHost(Parse(url).value))
  {
    var f, p := Parse(url).value, Layout(url).value;
    LayoutWellCut(url);
    LowerAgain(p.scheme);
    PathIsPrintable(p.tail.path);
    PairIsPrintable(f.authority);
  }

  lemma ColonInBrackets(user: string, suffix: string, url: string)
    ensures HostOf(user, "[:]" + suffix, url) == Rejected(InvalidPart("Host address", url))
  {
    Brackets(":", suffix);
    assert "[" + ":" + "]" == "[:]";
    Separators(':');
    Separators(']');
    UntilEnd(":", "]" + suffix, "]");
  }

  /** The single colon, in brackets, is no host. */
  lemma ColonHostIsRefused(f: Fields)
    requires f.authority.ipv == 6 && f.authority.host == ":" && AsciiFields(f) && Printable(WithPairHost(f))
    requires |Printed(f)| <= 8000
    ensures Parse(Printed(f)) == Rejected(InvalidPart("Host address", Printed(f)))
  {
    var url, user := Printed(f), f.authority.user;
    var host := "[:]" + PortSuffix(ShownPort(f));
    ColonInBrackets(user, PortSuffix(ShownPort(f)), url);
    UserInAuthority(user);
    PortChars(ShownPort(f));
    ColonHostChars(ShownPort(f));
    if user == "" {
      assert "" + host == host;
      HostAlone(host, url);
    } else {
      EncodedPlain(user, 0x05);
      UserThenHost(user, host, url);
    }
    ColonHostLayout(f, UserText(user) + host, url);
  }

  lemma ColonHostChars(port: string)
    requires AllInAuthority(port)
    ensures AllInAuthority("[:]" + PortSuffix(port))
  {
    if port != "" {
      Together(":", port);
    }
    Together("[:]", PortSuffix(port));
  }

  lemma ColonHostLayout(f: Fields, authority: string, url: string)
    requires f.authority.ipv == 6 && f.authority.host == ":" && AsciiFields(f) && Printable(WithPairHost(f))
    requires url == Printed(f) && authority == UserText(f.authority.user) + ("[:]" + PortSuffix(ShownPort(f)))
    requires AuthorityOf(authority, url) == Rejected(InvalidPart("Host address", url)) && Inert(authority, "/?#")
    ensures url != "" && Layout(url) == Rejected(InvalidPart("Host address", url))
  {
    assert "[" + ":" + "]" == "[:]";
    assert AuthorityText(f) == "//" + authority;
    RefusedLayout(f, WithPairHost(f), authority, InvalidPart("Host address", url));
  }

  /** The same for an IPv6 address, whose text can grow by the one zero that a pair of colons stood for. It
      comes back exactly if it was not turned into a single colon and did not grow beyond 8000 chars. */
  lemma ParsePrintParseIpv6(url: string)
    requires Parse(url).Parsed? && Parse(url).value.authority.ipv == 6 && Parse(url).value.authority.host != ""
    requires AsciiFields(Parse(url).value) && Build(Parse(url).value).Success?
    ensures var f, text := Parse(url).value, Build(Parse(url).value).value;
            && |text| <= |url| + 1
            && (Parse(text) == Parsed(Shown(f)) <==> f.authority.host != ":" && |text| <= 8000)
            && (Parse(text).Parsed? ==> AsciiFields(Parse(text).value) && Build(Parse(text).value) == Success(text))
  {
    var f := Parse(url).value;
    WritableIfKeys(url);
    PrintedIsNoLonger(url);
    if |Printed(f)| > 8000 {
      assert Parse(Printed(f)) == Rejected(TOO_LONG);
    } else if f.authority.host != ":" {
      ParsedIsPrintable(url);
      PrintParse(f);
      ShownPrintsTheSame(f);
    } else {
      ParsedButForHost(url);
      ColonHostIsRefused(f);
    }
  }

  // ----- an instance -----

  /** The smallest URL of a websocket: what is stated above of every parsed URL is stated of something. */
  lemma SmallestUrl()
    ensures Parse("ws://a/") == Parsed(Fields("ws", Authority("", "a", 0, ""), "/", [], ""))
  {
    var f := Fields("ws", Authority("", "a", 0, ""), "/", [], "");
    assert Lower("ws") == "ws" && Lower("a") == "a";
    RootIsNormal();
    assert Printable(f);
    assert Encoded("/", 0x0F, Component) == "/" by {
      EncodedPlain("/", 0x0F);
    }
    assert Printed(f) == "ws://a/";
    PrintParse(f);
  }

  lemma RootIsNormal()
    ensures NormalPath("/") == "/"
  {
    assert "/"[1..] == "";
    assert Split("/", '/') == ["", ""];
    assert [""][1..] == [];
    assert Elems("/") == [""];
  }
}
