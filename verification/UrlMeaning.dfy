/** What the text of a URL stands for, said of the text as it is written: where its parts begin and end, which
    parts ignore case, how a query is split, and which ports are left out when it is written again. */
module UrlMeaning {
  import opened Results
  import opened UrlChars
  import opened UrlCodec
  import opened UrlIpv6
  import opened UrlNumbers
  import opened UrlPath
  import opened UrlQuery
  import opened UrlParts
  import opened UrlRoundTrip
  import opened UrlBytes
  import opened Ipv6Normal

  // ----- case -----

  /** The small letter of a capital, and any other char itself. */
  predicate SmallOf(c: char, d: char) {
    if c in CAPITALS then exists i :: 0 <= i < 26 && CAPITALS[i] == c && SMALL_LETTERS[i] == d else d == c
  }

  predicate LowerOf(s: string, low: string) {
    |low| == |s| && forall i :: 0 <= i < |s| ==> SmallOf(s[i], low[i])
  }

  lemma SmallOfIs(c: char, d: char)
    ensures SmallOf(c, d) <==> d == LowerChar(c)
  {
    Capitals(c);
    if 'A' <= c <= 'Z' {
      var k := c as int - 'A' as int;
      CapitalTable(k);
      SmallTable(k);
      assert CAPITALS[k] == c && SMALL_LETTERS[k] == LowerChar(c);
      forall i | 0 <= i < 26 && CAPITALS[i] == c ensures i == k {
        CapitalTable(i);
      }
    }
  }

  lemma LowerOfIs(s: string, low: string)
    ensures LowerOf(s, low) <==> low == Lower(s)
  {
    forall i | 0 <= i < |s| && |low| == |s| ensures SmallOf(s[i], low[i]) <==> low[i] == Lower(s)[i] {
      SmallOfIs(s[i], low[i]);
    }
  }

  // ----- a URL with an authority, part by part -----

  /** Each part as it is written, escapes and capitals included. */
  function Written(scheme: string, a: Authority, t: Tail): string {
    (if scheme == "" then "" else scheme + ":")
    + ("//"
       + ((if a.user == "" then "" else a.user + "@")
          + ((if a.ipv == 6 then "[" + a.host + "]" else a.host) + (if a.port == "" then "" else ":" + a.port)))
       + (t.path
          + ((if t.query == "" then "" else "?" + t.query) + (if t.fragment == "" then "" else "#" + t.fragment))))
  }

  /** The parts have their chars, and none has a char that would end it. */
  predicate Parts(scheme: string, a: Authority, t: Tail) {
    && (scheme == "" || IsScheme(scheme))
    && ReadableAuthority(a)
    && IsChars(t.path, 0x2F) && '?' !in t.path && '#' !in t.path && (t.path != "" ==> t.path[0] == '/')
    && '#' !in t.query
    && IsChars(t.fragment, 0x3F)
  }

  /** A name is stored in lower case, dotted numbers as they are, an IPv6 address in its normal form. */
  ghost predicate HostStands(text: string, ipv: int, stored: string) {
    && (ipv == 0 ==> LowerOf(text, stored))
    && (ipv == 4 ==> stored == text)
    && (ipv == 6 ==> Ipv6Text(text) && stored == Normalized(text))
  }

  lemma InertOf(s: string, stops: string)
    requires stops == "#" || stops == "?#"
    requires '#' !in s && (stops == "?#" ==> '?' !in s)
    ensures Inert(s, stops)
  {
    forall i | 0 <= i < |s| ensures s[i] !in stops {
      Separators(s[i]);
    }
  }

  lemma {:induction false} AuthorityIsWritten(a: Authority)
    requires ReadableAuthority(a)
    ensures Ascii(a.user)
    ensures AuthorityString(a) == (if a.user == "" then "" else a.user + "@")
                                  + ((if a.ipv == 6 then "[" + a.host + "]" else a.host)
                                     + (if a.port == "" then "" else ":" + a.port))
  {
    UserInAuthority(a.user);
    EncodedPlain(a.user, 0x05);
  }

  /** The text is cut where its parts were put together. */
  lemma {:induction false} CutAsWritten(scheme: string, a: Authority, t: Tail, url: string)
    requires Parts(scheme, a, t) && url == Written(scheme, a, t)
    ensures Layout(url) == Parsed(Pieces(scheme, a, t))
  {
    AuthorityIsWritten(a);
    AuthorityReadsBack(a, url);
    InertOf(t.path, "?#");
    InertOf(t.query, "#");
    TailReadsBack(t, url);
    Separators('/');
    Separators('?');
    Separators('#');
    CutBehindSlashes(scheme, AuthorityString(a), t.path + (QuerySuffix(t.query) + FragmentSuffix(t.fragment)), a, t,
                     url);
  }

  /** f says what the parts stand for. */
  ghost predicate Stands(scheme: string, a: Authority, t: Tail, f: Fields, url: string) {
    && LowerOf(scheme, f.scheme)
    && f.authority == a.(host := f.authority.host) && HostStands(a.host, a.ipv, f.authority.host)
    && Decoded(t.path, false).Success? && f.path == NormalPath(Decoded(t.path, false).value)
    && QueryList(t.query, url) == Success(f.query)
    && Decoded(t.fragment, false) == Success(f.fragment)
  }

  /** A URL parses to what its parts stand for. */
  lemma {:induction false} MeansWhatIsWritten(scheme: string, a: Authority, t: Tail, f: Fields, url: string)
    requires Parts(scheme, a, t) && url == Written(scheme, a, t) && |url| <= 8000
    requires Stands(scheme, a, t, f, url)
    ensures Parse(url) == Parsed(f)
  {
    CutAsWritten(scheme, a, t, url);
    LowerOfIs(scheme, f.scheme);
    LowerOfIs(a.host, f.authority.host);
  }

  /** Otherwise the first part that does not decode is the reason why it is refused. */
  lemma {:induction false} RefusedAsWritten(scheme: string, a: Authority, t: Tail, url: string)
    requires Parts(scheme, a, t) && url == Written(scheme, a, t) && |url| <= 8000
    requires a.ipv == 6 ==> Ipv6Text(a.host)
    ensures Decoded(t.path, false).Failure? ==> Parse(url) == Rejected("Invalid percent encoding")
    ensures Decoded(t.path, false).Success? && QueryList(t.query, url).Failure? ==>
              Parse(url) == Rejected(QueryList(t.query, url).error)
    ensures (Decoded(t.path, false).Success? && QueryList(t.query, url).Success?
             && Decoded(t.fragment, false).Failure?) ==> Parse(url) == Rejected("Invalid percent encoding")
  {
    CutAsWritten(scheme, a, t, url);
  }

  lemma {:induction false} TooLongIsRefused(url: string)
    ensures |url| > 8000 ==> Parse(url) == Rejected("URI is longer than 8000 characters")
    ensures url == "" ==> Parse(url) == Parsed(Fields("", Authority("", "", -1, ""), "", [], ""))
  {
  }

  // ----- case is ignored in the scheme and in a name -----

  /** The URL itself matters to a query only when it is quoted in a complaint. */
  lemma {:induction false} SameEntries(q: string, url: string, other: string)
    requires Entries(q, FieldReader(url)).Success?
    ensures Entries(q, FieldReader(other)) == Entries(q, FieldReader(url))
    decreases |q|
  {
    var m := Until(q, ";&");
    SameEntry(q[..m], url, other);
    if m < |q| {
      SameEntries(q[m + 1..], url, other);
    }
  }

  lemma SameEntry(part: string, url: string, other: string)
    requires EntryOf(part, FieldReader(url)).Success?
    ensures EntryOf(part, FieldReader(other)) == EntryOf(part, FieldReader(url))
  {
  }

  /** Two spellings of the scheme and of a name that differ in case alone parse to the same fields. */
  lemma {:induction false} CaseIsIgnored(scheme: string, scheme': string, a: Authority, a': Authority, t: Tail,
                                         low: string, host: string, url: string, url': string)
    requires Parts(scheme, a, t) && Parts(scheme', a', t) && a.ipv == 0
    requires LowerOf(scheme, low) && LowerOf(scheme', low)
    requires LowerOf(a.host, host) && LowerOf(a'.host, host) && a' == a.(host := a'.host)
    requires url == Written(scheme, a, t) && url' == Written(scheme', a', t)
    requires Parse(url).Parsed?
    ensures Parse(url') == Parse(url)
  {
    CutAsWritten(scheme, a, t, url);
    CutAsWritten(scheme', a', t, url');
    LowerOfIs(scheme, low);
    LowerOfIs(scheme', low);
    LowerOfIs(a.host, host);
    LowerOfIs(a'.host, host);
    if t.query != "" {
      SameEntries(t.query, url, url');
    }
  }

  // ----- the query -----

  /** The entries of a text that has begun: at least one, which may be empty. */
  function Begun(q: string, url: string): Result<seq<KeyVal>> {
    if q == "" then Success([KeyVal("", "")]) else QueryList(q, url)
  }

  lemma BegunIs(q: string, url: string)
    ensures Begun(q, url) == Entries(q, FieldReader(url))
  {
    if q == "" {
      assert EntryOf("", FieldReader(url)) == Success(KeyVal("", "")) by {
        assert ""[..0] == "";
      }
    }
  }

  /** An entry without separators is a key, and a value behind the first equals sign, each checked and decoded
      with its plus signs. */
  lemma {:induction false} OneEntryIs(key: string, val: string, url: string)
    requires forall c :: c in key ==> c != ';' && c != '&' && c != '='
    requires forall c :: c in val ==> c != ';' && c != '&'
    requires IsChars(key, 0x3F) && IsChars(val, 0x3F)
    requires Decoded(key, true).Success? && Decoded(val, true).Success?
    ensures QueryList(key + "=" + val, url) == Success([KeyVal(Decoded(key, true).value, Decoded(val, true).value)])
    ensures key != "" ==> QueryList(key, url) == Success([KeyVal(Decoded(key, true).value, "")])
  {
    var read := FieldReader(url);
    PlainParts(key, val);
    KeyThenVal(key + ("=" + val), key, val, read);
    KeyAlone(key, read);
    OnlyEntry(key + ("=" + val), read);
    OnlyEntry(key, read);
    assert key + "=" + val == key + ("=" + val);
  }

  lemma {:induction false} OnlyEntry(part: string, read: Reader)
    requires Inert(part, ";&")
    ensures Entries(part, read) ==
            var kv := EntryOf(part, read);
            if kv.Failure? then Failure(kv.error) else Success([kv.value])
  {
    UntilIs(part, ";&", |part|);
    assert part[..|part|] == part;
  }

  lemma {:induction false} PlainParts(key: string, val: string)
    requires forall c :: c in key ==> c != ';' && c != '&' && c != '='
    requires forall c :: c in val ==> c != ';' && c != '&'
    ensures Inert(key, "=") && Inert(key, ";&") && Inert(key + ("=" + val), ";&")
  {
    Stops('=');
    forall i | 0 <= i < |key| ensures key[i] !in "=" && key[i] !in ";&" {
      assert key[i] in key;
      Stops(key[i]);
    }
    forall i | 0 <= i < |val| ensures val[i] !in ";&" {
      assert val[i] in val;
      Stops(val[i]);
    }
  }

  /** Behind either separator the entries go on. The first that fails is what the query fails with. */
  lemma {:induction false} SeparatorsSplit(p: string, sep: char, q: string, url: string)
    requires sep == ';' || sep == '&'
    ensures QueryList(p + [sep] + q, url) ==
            if Begun(p, url).Failure? then Begun(p, url)
            else if Begun(q, url).Failure? then Begun(q, url)
            else Success(Begun(p, url).value + Begun(q, url).value)
  {
    BegunIs(p, url);
    BegunIs(q, url);
    EntriesSplit(p, sep, q, FieldReader(url));
  }

  function Both(a: Result<seq<KeyVal>>, b: Result<seq<KeyVal>>): Result<seq<KeyVal>> {
    if a.Failure? then a else Followed(a.value, b)
  }

  lemma BothEntry(kv: KeyVal, a: Result<seq<KeyVal>>, b: Result<seq<KeyVal>>)
    ensures Both(Entry(kv, a), b) == Entry(kv, Both(a, b))
  {
    if a.Success? && b.Success? {
      assert [kv] + a.value + b.value == [kv] + (a.value + b.value);
    }
  }

  lemma {:induction false} EntriesSplit(p: string, sep: char, q: string, read: Reader)
    requires sep == ';' || sep == '&'
    ensures Entries(p + [sep] + q, read) == Both(Entries(p, read), Entries(q, read))
    decreases |p|
  {
    var m := Until(p, ";&");
    if m < |p| {
      EntriesSplit(p[m + 1..], sep, q, read);
    }
    FirstOfSplit(p, sep, q, m, read);
  }

  /** What the first entry leaves goes on as before. */
  lemma {:induction false} FirstOfSplit(p: string, sep: char, q: string, m: nat, read: Reader)
    requires (sep == ';' || sep == '&') && m == Until(p, ";&")
    requires m < |p| ==> Entries(p[m + 1..] + [sep] + q, read) == Both(Entries(p[m + 1..], read), Entries(q, read))
    ensures Entries(p + [sep] + q, read) == Both(Entries(p, read), Entries(q, read))
  {
    Stops(sep);
    UntilBehind(p, sep, q, m);
    FirstEntry(p, m, read);
    FirstEntry(p + [sep] + q, m, read);
    var first := EntryOf(p[..m], read);
    if first.Success? && m < |p| {
      BothEntry(first.value, Entries(p[m + 1..], read), Entries(q, read));
    }
  }

  lemma {:induction false} FirstEntry(s: string, m: nat, read: Reader)
    requires m == Until(s, ";&")
    ensures Entries(s, read) ==
            var first := EntryOf(s[..m], read);
            if first.Failure? then Failure(first.error)
            else if m == |s| then Success([first.value])
            else Entry(first.value, Entries(s[m + 1..], read))
  {
  }

  lemma {:induction false} UntilBehind(p: string, sep: char, q: string, m: nat)
    requires sep in ";&" && m == Until(p, ";&")
    ensures var s := p + [sep] + q;
            && Until(s, ";&") == m && s[..m] == p[..m]
            && (m < |p| ==> s[m + 1..] == p[m + 1..] + [sep] + q)
            && (m == |p| ==> s[m + 1..] == q)
  {
    UntilIs(p + [sep] + q, ";&", m);
  }

  // ----- what can be written -----

  /** The path could be taken for a scheme and what follows it. */
  predicate SchemeLike(path: string) {
    exists i :: 0 <= i < |path| && path[i] == ':' && '/' !in path[..i]
  }

  /** Fields can be written exactly if nothing hangs on a missing host, the path cannot be taken for a part of the
      host or for a scheme, and every entry of the query has a key. */
  lemma {:induction false} WritableIff(f: Fields)
    requires AsciiFields(f)
    ensures Build(f).Success? <==>
              && (f.authority.host == "" ==> f.authority.user == "" && f.authority.port == "" && !SchemeLike(f.path))
              && (f.authority.host != "" && f.path != "" ==> f.path[0] == '/')
              && forall i :: 0 <= i < |f.query| ==> f.query[i].key != ""
  {
    ColonFirstIs(f.path);
  }

  /** Otherwise the first of these is the reason. */
  lemma {:induction false} ReasonIs(f: Fields)
    requires AsciiFields(f) && Build(f).Failure?
    ensures var a := f.authority;
            Build(f).error ==
              if a.host == "" && a.user != "" then "User info defined, but host is empty"
              else if a.host == "" && a.port != "" then "Port defined, but host is empty"
              else if a.host == "" && SchemeLike(f.path) then
                "The first segment of the relative path can't contain ':'"
              else if a.host != "" && f.path != "" && f.path[0] != '/' then
                "Path must start with '/' when host is not empty"
              else if f.query != [] && f.query[0].key == "" then "First query entry has no key"
              else "A query entry has no key"
  {
    ColonFirstIs(f.path);
  }

  lemma {:induction false} ColonFirstIs(path: string)
    ensures ColonFirst(path) <==> SchemeLike(path)
  {
    var n := Until(path, ":/");
    forall i | 0 <= i < |path| ensures path[i] in ":/" <==> path[i] == ':' || path[i] == '/' {
      ColonOrSlash(path[i]);
    }
    if ColonFirst(path) {
      assert path[n] == ':' && '/' !in path[..n];
    }
    forall i | 0 <= i < |path| && path[i] == ':' && '/' !in path[..i] ensures ColonFirst(path) {
      assert n <= i;
      assert n < i ==> path[n] == path[..i][n];
    }
  }

  lemma ColonOrSlash(c: char)
    ensures c in ":/" <==> c == ':' || c == '/'
  {
  }

  // ----- ports that are not written -----

  /** A port is written except where it is the one that its scheme implies. */
  lemma {:induction false} DefaultPortsAreDropped(f: Fields)
    requires AsciiFields(f) && Build(f).Success? && f.authority.host != ""
    ensures var bare := f.(authority := f.authority.(port := ""));
            && AsciiFields(bare)
            && (Build(f) == Build(bare) <==>
                f.authority.port == "" || (f.scheme == "http" && f.authority.port == "80")
                || (f.scheme == "https" && f.authority.port == "443"))
  {
    var a, bare := f.authority, f.(authority := f.authority.(port := ""));
    assert TailText(bare) == TailText(f) && Obstacle(bare) == Obstacle(f);
    assert |PortString(f.scheme, "")| == 0;
    if |PortString(f.scheme, a.port)| > 0 {
      assert |Printed(f)| == |Printed(bare)| + |PortString(f.scheme, a.port)|;
    }
  }

  /** What is written is each part in its place, encoded where it has to be, and the port unless it is implied. */
  lemma {:induction false} WritesItsParts(f: Fields)
    requires AsciiFields(f) && HasKeys(f.query) && f.authority.host != ""
    ensures var a := f.authority;
            var implied := (f.scheme == "http" && a.port == "80") || (f.scheme == "https" && a.port == "443");
            Printed(f) == Written(f.scheme,
                                  Authority(Encoded(a.user, 0x05, Component), a.host, a.ipv,
                                            if implied then "" else a.port),
                                  Tail(Encoded(f.path, 0x0F, Component),
                                       if f.query == [] then "" else QueryText(f.query),
                                       Encoded(f.fragment, 0x1F, Component)))
  {
    EncodedGrows(f.authority.user, 0x05, Component);
    TailTextIs(f);
  }

  /** The text of a query: keys in front of equals signs, values only if they are not empty, ampersands between. */
  lemma {:induction false} QueryTextIs(kv: KeyVal, list: seq<KeyVal>)
    requires Ascii(kv.key) && Ascii(kv.val) && AsciiList(list)
    ensures QueryText([kv]) == Encoded(kv.key, 0x1F, QueryKey)
                               + (if kv.val == "" then "" else "=" + Encoded(kv.val, 0x1F, QueryVal))
    ensures list != [] ==> AsciiList([kv] + list) && QueryText([kv] + list) == QueryText([kv]) + "&" + QueryText(list)
  {
    assert ([kv] + list)[1..] == list;
  }

  // ----- an instance -----

  function Root(scheme: string, host: string, port: string): Fields {
    Fields(scheme, Authority("", host, 0, port), "/", [], "")
  }

  lemma {:induction false} RootMeans(scheme: string, host: string, port: string, f: Fields, url: string)
    requires IsScheme(scheme) && IsChars(host, 0x01) && host != "" && !Ipv4Shaped(host) && PortText(port)
    requires LowerOf(scheme, f.scheme) && LowerOf(host, f.authority.host) && f == Root(f.scheme, f.authority.host, port)
    requires url == scheme + ":" + ("//" + ("" + (host + (":" + port))) + ("/" + ("" + ""))) && |url| <= 8000
    ensures Parse(url) == Parsed(f)
  {
    RootIsNormal();
    Masks('/');
    CharDecodes('/', "", false);
    assert "/" + "" == "/";
    MeansWhatIsWritten(scheme, Authority("", host, 0, port), Tail("/", "", ""), f, url);
  }

  lemma {:induction false} RootWrites(scheme: string, host: string)
    requires host != "" && scheme == "http"
    ensures AsciiFields(Root(scheme, host, "80"))
    ensures Build(Root(scheme, host, "80")) == Success(scheme + ":" + ("//" + ("" + (host + "")) + ("/" + ("" + ""))))
  {
    var f := Root(scheme, host, "80");
    Masks('/');
    EncodedPlain("/", 0x0F);
    assert Obstacle(f) == None;
    WritesItsParts(f);
  }

  lemma {:induction false} EightyIsPort()
    ensures PortText("80")
  {
    DecimalStep("", '8');
    DecimalStep("8", '0');
    assert "" + "8" == "8" && "8" + "0" == "80";
  }

  lemma {:induction false} RootTexts()
    ensures "HTTP" + ":" + ("//" + ("" + ("A" + (":" + "80"))) + ("/" + ("" + ""))) == "HTTP://A:80/"
    ensures "http" + ":" + ("//" + ("" + ("a" + "")) + ("/" + ("" + ""))) == "http://a/"
  {
  }

  lemma {:induction false} RootCase()
    ensures LowerOf("HTTP", "http") && LowerOf("A", "a") && IsScheme("HTTP") && IsChars("A", 0x01)
  {
    assert Lower("HTTP") == "http" && Lower("A") == "a";
    LowerOfIs("HTTP", "http");
    LowerOfIs("A", "a");
    Masks('A');
  }

  /** Scheme and host are stored in lower case, the port is kept, and left out when the text is written again. */
  lemma {:induction false} DefaultPortInstance()
    ensures Parse("HTTP://A:80/") == Parsed(Root("http", "a", "80"))
    ensures AsciiFields(Root("http", "a", "80")) && Build(Root("http", "a", "80")) == Success("http://a/")
  {
    EightyIsPort();
    RootTexts();
    RootCase();
    RootMeans("HTTP", "A", "80", Root("http", "a", "80"), "HTTP://A:80/");
    RootWrites("http", "a");
  }
}
