/** URLs without a host: which can be written, and what of them comes back. */
module UrlHostless {
  import opened Results
  import opened Text
  import opened UrlChars
  import opened UrlCodec
  import opened UrlPath
  import opened UrlQuery
  import opened UrlParts
  import opened UrlIpv6
  import opened Ipv6Address
  import opened Ipv6Normal
  import opened Ipv6RoundTrip
  import opened UrlRoundTrip

  /** What a text without two slashes behind its scheme parses to. */
  function NoHost(f: Fields): Fields {
    f.(authority := NO_AUTHORITY)
  }

  /** And one with two slashes that nothing follows. */
  function EmptyHost(f: Fields): Fields {
    f.(authority := Authority("", "", 0, ""))
  }

  ghost predicate PrintableHostless(f: Fields) {
    && f.authority.host == "" && f.authority.user == "" && f.authority.port == ""
    && (f.scheme == "" || (IsScheme(f.scheme) && Lower(f.scheme) == f.scheme))
    && AsciiFields(f) && NormalPath(f.path) == f.path && !ColonFirst(f.path) && HasKeys(f.query)
  }

  // ----- the path is not taken for an authority -----

  /** A normal path does not begin with two slashes. */
  lemma {:induction false} NoDoubleSlash(s: string)
    ensures !HasAuthority(NormalPath(s))
  {
    var path := NormalPath(s);
    if HasAuthority(path) {
      var segments := Split(path, '/');
      assert segments == [""] + Split(path[1..], '/') && Split(path[1..], '/') == [""] + Split(path[1..][1..], '/');
      NormalPathIsClean(s, 1);
    }
  }

  lemma {:induction false} FirstSlash(path: string, suffix: string)
    requires Ascii(path) && (suffix != "" ==> suffix[0] != '/')
    ensures var text := Encoded(path, 0x0F, Component) + suffix;
            text != "" && text[0] == '/' ==>
              path != "" && path[0] == '/' && text[1..] == Encoded(path[1..], 0x0F, Component) + suffix
  {
    Masks('/');
  }

  lemma {:induction false} SlashesAreThePaths(path: string, suffix: string)
    requires Ascii(path) && (suffix != "" ==> suffix[0] != '/')
    ensures HasAuthority(Encoded(path, 0x0F, Component) + suffix) ==> HasAuthority(path)
  {
    var text := Encoded(path, 0x0F, Component) + suffix;
    if HasAuthority(text) {
      FirstSlash(path, suffix);
      assert text[1..][0] == text[1];
      FirstSlash(path[1..], suffix);
    }
  }

  // ----- the path is not taken for a scheme -----

  lemma {:induction false} ColonBehind(front: string, rest: string)
    requires Inert(front, ":/")
    ensures ColonFirst(front + rest) <==> ColonFirst(rest)
  {
    var n, text := Until(rest, ":/"), front + rest;
    UntilIs(text, ":/", |front| + n);
  }

  lemma ColonAtOnce(c: char, rest: string)
    ensures c == ':' ==> ColonFirst([c] + rest)
    ensures c == '/' ==> !ColonFirst([c] + rest)
    ensures c != ':' && c != '/' ==> Inert([c], ":/")
  {
    if c == ':' || c == '/' {
      UntilIs([c] + rest, ":/", 0);
    }
  }

  lemma EscapeIsInert(c: char)
    requires c as int < 128
    ensures Inert(Escaped(c), ":/")
  {
    forall d: char ensures d in ":/" <==> d == ':' || d == '/' {
    }
  }

  /** Encoding puts no colon in front. */
  lemma {:induction false} EncodedColon(path: string)
    requires Ascii(path) && !ColonFirst(path)
    ensures !ColonFirst(Encoded(path, 0x0F, Component))
    decreases |path|
  {
    if path != "" {
      var c, rest, first := path[0], Encoded(path[1..], 0x0F, Component), EncodedChar(path[0], 0x0F, Component);
      assert path == [c] + path[1..];
      Masks('/');
      ColonAtOnce(c, path[1..]);
      ColonAtOnce(c, rest);
      if c != '/' {
        ColonBehind([c], path[1..]);
        EncodedColon(path[1..]);
        EscapeIsInert(c);
        ColonBehind(first, rest);
      }
    }
  }

  lemma {:induction false} NoSchemeInFront(path: string, suffix: string)
    requires !ColonFirst(path) && (suffix != "" ==> suffix[0] == '?' || suffix[0] == '#')
    ensures var text := path + suffix; var n := Until(text, ":/?#"); n < |text| ==> text[n] != ':'
  {
    var text := path + suffix;
    var n := Until(text, ":/?#");
    if suffix != "" {
      Separators(suffix[0]);
      assert text[|path|] == suffix[0];
    }
    if n < |path| && path[n] == ':' {
      forall i | 0 <= i < n ensures path[i] !in ":/" {
        assert path[i] == text[i];
        Separators(text[i]);
      }
      UntilIs(path, ":/", n);
    }
  }

  // ----- reading back -----

  lemma HostlessPrinted(f: Fields)
    requires PrintableHostless(f)
    ensures Build(f) == Success(Printed(f)) && Printed(f) == SchemeText(f.scheme) + TailText(f)
    ensures Printed(NoHost(f)) == Printed(f)
  {
    assert "" + TailText(f) == TailText(f);
  }

  lemma {:induction false} SuffixStarts(query: string, fragment: string)
    ensures var suffix := QuerySuffix(query) + FragmentSuffix(fragment);
            suffix != "" ==> suffix[0] == '?' || suffix[0] == '#'
  {
  }

  lemma {:induction false} HostlessLayout(f: Fields)
    requires PrintableHostless(f)
    ensures Layout(Printed(f)) == Parsed(Pieces(f.scheme, NO_AUTHORITY, TailPieces(f)))
  {
    var url, t := Printed(f), TailPieces(f);
    var suffix := QuerySuffix(t.query) + FragmentSuffix(t.fragment);
    HostlessPrinted(f);
    TailTextIs(f);
    SuffixStarts(t.query, t.fragment);
    NoDoubleSlash(f.path);
    SlashesAreThePaths(f.path, suffix);
    TailPiecesReadBack(f, url);
    if f.scheme == "" {
      EncodedColon(f.path);
      NoSchemeInFront(t.path, suffix);
      assert "" + TailText(f) == TailText(f);
    } else {
      SchemeReadsBack(f.scheme, TailText(f), url);
    }
  }

  lemma {:induction false} NothingPrinted(f: Fields)
    requires PrintableHostless(f) && Printed(f) == ""
    ensures NoHost(f) == NO_FIELDS
  {
    HostlessPrinted(f);
    EncodedGrows(f.path, 0x0F, Component);
    assert |TailText(f)| == 0;
  }

  /** What can be written without a host comes back without one. */
  lemma {:induction false} PrintParseHostless(f: Fields)
    requires PrintableHostless(f) && |Printed(f)| <= 8000
    ensures Parse(Printed(f)) == Parsed(NoHost(f))
  {
    if Printed(f) == "" {
      NothingPrinted(f);
    } else {
      HostlessLayout(f);
      assert f.scheme == "" ==> Lower(f.scheme) == f.scheme;
      SpelledMeaning(NO_AUTHORITY, NoHost(f), Printed(f));
    }
  }

  /** With two slashes in front of the path it is read as a URL whose host is empty. */
  lemma {:induction false} EmptyHostParses(f: Fields)
    requires PrintableHostless(f) && (f.path == "" || f.path[0] == '/')
    requires |SchemeText(f.scheme) + ("//" + "" + TailText(f))| <= 8000
    ensures Parse(SchemeText(f.scheme) + ("//" + "" + TailText(f))) == Parsed(EmptyHost(f))
  {
    var url := SchemeText(f.scheme) + ("//" + "" + TailText(f));
    EmptyHostLayout(f, url);
    EmptyHostMeaning(f, url);
  }

  lemma {:induction false} EmptyHostLayout(f: Fields, url: string)
    requires PrintableHostless(f) && (f.path == "" || f.path[0] == '/')
    requires url == SchemeText(f.scheme) + ("//" + "" + TailText(f))
    ensures url != "" && Layout(url) == Parsed(Pieces(f.scheme, EmptyHost(f).authority, TailPieces(f)))
  {
    TailFirst(f);
    TailPiecesReadBack(f, url);
    EmptyAuthority(url);
    CutBehindSlashes(f.scheme, "", TailText(f), EmptyHost(f).authority, TailPieces(f), url);
  }

  lemma {:induction false} EmptyHostMeaning(f: Fields, url: string)
    requires PrintableHostless(f)
    ensures Meaning(Pieces(f.scheme, EmptyHost(f).authority, TailPieces(f)), url) == Parsed(EmptyHost(f))
  {
    assert f.scheme == "" ==> Lower(f.scheme) == f.scheme;
    assert Lower("") == "";
    SpelledMeaning(EmptyHost(f).authority, EmptyHost(f), url);
  }

  lemma EmptyAuthority(url: string)
    ensures AuthorityOf("", url) == Parsed(Authority("", "", 0, "")) && Inert("", "/?#")
  {
    assert Until("", "@") == 0 && Until("", ":") == 0;
  }

  // ----- from the parser -----

  lemma {:induction false} NormalIsNotEmpty(s: string)
    requires Ipv6Text(s)
    ensures Normalized(s) != ""
  {
    NormalizedIsCanon(s);
    ValueIsAddress(s);
    CanonStandsFor(Value(s));
    AcceptedIsShaped(Canon(Value(s)));
  }

  /** An empty host is the host of no authority, or of one that has no name. */
  lemma {:induction false} EmptyHostVersion(cut: Authority)
    requires WellCutAuthority(cut) && StoredHost(cut.host, cut.ipv) == Parsed("")
    ensures cut.host == "" && (cut.ipv == -1 || cut.ipv == 0) && (cut.ipv == -1 ==> cut == NO_AUTHORITY)
  {
    if cut.ipv == 6 {
      NormalIsNotEmpty(cut.host);
    }
  }

  lemma {:induction false} MeaningHostless(p: Pieces, f: Fields, url: string)
    requires WellCut(p) && Meaning(p, url) == Parsed(f) && f.authority.host == ""
    ensures (f.authority.ipv == -1 || f.authority.ipv == 0) && (f.authority.ipv == -1 ==> f == NoHost(f))
    ensures f.scheme == "" || (IsScheme(f.scheme) && Lower(f.scheme) == f.scheme)
    ensures NormalPath(f.path) == f.path
  {
    EmptyHostVersion(p.authority);
    LowerAgain(p.scheme);
    NormalPathIsIdempotent(Decoded(p.tail.path, false).value);
  }

  lemma {:induction false} HostlessIsNoLonger(p: Pieces, f: Fields, url: string)
    requires WellCut(p) && Meaning(p, url) == Parsed(f) && AsciiFields(f)
    ensures |SchemeText(f.scheme)| + |TailText(f)| <= PiecesCost(p)
  {
    TailIsNoLonger(p.tail, f, url);
  }

  lemma {:induction false} ParsedHostless(url: string)
    requires Parse(url).Parsed? && Parse(url).value.authority.host == "" && AsciiFields(Parse(url).value)
    ensures var f := Parse(url).value;
            && (f.authority.ipv == -1 || f.authority.ipv == 0) && (f.authority.ipv == -1 ==> f == NoHost(f))
            && (f.scheme == "" || (IsScheme(f.scheme) && Lower(f.scheme) == f.scheme))
            && NormalPath(f.path) == f.path
            && |SchemeText(f.scheme)| + |TailText(f)| <= |url| <= 8000
  {
    if url == "" {
      assert TailText(NO_FIELDS) == "";
    } else {
      LayoutWellCut(url);
      MeaningHostless(Layout(url).value, Parse(url).value, url);
      HostlessIsNoLonger(Layout(url).value, Parse(url).value, url);
    }
  }

  /** A parsed URL without a host can be written exactly if it has no user and no port either, no colon in the
      first segment of its path, and a key for each query entry. */
  lemma {:induction false} HostlessWritableIff(url: string)
    requires Parse(url).Parsed? && Parse(url).value.authority.host == "" && AsciiFields(Parse(url).value)
    ensures var f := Parse(url).value;
            Build(f).Success? <==>
              f.authority.user == "" && f.authority.port == "" && !ColonFirst(f.path) && HasKeys(f.query)
  {
  }

  /** Parse, print and parse again, without a host. What is written is no longer and parses to the same fields
      without an authority: so it comes back exactly if it had none, and an authority that was empty is lost.
      What comes back is written as it is. */
  lemma {:induction false} ParsePrintParseHostless(url: string)
    requires Parse(url).Parsed? && Parse(url).value.authority.host == "" && AsciiFields(Parse(url).value)
    requires Build(Parse(url).value).Success?
    ensures var f, text := Parse(url).value, Build(Parse(url).value).value;
            && |text| <= |url|
            && Parse(text) == Parsed(NoHost(f))
            && (Parse(text) == Parse(url) <==> f.authority.ipv == -1)
            && (f.authority.ipv == -1 || f == EmptyHost(f))
            && AsciiFields(Parse(text).value) && Build(Parse(text).value) == Success(text)
  {
    var f := Parse(url).value;
    ParsedHostless(url);
    HostlessWritableIff(url);
    HostlessPrinted(f);
    HostlessPrinted(NoHost(f));
    PrintParseHostless(f);
  }

  // ----- instances -----

  /** A path of one ordinary segment is normal. */
  lemma {:induction false} OneSegment(segment: string)
    requires segment != "" && segment != "." && segment != ".." && '/' !in segment
    ensures NormalPath("/" + segment) == "/" + segment
  {
    var path := "/" + segment;
    SplitPlain(segment, '/');
    assert path[1..] == segment;
    assert Split(path, '/') == ["", segment];
    assert ["", segment][..1] == [""] && [""][1..] == [];
    assert Walk([], [""]) == [];
    assert Elems(path) == [segment];
  }

  lemma {:induction false} PlainPath(segment: string)
    requires IsChars(segment, 0x0F) && Ascii(segment)
    ensures var path := "/" + segment; Ascii(path) && Encoded(path, 0x0F, Component) == path && !ColonFirst(path)
  {
    Masks('/');
    EncodedPlain("/" + segment, 0x0F);
    ColonAtOnce('/', segment);
  }

  /** An empty authority is lost: of a text such as "file:///x" only "file:/x" is left. */
  lemma {:induction false} EmptyHostIsLost(scheme: string, segment: string)
    requires IsScheme(scheme) && Lower(scheme) == scheme && |scheme| + |segment| <= 7000
    requires segment != "" && segment != "." && segment != ".." && '/' !in segment
    requires IsChars(segment, 0x0F) && Ascii(segment)
    ensures var path := "/" + segment;
            var f := Fields(scheme, Authority("", "", 0, ""), path, [], "");
            && Parse(scheme + ":" + ("//" + "" + path)) == Parsed(f)
            && AsciiFields(f) && Build(f) == Success(scheme + ":" + path)
            && Parse(scheme + ":" + path) == Parsed(NoHost(f)) && NoHost(f) != f
  {
    var path := "/" + segment;
    var f := Fields(scheme, Authority("", "", 0, ""), path, [], "");
    OneSegment(segment);
    PlainPath(segment);
    assert path + ("" + "") == path;
    HostlessPrinted(f);
    PrintParseHostless(f);
    EmptyHostParses(f);
  }

  lemma FileText()
    ensures IsScheme("file") && Lower("file") == "file" && IsChars("x", 0x0F) && Ascii("x")
    ensures "file" + ":" + ("//" + "" + ("/" + "x")) == "file:///x" && "file" + ":" + ("/" + "x") == "file:/x"
  {
    Masks('x');
    assert Lower("file") == "file";
  }

  lemma EmptyHostInstance()
    ensures Parse("file:///x") == Parsed(Fields("file", Authority("", "", 0, ""), "/" + "x", [], ""))
    ensures Parse("file:/x") == Parsed(Fields("file", NO_AUTHORITY, "/" + "x", [], ""))
  {
    FileText();
    EmptyHostIsLost("file", "x");
  }
}
