/** URLs with an IPv6 host: one that comes back, and one for each way in which it does not. */
module UrlInstances {
  import opened Results
  import opened Text
  import opened UrlChars
  import opened UrlCodec
  import opened UrlPath
  import opened UrlQuery
  import opened UrlParts
  import opened UrlIpv6
  import opened Ipv6Address
  import opened Ipv6Length
  import opened Ipv6Normal
  import opened Ipv6RoundTrip
  import opened UrlRoundTrip
  import opened UrlHostless

  /** A URL with nothing but a host, as the module's sockets use them. */
  function Plain(host: string, path: string): Fields {
    Fields("ws", Authority("", host, 6, ""), path, [], "")
  }

  function Written(host: string, path: string): string
    requires Ascii(path)
  {
    SchemeText("ws") + ("//" + AuthorityString(Authority("", host, 6, "")) + TailText(Plain(host, path)))
  }

  predicate PlainPathOf(path: string) {
    && path != "" && path[0] == '/' && NormalPath(path) == path
    && Ascii(path) && Encoded(path, 0x0F, Component) == path
  }

  lemma WsIsScheme()
    ensures IsScheme("ws") && Lower("ws") == "ws"
  {
    assert Lower("ws") == "ws";
  }

  lemma RootPath()
    ensures PlainPathOf("/")
  {
    RootIsNormal();
    Masks('/');
    EncodedPlain("/", 0x0F);
  }

  lemma {:induction false} WrittenIs(host: string, path: string)
    requires PlainPathOf(path)
    ensures Written(host, path) == "ws://[" + host + "]" + path
  {
    assert TailText(Plain(host, path)) == path + ("" + "");
    Regroup(host, path);
  }

  lemma {:induction false} Regroup(host: string, path: string)
    ensures "ws" + ":" + ("//" + ("" + ("[" + host + "]" + "")) + (path + ("" + ""))) == "ws://[" + host + "]" + path
  {
    assert "" + ("[" + host + "]" + "") == "[" + host + "]" && path + ("" + "") == path;
    assert "ws" + ":" + ("//" + ("[" + host + "]") + path) == "ws://" + "[" + host + "]" + path;
    assert "ws://" + "[" == "ws://[";
  }

  /** Any accepted address in brackets parses to its normal form. */
  lemma {:induction false} LiteralParses(host: string, path: string)
    requires Ipv6Text(host) && PlainPathOf(path) && |Written(host, path)| <= 8000
    ensures Parse(Written(host, path)) == Parsed(Plain(Normalized(host), path))
  {
    var a, f := Authority("", host, 6, ""), Plain(Normalized(host), path);
    AcceptedIsShaped(host);
    PlainRest(f);
    assert TailText(Plain(host, path)) == TailText(f);
    SpellingParses(a, f);
  }

  lemma {:induction false} PlainRest(f: Fields)
    requires f.scheme == "ws" && f.authority.user == "" && f.query == [] && f.fragment == "" && PlainPathOf(f.path)
    ensures PrintableRest(f)
  {
    WsIsScheme();
  }

  /** And what is written for it has the normal form in its place. */
  lemma {:induction false} LiteralPrints(host: string, path: string)
    requires host != "" && PlainPathOf(path)
    ensures AsciiFields(Plain(host, path)) && Build(Plain(host, path)) == Success(Written(host, path))
  {
    var f := Plain(host, path);
    assert AuthorityText(f) == "//" + AuthorityString(f.authority);
    assert Obstacle(f) == None;
  }

  lemma {:induction false} LiteralUrl(host: string, normal: string, path: string, url: string)
    requires Ipv6Text(host) && Normalized(host) == normal && normal != "" && PlainPathOf(path)
    requires url == "ws://[" + host + "]" + path && |url| <= 8000
    ensures Parse(url) == Parsed(Plain(normal, path)) && AsciiFields(Plain(normal, path))
    ensures Build(Plain(normal, path)) == Success("ws://[" + normal + "]" + path)
  {
    WrittenIs(host, path);
    WrittenIs(normal, path);
    LiteralParses(host, path);
    LiteralPrints(normal, path);
  }

  // ----- one that comes back -----

  /** An address of seven zeros and one more field. */
  lemma {:induction false} SevenZeros(f: seq<nat>)
    requires |f| == 8 && f[7] != 0 && forall i :: 0 <= i < 7 ==> f[i] == 0
    ensures LongestRun(f, 0) == 0 && RunFrom(f, 0) == 7
  {
    assert f[0 + RunFrom(f, 0)] != 0;
    assert RunFrom(f, 0) == 7;
    var b := LongestRun(f, 0);
    assert RunFrom(f, b) >= 7;
    assert !(b <= 7 < b + RunFrom(f, b));
  }

  lemma {:induction false} LoopbackText(f: seq<nat>)
    requires f == Zeros(7) + [1]
    ensures Ipv6Text(Canon(f)) && Value(Canon(f)) == f && Canon(f) == "" + "::" + HexText(1) && HexText(1) == "1"
  {
    CanonStandsFor(f);
    SevenZeros(f);
    assert f[..0] == [] && f[7..] == [1];
    assert Texts([1]) == [HexText(1)];
  }

  /** The loopback address. */
  lemma {:induction false} LoopbackIsNormal()
    ensures Ipv6Text("::1") && Normalized("::1") == "::1"
  {
    var f := Zeros(7) + [1];
    LoopbackText(f);
    assert "" + "::" + "1" == "::1";
    assert f != Zeros(8) by {
      assert f[7] == 1;
    }
    NormalizedIsCanon("::1");
  }

  lemma {:induction false} LoopbackUrl()
    ensures var f := Plain("::1", "/");
            Parse("ws://[::1]/") == Parsed(f) && AsciiFields(f) && Build(f) == Success("ws://[::1]/")
  {
    RootPath();
    LoopbackLiteral();
    LoopbackIsNormal();
    LiteralUrl("::1", "::1", "/", "ws://[::1]/");
  }

  lemma {:induction false} LoopbackLiteral()
    ensures "ws://[" + "::1" + "]" + "/" == "ws://[::1]/" && |"ws://[::1]/"| <= 8000
  {
  }

  // ----- one whose host is turned into a colon -----

  lemma {:induction false} ZerosText(n: nat)
    requires n > 0
    ensures JoinHex(Zeros(n + 1)) == "0:" + JoinHex(Zeros(n))
  {
    var parts := Texts(Zeros(n + 1));
    assert parts[1..] == Texts(Zeros(n));
    assert "0" + ":" == "0:";
  }

  lemma {:induction false} ColonUrlIsRefused()
    ensures AsciiFields(Plain(":", "/")) && Build(Plain(":", "/")) == Success("ws://[:]/")
    ensures Parse("ws://[:]/") == Rejected(InvalidPart("Host address", "ws://[:]/"))
  {
    var f := Plain(":", "/");
    RootPath();
    WrittenIs(":", "/");
    assert "ws://[" + ":" + "]" + "/" == "ws://[:]/";
    LiteralPrints(":", "/");
    WithPairIsPrintable();
    assert Printed(f) == "ws://[:]/";
    ColonHostIsRefused(f);
  }

  lemma {:induction false} ZerosLiteral(host: string)
    requires host == "0:0:0:0:0:0:0:0"
    ensures "ws://[" + host + "]" + "/" == "ws://[0:0:0:0:0:0:0:0]/" && |"ws://[0:0:0:0:0:0:0:0]/"| <= 8000
  {
  }

  /** Eight zeros, spelled out, are written as a single colon, which is refused. */
  lemma {:induction false} ZeroUrl()
    ensures Parse("ws://[0:0:0:0:0:0:0:0]/") == Parsed(Plain(":", "/"))
  {
    var host := JoinHex(Zeros(8));
    RootPath();
    ZerosAreWrecked();
    ShortZeros();
    ZerosLiteral(host);
    LiteralUrl(host, ":", "/", "ws://[0:0:0:0:0:0:0:0]/");
  }

  lemma WithPairIsPrintable()
    ensures Printable(WithPairHost(Plain(":", "/")))
  {
    WsIsScheme();
    RootPath();
    PairIsPrintable(Plain(":", "/").authority);
  }

  /** Eight zeros with seven colons. */
  lemma {:induction false} ShortZeros()
    ensures JoinHex(Zeros(8)) == "0:0:0:0:0:0:0:0"
  {
    FourZeros();
    var four := "0:0:0:0";
    ZerosText(4);
    ZerosText(5);
    ZerosText(6);
    ZerosText(7);
    assert "0:" + ("0:" + ("0:" + ("0:" + four))) == "0:0:0:0:0:0:0:0";
  }

  lemma {:induction false} FourZeros()
    ensures JoinHex(Zeros(4)) == "0:0:0:0"
  {
    assert JoinHex(Zeros(1)) == "0";
    ZerosText(1);
    ZerosText(2);
    ZerosText(3);
    assert "0:" + ("0:" + ("0:" + "0")) == "0:0:0:0";
  }

  // ----- one that becomes too long -----

  /** A URL of 8000 chars whose host grows by one: what is written for it is refused for its length. */
  lemma {:induction false} GrowingUrl(host: string, path: string)
    requires Ipv6Text(host) && |Normalized(host)| == |host| + 1 && PlainPathOf(path) && |Written(host, path)| == 8000
    ensures var f := Plain(Normalized(host), path);
            && Parse(Written(host, path)) == Parsed(f) && AsciiFields(f) && Build(f).Success?
            && Parse(Build(f).value) == Rejected(TOO_LONG)
  {
    LiteralParses(host, path);
    LiteralPrints(Normalized(host), path);
  }

  lemma {:induction false} GrowingHost() returns (host: string)
    ensures Ipv6Text(host) && |Normalized(host)| == |host| + 1 && |host| < 255
  {
    var f := [1, 0, 3, 4, 5, 6, 7, 8];
    host := JoinHex(f[..1]) + "::" + JoinHex(f[2..]);
    OneLonger(f);
    AcceptedIsShaped(host);
  }

  lemma {:induction false} LongPath(n: nat) returns (path: string)
    requires n > 2
    ensures PlainPathOf(path) && |path| == n + 1
  {
    var segment := seq(n, _ => 'a');
    Masks('a');
    assert forall i :: 0 <= i < n ==> segment[i] == 'a';
    OneSegment(segment);
    PlainPath(segment);
    path := "/" + segment;
  }

  /** There is such a URL, with a path of one long segment. */
  lemma {:induction false} GrowingUrlInstance() returns (host: string, path: string)
    ensures Ipv6Text(host) && |Normalized(host)| == |host| + 1 && PlainPathOf(path) && |Written(host, path)| == 8000
  {
    host := GrowingHost();
    path := LongPath(7992 - |host|);
    WrittenIs(host, path);
  }
}
