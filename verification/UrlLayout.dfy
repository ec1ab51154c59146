/** How the parser finds the parts of a URL, position by position. */
module UrlLayout {
  import opened Results
  import opened UrlChars
  import opened UrlNumbers
  import opened UrlQuery
  import opened UrlParts
  import opened Ipv6Normal

  /** A pair of pointers into the text. The null pointers of the source are the empty span at 0. */
  datatype Span = Span(b: nat, e: nat)

  datatype AuthoritySpans = AuthoritySpans(user: Span, host: Span, ipv: int, port: Span)

  datatype TailSpans = TailSpans(path: Span, query: Span, fragment: Span)

  datatype Spans = Spans(scheme: Span, authority: AuthoritySpans, tail: TailSpans)

  const NOTHING := Span(0, 0)

  predicate In(sp: Span, s: string) {
    sp.b <= sp.e <= |s|
  }

  function Sub(s: string, sp: Span): string
    requires In(sp, s)
  {
    s[sp.b..sp.e]
  }

  predicate AuthorityAt(s: string, a: AuthoritySpans, v: Authority) {
    && In(a.user, s) && In(a.host, s) && In(a.port, s)
    && v == Authority(Sub(s, a.user), Sub(s, a.host), a.ipv, Sub(s, a.port))
  }

  predicate TailAt(s: string, t: TailSpans, v: Tail) {
    && In(t.path, s) && In(t.query, s) && In(t.fragment, s)
    && v == Tail(Sub(s, t.path), Sub(s, t.query), Sub(s, t.fragment))
  }

  predicate PiecesAt(s: string, p: Spans, v: Pieces) {
    && In(p.scheme, s) && Sub(s, p.scheme) == v.scheme
    && AuthorityAt(s, p.authority, v.authority) && TailAt(s, p.tail, v.tail)
  }

  /** The spans found are the parts wanted, or the complaint is the same. */
  predicate FoundAuthority(s: string, o: Outcome<AuthoritySpans>, want: Outcome<Authority>) {
    match want
    case Parsed(v) => o.Parsed? && AuthorityAt(s, o.value, v)
    case Rejected(r) => o == Rejected(r)
    case OutOfModel => o == OutOfModel
  }

  predicate FoundTail(s: string, o: Outcome<TailSpans>, want: Outcome<Tail>) {
    match want
    case Parsed(v) => o.Parsed? && TailAt(s, o.value, v)
    case Rejected(r) => o == Rejected(r)
    case OutOfModel => o == OutOfModel
  }

  predicate FoundPieces(s: string, o: Outcome<Spans>, want: Outcome<Pieces>) {
    match want
    case Parsed(v) => o.Parsed? && PiecesAt(s, o.value, v)
    case Rejected(r) => o == Rejected(r)
    case OutOfModel => o == OutOfModel
  }

  lemma Slices(s: string, b: nat, p: nat, e: nat)
    requires b <= p <= e <= |s|
    ensures |s[b..e]| == e - b && s[b..e][..p - b] == s[b..p] && s[b..e][p - b..] == s[p..e]
    ensures p < e ==> s[b..e][p - b] == s[p] && s[b..e][p - b + 1..] == s[p + 1..e]
  {
  }

  method CheckScheme(s: string, b: nat, e: nat) returns (ok: bool)
    requires b <= e <= |s|
    ensures ok <==> IsScheme(s[b..e])
  {
    if b == e || !IsAlpha(s[b]) {
      return false;
    }
    var p := b + 1;
    while p != e
      invariant b < p <= e
      invariant forall i :: b <= i < p ==> SchemeChar(s[i])
      decreases e - p
    {
      var c := s[p];
      if !IsAlnum(c) && c != '+' && c != '-' && c != '.' {
        assert s[b..e][p - b] == s[p];
        return false;
      }
      p := p + 1;
    }
    return true;
  }

  method ReadPort(s: string, user: Span, host: Span, ipv: int, b: nat, ea: nat)
    returns (o: Outcome<AuthoritySpans>)
    requires In(user, s) && In(host, s) && b <= ea <= |s|
    ensures FoundAuthority(s, o, PortOf(Sub(s, user), Sub(s, host), ipv, s[b..ea], s))
  {
    Slices(s, b, b, ea);
    if b != ea && s[b] == ':' {
      var b' := b + 1;
      var ok := IsPort(s, b', ea);
      if !ok {
        return Rejected(Invalid("Port", s[b'..ea], s));
      }
      return Parsed(AuthoritySpans(user, host, ipv, Span(b', ea)));
    }
    return Parsed(AuthoritySpans(user, host, ipv, NOTHING));
  }

  /** Behind an opening bracket. */
  method ReadLiteral(s: string, user: Span, b: nat, ea: nat) returns (o: Outcome<AuthoritySpans>)
    requires In(user, s) && b <= ea <= |s|
    ensures FoundAuthority(s, o, LiteralOf(Sub(s, user), s[b..ea], s))
  {
    var p := FindChar(s, b, ea, ']');
    Slices(s, b, p, ea);
    Slices(s, b, b, ea);
    if p == ea {
      return Rejected(MissingBracket(s));
    }
    if s[b] == 'v' {
      return OutOfModel;
    }
    var ok := IsIpv6(s, b, p);
    if !ok {
      return Rejected(InvalidPart("Host address", s));
    }
    o := ReadPort(s, user, Span(b, p), 6, p + 1, ea);
  }

  method ReadHost(s: string, user: Span, b: nat, ea: nat) returns (o: Outcome<AuthoritySpans>)
    requires In(user, s) && b <= ea <= |s|
    ensures FoundAuthority(s, o, HostOf(Sub(s, user), s[b..ea], s))
  {
    Slices(s, b, b, ea);
    if b < ea && s[b] == '[' {
      o := ReadLiteral(s, user, b + 1, ea);
      return;
    }
    var p := FindChar(s, b, ea, ':');
    Slices(s, b, p, ea);
    var four := IsIpv4(s, b, p);
    if four {
      o := ReadPort(s, user, Span(b, p), 4, p, ea);
      return;
    }
    var name := CheckChars(s, b, p, 0x01);
    if !name {
      return Rejected(InvalidPart("Host address", s));
    }
    o := ReadPort(s, user, Span(b, p), 0, p, ea);
  }

  method ReadAuthority(s: string, b: nat, ea: nat) returns (o: Outcome<AuthoritySpans>)
    requires b <= ea <= |s|
    ensures FoundAuthority(s, o, AuthorityOf(s[b..ea], s))
  {
    var p := FindChar(s, b, ea, '@');
    Slices(s, b, p, ea);
    if p == ea {
      assert Sub(s, NOTHING) == "";
      o := ReadHost(s, NOTHING, b, ea);
      return;
    }
    var ok := CheckChars(s, b, p, 0x05);
    if !ok {
      return Rejected(InvalidPart("User info", s));
    }
    o := ReadHost(s, Span(b, p), p + 1, ea);
  }

  method ReadFragment(s: string, path: Span, query: Span, p: nat) returns (o: Outcome<TailSpans>)
    requires In(path, s) && In(query, s) && p <= |s|
    requires p < |s| ==> s[p] == '#'
    ensures FoundTail(s, o, FragmentOf(Sub(s, path), Sub(s, query), s[p..|s|], s))
  {
    Slices(s, p, p, |s|);
    if p != |s| && s[p] == '#' {
      var ok := CheckChars(s, p + 1, |s|, 0x3F);
      if !ok {
        return Rejected(Invalid("Fragment", s[p + 1..|s|], s));
      }
      return Parsed(TailSpans(path, query, Span(p + 1, |s|)));
    }
    return Parsed(TailSpans(path, query, NOTHING));
  }

  /** The query ends at the first number sign. */
  lemma QueryCut(path: string, s: string, b: nat, p: nat)
    requires b <= |s| && p == b + Until(s[b..|s|], "#")
    ensures QueryOf(path, s[b..|s|], s) == FragmentOf(path, s[b..p], s[p..|s|], s)
    ensures p < |s| ==> s[p] == '#'
  {
    Slices(s, b, p, |s|);
  }

  method ReadQuery(s: string, path: Span, b: nat) returns (o: Outcome<TailSpans>)
    requires In(path, s) && b <= |s|
    ensures FoundTail(s, o, QueryOf(Sub(s, path), s[b..|s|], s))
  {
    var p := FindChar(s, b, |s|, '#');
    QueryCut(Sub(s, path), s, b, p);
    o := ReadFragment(s, path, Span(b, p), p);
  }

  method ReadTail(s: string, b: nat) returns (o: Outcome<TailSpans>)
    requires b <= |s|
    ensures FoundTail(s, o, TailOf(s[b..|s|], s))
  {
    var e := |s|;
    var p := FindFirstOf(s, b, e, "?#");
    Slices(s, b, p, e);
    var ok := CheckChars(s, b, p, 0x2F);
    if !ok {
      return Rejected(Invalid("Path", s[b..p], s));
    }
    var path := Span(b, p);
    if p != e && s[p] == '?' {
      o := ReadQuery(s, path, p + 1);
    } else {
      o := ReadFragment(s, path, NOTHING, p);
    }
  }

  /** The authority and, unless it is refused, the tail behind it. */
  method ReadBoth(s: string, scheme: Span, b: nat) returns (o: Outcome<Spans>)
    requires In(scheme, s) && b <= |s|
    ensures FoundPieces(s, o, BehindSlashes(Sub(s, scheme), s[b..|s|], s))
  {
    var ea := FindFirstOf(s, b, |s|, "/?#");
    Slices(s, b, ea, |s|);
    var authority := ReadAuthority(s, b, ea);
    if authority.Rejected? {
      return Rejected(authority.reason);
    }
    if authority.OutOfModel? {
      return OutOfModel;
    }
    var tail := ReadTail(s, ea);
    o := WithTail(s, scheme, authority.value, tail);
  }

  method WithTail(s: string, scheme: Span, authority: AuthoritySpans, tail: Outcome<TailSpans>)
    returns (o: Outcome<Spans>)
    ensures o == match tail
                 case Rejected(r) => Rejected(r)
                 case OutOfModel => OutOfModel
                 case Parsed(t) => Parsed(Spans(scheme, authority, t))
  {
    if tail.Rejected? {
      return Rejected(tail.reason);
    }
    if tail.OutOfModel? {
      return OutOfModel;
    }
    return Parsed(Spans(scheme, authority, tail.value));
  }

  method ReadBehind(s: string, scheme: Span, b: nat) returns (o: Outcome<Spans>)
    requires In(scheme, s) && b <= |s|
    ensures FoundPieces(s, o, Behind(Sub(s, scheme), s[b..|s|], s))
  {
    var e := |s|;
    Slices(s, b, b, e);
    if e - b > 1 && s[b] == '/' && s[b + 1] == '/' {
      Slices(s, b, b + 2, e);
      o := ReadBoth(s, scheme, b + 2);
    } else {
      var tail := ReadTail(s, b);
      o := WithTail(s, scheme, AuthoritySpans(NOTHING, NOTHING, -1, NOTHING), tail);
    }
  }

  /** The first special char decides whether there is a scheme. */
  lemma LayoutIs(s: string, p: nat)
    requires p == Until(s[0..|s|], ":/?#")
    ensures Layout(s) == if p == |s| || s[p] != ':' then Behind("", s[0..|s|], s)
                         else if !IsScheme(s[0..p]) then Rejected(InvalidPart("Scheme", s))
                         else Behind(s[0..p], s[p + 1..|s|], s)
  {
    assert s[0..|s|] == s;
    if p < |s| {
      assert s[0..p] == s[..p] && s[p + 1..|s|] == s[p + 1..];
    }
  }

  method ReadLayout(s: string) returns (o: Outcome<Spans>)
    ensures FoundPieces(s, o, Layout(s))
  {
    var b, e := 0, |s|;
    var p := FindFirstOf(s, b, e, ":/?#");
    LayoutIs(s, p);
    if p == e || s[p] != ':' {
      o := ReadBehind(s, NOTHING, b);
      return;
    }
    var ok := CheckScheme(s, b, p);
    if !ok {
      return Rejected(InvalidPart("Scheme", s));
    }
    o := ReadBehind(s, Span(b, p), p + 1);
  }
}
