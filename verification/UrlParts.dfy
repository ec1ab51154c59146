/** The parts of a URL: how its text is cut, what the parts stand for and how they are put together again. */
module UrlParts {
  import opened Results
  import opened UrlChars
  import opened UrlCodec
  import opened UrlIpv6
  import opened UrlNumbers
  import opened UrlPath
  import opened UrlQuery
  import opened Ipv6Normal

  /** A parse error carries its message. OutOfModel stands for the hosts that are left out: IPvFuture literals,
      and IPv6 literals that the validator would refuse or that contain dots. */
  datatype Outcome<+T> = Parsed(value: T) | Rejected(reason: string) | OutOfModel

  /** IP version -1 means no host, 0 a registered name. */
  datatype Authority = Authority(user: string, host: string, ipv: int, port: string)

  datatype Tail = Tail(path: string, query: string, fragment: string)

  datatype Pieces = Pieces(scheme: string, authority: Authority, tail: Tail)

  datatype Fields = Fields(scheme: string, authority: Authority, path: string, query: seq<KeyVal>, fragment: string)

  const NO_AUTHORITY := Authority("", "", -1, "")
  const NO_FIELDS := Fields("", NO_AUTHORITY, "", [], "")
  const TOO_LONG := "URI is longer than 8000 characters"

  function InvalidPart(what: string, url: string): string {
    what + " in '" + url + "' is invalid"
  }

  function MissingBracket(url: string): string {
    "Missing ] in '" + url + "'"
  }

  // ----- cutting the text -----

  predicate SchemeChar(c: char) {
    IsAlnum(c) || c == '+' || c == '-' || c == '.'
  }

  predicate IsScheme(s: string) {
    s != "" && IsAlpha(s[0]) && forall i :: 0 <= i < |s| ==> SchemeChar(s[i])
  }

  function PortOf(user: string, host: string, ipv: int, after: string, url: string): Outcome<Authority> {
    if after == "" || after[0] != ':' then Parsed(Authority(user, host, ipv, ""))
    else if PortText(after[1..]) then Parsed(Authority(user, host, ipv, after[1..]))
    else Rejected(Invalid("Port", after[1..], url))
  }

  /** A host in brackets. A port is read only when the char behind the bracket is a colon; anything else there
      drops the rest of the authority, colon or not. */
  function LiteralOf(user: string, inner: string, url: string): Outcome<Authority> {
    var n := Until(inner, "]");
    if n == |inner| then Rejected(MissingBracket(url))
    else if inner[0] == 'v' then OutOfModel
    else if !Ipv6Shaped(inner[..n]) then Rejected(InvalidPart("Host address", url))
    else PortOf(user, inner[..n], 6, inner[n + 1..], url)
  }

  function HostOf(user: string, text: string, url: string): Outcome<Authority> {
    if text != "" && text[0] == '[' then LiteralOf(user, text[1..], url)
    else
      var n := Until(text, ":");
      var host := text[..n];
      if Ipv4Shaped(host) then PortOf(user, host, 4, text[n..], url)
      else if IsChars(host, 0x01) then PortOf(user, host, 0, text[n..], url)
      else Rejected(InvalidPart("Host address", url))
  }

  function AuthorityOf(text: string, url: string): Outcome<Authority> {
    var n := Until(text, "@");
    if n == |text| then HostOf("", text, url)
    else if !IsChars(text[..n], 0x05) then Rejected(InvalidPart("User info", url))
    else HostOf(text[..n], text[n + 1..], url)
  }

  function FragmentOf(path: string, query: string, rest: string, url: string): Outcome<Tail> {
    if rest == "" then Parsed(Tail(path, query, ""))
    else if IsChars(rest[1..], 0x3F) then Parsed(Tail(path, query, rest[1..]))
    else Rejected(Invalid("Fragment", rest[1..], url))
  }

  /** Behind a question mark. */
  function QueryOf(path: string, rest: string, url: string): Outcome<Tail> {
    var m := Until(rest, "#");
    FragmentOf(path, rest[..m], rest[m..], url)
  }

  function TailOf(text: string, url: string): Outcome<Tail> {
    var n := Until(text, "?#");
    if !IsChars(text[..n], 0x2F) then Rejected(Invalid("Path", text[..n], url))
    else if n < |text| && text[n] == '?' then QueryOf(text[..n], text[n + 1..], url)
    else FragmentOf(text[..n], "", text[n..], url)
  }

  function Joined(scheme: string, authority: Outcome<Authority>, tail: Outcome<Tail>): Outcome<Pieces> {
    match authority
    case Rejected(r) => Rejected(r)
    case OutOfModel => OutOfModel
    case Parsed(a) =>
      match tail
      case Rejected(r) => Rejected(r)
      case OutOfModel => OutOfModel
      case Parsed(t) => Parsed(Pieces(scheme, a, t))
  }

  predicate HasAuthority(text: string) {
    |text| > 1 && text[0] == '/' && text[1] == '/'
  }

  /** Behind two slashes. */
  function BehindSlashes(scheme: string, rest: string, url: string): Outcome<Pieces> {
    var n := Until(rest, "/?#");
    Joined(scheme, AuthorityOf(rest[..n], url), TailOf(rest[n..], url))
  }

  /** What follows the scheme. */
  function Behind(scheme: string, text: string, url: string): Outcome<Pieces> {
    if HasAuthority(text) then BehindSlashes(scheme, text[2..], url)
    else Joined(scheme, Parsed(NO_AUTHORITY), TailOf(text, url))
  }

  function Layout(url: string): Outcome<Pieces> {
    var n := Until(url, ":/?#");
    if n == |url| || url[n] != ':' then Behind("", url, url)
    else if !IsScheme(url[..n]) then Rejected(InvalidPart("Scheme", url))
    else Behind(url[..n], url[n + 1..], url)
  }

  // ----- what every cut guarantees -----

  predicate WellCutAuthority(a: Authority) {
    && (a.ipv == -1 || a.ipv == 0 || a.ipv == 4 || a.ipv == 6)
    && (a.ipv == -1 ==> a == NO_AUTHORITY)
    && (a.ipv == 0 ==> IsChars(a.host, 0x01) && !Ipv4Shaped(a.host))
    && (a.ipv == 4 ==> Ipv4Shaped(a.host))
    && (a.ipv == 6 ==> Ipv6Shaped(a.host))
    && IsChars(a.user, 0x05)
    && (a.port == "" || PortText(a.port))
  }

  predicate WellCut(p: Pieces) {
    && (p.scheme == "" || IsScheme(p.scheme))
    && WellCutAuthority(p.authority)
    && IsChars(p.tail.path, 0x2F) && IsChars(p.tail.fragment, 0x3F)
    && (p.authority.ipv != -1 && p.tail.path != "" ==> p.tail.path[0] == '/')
  }

  /** A part and the separator that comes with it. */
  function PartCost(part: string): nat {
    if part == "" then 0 else |part| + 1
  }

  /** A host and the brackets of a literal. */
  function HostCost(a: Authority): nat {
    if a.ipv == 6 then |a.host| + 2 else |a.host|
  }

  function AuthorityCost(a: Authority): nat {
    PartCost(a.user) + HostCost(a) + PartCost(a.port)
  }

  function TailCost(t: Tail): nat {
    |t.path| + PartCost(t.query) + PartCost(t.fragment)
  }

  lemma HostWellCut(user: string, text: string, url: string)
    requires IsChars(user, 0x05) && HostOf(user, text, url).Parsed?
    ensures var a := HostOf(user, text, url).value;
            WellCutAuthority(a) && a.user == user && a.ipv != -1 && HostCost(a) + PartCost(a.port) <= |text|
  {
  }

  lemma AuthorityWellCut(text: string, url: string)
    requires AuthorityOf(text, url).Parsed?
    ensures var a := AuthorityOf(text, url).value;
            WellCutAuthority(a) && a.ipv != -1 && AuthorityCost(a) <= |text|
  {
    var n := Until(text, "@");
    if n == |text| {
      HostWellCut("", text, url);
    } else {
      HostWellCut(text[..n], text[n + 1..], url);
    }
  }

  lemma TailWellCut(text: string, url: string)
    requires TailOf(text, url).Parsed?
    ensures var t := TailOf(text, url).value;
            && IsChars(t.path, 0x2F) && IsChars(t.fragment, 0x3F) && TailCost(t) <= |text|
            && t.path <= text && (t.path != "" ==> t.path[0] == text[0])
            && (text != "" && (text[0] == '?' || text[0] == '#') ==> t.path == "")
  {
    var n := Until(text, "?#");
    if n < |text| && text[n] == '?' {
      var rest := text[n + 1..];
      var m := Until(rest, "#");
      FragmentWellCut(text[..n], rest[..m], rest[m..], url);
    } else {
      FragmentWellCut(text[..n], "", text[n..], url);
    }
  }

  lemma FragmentWellCut(path: string, query: string, rest: string, url: string)
    requires FragmentOf(path, query, rest, url).Parsed?
    ensures var t := FragmentOf(path, query, rest, url).value;
            t.path == path && t.query == query && IsChars(t.fragment, 0x3F) && PartCost(t.fragment) <= |rest|
  {
  }

  lemma BehindWellCut(scheme: string, text: string, url: string)
    requires (scheme == "" || IsScheme(scheme)) && Behind(scheme, text, url).Parsed?
    ensures var p := Behind(scheme, text, url).value;
            && WellCut(p) && p.scheme == scheme
            && (if p.authority.ipv == -1 then 0 else 2 + AuthorityCost(p.authority)) + TailCost(p.tail) <= |text|
  {
    if HasAuthority(text) {
      var rest := text[2..];
      var n := Until(rest, "/?#");
      AuthorityWellCut(rest[..n], url);
      TailWellCut(rest[n..], url);
      if n < |rest| {
        assert rest[n..][0] == rest[n];
      }
    } else {
      TailWellCut(text, url);
    }
  }

  function PiecesCost(p: Pieces): nat {
    PartCost(p.scheme) + (if p.authority.ipv == -1 then 0 else 2 + AuthorityCost(p.authority)) + TailCost(p.tail)
  }

  /** The parts have the chars they may have, and do not overlap. */
  lemma LayoutWellCut(url: string)
    requires Layout(url).Parsed?
    ensures WellCut(Layout(url).value) && PiecesCost(Layout(url).value) <= |url|
  {
    var n := Until(url, ":/?#");
    if n == |url| || url[n] != ':' {
      BehindWellCut("", url, url);
    } else {
      BehindWellCut(url[..n], url[n + 1..], url);
    }
  }

  // ----- what the parts stand for -----

  /** The host as it is stored. The texts that reach this contain no percent signs. */
  ghost function StoredHost(host: string, ipv: int): Outcome<string> {
    if ipv == 0 then Parsed(Lower(host))
    else if ipv != 6 then Parsed(host)
    else if Ipv6Text(host) then Parsed(Normalized(host))
    else OutOfModel
  }

  ghost function Meaning(p: Pieces, url: string): Outcome<Fields> {
    var host := StoredHost(p.authority.host, p.authority.ipv);
    if host.OutOfModel? then OutOfModel
    else
      var path := Decoded(p.tail.path, false);
      if path.Failure? then Rejected(path.error)
      else
        var query := QueryList(p.tail.query, url);
        if query.Failure? then Rejected(query.error)
        else
          var fragment := Decoded(p.tail.fragment, false);
          if fragment.Failure? then Rejected(fragment.error)
          else Parsed(Fields(Lower(p.scheme), p.authority.(host := host.value), NormalPath(path.value), query.value,
                             fragment.value))
  }

  /** What the text of a URL stands for. */
  ghost function Parse(url: string): Outcome<Fields> {
    if url == "" then Parsed(NO_FIELDS)
    else if |url| > 8000 then Rejected(TOO_LONG)
    else
      match Layout(url)
      case Rejected(r) => Rejected(r)
      case OutOfModel => OutOfModel
      case Parsed(p) => Meaning(p, url)
  }

  // ----- putting the parts together -----

  predicate AsciiFields(f: Fields) {
    Ascii(f.authority.user) && Ascii(f.path) && AsciiList(f.query) && Ascii(f.fragment)
  }

  /** The ports that are not written. */
  predicate DefaultPort(scheme: string, port: string) {
    (scheme == "http" && port == "80") || (scheme == "https" && port == "443")
  }

  function SchemeText(scheme: string): string {
    if scheme == "" then "" else scheme + ":"
  }

  function UserText(user: string): string
    requires Ascii(user)
  {
    if user == "" then "" else Encoded(user, 0x05, Component) + "@"
  }

  function HostText(host: string, ipv: int): string {
    if ipv == 6 then "[" + host + "]" else host
  }

  function PortString(scheme: string, port: string): string {
    if port == "" || DefaultPort(scheme, port) then "" else ":" + port
  }

  function AuthorityText(f: Fields): string
    requires Ascii(f.authority.user)
  {
    if f.authority.host == "" then ""
    else "//" + (UserText(f.authority.user) + (HostText(f.authority.host, f.authority.ipv) +
                                               PortString(f.scheme, f.authority.port)))
  }

  function QueryPart(query: seq<KeyVal>): string
    requires AsciiList(query)
  {
    if query == [] then "" else "?" + QueryText(query)
  }

  function FragmentPart(fragment: string): string
    requires Ascii(fragment)
  {
    if fragment == "" then "" else "#" + Encoded(fragment, 0x1F, Component)
  }

  function TailText(f: Fields): string
    requires AsciiFields(f)
  {
    Encoded(f.path, 0x0F, Component) + (QueryPart(f.query) + FragmentPart(f.fragment))
  }

  function Printed(f: Fields): string
    requires AsciiFields(f)
  {
    SchemeText(f.scheme) + (AuthorityText(f) + TailText(f))
  }

  /** Why a URL cannot be written, if it cannot. */
  function Obstacle(f: Fields): Option<string> {
    if f.authority.host == "" && f.authority.user != "" then Some("User info defined, but host is empty")
    else if f.authority.host == "" && f.authority.port != "" then Some("Port defined, but host is empty")
    else if f.authority.host == "" && ColonFirst(f.path) then
      Some("The first segment of the relative path can't contain ':'")
    else if f.authority.host != "" && f.path != "" && f.path[0] != '/' then
      Some("Path must start with '/' when host is not empty")
    else if f.query != [] && f.query[0].key == "" then Some("First query entry has no key")
    else if !HasKeys(f.query) then Some("A query entry has no key")
    else None
  }

  /** A colon before any slash. */
  predicate ColonFirst(path: string) {
    var n := Until(path, ":/");
    n < |path| && path[n] == ':'
  }

  function Build(f: Fields): Result<string>
    requires AsciiFields(f)
  {
    match Obstacle(f)
    case Some(reason) => Failure(reason)
    case None => Success(Printed(f))
  }
}
