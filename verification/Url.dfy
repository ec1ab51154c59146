/** The Url class: a text, its parts, and two flags that say which of them is up to date. */
module Urls {
  import opened Results
  import opened UrlChars
  import opened UrlCodec
  import opened UrlIpv6
  import opened UrlPath
  import opened UrlQuery
  import opened UrlParts
  import opened UrlLayout
  import opened Ipv6Normal
  import opened Ipv6RoundTrip

  // ----- reading the parts -----

  /** Without percent signs there is nothing to decode. */
  lemma {:induction false} NothingToDecode(s: string)
    requires '%' !in s
    ensures Decoded(s, false) == Success(s)
    decreases |s|
  {
    if s != "" {
      NothingToDecode(s[1..]);
      assert [s[0]] + s[1..] == s;
    }
  }

  lemma NoPercent(s: string, mask: bv8)
    requires IsChars(s, mask) && (mask == 0x01 || mask == 0x05)
    ensures '%' !in s
  {
    Masks('%');
  }

  lemma HostHasNoPercent(a: Authority)
    requires WellCutAuthority(a)
    ensures '%' !in a.user && '%' !in a.host
  {
    NoPercent(a.user, 0x05);
    if a.ipv == 0 {
      NoPercent(a.host, 0x01);
    }
  }

  /** The stored host; the third alternative is a text that the source normalises without checking it. */
  method ReadStoredHost(host: string, ipv: int) returns (o: Outcome<string>)
    requires ipv == 6 ==> Ipv6Shaped(host)
    ensures o == StoredHost(host, ipv)
  {
    if ipv == 0 {
      var lower := ToLower(host);
      return Parsed(lower);
    }
    if ipv != 6 {
      return Parsed(host);
    }
    var valid := IsValidIpv6(host);
    if !valid || '.' in host {
      NotAccepted(host);
      return OutOfModel;
    }
    DotFreeIsRfc4291(host);
    var text := NormalizeIpv6(host);
    return Parsed(text.value);
  }

  lemma NotAccepted(host: string)
    requires !ValidIpv6(host) || '.' in host
    ensures !Ipv6Text(host)
  {
    if Ipv6Text(host) {
      AcceptedIsShaped(host);
    }
  }

  method Interpret(s: string, at: Spans, ghost p: Pieces) returns (o: Outcome<Fields>)
    requires PiecesAt(s, at, p) && WellCut(p)
    ensures o == Meaning(p, s)
  {
    HostHasNoPercent(p.authority);
    NothingToDecode(p.authority.user);
    NothingToDecode(p.authority.host);
    var scheme := ToLower(Sub(s, at.scheme));
    var user := Decode(s, at.authority.user.b, at.authority.user.e);
    var decodedHost := Decode(s, at.authority.host.b, at.authority.host.e);
    var host := ReadStoredHost(decodedHost.value, at.authority.ipv);
    if host.OutOfModel? {
      return OutOfModel;
    }
    var decodedPath := Decode(s, at.tail.path.b, at.tail.path.e);
    if decodedPath.Failure? {
      return Rejected(decodedPath.error);
    }
    var path := NormalizePath(decodedPath.value);
    var query := ParseQuery(s, at.tail.query.b, at.tail.query.e);
    if query.Failure? {
      return Rejected(query.error);
    }
    var fragment := Decode(s, at.tail.fragment.b, at.tail.fragment.e);
    if fragment.Failure? {
      return Rejected(fragment.error);
    }
    var authority := Authority(user.value, host.value, at.authority.ipv, Sub(s, at.authority.port));
    return Parsed(Fields(scheme, authority, path, query.value, fragment.value));
  }

  method ReadUrl(s: string) returns (o: Outcome<Fields>)
    requires s != ""
    ensures o == Parse(s)
  {
    if |s| > 8000 {
      return Rejected(TOO_LONG);
    }
    var at := ReadLayout(s);
    if at.Rejected? {
      return Rejected(at.reason);
    }
    if at.OutOfModel? {
      return OutOfModel;
    }
    LayoutWellCut(s);
    o := Interpret(s, at.value, Layout(s).value);
  }

  class Url {
    var scheme: string
    var user: string
    var host: string
    var ipVersion: int
    var port: string
    var path: string
    var query: seq<KeyVal>
    var fragment: string
    var text: string
    var parsed: bool
    var built: bool

    function View(): Fields
      reads this
    {
      Fields(scheme, Authority(user, host, ipVersion, port), path, query, fragment)
    }

    /** What the parts are, or will be once they are needed. */
    ghost function Meant(): Outcome<Fields>
      reads this
    {
      if parsed then Parsed(View()) else Parse(text)
    }

    constructor (url: string)
      ensures text == url && !parsed && !built
    {
      text, parsed, built := url, false, false;
      scheme, user, host, port, path, fragment := "", "", "", "", "", "";
      query, ipVersion := [], -1;
    }

    method Clear()
      modifies this
      ensures View() == NO_FIELDS && text == "" && parsed && built
    {
      text, scheme, user, host, port, path, fragment := "", "", "", "", "", "", "";
      query := [];
      ipVersion := -1;
      built := true;
      parsed := true;
    }

    /** The fields are assigned only when nothing was rejected. */
    method ParseUrl() returns (o: Outcome<Fields>)
      modifies this
      ensures o == Parse(old(text)) && text == old(text)
      ensures o.Parsed? ==> View() == o.value && parsed && (built <==> text == "")
      ensures !o.Parsed? ==> View() == old(View()) && parsed == old(parsed) && built == old(built)
    {
      if text == "" {
        Clear();
        return Parsed(View());
      }
      o := ReadUrl(text);
      if o.Parsed? {
        scheme := o.value.scheme;
        user := o.value.authority.user;
        host := o.value.authority.host;
        ipVersion := o.value.authority.ipv;
        port := o.value.authority.port;
        path := o.value.path;
        query := o.value.query;
        fragment := o.value.fragment;
        parsed := true;
        built := false;
      }
    }

    /** The printed text replaces the old one, and `built` is left false, so that it is printed anew each
        time. */
    method BuildUrl() returns (r: Outcome<string>)
      requires Meant().Parsed? ==> AsciiFields(Meant().value)
      modifies this
      ensures match old(Meant())
              case Rejected(reason) => r == Rejected(reason) && text == old(text) && View() == old(View())
              case OutOfModel => r == OutOfModel && text == old(text) && View() == old(View())
              case Parsed(f) =>
                && parsed && View() == f
                && match Build(f)
                   case Failure(reason) => r == Rejected(reason) && text == old(text)
                   case Success(t) => r == Parsed(t) && text == t && !built
    {
      if !parsed {
        var o := ParseUrl();
        if o.Rejected? {
          return Rejected(o.reason);
        }
        if o.OutOfModel? {
          return OutOfModel;
        }
      }
      var obstacle := FindObstacle();
      if obstacle.Some? {
        return Rejected(obstacle.value);
      }
      var front := "";
      if scheme != "" {
        front := scheme + ":";
      }
      var authority := PrintAuthority();
      var tail := PrintTail();
      built := false;
      text := front + (authority + tail);
      return Parsed(text);
    }

    method FindObstacle() returns (reason: Option<string>)
      ensures reason == Obstacle(View())
    {
      if host == "" {
        if user != "" {
          return Some("User info defined, but host is empty");
        }
        if port != "" {
          return Some("Port defined, but host is empty");
        }
        var colon := HasColonFirst(path);
        if colon {
          return Some("The first segment of the relative path can't contain ':'");
        }
      }
      if path != "" && path[0] != '/' && host != "" {
        return Some("Path must start with '/' when host is not empty");
      }
      if query != [] && query[0].key == "" {
        return Some("First query entry has no key");
      }
      for i := 0 to |query|
        invariant forall j :: 0 <= j < i ==> query[j].key != ""
      {
        if query[i].key == "" {
          return Some("A query entry has no key");
        }
      }
      return None;
    }

    method PrintAuthority() returns (url: string)
      requires Ascii(user)
      ensures url == AuthorityText(View())
    {
      if host == "" {
        return "";
      }
      var info, name, number := "", host, "";
      if user != "" {
        var encoded := Encode(user, 0x05);
        info := encoded + "@";
      }
      if ipVersion == 6 {
        name := "[" + host + "]";
      }
      if port != "" && !((scheme == "http" && port == "80") || (scheme == "https" && port == "443")) {
        number := ":" + port;
      }
      return "//" + (info + (name + number));
    }

    /** Path, query and fragment. */
    method PrintTail() returns (url: string)
      requires AsciiFields(View())
      ensures url == TailText(View())
    {
      var encodedPath := Encode(path, 0x0F);
      var queryPart, fragmentPart := "", "";
      if query != [] {
        var entries := PrintQuery(query);
        queryPart := "?" + entries;
      }
      if fragment != "" {
        var encoded := Encode(fragment, 0x1F);
        fragmentPart := "#" + encoded;
      }
      return encodedPath + (queryPart + fragmentPart);
    }
  }

  /** Whether the first segment of a path contains a colon. */
  method HasColonFirst(path: string) returns (colon: bool)
    ensures colon <==> ColonFirst(path)
  {
    var p := FindFirstOf(path, 0, |path|, ":/");
    assert path[0..|path|] == path;
    colon := p != |path| && path[p] == ':';
  }

  method PrintEntry(kv: KeyVal) returns (url: string)
    requires Ascii(kv.key) && Ascii(kv.val)
    ensures url == EntryText(kv)
  {
    url := EncodeQueryKey(kv.key, 0x1F);
    if kv.val != "" {
      var val := EncodeQueryVal(kv.val, 0x1F);
      url := url + ("=" + val);
    }
  }

  method PrintQuery(query: seq<KeyVal>) returns (url: string)
    requires AsciiList(query) && query != []
    ensures url == QueryText(query)
  {
    url := PrintEntry(query[0]);
    assert query[..1] == [query[0]];
    for i := 1 to |query|
      invariant url == QueryText(query[..i])
    {
      var entry := PrintEntry(query[i]);
      QueryTextSnoc(query[..i], query[i]);
      assert query[..i + 1] == query[..i] + [query[i]];
      url := url + "&" + entry;
    }
    assert query[..|query|] == query;
  }

  lemma {:induction false} QueryTextSnoc(list: seq<KeyVal>, kv: KeyVal)
    requires AsciiList(list) && list != [] && Ascii(kv.key) && Ascii(kv.val)
    ensures QueryText(list + [kv]) == QueryText(list) + "&" + EntryText(kv)
    decreases |list|
  {
    if |list| == 1 {
      assert (list + [kv])[1..] == [kv];
    } else {
      assert (list + [kv])[1..] == list[1..] + [kv];
      QueryTextSnoc(list[1..], kv);
      Regroup(EntryText(list[0]), QueryText(list[1..]), EntryText(kv));
    }
  }

  lemma Regroup(x: string, y: string, z: string)
    ensures x + "&" + (y + "&" + z) == x + "&" + y + "&" + z
  {
  }
}
