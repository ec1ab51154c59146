/** The query part: the list of keys and values that the parser reads and the builder writes. */
module UrlQuery {
  import opened Results
  import opened UrlChars
  import opened UrlCodec

  datatype KeyVal = KeyVal(key: string, val: string)

  function Invalid(what: string, part: string, url: string): string {
    what + " '" + part + "' in '" + url + "' is invalid"
  }

  // ----- parsing -----

  /** Checks and decodes one key or value. */
  function Field(part: string, isKey: bool, url: string): Result<string> {
    if IsChars(part, 0x3F) then Decoded(part, true)
    else Failure(Invalid(if isKey then "Query key" else "Query value", part, url))
  }

  /** Reads keys (true) and values (false). What the list looks like does not depend on how they are read. */
  type Reader = (string, bool) -> Result<string>

  function FieldReader(url: string): Reader {
    (part: string, isKey: bool) => Field(part, isKey, url)
  }

  function Entry(kv: KeyVal, rest: Result<seq<KeyVal>>): Result<seq<KeyVal>> {
    match rest
    case Success(list) => Success([kv] + list)
    case Failure(e) => Failure(e)
  }

  /** The entry that a text without separators stands for: a key, and a value behind the first equals sign. */
  function EntryOf(part: string, read: Reader): Result<KeyVal> {
    var n := Until(part, "=");
    var key := read(part[..n], true);
    if key.Failure? then Failure(key.error)
    else if n == |part| then Success(KeyVal(key.value, ""))
    else
      var val := read(part[n + 1..], false);
      if val.Failure? then Failure(val.error) else Success(KeyVal(key.value, val.value))
  }

  /** The entries of a query that has begun: there is at least one, which may be empty. */
  function Entries(q: string, read: Reader): Result<seq<KeyVal>>
    decreases |q|
  {
    var m := Until(q, ";&");
    var first := EntryOf(q[..m], read);
    if first.Failure? then Failure(first.error)
    else if m == |q| then Success([first.value])
    else Entry(first.value, Entries(q[m + 1..], read))
  }

  /** A question mark with nothing behind it leaves no entry at all. */
  function EntriesIfAny(q: string, read: Reader): Result<seq<KeyVal>> {
    if q == "" then Success([]) else Entries(q, read)
  }

  /** The list that a query stands for. */
  function QueryList(q: string, url: string): Result<seq<KeyVal>> {
    EntriesIfAny(q, FieldReader(url))
  }

  function Followed(list: seq<KeyVal>, rest: Result<seq<KeyVal>>): Result<seq<KeyVal>> {
    match rest
    case Success(more) => Success(list + more)
    case Failure(e) => Failure(e)
  }

  lemma FollowedEntry(list: seq<KeyVal>, kv: KeyVal, rest: Result<seq<KeyVal>>)
    ensures Followed(list, Entry(kv, rest)) == Followed(list + [kv], rest)
  {
    if rest.Success? {
      assert list + ([kv] + rest.value) == list + [kv] + rest.value;
    }
  }

  lemma FollowsNothing(rest: Result<seq<KeyVal>>)
    ensures Followed([], rest) == rest
  {
    if rest.Success? {
      assert [] + rest.value == rest.value;
    }
  }

  /** Where the loop stands: at the end of the query, or about to read the entry that begins at b. `whole` is
      what the query stands for. */
  predicate Reading(whole: Result<seq<KeyVal>>, s: string, b: nat, e: nat, done: bool, list: seq<KeyVal>, read: Reader)
    requires e <= |s|
  {
    if done then whole == Success(list) else b <= e && whole == Followed(list, Entries(s[b..e], read))
  }

  lemma Slices(s: string, b: nat, p: nat, e: nat)
    requires b <= p <= e <= |s|
    ensures s[b..e][..p - b] == s[b..p]
    ensures p < e ==> s[b..e][p - b] == s[p] && s[b..e][p - b + 1..] == s[p + 1..e]
  {
  }

  lemma EntrySlices(s: string, b: nat, k: nat, p: nat)
    requires b <= k <= p <= |s|
    ensures s[b..p][..k - b] == s[b..k]
    ensures k < p ==> s[b..p][k - b + 1..] == s[k + 1..p]
  {
  }

  lemma Stops(c: char)
    ensures c in "=;&" <==> c in "=" || c in ";&"
    ensures c in "=" <==> c == '='
    ensures c in ";&" <==> c == ';' || c == '&'
  {
  }

  /** A key that no equals sign ends is the whole entry. */
  lemma KeyIsEntry(q: string, k: nat)
    requires k == Until(q, "=;&") && (k < |q| ==> q[k] != '=')
    ensures Until(q, ";&") == k && Until(q[..k], "=") == k
  {
    forall i | 0 <= i < |q| ensures q[i] in "=;&" <==> q[i] == '=' || q[i] in ";&" {
      Stops(q[i]);
    }
    UntilIs(q, ";&", k);
    UntilIs(q[..k], "=", k);
  }

  /** Otherwise the value reaches to the end of the entry. */
  lemma ValEndsEntry(q: string, k: nat, m: nat)
    requires k == Until(q, "=;&") && k < |q| && q[k] == '=' && m == k + 1 + Until(q[k + 1..], ";&")
    ensures m == Until(q, ";&") && Until(q[..m], "=") == k
  {
    forall i | 0 <= i < m ensures q[i] !in ";&" && (i < k ==> q[i] !in "=") {
      Stops(q[i]);
      if i > k {
        assert q[i] == q[k + 1..][i - k - 1];
      }
    }
    assert m < |q| ==> q[m] == q[k + 1..][m - k - 1];
    UntilIs(q, ";&", m);
    UntilIs(q[..m], "=", k);
  }

  /** The entry that begins at b. */
  function EntryAt(s: string, b: nat, e: nat, read: Reader): Result<KeyVal>
    requires b <= e <= |s|
  {
    EntryOf(s[b..b + Until(s[b..e], ";&")], read)
  }

  /** The key and the value that the two searches find are those of the entry. */
  lemma KeyValParts(s: string, b: nat, k: nat, p: nat, e: nat, read: Reader)
    requires b <= k < p <= e <= |s| && k == b + Until(s[b..e], "=;&") && s[k] == '='
    requires p == k + 1 + Until(s[k + 1..e], ";&")
    ensures p == b + Until(s[b..e], ";&")
    ensures EntryAt(s, b, e, read) ==
            var key, val := read(s[b..k], true), read(s[k + 1..p], false);
            if key.Failure? then Failure(key.error)
            else if val.Failure? then Failure(val.error)
            else Success(KeyVal(key.value, val.value))
  {
    Slices(s, b, k, e);
    ValEndsEntry(s[b..e], k - b, p - b);
    Slices(s, b, p, e);
    EntrySlices(s, b, k, p);
  }

  lemma KeyParts(s: string, b: nat, k: nat, e: nat, read: Reader)
    requires b <= k <= e <= |s| && k == b + Until(s[b..e], "=;&") && (k < e ==> s[k] != '=')
    ensures k == b + Until(s[b..e], ";&")
    ensures EntryAt(s, b, e, read) ==
            var key := read(s[b..k], true);
            if key.Failure? then Failure(key.error) else Success(KeyVal(key.value, ""))
  {
    Slices(s, b, k, e);
    KeyIsEntry(s[b..e], k - b);
    EntrySlices(s, b, k, k);
  }

  /** One entry of what is left is read. */
  lemma {:induction false} OneEntry(whole: Result<seq<KeyVal>>, q: string, list: seq<KeyVal>, read: Reader)
    requires whole == Followed(list, Entries(q, read))
    ensures var m := Until(q, ";&");
            var first := EntryOf(q[..m], read);
            if first.Failure? then whole == Failure(first.error)
            else if m == |q| then whole == Success(list + [first.value])
            else whole == Followed(list + [first.value], Entries(q[m + 1..], read))
  {
    var m := Until(q, ";&");
    var first := EntryOf(q[..m], read);
    if first.Success? && m < |q| {
      FollowedEntry(list, first.value, Entries(q[m + 1..], read));
    }
  }

  /** With one more entry read up to p, the loop stands there; an entry that fails is what the query fails
      with. */
  lemma {:induction false} EntryRead(whole: Result<seq<KeyVal>>, s: string, b: nat, e: nat, list: seq<KeyVal>,
                                     read: Reader)
    requires b <= e <= |s| && Reading(whole, s, b, e, false, list, read)
    ensures var first, p := EntryAt(s, b, e, read), b + Until(s[b..e], ";&");
            if first.Failure? then whole == Failure(first.error)
            else Reading(whole, s, p + 1, e, p == e, list + [first.value], read)
  {
    OneEntry(whole, s[b..e], list, read);
    Slices(s, b, b + Until(s[b..e], ";&"), e);
  }

  /** The reader is the check and the decoder, for this url. */
  ghost predicate ReadsFields(read: Reader, url: string) {
    forall part: string, isKey: bool {:trigger Field(part, isKey, url)} :: read(part, isKey) == Field(part, isKey, url)
  }

  method ReadField(s: string, b: nat, p: nat, isKey: bool, ghost read: Reader) returns (r: Result<string>)
    requires b <= p <= |s| && ReadsFields(read, s)
    ensures r == read(s[b..p], isKey)
  {
    assert Field(s[b..p], isKey, s) == read(s[b..p], isKey);
    var ok := CheckChars(s, b, p, 0x3F);
    if !ok {
      return Failure(Invalid(if isKey then "Query key" else "Query value", s[b..p], s));
    }
    r := DecodePlus(s, b, p);
  }

  /** One turn of the loop: the entry at b, and where it ends. */
  method ReadEntry(s: string, b: nat, queryE: nat, ghost read: Reader) returns (r: Result<KeyVal>, p: nat)
    requires b <= queryE <= |s| && ReadsFields(read, s)
    ensures r == EntryAt(s, b, queryE, read)
    ensures r.Success? ==> p == b + Until(s[b..queryE], ";&")
  {
    p := FindFirstOf(s, b, queryE, "=;&");
    var key := ReadField(s, b, p, true, read);
    if p == queryE || s[p] != '=' {
      KeyParts(s, b, p, queryE, read);
    } else {
      KeyValParts(s, b, p, p + 1 + Until(s[p + 1..queryE], ";&"), queryE, read);
    }
    if key.Failure? {
      return Failure(key.error), p;
    }
    if p == queryE || s[p] != '=' {
      return Success(KeyVal(key.value, "")), p;
    }
    var b' := p + 1;
    p := FindFirstOf(s, b', queryE, ";&");
    var val := ReadField(s, b', p, false, read);
    if val.Failure? {
      return Failure(val.error), p;
    }
    return Success(KeyVal(key.value, val.value)), p;
  }

  method ReadEntries(s: string, queryB: nat, queryE: nat, ghost read: Reader) returns (r: Result<seq<KeyVal>>)
    requires queryB <= queryE <= |s| && ReadsFields(read, s)
    ensures r == EntriesIfAny(s[queryB..queryE], read)
  {
    var p: nat, b: nat := queryB, queryB;
    var list: seq<KeyVal> := [];
    ghost var whole := EntriesIfAny(s[queryB..queryE], read);
    FollowsNothing(Entries(s[queryB..queryE], read));
    while p != queryE
      invariant p <= queryE && Reading(whole, s, b, queryE, p == queryE, list, read)
      decreases p != queryE, if b <= queryE then queryE - b else 0
    {
      EntryRead(whole, s, b, queryE, list, read);
      var entry;
      entry, p := ReadEntry(s, b, queryE, read);
      if entry.Failure? {
        return Failure(entry.error);
      }
      b := p + 1;
      list := list + [entry.value];
    }
    return Success(list);
  }

  method ParseQuery(s: string, queryB: nat, queryE: nat) returns (r: Result<seq<KeyVal>>)
    requires queryB <= queryE <= |s|
    ensures r == QueryList(s[queryB..queryE], s)
  {
    r := ReadEntries(s, queryB, queryE, FieldReader(s));
  }

  // ----- building -----

  predicate AsciiList(list: seq<KeyVal>) {
    forall i :: 0 <= i < |list| ==> Ascii(list[i].key) && Ascii(list[i].val)
  }

  predicate HasKeys(list: seq<KeyVal>) {
    forall i :: 0 <= i < |list| ==> list[i].key != ""
  }

  function EntryText(kv: KeyVal): string
    requires Ascii(kv.key) && Ascii(kv.val)
  {
    Encoded(kv.key, 0x1F, QueryKey) + if kv.val == "" then "" else "=" + Encoded(kv.val, 0x1F, QueryVal)
  }

  function QueryText(list: seq<KeyVal>): string
    requires AsciiList(list) && list != []
    decreases |list|
  {
    if |list| == 1 then EntryText(list[0]) else EntryText(list[0]) + "&" + QueryText(list[1..])
  }

  // ----- the round trip -----

  lemma ComponentChars(t: string, style: Style)
    requires Ascii(t) && !style.Component?
    ensures IsChars(Encoded(t, 0x1F, style), 0x3F)
    ensures forall i :: 0 <= i < |Encoded(t, 0x1F, style)| ==>
              Encoded(t, 0x1F, style)[i] !in ";&" && (style.QueryKey? ==> Encoded(t, 0x1F, style)[i] != '=')
  {
    forall i | 0 <= i < |Encoded(t, 0x1F, style)|
      ensures var c := Encoded(t, 0x1F, style)[i];
              IsChar(c, 0x3F) && c !in ";&" && (style.QueryKey? ==> c != '=')
    {
      EncodedChars(t, 0x1F, style, i);
      Masks(Encoded(t, 0x1F, style)[i]);
    }
  }

  predicate Inert(text: string, stops: string) {
    forall i :: 0 <= i < |text| ==> text[i] !in stops
  }

  lemma UntilEnd(part: string, more: string, stops: string)
    requires Inert(part, stops) && (more != "" ==> more[0] in stops)
    ensures Until(part + more, stops) == |part| && (part + more)[..|part|] == part
  {
    UntilIs(part + more, stops, |part|);
  }

  /** What was encoded for a query is read back. */
  lemma FieldReadsBack(t: string, isKey: bool, url: string)
    requires Ascii(t)
    ensures FieldReader(url)(Encoded(t, 0x1F, if isKey then QueryKey else QueryVal), isKey) == Success(t)
  {
    var style := if isKey then QueryKey else QueryVal;
    ComponentChars(t, style);
    Masks('%');
    DecodeEncode(t, 0x1F, style);
  }

  lemma KeyThenVal(part: string, key: string, val: string, read: Reader)
    requires Inert(key, "=") && part == key + ("=" + val)
    ensures EntryOf(part, read) ==
            var k, v := read(key, true), read(val, false);
            if k.Failure? then Failure(k.error)
            else if v.Failure? then Failure(v.error)
            else Success(KeyVal(k.value, v.value))
  {
    UntilEnd(key, "=" + val, "=");
    assert part[|key| + 1..] == val;
  }

  lemma KeyAlone(key: string, read: Reader)
    requires Inert(key, "=")
    ensures EntryOf(key, read) ==
            var k := read(key, true);
            if k.Failure? then Failure(k.error) else Success(KeyVal(k.value, ""))
  {
    UntilEnd(key, "", "=");
    assert key + "" == key;
  }

  /** The text of an entry is read as that entry, and has no separator in it. */
  lemma EntryReadsBack(kv: KeyVal, url: string)
    requires Ascii(kv.key) && Ascii(kv.val)
    ensures EntryOf(EntryText(kv), FieldReader(url)) == Success(kv) && Inert(EntryText(kv), ";&")
  {
    var key, val := Encoded(kv.key, 0x1F, QueryKey), Encoded(kv.val, 0x1F, QueryVal);
    ComponentChars(kv.key, QueryKey);
    ComponentChars(kv.val, QueryVal);
    FieldReadsBack(kv.key, true, url);
    FieldReadsBack(kv.val, false, url);
    if kv.val == "" {
      assert key + "" == key;
      KeyAlone(key, FieldReader(url));
    } else {
      KeyThenVal(key + ("=" + val), key, val, FieldReader(url));
    }
  }

  lemma EntriesReadBack(part: string, kv: KeyVal, more: string, read: Reader)
    requires EntryOf(part, read) == Success(kv) && Inert(part, ";&")
    ensures Entries(part, read) == Success([kv])
    ensures Entries(part + "&" + more, read) == Entry(kv, Entries(more, read))
  {
    UntilEnd(part, "", ";&");
    UntilEnd(part, "&" + more, ";&");
    assert part + "" == part && part + "&" + more == part + ("&" + more);
    assert (part + "&" + more)[|part| + 1..] == more;
  }

  /** Every entry of the list comes back from its own text. */
  ghost predicate EachReadsBack(list: seq<KeyVal>, read: Reader)
    requires AsciiList(list)
  {
    forall i :: 0 <= i < |list| ==>
      EntryOf(EntryText(list[i]), read) == Success(list[i]) && Inert(EntryText(list[i]), ";&")
  }

  lemma {:induction false} RestReadsBack(list: seq<KeyVal>, read: Reader)
    requires AsciiList(list) && list != [] && EachReadsBack(list, read)
    ensures AsciiList(list[1..]) && EachReadsBack(list[1..], read)
  {
    forall i | 0 <= i < |list| - 1 ensures list[1..][i] == list[i + 1] {
    }
  }

  lemma {:induction false} FirstAndRest(list: seq<KeyVal>)
    requires list != []
    ensures Entry(list[0], Success(list[1..])) == Success(list)
    ensures |list| == 1 ==> [list[0]] == list
  {
    assert [list[0]] + list[1..] == list;
  }

  lemma {:induction false} EntriesRoundTrip(list: seq<KeyVal>, read: Reader)
    requires AsciiList(list) && list != [] && EachReadsBack(list, read)
    ensures Entries(QueryText(list), read) == Success(list)
    decreases |list|
  {
    var text, kv := EntryText(list[0]), list[0];
    assert EntryOf(text, read) == Success(kv) && Inert(text, ";&");
    if |list| == 1 {
      EntriesReadBack(text, kv, "", read);
      FirstAndRest(list);
    } else {
      RestReadsBack(list, read);
      EntriesRoundTrip(list[1..], read);
      EntriesReadBack(text, kv, QueryText(list[1..]), read);
      FirstAndRest(list);
    }
  }

  /** Every nonempty list with keys comes back from its text, whatever its values contain. */
  lemma {:induction false} QueryRoundTrip(list: seq<KeyVal>, url: string)
    requires AsciiList(list) && list != [] && HasKeys(list)
    ensures QueryList(QueryText(list), url) == Success(list)
  {
    forall i | 0 <= i < |list|
      ensures EntryOf(EntryText(list[i]), FieldReader(url)) == Success(list[i]) && Inert(EntryText(list[i]), ";&") {
      EntryReadsBack(list[i], url);
    }
    EncodedGrows(list[0].key, 0x1F, QueryKey);
    EntriesRoundTrip(list, FieldReader(url));
  }

  // ----- lengths -----

  lemma FieldShrinks(part: string, isKey: bool, url: string)
    requires Field(part, isKey, url).Success? && Ascii(Field(part, isKey, url).value)
    requires Inert(part, if isKey then "=;&" else ";&")
    ensures |Encoded(Field(part, isKey, url).value, 0x1F, if isKey then QueryKey else QueryVal)| <= |part|
  {
    var style := if isKey then QueryKey else QueryVal;
    forall c: char ensures IsHexDigit(c) ==> Shrinks(c, true, 0x1F, style) {
      Masks(c);
    }
    forall i | 0 <= i < |part| ensures part[i] == '%' || Shrinks(part[i], true, 0x1F, style) {
      assert IsChar(part[i], 0x3F);
      Masks(part[i]);
    }
    EncodeDecodeIsNoLonger(part, Field(part, isKey, url).value, true, 0x1F, style);
  }

  lemma EntryIsNoLonger(part: string, url: string)
    requires EntryOf(part, FieldReader(url)).Success? && Inert(part, ";&")
    requires var kv := EntryOf(part, FieldReader(url)).value; Ascii(kv.key) && Ascii(kv.val)
    ensures |EntryText(EntryOf(part, FieldReader(url)).value)| <= |part|
  {
    var n := Until(part, "=");
    forall i | 0 <= i < n ensures part[i] !in "=;&" {
      Stops(part[i]);
    }
    FieldShrinks(part[..n], true, url);
    if n < |part| {
      FieldShrinks(part[n + 1..], false, url);
    }
  }

  /** A query that was read is written back no longer than it was. */
  lemma {:induction false} QueryIsNoLonger(q: string, url: string)
    requires Entries(q, FieldReader(url)).Success? && AsciiList(Entries(q, FieldReader(url)).value)
    ensures var list := Entries(q, FieldReader(url)).value; list != [] && |QueryText(list)| <= |q|
    decreases |q|
  {
    var read := FieldReader(url);
    var list := Entries(q, read).value;
    var m := Until(q, ";&");
    assert list != [] && list[0] == EntryOf(q[..m], read).value;
    EntryIsNoLonger(q[..m], url);
    if m < |q| {
      assert list[1..] == Entries(q[m + 1..], read).value;
      QueryIsNoLonger(q[m + 1..], url);
    }
  }
}
