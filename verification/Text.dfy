/** Splitting and joining text at a separator. A char stands for a byte, so it is expected below 256. */
module Text {

  lemma InitAndLast<T>(s: seq<T>)
    requires s != []
    ensures s[..|s| - 1] + [s[|s| - 1]] == s
  {
  }

  /** One more character in front: a separator starts a new piece, any other char belongs to the first. */
  function Prepend(x: char, c: char, parts: seq<string>): (r: seq<string>)
    requires parts != []
    ensures r != []
  {
    if x == c then [""] + parts else [[x] + parts[0]] + parts[1..]
  }

  /** The pieces of s between its occurrences of c; there is always at least one. */
  function Split(s: string, c: char): (parts: seq<string>)
    ensures parts != []
  {
    if s == "" then [""] else Prepend(s[0], c, Split(s[1..], c))
  }

  function Join(parts: seq<string>, sep: string): string {
    if parts == [] then ""
    else if |parts| == 1 then parts[0]
    else parts[0] + sep + Join(parts[1..], sep)
  }

  /** The pieces are free of the separator, and joined at it they are the text again. */
  lemma {:induction false} JoinSplit(s: string, c: char)
    ensures Join(Split(s, c), [c]) == s
    ensures forall i :: 0 <= i < |Split(s, c)| ==> c !in Split(s, c)[i]
    decreases |s|
  {
    if s != "" {
      var rest := Split(s[1..], c);
      JoinSplit(s[1..], c);
      JoinPrepend(s[0], c, rest);
    }
  }

  lemma JoinPrepend(x: char, c: char, parts: seq<string>)
    requires parts != []
    ensures Join(Prepend(x, c, parts), [c]) == [x] + Join(parts, [c])
  {
    var r := Prepend(x, c, parts);
    assert r[1..] == if x == c then parts else parts[1..];
    if x != c && |parts| > 1 {
      assert Join(r, [c]) == ([x] + parts[0]) + [c] + Join(parts[1..], [c]);
    }
  }

  lemma {:induction false} SplitPlain(s: string, c: char)
    requires c !in s
    ensures Split(s, c) == [s]
    decreases |s|
  {
    if s != "" {
      SplitPlain(s[1..], c);
      assert [s[0]] + s[1..] == s;
    }
  }

  lemma PrependConcat(x: char, c: char, u: seq<string>, v: seq<string>)
    requires u != []
    ensures Prepend(x, c, u + v) == Prepend(x, c, u) + v
  {
    assert (u + v)[1..] == u[1..] + v;
  }

  /** Splitting distributes over a separator. */
  lemma {:induction false} SplitAround(a: string, c: char, b: string)
    ensures Split(a + [c] + b, c) == Split(a, c) + Split(b, c)
    decreases |a|
  {
    var s := a + [c] + b;
    if a == "" {
      assert s[1..] == b;
    } else {
      SplitAround(a[1..], c, b);
      assert s[1..] == a[1..] + [c] + b;
      PrependConcat(a[0], c, Split(a[1..], c), Split(b, c));
    }
  }

  lemma {:induction false} SplitJoin(parts: seq<string>, c: char)
    requires parts != [] && forall i :: 0 <= i < |parts| ==> c !in parts[i]
    ensures Split(Join(parts, [c]), c) == parts
    decreases |parts|
  {
    SplitPlain(parts[0], c);
    if |parts| > 1 {
      SplitJoin(parts[1..], c);
      SplitAround(parts[0], c, Join(parts[1..], [c]));
    }
  }

  /** Appending to the last of the joined parts appends to the text. */
  lemma {:induction false} JoinAppend(parts: seq<string>, sep: string, last: string)
    requires parts != []
    ensures Join(parts + [last], sep) == Join(parts, sep) + sep + last
    decreases |parts|
  {
    if |parts| == 1 {
      assert (parts + [last])[1..] == [last];
    } else {
      JoinAppend(parts[1..], sep, last);
      assert (parts + [last])[1..] == parts[1..] + [last];
    }
  }

  lemma {:induction false} JoinConcat(a: seq<string>, b: seq<string>, sep: string)
    requires a != [] && b != []
    ensures Join(a + b, sep) == Join(a, sep) + sep + Join(b, sep)
    decreases |a|
  {
    if |a| == 1 {
      assert (a + b)[1..] == b;
    } else {
      JoinConcat(a[1..], b, sep);
      assert (a + b)[1..] == a[1..] + b;
    }
  }
}
