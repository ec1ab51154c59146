/** The path normaliser, as a stack of segments. */
module UrlPath {
  import opened Text
  import opened UrlChars
  import opened UrlCodec

  /** One segment that a slash follows. */
  function Visit(stack: seq<string>, elem: string): seq<string> {
    if elem == "" || elem == "." then stack
    else if elem == ".." then Popped(stack)
    else stack + [elem]
  }

  function Popped(stack: seq<string>): seq<string> {
    if stack == [] then [] else stack[..|stack| - 1]
  }

  function Walk(stack: seq<string>, segments: seq<string>): seq<string>
    decreases |segments|
  {
    if segments == [] then stack else Walk(Visit(stack, segments[0]), segments[1..])
  }

  /** The segment at the end of the path: here an empty one, or a dot, keeps the trailing slash. */
  function Finish(stack: seq<string>, elem: string): seq<string> {
    if elem == "." then stack + [""]
    else if elem == ".." then Popped(stack)
    else stack + [elem]
  }

  function Elems(s: string): seq<string> {
    var segments := Split(s, '/');
    Finish(Walk([], segments[..|segments| - 1]), segments[|segments| - 1])
  }

  predicate Absolute(s: string) {
    s != "" && s[0] == '/'
  }

  function Slash(s: string): string {
    if Absolute(s) then "/" else ""
  }

  function NormalPath(s: string): string {
    if s == "" then s else Slash(s) + Join(Elems(s), "/")
  }

  // ----- the loop -----

  lemma {:induction false} WalkConcat(stack: seq<string>, a: seq<string>, b: seq<string>)
    ensures Walk(stack, a + b) == Walk(Walk(stack, a), b)
    decreases |a|
  {
    if a == [] {
      assert a + b == b;
    } else {
      WalkConcat(Visit(stack, a[0]), a[1..], b);
      assert (a + b)[1..] == a[1..] + b;
    }
  }

  /** Reads up to the next slash, or to the end of the text. */
  method GetLine(s: string, p: nat) returns (elem: string, next: nat, eof: bool)
    requires p <= |s|
    ensures eof ==> next == |s| && Split(s[p..], '/') == [elem]
    ensures !eof ==> p < next <= |s| && Split(s[p..], '/') == [elem] + Split(s[next..], '/')
  {
    elem, next := "", p;
    while next < |s| && s[next] != '/'
      invariant p <= next <= |s| && elem == s[p..next] && '/' !in elem
    {
      elem := elem + [s[next]];
      next := next + 1;
    }
    SplitPlain(elem, '/');
    if next == |s| {
      assert s[p..] == elem;
      return elem, next, true;
    }
    assert s[p..] == elem + ['/'] + s[next + 1..];
    SplitAround(elem, '/', s[next + 1..]);
    return elem, next + 1, false;
  }

  /** What the stack becomes from position p on. */
  function Pending(stack: seq<string>, rest: string): seq<string> {
    var segments := Split(rest, '/');
    Finish(Walk(stack, segments[..|segments| - 1]), segments[|segments| - 1])
  }

  lemma PendingStep(stack: seq<string>, elem: string, rest: string, s: string)
    requires Split(s, '/') == [elem] + Split(rest, '/')
    ensures Pending(stack, s) == Pending(Visit(stack, elem), rest)
  {
    var segments, more := Split(s, '/'), Split(rest, '/');
    assert segments[..|segments| - 1] == [elem] + more[..|more| - 1];
    assert segments[..|segments| - 1][1..] == more[..|more| - 1];
  }

  method NormalizePath(s: string) returns (r: string)
    ensures r == NormalPath(s)
  {
    if s == "" {
      return s;
    }
    var elems := WalkSegments(s);
    var so := "";
    if s[0] == '/' {
      so := so + "/";
    }
    r := JoinElems(so, elems);
  }

  method WalkSegments(s: string) returns (elems: seq<string>)
    ensures elems == Elems(s)
  {
    elems := [];
    assert s[0..] == s;
    var elem, p, eof := GetLine(s, 0);
    ghost var from := 0;
    while !eof
      invariant from <= p <= |s|
      invariant if eof then Split(s[from..], '/') == [elem]
                else from < p && Split(s[from..], '/') == [elem] + Split(s[p..], '/')
      invariant Elems(s) == Pending(elems, s[from..])
      decreases !eof, |s| - from
    {
      PendingStep(elems, elem, s[p..], s[from..]);
      if elem == "" || elem == "." {
      } else if elem == ".." {
        if elems != [] {
          elems := elems[..|elems| - 1];
        }
      } else {
        elems := elems + [elem];
      }
      from := p;
      elem, p, eof := GetLine(s, p);
    }
    PendingEnd(elems, elem, s[from..]);
    if elem == "." {
      elems := elems + [""];
    } else if elem == ".." {
      if elems != [] {
        elems := elems[..|elems| - 1];
      }
    } else {
      elems := elems + [elem];
    }
  }

  lemma PendingEnd(stack: seq<string>, elem: string, rest: string)
    requires Split(rest, '/') == [elem]
    ensures Pending(stack, rest) == Finish(stack, elem)
  {
  }

  /** Prints the stack behind what was printed before. */
  method JoinElems(head: string, elems: seq<string>) returns (so: string)
    ensures so == head + Join(elems, "/")
  {
    so := head;
    assert head + "" == head;
    if elems != [] {
      so := so + elems[0];
      assert Join(elems[..1], "/") == elems[0];
      for i := 1 to |elems|
        invariant so == head + Join(elems[..i], "/")
      {
        assert elems[..i + 1] == elems[..i] + [elems[i]];
        JoinAppend(elems[..i], "/", elems[i]);
        Longer(head, Join(elems[..i], "/"), elems[i]);
        so := so + "/" + elems[i];
      }
      assert elems[..|elems|] == elems;
    }
  }

  lemma Longer(head: string, text: string, elem: string)
    ensures head + text + "/" + elem == head + (text + "/" + elem)
  {
  }

  // ----- what a normal path looks like -----

  predicate Proper(elem: string) {
    elem != "" && elem != "." && elem != ".." && '/' !in elem
  }

  predicate AllProper(elems: seq<string>) {
    forall i :: 0 <= i < |elems| ==> Proper(elems[i])
  }

  predicate NoSlash(segments: seq<string>) {
    forall i :: 0 <= i < |segments| ==> '/' !in segments[i]
  }

  /** Proper segments, of which only the last may be empty. */
  predicate NormalElems(elems: seq<string>) {
    && AllProper(if elems == [] then [] else elems[..|elems| - 1])
    && (elems == [] || elems[|elems| - 1] == "" || Proper(elems[|elems| - 1]))
  }

  lemma {:induction false} WalkProper(stack: seq<string>, segments: seq<string>)
    requires AllProper(stack) && NoSlash(segments)
    ensures AllProper(Walk(stack, segments))
    decreases |segments|
  {
    if segments != [] {
      assert '/' !in segments[0];
      assert forall i :: 0 <= i < |segments| - 1 ==> segments[1..][i] == segments[i + 1];
      WalkProper(Visit(stack, segments[0]), segments[1..]);
    }
  }

  /** There is no "." and no ".." left, and no empty segment except at the end. */
  lemma ElemsAreNormal(s: string)
    ensures NormalElems(Elems(s))
  {
    var segments := Split(s, '/');
    JoinSplit(s, '/');
    WalkProper([], segments[..|segments| - 1]);
    FinishNormal(Walk([], segments[..|segments| - 1]), segments[|segments| - 1]);
  }

  lemma FinishNormal(stack: seq<string>, elem: string)
    requires AllProper(stack) && '/' !in elem
    ensures NormalElems(Finish(stack, elem))
  {
    if elem == ".." && |stack| > 1 {
      assert Proper(stack[|stack| - 2]);
    }
  }

  lemma {:induction false} WalkOverProper(stack: seq<string>, elems: seq<string>)
    requires AllProper(elems)
    ensures Walk(stack, elems) == stack + elems
    decreases |elems|
  {
    if elems != [] {
      assert Proper(elems[0]);
      assert forall i :: 0 <= i < |elems| - 1 ==> elems[1..][i] == elems[i + 1];
      WalkOverProper(stack + [elems[0]], elems[1..]);
      assert stack + [elems[0]] + elems[1..] == stack + elems;
    }
  }

  /** The segments of a text put together from normal elements. */
  lemma SegmentsOfNormal(absolute: bool, elems: seq<string>)
    requires NormalElems(elems)
    ensures Split((if absolute then "/" else "") + Join(elems, "/"), '/') ==
            (if absolute then [""] else []) + (if elems == [] then [""] else elems)
  {
    var text, shown := Join(elems, "/"), if elems == [] then [""] else elems;
    SplitNormal(elems);
    if absolute {
      assert Split("/" + text, '/') == [""] + shown by {
        assert ("/" + text)[1..] == text;
      }
    } else {
      assert "" + text == text && [] + shown == shown;
    }
  }

  lemma SplitNormal(elems: seq<string>)
    requires NormalElems(elems)
    ensures Split(Join(elems, "/"), '/') == if elems == [] then [""] else elems
  {
    if elems != [] {
      var init := elems[..|elems| - 1];
      assert forall i :: 0 <= i < |elems| - 1 ==> Proper(init[i]) && elems[i] == init[i];
      SplitJoin(elems, '/');
    }
  }

  /** Normal elements are read back unchanged. An empty list is read as one empty element, which prints the
      same. */
  lemma ElemsReadBack(absolute: bool, elems: seq<string>)
    requires NormalElems(elems)
    ensures Elems((if absolute then "/" else "") + Join(elems, "/")) == if elems == [] then [""] else elems
  {
    var root := if absolute then [""] else [];
    var shown := if elems == [] then [""] else elems;
    SegmentsOfNormal(absolute, elems);
    LastApart(shown);
    WalkOverNormal(root, shown[..|shown| - 1], shown[|shown| - 1]);
  }

  lemma LastApart(parts: seq<string>)
    requires parts != []
    ensures parts == parts[..|parts| - 1] + [parts[|parts| - 1]]
  {
  }

  /** The walk over a root and proper segments, up to the last segment. */
  lemma WalkOverNormal(root: seq<string>, init: seq<string>, last: string)
    requires (root == [] || root == [""]) && AllProper(init)
    ensures var segments := root + (init + [last]);
            segments[|segments| - 1] == last && Walk([], segments[..|segments| - 1]) == init
  {
    var segments := root + (init + [last]);
    assert segments[..|segments| - 1] == root + init;
    WalkConcat([], root, init);
    assert Walk([], root) == [];
    WalkOverProper([], init);
    assert [] + init == init;
  }

  /** Normalising keeps absolute paths absolute and relative ones relative. */
  lemma KeepsAbsolute(s: string)
    ensures Absolute(NormalPath(s)) <==> Absolute(s)
  {
    if s != "" && !Absolute(s) {
      var elems := Elems(s);
      ElemsAreNormal(s);
      if elems != [] {
        FirstChar(elems);
      }
    }
  }

  lemma FirstChar(elems: seq<string>)
    requires elems != [] && NormalElems(elems)
    ensures Join(elems, "/") != "" ==> Join(elems, "/")[0] != '/'
  {
    if |elems| > 1 {
      assert Proper(elems[..|elems| - 1][0]);
    }
  }

  lemma NormalPathIsIdempotent(s: string)
    ensures NormalPath(NormalPath(s)) == NormalPath(s)
  {
    var r := NormalPath(s);
    if s != "" && r != "" {
      var elems := Elems(s);
      KeepsAbsolute(s);
      ElemsAreNormal(s);
      ElemsReadBack(Absolute(s), elems);
      assert Join([""], "/") == "" == Join([], "/");
    }
  }

  /** What a normal path consists of, read off its text: no "." and no "..", and no empty segment but the one
      before a leading slash and the one after a trailing slash. */
  lemma NormalPathIsClean(s: string, i: nat)
    requires i < |Split(NormalPath(s), '/')|
    ensures var segments := Split(NormalPath(s), '/');
            && segments[i] != "." && segments[i] != ".."
            && (segments[i] == "" ==> i == |segments| - 1 || (i == 0 && Absolute(s)))
  {
    if s != "" {
      ElemsAreNormal(s);
      SegmentsOfNormal(Absolute(s), Elems(s));
      CleanSegments(Absolute(s), Elems(s), i);
    }
  }

  lemma CleanSegments(absolute: bool, elems: seq<string>, i: nat)
    requires NormalElems(elems)
    ensures var segments := (if absolute then [""] else []) + (if elems == [] then [""] else elems);
            i < |segments| ==>
            && segments[i] != "." && segments[i] != ".."
            && (segments[i] == "" ==> i == |segments| - 1 || (i == 0 && absolute))
  {
    if i > 0 || !absolute {
      NormalElem(elems, if absolute then i - 1 else i);
    }
  }

  lemma NormalElem(elems: seq<string>, k: nat)
    requires NormalElems(elems)
    ensures k < |elems| ==> elems[k] != "." && elems[k] != ".." && (elems[k] == "" ==> k == |elems| - 1)
  {
    if k < |elems| - 1 {
      assert Proper(elems[..|elems| - 1][k]);
    }
  }

  // ----- composition -----

  /** What a path leaves on the stack when more follows. */
  function Base(s: string): seq<string> {
    Walk([], Split(s, '/'))
  }

  lemma BaseOfElems(s: string)
    ensures Base(s) == Walk([], Elems(s))
  {
    var segments := Split(s, '/');
    var init, last := segments[..|segments| - 1], segments[|segments| - 1];
    var stack := Walk([], init);
    JoinSplit(s, '/');
    WalkProper([], init);
    assert segments == init + [last];
    WalkConcat([], init, [last]);
    assert Walk(stack, [last]) == Visit(stack, last);
    WalkOverProper([], stack);
    assert [] + stack == stack;
    if last == ".." {
      WalkOverProper([], Popped(stack));
      assert [] + Popped(stack) == Popped(stack);
    } else {
      var more := if last == "." then "" else last;
      WalkConcat([], stack, [more]);
      assert Walk(stack, [more]) == Visit(stack, more);
    }
  }

  lemma ElemsOfConcat(a: string, b: string)
    ensures Elems(a + "/" + b) == Pending(Base(a), b)
  {
    var x, y := Split(a, '/'), Split(b, '/');
    SplitAround(a, '/', b);
    assert (x + y)[..|x + y| - 1] == x + y[..|y| - 1];
    WalkConcat([], x, y[..|y| - 1]);
  }

  lemma BaseOfNormal(s: string)
    ensures Base(NormalPath(s)) == Base(s)
  {
    if s != "" {
      var elems := Elems(s);
      var root := if Absolute(s) then [""] else [];
      var shown := if elems == [] then [""] else elems;
      ElemsAreNormal(s);
      SegmentsOfNormal(Absolute(s), elems);
      BaseOfElems(s);
      WalkConcat([], root, shown);
      assert Walk([], root) == [];
      assert Walk([], [""]) == Walk([], []);
    }
  }

  /** Normalising the front first changes nothing, unless a relative front vanishes. */
  lemma NormalPathComposes(a: string, b: string)
    ensures NormalPath(NormalPath(a) + "/" + b) == NormalPath(a + "/" + b)
       <==> (a == "" || Absolute(a) || NormalPath(a) != "")
  {
    var n := NormalPath(a);
    ElemsOfConcat(a, b);
    ElemsOfConcat(n, b);
    BaseOfNormal(a);
    KeepsAbsolute(a);
    KeepsAbsolute(n + "/" + b);
    KeepsAbsolute(a + "/" + b);
  }

  // ----- lengths -----

  /** The widths of the segments, with a slash for each. */
  function Cost(segments: seq<string>, mask: bv8): nat
    decreases |segments|
  {
    if segments == [] then 0 else Width(segments[0], mask) + 1 + Cost(segments[1..], mask)
  }

  lemma SlashWidth(mask: bv8)
    requires IsChar('/', mask)
    ensures Width("/", mask) == 1
  {
    assert "/"[1..] == "";
  }

  lemma {:induction false} JoinWidth(segments: seq<string>, mask: bv8)
    requires segments != [] && IsChar('/', mask)
    ensures Width(Join(segments, "/"), mask) + 1 == Cost(segments, mask)
    decreases |segments|
  {
    if |segments| > 1 {
      JoinWidth(segments[1..], mask);
      SlashWidth(mask);
      WidthConcat(segments[0], "/", mask);
      WidthConcat(segments[0] + "/", Join(segments[1..], "/"), mask);
    } else {
      assert Cost(segments[1..], mask) == 0;
    }
  }

  lemma {:induction false} CostConcat(a: seq<string>, b: seq<string>, mask: bv8)
    ensures Cost(a + b, mask) == Cost(a, mask) + Cost(b, mask)
    decreases |a|
  {
    if a == [] {
      assert a + b == b;
    } else {
      CostConcat(a[1..], b, mask);
      assert (a + b)[1..] == a[1..] + b;
    }
  }

  /** A segment costs at most its own width and a slash. */
  lemma VisitCost(stack: seq<string>, elem: string, mask: bv8)
    ensures Cost(Popped(stack), mask) <= Cost(stack, mask)
    ensures Cost(stack + [elem], mask) == Cost(stack, mask) + Width(elem, mask) + 1
  {
    CostConcat(stack, [elem], mask);
    assert Cost([elem], mask) == Width(elem, mask) + 1 + Cost([], mask);
    if stack != [] {
      LastApart(stack);
      CostConcat(Popped(stack), [stack[|stack| - 1]], mask);
    }
  }

  lemma {:induction false} WalkCost(stack: seq<string>, segments: seq<string>, mask: bv8)
    ensures Cost(Walk(stack, segments), mask) <= Cost(stack, mask) + Cost(segments, mask)
    decreases |segments|
  {
    if segments != [] {
      VisitCost(stack, segments[0], mask);
      WalkCost(Visit(stack, segments[0]), segments[1..], mask);
    }
  }

  lemma ElemsCost(s: string, mask: bv8)
    requires IsChar('/', mask)
    ensures Width(Join(Elems(s), "/"), mask) <= Width(s, mask)
  {
    var segments := Split(s, '/');
    var init, last := segments[..|segments| - 1], segments[|segments| - 1];
    JoinSplit(s, '/');
    JoinWidth(segments, mask);
    WalkCost([], init, mask);
    LastApart(segments);
    VisitCost(init, last, mask);
    VisitCost(Walk([], init), if last == "." then "" else last, mask);
    if Elems(s) != [] {
      JoinWidth(Elems(s), mask);
    }
  }

  lemma ElemsBehindSlash(s: string)
    requires Absolute(s)
    ensures Elems(s) == Elems(s[1..])
  {
    var rest := Split(s[1..], '/');
    assert Split(s, '/') == [""] + rest;
    assert ([""] + rest)[..|rest|] == [""] + rest[..|rest| - 1];
    assert ([""] + rest[..|rest| - 1])[1..] == rest[..|rest| - 1];
  }

  /** Normalising never makes a path longer, not even when it is encoded. */
  lemma NormalPathIsNoWider(s: string, mask: bv8)
    requires IsChar('/', mask)
    ensures Width(NormalPath(s), mask) <= Width(s, mask)
  {
    if Absolute(s) {
      ElemsBehindSlash(s);
      ElemsCost(s[1..], mask);
      WidthConcat("/", Join(Elems(s), "/"), mask);
      WidthConcat("/", s[1..], mask);
      assert "/" + s[1..] == s;
    } else if s != "" {
      ElemsCost(s, mask);
      assert "" + Join(Elems(s), "/") == Join(Elems(s), "/");
    }
  }
}
