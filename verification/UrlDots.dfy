/** What "." and ".." mean in a path, said of texts alone, and how the normaliser compares with section 5.2.4 of
    RFC 3986. */
module UrlDots {
  import opened Text
  import opened UrlChars
  import opened UrlPath

  // ----- segments in the middle of a path -----

  /** The stack of what stands in front of a slash. */
  function Stack(p: string): seq<string> {
    Walk([], Split(p, '/'))
  }

  /** Behind a slash the normal form depends on what is in front only through its stack. */
  lemma {:induction false} BehindSlash(p: string, q: string)
    ensures NormalPath(p + "/" + q) == Slash(p + "/") + Join(Pending(Stack(p), q), "/")
  {
    SplitAround(p, '/', q);
    assert p + "/" + q == p + ['/'] + q;
    ElemsBehind(p + "/" + q, Split(p, '/'), Split(q, '/'));
    assert Slash(p + "/" + q) == Slash(p + "/");
  }

  lemma {:induction false} ElemsBehind(s: string, a: seq<string>, b: seq<string>)
    requires b != [] && Split(s, '/') == a + b
    ensures Elems(s) == Finish(Walk(Walk([], a), b[..|b| - 1]), b[|b| - 1])
  {
    Front(a, b);
    WalkConcat([], a, b[..|b| - 1]);
  }

  lemma Front(a: seq<string>, b: seq<string>)
    requires b != []
    ensures (a + b)[..|a + b| - 1] == a + b[..|b| - 1] && (a + b)[|a + b| - 1] == b[|b| - 1]
  {
  }

  lemma {:induction false} StackOfMore(p: string, x: string)
    requires '/' !in x
    ensures Stack(p + "/" + x) == Visit(Stack(p), x)
  {
    SplitAround(p, '/', x);
    SplitPlain(x, '/');
    assert p + "/" + x == p + ['/'] + x;
    WalkConcat([], Split(p, '/'), [x]);
    WalkOne(Stack(p), x);
  }

  lemma WalkOne(stack: seq<string>, x: string)
    ensures Walk(stack, [x]) == Visit(stack, x)
  {
    assert [x][1..] == [];
  }

  lemma Slashes(p: string, x: string)
    ensures Slash(p + "/" + x + "/") == Slash(p + "/")
  {
  }

  /** A segment that leaves the stack as it is makes no difference. */
  lemma {:induction false} Skipped(p: string, x: string, q: string)
    requires '/' !in x && Visit(Stack(p), x) == Stack(p)
    ensures NormalPath(p + "/" + x + "/" + q) == NormalPath(p + "/" + q)
  {
    StackOfMore(p, x);
    BehindSlash(p + "/" + x, q);
    BehindSlash(p, q);
    Slashes(p, x);
  }

  /** A dot makes no difference, and neither does an empty segment. */
  lemma {:induction false} DotVanishes(p: string, q: string)
    ensures NormalPath(p + "/./" + q) == NormalPath(p + "/" + q)
    ensures NormalPath(p + "//" + q) == NormalPath(p + "/" + q)
  {
    Skipped(p, ".", q);
    Skipped(p, "", q);
    Between(p, ".", q, "/./");
    Between(p, "", q, "//");
  }

  lemma {:induction false} Between(p: string, x: string, q: string, all: string)
    requires all == "/" + x + "/"
    ensures p + "/" + x + "/" + q == p + all + q
  {
  }

  /** Two dots undo the segment in front of them. */
  lemma {:induction false} UpUndoes(p: string, x: string, q: string)
    requires '/' !in x && x != "" && x != "." && x != ".."
    ensures NormalPath(p + "/" + x + "/../" + q) == NormalPath(p + "/" + q)
  {
    Between(p + "/" + x, "..", q, "/../");
    UndoneStack(p, x);
    BehindSlash(p + "/" + x + "/" + "..", q);
    BehindSlash(p, q);
    Slashes(p, x);
    Slashes(p + "/" + x, "..");
  }

  lemma {:induction false} UndoneStack(p: string, x: string)
    requires '/' !in x && x != "" && x != "." && x != ".."
    ensures Stack(p + "/" + x + "/" + "..") == Stack(p)
  {
    StackOfMore(p, x);
    StackOfMore(p + "/" + x, "..");
    assert (Stack(p) + [x])[..|Stack(p)|] == Stack(p);
  }

  lemma {:induction false} EmptyStack(x: string)
    requires x == "" || x == ".." || x == "."
    ensures Stack(x) == [] && Stack("/" + x) == []
  {
    SplitPlain(x, '/');
    WalkOne([], x);
    SplitPlain("", '/');
    WalkOne([], "");
    assert "" + "/" + x == "/" + x;
    StackOfMore("", x);
  }

  /** Above the root there is nothing, and in front of a relative path neither. */
  lemma {:induction false} UpAtRoot(q: string)
    ensures NormalPath("/../" + q) == NormalPath("/" + q)
    ensures !Absolute(q) ==> NormalPath("../" + q) == NormalPath(q)
  {
    assert "/" + ".." + "/" == "/../" && ".." + "/" == "../";
    EmptyStack("");
    EmptyStack("..");
    assert "" + "/" + q == "/" + q && "/" + ".." + "/" + q == ("/" + "..") + "/" + q;
    BehindSlash("", q);
    BehindSlash("/" + "..", q);
    BehindSlash("..", q);
    if q == "" {
      PendingNothing();
    } else {
      assert Elems(q) == Pending([], q);
      assert "" + Join(Elems(q), "/") == Join(Elems(q), "/");
    }
  }

  lemma PendingNothing()
    ensures Pending([], "") == [""] && Join([""], "/") == ""
  {
    assert Split("", '/') == [""];
    assert [""][..0] == [] && [] + [""] == [""];
  }

  // ----- at the end of a path -----

  lemma {:induction false} PendingLast(stack: seq<string>, x: string)
    requires '/' !in x
    ensures Pending(stack, x) == Finish(stack, x)
  {
    SplitPlain(x, '/');
    assert [x][..0] == [];
  }

  /** A dot at the end stands for a trailing slash. */
  lemma {:induction false} DotAtEnd(p: string)
    ensures NormalPath(p + "/.") == NormalPath(p + "/")
  {
    assert p + "/" + "." == p + "/." && p + "/" + "" == p + "/";
    BehindSlash(p, ".");
    BehindSlash(p, "");
    PendingLast(Stack(p), ".");
    PendingLast(Stack(p), "");
  }

  /** Two dots at the end undo the segment in front of them, and take the slash with it: what is left ends in
      none, unless nothing is left. */
  lemma {:induction false} UpAtEnd(p: string, x: string)
    requires '/' !in x && x != "" && x != "." && x != ".."
    ensures var r, whole := NormalPath(p + "/" + x + "/.."), NormalPath(p + "/");
            if whole == "" || whole == "/" then r == whole else whole == r + "/"
  {
    assert p + "/" + x + "/" + ".." == p + "/" + x + "/.." && p + "/" + "" == p + "/";
    BehindSlash(p + "/" + x, "..");
    BehindSlash(p, "");
    StackOfMore(p, x);
    PendingLast(Stack(p) + [x], "..");
    PendingLast(Stack(p), "");
    Slashes(p, x);
    assert (Stack(p) + [x])[..|Stack(p)|] == Stack(p);
    StackIsProper(p);
    TrailingSlash(Slash(p + "/"), Stack(p));
  }

  lemma {:induction false} StackIsProper(p: string)
    ensures AllProper(Stack(p))
  {
    JoinSplit(p, '/');
    WalkProper([], Split(p, '/'));
  }

  lemma {:induction false} TrailingSlash(front: string, stack: seq<string>)
    requires (front == "" || front == "/") && AllProper(stack)
    ensures var r, whole := front + Join(stack, "/"), front + Join(stack + [""], "/");
            if stack == [] then r == whole == front else whole == r + "/" && whole != "" && whole != "/"
  {
    if stack != [] {
      JoinAppend(stack, "/", "");
      assert |Join(stack, "/")| >= |stack[0]| > 0;
    } else {
      assert stack + [""] == [""];
    }
  }

  lemma {:induction false} UpAlone()
    ensures NormalPath("/..") == "/"
  {
    assert "/" + ".." == "/..";
    EmptyStack("");
    assert "" + "/" + ".." == "/" + "..";
    BehindSlash("", "..");
    PendingLast([], "..");
  }

  // ----- paths of ordinary segments -----

  /** A path of ordinary segments is its own normal form, absolute or not, with or without a trailing slash. */
  lemma {:induction false} OrdinaryIsNormal(segments: seq<string>, absolute: bool, trailing: bool)
    requires segments != [] && AllProper(segments) && NoSlash(segments)
    ensures var s := (if absolute then "/" else "") + Join(segments + (if trailing then [""] else []), "/");
            NormalPath(s) == s
  {
    var elems := segments + (if trailing then [""] else []);
    OrdinaryElems(segments, trailing);
    ElemsReadBack(absolute, elems);
  }

  lemma {:induction false} OrdinaryElems(segments: seq<string>, trailing: bool)
    requires segments != [] && AllProper(segments) && NoSlash(segments)
    ensures NormalElems(segments + (if trailing then [""] else []))
  {
  }

  // ----- section 5.2.4 of RFC 3986 -----

  predicate Begins(s: string, prefix: string) {
    prefix <= s
  }

  /** The output buffer without its last segment and the slash in front of that, if any. */
  function WithoutLast(output: string): string {
    if output == "" then ""
    else
      var init := output[..|output| - 1];
      if output[|output| - 1] == '/' then init else WithoutLast(init)
  }

  /** The first segment of the input, with the slash in front of it, if any. */
  function FirstSegment(input: string): (n: nat)
    requires input != ""
    ensures 0 < n <= |input|
  {
    1 + Until(input[1..], "/")
  }

  /** remove_dot_segments, step by step: what is left in the input, and the output so far. */
  function RemoveDots(input: string, output: string): string
    decreases |input|
  {
    if input == "" then output
    else if Begins(input, "../") then RemoveDots(input[3..], output)
    else if Begins(input, "./") then RemoveDots(input[2..], output)
    else if Begins(input, "/./") then RemoveDots(input[2..], output)
    else if input == "/." then RemoveDots("/", output)
    else if Begins(input, "/../") then RemoveDots(input[3..], WithoutLast(output))
    else if input == "/.." then RemoveDots("/", WithoutLast(output))
    else if input == "." || input == ".." then output
    else
      var n := FirstSegment(input);
      RemoveDots(input[n..], output + input[..n])
  }

  /** A stack of segments, as the output buffer holds it. */
  function Buffer(stack: seq<string>): string {
    if stack == [] then "" else Buffer(stack[..|stack| - 1]) + "/" + stack[|stack| - 1]
  }

  lemma {:induction false} BufferMore(stack: seq<string>, x: string)
    ensures Buffer(stack + [x]) == Buffer(stack) + "/" + x
  {
    assert (stack + [x])[..|stack|] == stack;
  }

  lemma {:induction false} BufferJoins(stack: seq<string>)
    ensures Buffer(stack) == if stack == [] then "" else "/" + Join(stack, "/")
    decreases |stack|
  {
    if stack != [] {
      BufferJoins(stack[..|stack| - 1]);
      LastOfBuffer(stack[..|stack| - 1], stack[|stack| - 1]);
      assert stack == stack[..|stack| - 1] + [stack[|stack| - 1]];
    }
  }

  lemma {:induction false} LastOfBuffer(init: seq<string>, last: string)
    requires Buffer(init) == if init == [] then "" else "/" + Join(init, "/")
    ensures Buffer(init + [last]) == "/" + Join(init + [last], "/")
  {
    BufferMore(init, last);
    if init == [] {
      assert init + [last] == [last] && "" + "/" + last == "/" + last;
    } else {
      JoinAppend(init, "/", last);
      InnerSlash(Join(init, "/"), last);
    }
  }

  lemma {:induction false} InnerSlash(a: string, b: string)
    ensures "/" + a + "/" + b == "/" + (a + "/" + b)
  {
  }

  lemma {:induction false} WithoutLastOf(front: string, x: string)
    requires '/' !in x
    ensures WithoutLast(front + "/" + x) == front
    decreases |x|
  {
    var s := front + "/" + x;
    if x == "" {
      assert s == front + "/" && s[..|s| - 1] == front;
    } else {
      var init := x[..|x| - 1];
      assert s[..|s| - 1] == front + "/" + init;
      WithoutLastOf(front, init);
    }
  }

  lemma {:induction false} BufferPopped(stack: seq<string>)
    requires NoSlash(stack)
    ensures WithoutLast(Buffer(stack)) == Buffer(Popped(stack))
  {
    if stack != [] {
      WithoutLastOf(Buffer(stack[..|stack| - 1]), stack[|stack| - 1]);
    }
  }

  // ----- one step of the algorithm on an absolute path -----

  /** The first step, by the segment behind the leading slash. */
  lemma {:induction false} StepOnSegment(x: string, more: string, output: string)
    requires '/' !in x && (more == "" || more[0] == '/')
    ensures RemoveDots("/" + x + more, output) ==
            if x == "." then RemoveDots(if more == "" then "/" else more, output)
            else if x == ".." then RemoveDots(if more == "" then "/" else more, WithoutLast(output))
            else RemoveDots(more, output + ("/" + x))
  {
    var input := "/" + x + more;
    assert input[0] == '/';
    if x == "." {
      assert more == "" ==> input == "/.";
      assert more != "" ==> Begins(input, "/./") && input[2..] == more;
    } else if x == ".." {
      UpSegment(more);
    } else {
      OrdinarySegment(x, more);
      assert input[..|x| + 1] == "/" + x && input[|x| + 1..] == more;
    }
  }

  lemma {:induction false} OrdinarySegment(x: string, more: string)
    requires '/' !in x && (more == "" || more[0] == '/') && x != "." && x != ".."
    ensures var input := "/" + x + more;
            && !Begins(input, "/./") && !Begins(input, "/../") && input != "/." && input != "/.."
            && FirstSegment(input) == |x| + 1
  {
    var input := "/" + x + more;
    assert input[1..] == x + more;
    forall i | 0 <= i < |x| ensures x[i] !in "/" {
      assert x[i] != '/';
    }
    UntilIs(x + more, "/", |x|);
    DotsInFront(input);
    assert |x| > 0 ==> input[1] == x[0];
    assert |x| > 1 ==> input[2] == x[1];
    assert |x| > 2 ==> input[3] == x[2];
    assert more != "" ==> input[|x| + 1] == '/';
  }

  /** What the tests of the algorithm look at. */
  lemma {:induction false} DotsInFront(input: string)
    ensures Begins(input, "/./") || input == "/." ==>
              |input| > 1 && input[1] == '.' && (|input| > 2 ==> input[2] == '/')
    ensures Begins(input, "/../") || input == "/.." ==>
              |input| > 2 && input[1] == '.' && input[2] == '.' && (|input| > 3 ==> input[3] == '/')
  {
    if Begins(input, "/./") {
      assert input[..3] == "/./" && input[1] == "/./"[1] && input[2] == "/./"[2];
    }
    if Begins(input, "/../") {
      assert input[..4] == "/../" && input[1] == "/../"[1] && input[2] == "/../"[2] && input[3] == "/../"[3];
    }
  }

  lemma {:induction false} UpSegment(more: string)
    requires more == "" || more[0] == '/'
    ensures var input := "/" + ".." + more;
            && input != "" && input[0] == '/' && !Begins(input, "/./") && input != "/."
            && (if more == "" then input == "/.." && !Begins(input, "/../") else Begins(input, "/../"))
            && input[3..] == more
  {
    var input := "/" + ".." + more;
    assert input[1] == '.' && input[2] == '.';
  }

  // ----- the two compared -----

  /** What the algorithm makes of the segments behind a stack: like the normaliser, but that empty segments are
      kept, and two dots at the end leave a trailing slash. */
  function Kept(stack: seq<string>, segments: seq<string>): seq<string>
    decreases |segments|
  {
    if segments == [] then stack
    else
      var x, rest := segments[0], segments[1..];
      if rest == [] then
        if x == "." then stack + [""] else if x == ".." then Popped(stack) + [""] else stack + [x]
      else if x == "." then Kept(stack, rest)
      else if x == ".." then Kept(Popped(stack), rest)
      else Kept(stack + [x], rest)
  }

  /** A path is a slash in front of each of its segments. */
  function Slashed(segments: seq<string>): string {
    if segments == [] then "" else "/" + segments[0] + Slashed(segments[1..])
  }

  lemma {:induction false} SlashedJoins(segments: seq<string>)
    requires segments != []
    ensures Slashed(segments) == "/" + Join(segments, "/")
    decreases |segments|
  {
    if |segments| == 1 {
      assert Slashed(segments[1..]) == "";
      assert "/" + segments[0] + "" == "/" + segments[0];
    } else {
      SlashedJoins(segments[1..]);
      assert "/" + segments[0] + ("/" + Join(segments[1..], "/")) ==
             "/" + (segments[0] + "/" + Join(segments[1..], "/"));
    }
  }

  lemma {:induction false} PoppedNoSlash(stack: seq<string>)
    requires NoSlash(stack)
    ensures NoSlash(Popped(stack))
  {
  }

  /** The algorithm, told by segments. */
  lemma {:induction false} RemoveDotsIs(segments: seq<string>, stack: seq<string>)
    requires NoSlash(segments) && NoSlash(stack) && segments != []
    ensures RemoveDots(Slashed(segments), Buffer(stack)) == Buffer(Kept(stack, segments))
    decreases |segments|
  {
    var x, rest := segments[0], segments[1..];
    assert '/' !in x && NoSlash(rest);
    if rest == [] {
      assert segments == [x];
      LastStep(x, stack);
    } else {
      var next := if x == "." then stack else if x == ".." then Popped(stack) else stack + [x];
      MoreStep(x, rest, stack, next);
      PoppedNoSlash(stack);
      RemoveDotsIs(rest, next);
    }
  }

  lemma {:induction false} SlashAlone(output: string)
    ensures RemoveDots("/", output) == output + "/"
  {
    assert "/"[1..] == "" && "/" + "" + "" == "/";
    StepOnSegment("", "", output);
    assert RemoveDots("", output + ("/" + "")) == output + ("/" + "");
    assert output + ("/" + "") == output + "/";
  }

  /** A dot at the end leaves a slash. */
  lemma {:induction false} SlashLeft(stack: seq<string>)
    ensures RemoveDots("/", Buffer(stack)) == Buffer(stack + [""])
  {
    SlashAlone(Buffer(stack));
    BufferMore(stack, "");
    assert Buffer(stack) + "/" + "" == Buffer(stack) + "/";
  }

  lemma {:induction false} BufferAppended(stack: seq<string>, x: string)
    ensures Buffer(stack) + ("/" + x) == Buffer(stack + [x])
  {
    BufferMore(stack, x);
    assert Buffer(stack) + ("/" + x) == Buffer(stack) + "/" + x;
  }

  lemma KeptLast(stack: seq<string>, x: string)
    ensures Kept(stack, [x]) ==
            if x == "." then stack + [""] else if x == ".." then Popped(stack) + [""] else stack + [x]
  {
    assert [x][1..] == [];
  }

  lemma {:induction false} LastStep(x: string, stack: seq<string>)
    requires NoSlash(stack) && '/' !in x
    ensures RemoveDots("/" + x + "", Buffer(stack)) == Buffer(Kept(stack, [x]))
  {
    KeptLast(stack, x);
    StepOnSegment(x, "", Buffer(stack));
    if x == "." {
      SlashLeft(stack);
    } else if x == ".." {
      BufferPopped(stack);
      SlashLeft(Popped(stack));
    } else {
      BufferAppended(stack, x);
      NothingMore(Buffer(stack + [x]));
    }
  }

  lemma NothingMore(output: string)
    ensures RemoveDots("", output) == output
  {
  }

  lemma SlashedFirst(rest: seq<string>)
    requires rest != []
    ensures Slashed(rest) != "" && Slashed(rest)[0] == '/'
  {
  }

  lemma {:induction false} MoreStep(x: string, rest: seq<string>, stack: seq<string>, next: seq<string>)
    requires NoSlash(stack) && '/' !in x && rest != []
    requires next == if x == "." then stack else if x == ".." then Popped(stack) else stack + [x]
    ensures RemoveDots("/" + x + Slashed(rest), Buffer(stack)) == RemoveDots(Slashed(rest), Buffer(next))
  {
    SlashedFirst(rest);
    BufferPopped(stack);
    BufferAppended(stack, x);
    MoreOn(x, Slashed(rest), Buffer(stack), Buffer(Popped(stack)), Buffer(stack + [x]));
  }

  lemma {:induction false} MoreOn(x: string, more: string, output: string, popped: string, longer: string)
    requires '/' !in x && more != "" && more[0] == '/' && popped == WithoutLast(output) && longer == output + ("/" + x)
    ensures RemoveDots("/" + x + more, output) ==
            RemoveDots(more, if x == "." then output else if x == ".." then popped else longer)
  {
    StepOnSegment(x, more, output);
  }

  /** No segment is empty but the last. */
  predicate NoneEmpty(segments: seq<string>) {
    forall i :: 0 <= i < |segments| - 1 ==> segments[i] != ""
  }

  /** Without empty segments both walk alike, up to the last segment. */
  lemma {:induction false} KeptIs(stack: seq<string>, segments: seq<string>)
    requires segments != [] && NoneEmpty(segments)
    ensures var k := |segments| - 1;
            var walked := Walk(stack, segments[..k]);
            Kept(stack, segments) == if segments[k] == ".." then Popped(walked) + [""] else Finish(walked, segments[k])
    decreases |segments|
  {
    var k := |segments| - 1;
    if k > 0 {
      KeptIs(Visit(stack, segments[0]), segments[1..]);
      assert segments[..k][1..] == segments[1..][..k - 1] && segments[..k][0] == segments[0];
    } else {
      assert segments[1..] == [] && segments[..0] == [];
    }
  }

  /** Two slashes in a row. */
  predicate DoubleSlash(p: string) {
    exists i :: 0 < i < |p| && p[i - 1] == '/' && p[i] == '/'
  }

  predicate EndsUp(p: string) {
    |p| >= 3 && p[|p| - 3..] == "/.."
  }

  lemma {:induction false} SegmentsOfPath(p: string)
    requires Absolute(p)
    ensures var segments := Split(p[1..], '/');
            && Split(p, '/') == [""] + segments && p == Slashed(segments) && NoSlash(segments)
  {
    JoinSplit(p[1..], '/');
    SlashedJoins(Split(p[1..], '/'));
    assert p == "/" + p[1..];
  }

  lemma {:induction false} NormalOfPath(p: string, segments: seq<string>)
    requires Absolute(p) && segments != [] && Split(p, '/') == [""] + segments
    ensures var k := |segments| - 1;
            NormalPath(p) == "/" + Join(Finish(Walk([], segments[..k]), segments[k]), "/")
  {
    var k, whole := |segments| - 1, [""] + segments;
    assert whole[..|whole| - 1] == [""] + segments[..k] && whole[|whole| - 1] == segments[k];
    WalkConcat([], [""], segments[..k]);
    WalkOne([], "");
  }

  /** How the normaliser and the algorithm of section 5.2.4 of RFC 3986 compare, by segments. */
  lemma {:induction false} ComparedBySegments(p: string, segments: seq<string>)
    requires Absolute(p) && segments != [] && NoSlash(segments) && NoneEmpty(segments)
    requires p == Slashed(segments) && Split(p, '/') == [""] + segments
    ensures var rfc, normal := RemoveDots(p, ""), NormalPath(p);
            if segments[|segments| - 1] != ".." || rfc == "/" then normal == rfc else rfc == normal + "/"
  {
    var k := |segments| - 1;
    var walked := Walk([], segments[..k]);
    RemoveDotsIs(segments, []);
    KeptIs([], segments);
    NormalOfPath(p, segments);
    BufferJoins(Kept([], segments));
    WalkProper([], segments[..k]);
    if segments[k] == ".." {
      PoppedProper(walked);
      TrailingSlash("/", Popped(walked));
    }
  }

  lemma {:induction false} PoppedProper(stack: seq<string>)
    requires AllProper(stack)
    ensures AllProper(Popped(stack))
  {
  }

  // ----- by the text -----

  lemma {:induction false} SlashedMore(segments: seq<string>, x: string)
    ensures Slashed(segments + [x]) == Slashed(segments) + "/" + x
    decreases |segments|
  {
    if segments == [] {
      assert [x][1..] == [] && [] + [x] == [x];
      assert "/" + x + "" == "" + "/" + x;
    } else {
      SlashedMore(segments[1..], x);
      assert (segments + [x])[1..] == segments[1..] + [x];
      assert "/" + segments[0] + (Slashed(segments[1..]) + "/" + x) ==
             "/" + segments[0] + Slashed(segments[1..]) + "/" + x;
    }
  }

  lemma {:induction false} DoubleSlashBehind(front: string, p: string)
    requires DoubleSlash(p)
    ensures DoubleSlash(front + p)
  {
    var i :| 0 < i < |p| && p[i - 1] == '/' && p[i] == '/';
    assert (front + p)[|front| + i - 1] == '/' && (front + p)[|front| + i] == '/';
  }

  /** An empty segment in the middle is a double slash. */
  lemma {:induction false} EmptyIsDouble(segments: seq<string>, i: nat)
    requires i < |segments| - 1 && segments[i] == ""
    ensures DoubleSlash(Slashed(segments))
    decreases i
  {
    if i == 0 {
      assert Slashed(segments) == "/" + "" + Slashed(segments[1..]);
      assert Slashed(segments)[0] == '/' && Slashed(segments)[1] == '/';
    } else {
      EmptyIsDouble(segments[1..], i - 1);
      DoubleSlashBehind("/" + segments[0], Slashed(segments[1..]));
    }
  }

  /** The text ends in a slash and two dots exactly if its last segment is two dots. */
  lemma {:induction false} EndsUpIf(front: string, last: string)
    requires '/' !in last
    ensures EndsUp(front + "/" + last) <==> last == ".."
  {
    var p := front + "/" + last;
    var n := |p|;
    assert p[|front|] == '/' && forall i :: |front| < i < n ==> p[i] == last[i - |front| - 1];
    if EndsUp(p) {
      assert p[n - 3] == "/.."[0] && p[n - 2] == "/.."[1] && p[n - 1] == "/.."[2];
      assert |front| == n - 3;
      assert last == p[n - 2..];
    }
  }

  /** For every absolute path without a double slash, the normal form is what section 5.2.4 of RFC 3986 gives,
      if and only if the path does not end in "/.." or nothing is left of it; otherwise the normaliser loses the
      trailing slash. */
  lemma {:induction false} AgreesWithRfc3986(p: string)
    requires Absolute(p) && !DoubleSlash(p)
    ensures var rfc, normal := RemoveDots(p, ""), NormalPath(p);
            && (normal == rfc <==> !EndsUp(p) || rfc == "/")
            && (normal != rfc ==> rfc == normal + "/")
  {
    var segments := Split(p[1..], '/');
    var k := |segments| - 1;
    SegmentsOfPath(p);
    if i :| 0 <= i < k && segments[i] == "" {
      EmptyIsDouble(segments, i);
    }
    ComparedBySegments(p, segments);
    SlashedMore(segments[..k], segments[k]);
    assert segments == segments[..k] + [segments[k]];
    EndsUpIf(Slashed(segments[..k]), segments[k]);
  }

  /** "/b/a/.." becomes "/b", where the algorithm gives "/b/". */
  lemma UpAtEndInstance()
    ensures NormalPath("/b/a/..") == "/b"
  {
    UpAtEnd("/b", "a");
    InstanceTexts();
    OrdinaryIsNormal(["b"], true, true);
  }

  lemma {:induction false} InstanceTexts()
    ensures "/b" + "/" + "a" + "/.." == "/b/a/.." && "/b" + "/" == "/b/" && "/b" + "/" != "/"
    ensures (if true then "/" else "") + Join(["b"] + (if true then [""] else []), "/") == "/b/"
  {
    assert ["b"] + [""] == ["b", ""] && ["b", ""][1..] == [""];
    assert "b" + "/" + "" == "b/" && "/" + "b/" == "/b/";
  }
}
