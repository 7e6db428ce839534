/** When a normalised path still denotes what the original did. */
module PathMeaning {
  import opened PathSyntax
  import opened PathNormalize

  predicate EndsInColon(s: string) { |s| > 0 && s[|s| - 1] == ':' }

  /** The text cannot be misread: no '/' was dropped after a segment that ends in ':', and a
      path without a root does not begin like a drive. */
  predicate Faithful(m: Meaning) {
    && !ColonInside(m.stack)
    && (|m.root| == 0 && |m.stack| > 0 ==> |m.stack[0]| < 2 || m.stack[0][1] != ':')
  }

  /** What paths denote: a root as `RootOf` gives it, and a normal stack under it. */
  ghost predicate Proper(m: Meaning) {
    RootOf(m.root) == m.root && NormalStack(IsAbsolute(m.root), m.stack)
  }

  lemma DenoteIsProper(path: string)
    ensures Proper(Denote(path))
    ensures IsAbsolute(RootOf(path)) == IsAbsolute(path)
  {
    RootKept(path);
    FoldIsNormal(IsAbsolute(path), Split(path[RootLength(path)..]));
  }

  lemma RootKept(path: string)
    ensures RootOf(RootOf(path)) == RootOf(path) && IsAbsolute(RootOf(path)) == IsAbsolute(path)
  {
  }

  /** Segments that can stand in a normal stack. */
  predicate Segments(stack: seq<string>) {
    forall i :: 0 <= i < |stack| ==> |stack[i]| > 0 && NoSep(stack[i])
  }

  /** Some segment before the last ends in ':'. */
  predicate ColonInside(stack: seq<string>) {
    exists k :: 0 <= k < |stack| - 1 && EndsInColon(stack[k])
  }

  /** The text behind the root: a '/' between neighbours, but none after a ':'. */
  function Tail(stack: seq<string>): string {
    if |stack| == 0 then ""
    else if |stack| == 1 then stack[0]
    else Tail(stack[..|stack| - 1]) + (if EndsInColon(stack[|stack| - 2]) then "" else "/") + stack[|stack| - 1]
  }

  lemma TailEnd(stack: seq<string>)
    requires Segments(stack) && |stack| > 0
    ensures |Tail(stack)| > 0 && Tail(stack)[|Tail(stack)| - 1] == stack[|stack| - 1][|stack[|stack| - 1]| - 1]
  {
  }

  lemma ExtendBehind(root: string, tail: string, seg: string)
    requires |tail| > 0 && tail[|tail| - 1] != '/'
    ensures Extend(root + tail, seg) == root + (tail + (if EndsInColon(tail) then "" else "/") + seg)
  {
    var t := root + tail;
    assert t[|t| - 1] == tail[|tail| - 1];
    if EndsInColon(tail) {
      assert tail + "" == tail;
      assert t + seg == root + (tail + seg);
    } else {
      assert t + "/" + seg == root + (tail + "/" + seg);
    }
  }

  lemma {:induction false} JoinIsTail(root: string, stack: seq<string>)
    requires Segments(stack) && (|root| > 0 ==> root[|root| - 1] == ':' || root[|root| - 1] == '/')
    ensures Join(root, stack) == root + Tail(stack)
  {
    if |stack| > 0 {
      var init := stack[..|stack| - 1];
      JoinIsTail(root, init);
      var last := stack[|stack| - 1];
      assert Join(root, stack) == Extend(root + Tail(init), last);
      if |init| == 0 {
        assert root + Tail(init) == root;
      } else {
        TailEnd(init);
        ExtendBehind(root, Tail(init), last);
      }
    }
  }

  lemma {:induction false} TailStart(stack: seq<string>)
    requires Segments(stack) && |stack| > 0
    ensures stack[0] <= Tail(stack)
    ensures !ColonInside(stack) && |Tail(stack)| > |stack[0]| ==> Tail(stack)[|stack[0]|] == '/'
  {
    if |stack| > 1 {
      var init := stack[..|stack| - 1];
      TailStart(init);
      assert EndsInColon(stack[|stack| - 2]) ==> ColonInside(stack);
      assert ColonInside(init) ==> ColonInside(stack);
    }
  }

  lemma {:induction false} SplitLonger(a: string, g: string)
    requires NoSep(g)
    ensures |Split(a + g)| == |Split(a)|
  {
    if g == "" {
      assert a + g == a;
    } else {
      SplitLonger(a, g[..|g| - 1]);
      assert (a + g)[..|a + g| - 1] == a + g[..|g| - 1];
    }
  }

  lemma ColonInsideStep(stack: seq<string>)
    requires |stack| > 1
    ensures ColonInside(stack) <==> ColonInside(stack[..|stack| - 1]) || EndsInColon(stack[|stack| - 2])
  {
    var init := stack[..|stack| - 1];
    if ColonInside(stack) {
      var k :| 0 <= k < |stack| - 1 && EndsInColon(stack[k]);
      assert k < |init| && init[k] == stack[k];
    }
    if ColonInside(init) {
      var k :| 0 <= k < |init| - 1 && EndsInColon(init[k]);
      assert EndsInColon(stack[k]);
    }
  }

  /** The text behind the root splits into the segments again, unless a '/' was dropped:
      then there are fewer pieces than segments. */
  lemma {:induction false} SplitTail(stack: seq<string>)
    requires Segments(stack) && |stack| > 0
    ensures if ColonInside(stack) then |Split(Tail(stack))| < |stack| else Split(Tail(stack)) == stack
  {
    var last := stack[|stack| - 1];
    if |stack| == 1 {
      SplitFree(last);
    } else {
      var init := stack[..|stack| - 1];
      SplitTail(init);
      ColonInsideStep(stack);
      SplitNext(Tail(init), EndsInColon(stack[|stack| - 2]), last);
      assert stack == init + [last];
    }
  }

  lemma SplitNext(tail: string, colon: bool, seg: string)
    requires NoSep(seg)
    ensures
      var t := tail + (if colon then "" else "/") + seg;
      if colon then |Split(t)| == |Split(tail)| else Split(t) == Split(tail) + [seg]
  {
    if colon {
      assert tail + "" + seg == tail + seg;
      SplitLonger(tail, seg);
    } else {
      SplitPiece(tail, '/', seg);
    }
  }

  /** A root followed by segments is read back as that root. */
  lemma RootReadBack(root: string, stack: seq<string>)
    requires RootOf(root) == root && Segments(stack) && |stack| > 0 && !ColonInside(stack)
    requires |root| == 0 ==> |stack[0]| < 2 || stack[0][1] != ':'
    ensures
      var t := root + Tail(stack);
      RootOf(t) == root && RootLength(t) == |root| && IsAbsolute(t) == IsAbsolute(root)
  {
    TailStart(stack);
    var t := root + Tail(stack);
    assert t[|root|] == stack[0][0];
    if |root| == 0 {
      assert t == Tail(stack);
    }
  }

  lemma RenderIsTail(m: Meaning)
    requires Proper(m) && |m.stack| > 0
    ensures Segments(m.stack) && Render(m) == m.root + Tail(m.stack) && Render(m)[|m.root|..] == Tail(m.stack)
  {
    RootEnd(m.root);
    JoinIsTail(m.root, m.stack);
  }

  lemma DotIsEmpty(t: string)
    requires IsDot(t)
    ensures Denote(t) == Meaning("", [])
  {
    assert t[0..] == t;
    SplitFree(t);
    FoldAppend(false, [], t);
    assert [] + [t] == [t];
  }

  lemma RootIsItself(root: string)
    requires RootOf(root) == root && |root| > 0
    ensures Denote(root) == Meaning(root, [])
  {
    assert root[RootLength(root)..] == "";
    FoldAppend(IsAbsolute(root), [], "");
    assert [] + [""] == [""];
  }

  lemma RootAlone(m: Meaning)
    requires Proper(m) && |m.stack| == 0
    ensures Denote(Render(m)) == m
  {
    if |m.root| == 0 {
      DotIsEmpty(Render(m));
    } else {
      RootIsItself(m.root);
    }
  }

  lemma FaithfulReadsBack(m: Meaning)
    requires Proper(m) && Faithful(m)
    ensures Denote(Render(m)) == m
  {
    if |m.stack| == 0 {
      RootAlone(m);
    } else {
      RenderIsTail(m);
      RootReadBack(m.root, m.stack);
      SplitTail(m.stack);
      FoldOfNormal(IsAbsolute(m.root), m.stack);
    }
  }

  lemma DriveAtStart(stack: seq<string>)
    requires Segments(stack) && |stack| > 0 && |stack[0]| >= 2 && stack[0][1] == ':'
    ensures |RootOf(Tail(stack))| > 0
  {
    TailStart(stack);
    assert Tail(stack)[0] == stack[0][0] && Tail(stack)[1] == stack[0][1];
  }

  lemma ColonLosesSegment(m: Meaning)
    requires Proper(m) && |m.stack| > 0 && ColonInside(m.stack)
    ensures Denote(Render(m)) != m
  {
    RenderIsTail(m);
    var t := Render(m);
    if RootOf(t) == m.root {
      SplitTail(m.stack);
      FoldShrinks(IsAbsolute(t), Split(Tail(m.stack)));
    }
  }

  lemma DriveChangesRoot(m: Meaning)
    requires Proper(m) && |m.root| == 0 && |m.stack| > 0 && |m.stack[0]| >= 2 && m.stack[0][1] == ':'
    ensures Denote(Render(m)) != m
  {
    RenderIsTail(m);
    DriveAtStart(m.stack);
    assert Render(m) == Tail(m.stack);
  }

  /** The result of normalising denotes the same root and segments exactly when its text
      cannot be misread. */
  lemma NormalizeKeepsMeaning(path: string)
    ensures Denote(Render(Denote(path))) == Denote(path) <==> Faithful(Denote(path))
  {
    DenoteIsProper(path);
    if Faithful(Denote(path)) {
      FaithfulReadsBack(Denote(path));
    } else if ColonInside(Denote(path).stack) {
      ColonLosesSegment(Denote(path));
    } else {
      DriveChangesRoot(Denote(path));
    }
  }

  // ----- where the result leads -----

  /** How many ".." a normal stack starts with. */
  function Ups(stack: seq<string>): (n: nat)
    ensures n <= |stack|
  {
    if stack == [] then 0
    else if IsParent(stack[|stack| - 1]) then |stack|
    else Ups(stack[..|stack| - 1])
  }

  lemma {:induction false} UpsLead(stack: seq<string>)
    requires NormalStack(false, stack)
    ensures forall i :: 0 <= i < Ups(stack) ==> stack[i] == ".."
    ensures forall i :: Ups(stack) <= i < |stack| ==> !IsParent(stack[i])
  {
    if stack != [] {
      var last := stack[|stack| - 1];
      if IsParent(last) {
        assert forall i :: 0 <= i < |stack| ==> IsParent(stack[i]);
      } else {
        UpsLead(stack[..|stack| - 1]);
      }
    }
  }

  lemma {:induction false} WalkUp(dir: seq<string>, segs: seq<string>)
    requires |segs| <= |dir| && forall i :: 0 <= i < |segs| ==> segs[i] == ".."
    ensures Walk(dir, segs) == dir[..|dir| - |segs|]
  {
    if segs != [] {
      WalkUp(dir, segs[..|segs| - 1]);
    }
  }

  lemma {:induction false} WalkDown(dir: seq<string>, up: nat, segs: seq<string>)
    requires up <= |segs| && up <= |dir|
    requires forall i :: 0 <= i < up ==> segs[i] == ".."
    requires forall i :: up <= i < |segs| ==> |segs[i]| > 0 && !IsDot(segs[i]) && !IsParent(segs[i])
    ensures Walk(dir, segs) == dir[..|dir| - up] + segs[up..]
  {
    if |segs| == up {
      WalkUp(dir, segs);
    } else {
      var init, last := segs[..|segs| - 1], segs[|segs| - 1];
      WalkDown(dir, up, init);
      assert !IsDot(last) && !IsParent(last);
      assert segs[up..] == init[up..] + [last];
      assert Walk(dir, segs) == Walk(dir, init) + [last];
    }
  }

  lemma WalkOfNormal(dir: seq<string>, stack: seq<string>)
    requires NormalStack(false, stack) && Ups(stack) <= |dir|
    ensures Walk(dir, stack) == dir[..|dir| - Ups(stack)] + stack[Ups(stack)..]
    ensures forall i :: 0 <= i < Ups(stack) ==> stack[i] == ".."
  {
    UpsLead(stack);
    WalkDown(dir, Ups(stack), stack);
  }

  function Repeat(x: string, n: nat): (r: seq<string>)
    ensures |r| == n && forall i :: 0 <= i < n ==> r[i] == x
  {
    seq(n, _ => x)
  }

  /** With more ".." at its start, t would show at this place what it holds itself. */
  lemma ShownBehind(c: string, s: seq<string>, t: seq<string>, n: nat)
    requires NormalStack(false, s) && NormalStack(false, t) && |s| <= n && |t| <= n && Ups(s) < Ups(t)
    requires Walk(Repeat(c, n), s) == Walk(Repeat(c, n), t)
    ensures |t| > Ups(t) && t[Ups(t)] == c
  {
    var dir := Repeat(c, n);
    WalkOfNormal(dir, s);
    WalkOfNormal(dir, t);
    hide NormalStack, Ups, Walk;
    ShownAt(dir, s, t, Ups(s), Ups(t), c);
  }

  lemma ShownAt(dir: seq<string>, s: seq<string>, t: seq<string>, p: nat, q: nat, c: string)
    requires p < q <= |t| <= |dir| && p <= |s| && dir[|dir| - q] == c
    requires dir[..|dir| - p] + s[p..] == dir[..|dir| - q] + t[q..]
    ensures q < |t| && t[q] == c
  {
    var both, n := dir[..|dir| - p] + s[p..], |dir|;
    assert |both| == n - p + |s| - p;
    assert |both| == n - q + |t| - q;
    assert both[n - q] == dir[n - q];
    assert both[n - q] == t[q..][0];
  }

  /** Normal stacks that lead alike from two deep directories start with as many "..". */
  lemma SameUps(s: seq<string>, t: seq<string>, n: nat)
    requires NormalStack(false, s) && NormalStack(false, t) && |s| <= n && |t| <= n
    requires Walk(Repeat("a", n), s) == Walk(Repeat("a", n), t)
    requires Walk(Repeat("b", n), s) == Walk(Repeat("b", n), t)
    ensures Ups(s) >= Ups(t)
  {
    if Ups(s) < Ups(t) {
      ShownBehind("a", s, t, n);
      ShownBehind("b", s, t, n);
    }
  }

  /** Different normal stacks lead to different places from some directory. */
  lemma WalksTellStacks(absolute: bool, s: seq<string>, t: seq<string>)
    requires NormalStack(absolute, s) && NormalStack(absolute, t)
    requires forall dir: seq<string> :: (absolute ==> dir == []) ==> Walk(dir, s) == Walk(dir, t)
    ensures s == t
  {
    if absolute {
      WalkDown([], 0, s);
      WalkDown([], 0, t);
      assert Walk([], s) == s && Walk([], t) == t;
    } else {
      var n := |s| + |t|;
      SameUps(s, t, n);
      SameUps(t, s, n);
      var dir := Repeat("a", n);
      WalkOfNormal(dir, s);
      WalkOfNormal(dir, t);
      SameTail(dir[..n - Ups(s)], s, t, Ups(s));
    }
  }

  lemma SameTail(front: seq<string>, s: seq<string>, t: seq<string>, k: nat)
    requires k <= |s| && k <= |t| && front + s[k..] == front + t[k..]
    requires forall i :: 0 <= i < k ==> s[i] == ".." && t[i] == ".."
    ensures s == t
  {
    assert s[k..] == (front + s[k..])[|front|..] == t[k..];
    assert s[..k] == t[..k];
    assert s == s[..k] + s[k..] && t == t[..k] + t[k..];
  }

  /** A path leads where its meaning does. */
  lemma DestinationOfMeaning(dir: seq<string>, path: string)
    ensures Destination(dir, path) == (Denote(path).root, Walk(Start(dir, path), Denote(path).stack))
  {
    FoldLeadsAlike(IsAbsolute(path), Start(dir, path), Split(path[RootLength(path)..]));
  }

  /** The text of the result leads, from every directory, where the path leads exactly when
      it cannot be misread. */
  lemma NormalizeKeepsDestination(path: string)
    ensures (forall dir: seq<string> :: Destination(dir, Render(Denote(path))) == Destination(dir, path)) <==> Faithful(Denote(path))
  {
    var text := Render(Denote(path));
    NormalizeKeepsMeaning(path);
    DenoteIsProper(path);
    DenoteIsProper(text);
    forall dir: seq<string>
      ensures Destination(dir, path) == (Denote(path).root, Walk(Start(dir, path), Denote(path).stack))
      ensures Destination(dir, text) == (Denote(text).root, Walk(Start(dir, text), Denote(text).stack))
    {
      DestinationOfMeaning(dir, path);
      DestinationOfMeaning(dir, text);
    }
    if forall dir: seq<string> :: Destination(dir, text) == Destination(dir, path) {
      assert Destination([], text) == Destination([], path);
      assert IsAbsolute(text) == IsAbsolute(path);
      forall dir: seq<string> | IsAbsolute(path) ==> dir == []
        ensures Walk(dir, Denote(text).stack) == Walk(dir, Denote(path).stack)
      {
        assert Destination(dir, text) == Destination(dir, path);
      }
      WalksTellStacks(IsAbsolute(path), Denote(text).stack, Denote(path).stack);
    }
  }

  /** Going into a directory and out again adds nothing to a path. */
  lemma InAndOut(absolute: bool, segs: seq<string>, seg: string)
    requires seg != "" && seg != "." && seg != ".."
    ensures Fold(absolute, segs + [seg, ".."]) == Fold(absolute, segs)
  {
    FoldAppend(absolute, segs, seg);
    FoldAppend(absolute, segs + [seg], "..");
    assert segs + [seg] + [".."] == segs + [seg, ".."];
    assert !IsDot(seg) && !IsParent(seg);
  }

  /** The only ':' is the one of a drive. */
  predicate DriveColonOnly(path: string) {
    forall i :: 0 <= i < |path| && path[i] == ':' ==> i == 1 && !IsSep(path[0])
  }

  lemma {:induction false} SplitKeepsChars(s: string, c: char)
    requires c !in s
    ensures forall i :: 0 <= i < |Split(s)| ==> c !in Split(s)[i]
  {
    if s != "" {
      SplitKeepsChars(s[..|s| - 1], c);
    }
  }

  lemma {:induction false} FoldKeepsChars(absolute: bool, segs: seq<string>, c: char)
    requires c != '.' && forall i :: 0 <= i < |segs| ==> c !in segs[i]
    ensures forall i :: 0 <= i < |Fold(absolute, segs)| ==> c !in Fold(absolute, segs)[i]
  {
    if segs != [] {
      FoldKeepsChars(absolute, segs[..|segs| - 1], c);
    }
  }

  /** For such paths normalising keeps the meaning, its result is in normal form, and
      normalising again changes nothing. */
  lemma DriveColonIsSafe(path: string)
    requires DriveColonOnly(path)
    ensures
      var t := Render(Denote(path));
      && Denote(t) == Denote(path)
      && NormalStack(IsAbsolute(path), Denote(path).stack)
      && Render(Denote(t)) == t
  {
    DenoteIsProper(path);
    var rest := path[RootLength(path)..];
    SplitKeepsChars(rest, ':');
    FoldKeepsChars(IsAbsolute(path), Split(rest), ':');
    FaithfulReadsBack(Denote(path));
  }

  predicate Plain(seg: string) {
    NoSep(seg) && |seg| > 0 && !IsDot(seg) && !IsParent(seg)
  }

  lemma TwoSegments(a: string, b: string)
    requires Plain(a) && Plain(b) && (|a| < 2 || a[1] != ':')
    ensures Denote(a + "/" + b) == Meaning("", [a, b])
  {
    var path := a + "/" + b;
    SplitFree(a);
    SplitPiece(a, '/', b);
    assert path[0] == a[0] && path[0..] == path;
    assert [a] + [b] == [a, b];
    assert NormalStack(false, [a, b]);
    FoldOfNormal(false, [a, b]);
  }

  /** A ':' at the end of an ordinary segment swallows the '/' after it: "ab:/c" becomes
      "ab:c", which names one segment instead of two. */
  lemma ColonMergesSegments(a: string, b: string)
    requires Plain(a) && Plain(b) && |a| > 2 && a[1] != ':' && EndsInColon(a)
    ensures Render(Denote(a + "/" + b)) == a + b
    ensures Denote(a + b) != Denote(a + "/" + b)
  {
    TwoSegments(a, b);
    var m := Meaning("", [a, b]);
    JoinStep("", [], a);
    JoinStep("", [a], b);
    assert [] + [a] == [a] && [a] + [b] == m.stack;
    assert EndsInColon(m.stack[0]);
    NormalizeKeepsMeaning(a + "/" + b);
  }
}
