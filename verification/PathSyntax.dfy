/** What a module path denotes: a root and a stack of segments. */
module PathSyntax {

  predicate IsSep(c: char) { c == '/' || c == '\\' }

  /** "." and "..". */
  predicate IsDot(s: string) { |s| == 1 && s[0] == '.' }

  predicate IsParent(s: string) { |s| == 2 && s[0] == '.' && s[1] == '.' }

  predicate NoSep(s: string) { forall i :: 0 <= i < |s| ==> !IsSep(s[i]) }

  /** How many leading characters form the root: "/", "\\\\", "C:", "C:/" or nothing. */
  function RootLength(path: string): (n: nat)
    ensures n <= |path|
  {
    if |path| > 0 && IsSep(path[0]) then if |path| > 1 && IsSep(path[1]) then 2 else 1
    else if |path| > 1 && path[1] == ':' then if |path| > 2 && IsSep(path[2]) then 3 else 2
    else 0
  }

  /** The root with '/' for every separator. */
  function RootOf(path: string): string {
    if |path| > 0 && IsSep(path[0]) then if |path| > 1 && IsSep(path[1]) then "//" else "/"
    else if |path| > 1 && path[1] == ':' then [path[0], ':'] + if |path| > 2 && IsSep(path[2]) then "/" else ""
    else ""
  }

  /** `jik_module_path_is_absolute`. */
  predicate IsAbsolute(path: string) {
    (|path| > 0 && IsSep(path[0])) || (|path| > 2 && path[1] == ':' && IsSep(path[2]))
  }

  /** The pieces between separators, empty ones included. */
  function Split(s: string): (r: seq<string>)
    ensures |r| > 0 && forall i :: 0 <= i < |r| ==> NoSep(r[i])
  {
    if s == "" then [""]
    else
      var r := Split(s[..|s| - 1]);
      var c := s[|s| - 1];
      if IsSep(c) then r + [""] else r[..|r| - 1] + [r[|r| - 1] + [c]]
  }

  /** One segment: "." stays, ".." goes up or, at the top of a relative path, is kept. */
  function Push(absolute: bool, stack: seq<string>, seg: string): seq<string> {
    if |seg| == 0 || IsDot(seg) then stack
    else if IsParent(seg) then
      if stack != [] && !IsParent(stack[|stack| - 1]) then stack[..|stack| - 1]
      else if absolute then stack
      else stack + [seg]
    else stack + [seg]
  }

  function Fold(absolute: bool, segs: seq<string>): seq<string> {
    if segs == [] then [] else Push(absolute, Fold(absolute, segs[..|segs| - 1]), segs[|segs| - 1])
  }

  datatype Meaning = Meaning(root: string, stack: seq<string>)

  function Denote(path: string): Meaning {
    Meaning(RootOf(path), Fold(IsAbsolute(path), Split(path[RootLength(path)..])))
  }

  // ----- walking directories -----

  /** One step from a directory, given by its names below the root: ".." leaves the last
      name and stops at the root, "." and the empty segment stay, any other is entered. */
  function Enter(dir: seq<string>, seg: string): seq<string> {
    if seg == "" || seg == "." then dir
    else if seg == ".." then if dir == [] then [] else dir[..|dir| - 1]
    else dir + [seg]
  }

  function Walk(dir: seq<string>, segs: seq<string>): seq<string> {
    if segs == [] then dir else Enter(Walk(dir, segs[..|segs| - 1]), segs[|segs| - 1])
  }

  /** Where the walk along a path starts: an absolute path leaves its root. */
  function Start(dir: seq<string>, path: string): seq<string> {
    if IsAbsolute(path) then [] else dir
  }

  /** Where a path leads from a directory: its root, and the directory reached below it. */
  function Destination(dir: seq<string>, path: string): (string, seq<string>) {
    (RootOf(path), Walk(Start(dir, path), Split(path[RootLength(path)..])))
  }

  // ----- splitting -----

  lemma {:induction false} SplitFree(g: string)
    requires NoSep(g)
    ensures Split(g) == [g]
  {
    if g != "" {
      SplitFree(g[..|g| - 1]);
      assert g == g[..|g| - 1] + [g[|g| - 1]];
    }
  }

  lemma {:induction false} SplitPiece(s: string, sep: char, g: string)
    requires IsSep(sep) && NoSep(g)
    ensures Split(s + [sep] + g) == Split(s) + [g]
  {
    var t := s + [sep] + g;
    if g == "" {
      assert t == s + [sep] && t[..|t| - 1] == s;
    } else {
      var h := g[..|g| - 1];
      SplitPiece(s, sep, h);
      assert t[..|t| - 1] == s + [sep] + h;
      assert h + [g[|g| - 1]] == g;
      assert (Split(s) + [h])[..|Split(s)|] == Split(s);
    }
  }

  lemma FoldAppend(absolute: bool, segs: seq<string>, g: string)
    ensures Fold(absolute, segs + [g]) == Push(absolute, Fold(absolute, segs), g)
  {
    assert (segs + [g])[..|segs|] == segs;
  }

  // ----- normal form -----

  /** No empty or "." segment and no separator in one; ".." only as a leading run of a
      path that is not absolute. */
  predicate NormalStack(absolute: bool, stack: seq<string>) {
    && (forall i :: 0 <= i < |stack| ==> |stack[i]| > 0 && !IsDot(stack[i]) && NoSep(stack[i]))
    && (forall i :: 0 <= i < |stack| && IsParent(stack[i]) ==> !absolute && forall j :: 0 <= j < i ==> IsParent(stack[j]))
  }

  lemma PushIsNormal(absolute: bool, stack: seq<string>, seg: string)
    requires NormalStack(absolute, stack) && NoSep(seg)
    ensures NormalStack(absolute, Push(absolute, stack, seg))
  {
    if IsParent(seg) && stack != [] && IsParent(stack[|stack| - 1]) {
      assert forall j :: 0 <= j < |stack| ==> IsParent(stack[j]);
    }
  }

  lemma {:induction false} FoldIsNormal(absolute: bool, segs: seq<string>)
    requires forall i :: 0 <= i < |segs| ==> NoSep(segs[i])
    ensures NormalStack(absolute, Fold(absolute, segs))
  {
    if segs != [] {
      FoldIsNormal(absolute, segs[..|segs| - 1]);
      PushIsNormal(absolute, Fold(absolute, segs[..|segs| - 1]), segs[|segs| - 1]);
    }
  }

  lemma InitAndLast(stack: seq<string>)
    requires |stack| > 0
    ensures stack[..|stack| - 1] + [stack[|stack| - 1]] == stack
  {
  }

  /** The last segment of a normal stack is pushed as it is. */
  lemma PushOfNormal(absolute: bool, stack: seq<string>)
    requires NormalStack(absolute, stack) && |stack| > 0
    ensures Push(absolute, stack[..|stack| - 1], stack[|stack| - 1]) == stack
  {
    var init, last := stack[..|stack| - 1], stack[|stack| - 1];
    InitAndLast(stack);
    assert |last| > 0 && !IsDot(last);
    if IsParent(last) {
      assert !absolute;
      if |stack| > 1 {
        assert IsParent(stack[|stack| - 2]) && init[|init| - 1] == stack[|stack| - 2];
      }
    } else {
      assert Push(absolute, init, last) == init + [last];
    }
  }

  /** A normal stack is what its own segments fold to. */
  lemma {:induction false} FoldOfNormal(absolute: bool, stack: seq<string>)
    requires NormalStack(absolute, stack)
    ensures Fold(absolute, stack) == stack
  {
    if |stack| > 0 {
      FoldOfNormal(absolute, stack[..|stack| - 1]);
      PushOfNormal(absolute, stack);
    }
  }

  lemma {:induction false} FoldShrinks(absolute: bool, segs: seq<string>)
    ensures |Fold(absolute, segs)| <= |segs|
  {
    if segs != [] {
      FoldShrinks(absolute, segs[..|segs| - 1]);
    }
  }

  // ----- a stack leads where its path does -----

  /** Pushing a segment is entering it. */
  lemma PushIsEnter(absolute: bool, dir: seq<string>, stack: seq<string>, seg: string)
    requires NormalStack(absolute, stack) && (absolute ==> dir == [])
    ensures Walk(dir, Push(absolute, stack, seg)) == Enter(Walk(dir, stack), seg)
  {
    assert (stack + [seg])[..|stack|] == stack;
    if IsParent(seg) && stack != [] && !IsParent(stack[|stack| - 1]) {
      var init, last := stack[..|stack| - 1], stack[|stack| - 1];
      assert !IsDot(last) && Walk(dir, stack) == Walk(dir, init) + [last];
    } else if IsParent(seg) && absolute {
      assert stack == [] && seg == "..";
    }
  }

  /** The stack of a path leads from every directory to where its segments lead. */
  lemma {:induction false} FoldLeadsAlike(absolute: bool, dir: seq<string>, segs: seq<string>)
    requires (absolute ==> dir == []) && forall i :: 0 <= i < |segs| ==> NoSep(segs[i])
    ensures Walk(dir, Fold(absolute, segs)) == Walk(dir, segs)
  {
    if segs != [] {
      var init := segs[..|segs| - 1];
      FoldLeadsAlike(absolute, dir, init);
      FoldIsNormal(absolute, init);
      PushIsEnter(absolute, dir, Fold(absolute, init), segs[|segs| - 1]);
    }
  }

  // ----- the text of a root and a stack -----

  /** Adds a segment, with a '/' unless the text is empty or ends in ':' or '/'. */
  function Extend(text: string, seg: string): string {
    if |text| > 0 && text[|text| - 1] != ':' && text[|text| - 1] != '/' then text + "/" + seg else text + seg
  }

  function Join(root: string, stack: seq<string>): string {
    if stack == [] then root else Extend(Join(root, stack[..|stack| - 1]), stack[|stack| - 1])
  }

  function Render(m: Meaning): string {
    if m.root == "" && m.stack == [] then "." else Join(m.root, m.stack)
  }
}
