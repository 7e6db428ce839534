/** `jik_module_normalize_path` in place, and what its result means. */
module PathNormalize {
  import opened PathSyntax

  lemma JoinStep(root: string, stack: seq<string>, seg: string)
    ensures Join(root, stack + [seg]) == Extend(Join(root, stack), seg)
  {
    assert (stack + [seg])[..|stack|] == stack;
  }

  /** The text without the last segment is a prefix of the text, and never too short. */
  lemma WithoutLast(root: string, stack: seq<string>)
    requires stack != [] && forall k :: 0 <= k < |stack| ==> |stack[k]| > 0
    ensures
      var init := stack[..|stack| - 1];
      Join(root, init) == Join(root, stack)[..|Join(root, init)|] && |Join(root, init)| >= |init|
  {
    JoinAtLeast(root, stack[..|stack| - 1]);
  }

  lemma InitIsNormal(absolute: bool, stack: seq<string>)
    requires NormalStack(absolute, stack) && stack != []
    ensures NormalStack(absolute, stack[..|stack| - 1])
  {
  }

  /** Skipping separators changes nothing. */
  lemma SkipSep(absolute: bool, s: string, sep: char)
    requires IsSep(sep)
    ensures Fold(absolute, Split(s + [sep])) == Fold(absolute, Split(s))
  {
    assert (s + [sep])[..|s|] == s;
    FoldAppend(absolute, Split(s), "");
  }

  /** The next segment, read after a separator or at the very start. */
  lemma NextSegment(absolute: bool, s: string, g: string)
    requires NoSep(g) && (s == "" || IsSep(s[|s| - 1]))
    ensures Fold(absolute, Split(s + g)) == Push(absolute, Fold(absolute, Split(s)), g)
  {
    if s == "" {
      assert s + g == g;
      SplitFree(g);
      assert Fold(absolute, [g]) == Push(absolute, Fold(absolute, []), g);
      assert Fold(absolute, [""]) == [];
    } else {
      var a := s[..|s| - 1];
      assert s == a + [s[|s| - 1]];
      SplitPiece(a, s[|s| - 1], g);
      FoldAppend(absolute, Split(a), g);
      SkipSep(absolute, a, s[|s| - 1]);
    }
  }

  class Normalizer {
    const path: string
    const result: array<char>
    const segments: array<nat>
    const parents: array<bool>
    var resultLen: nat
    var segmentCount: nat
    ghost var stack: seq<string>

    constructor (path: string)
      ensures this.path == path && resultLen == 0 && segmentCount == 0 && stack == []
      ensures fresh(result) && fresh(segments) && fresh(parents)
      ensures result.Length == |path| + 2 && segments.Length == parents.Length == |path| + 1
    {
      this.path := path;
      result := new char[|path| + 2];
      segments := new nat[|path| + 1];
      parents := new bool[|path| + 1];
      resultLen, segmentCount, stack := 0, 0, [];
    }

    ghost predicate Sized()
      reads this, result, segments, parents
    {
      && result.Length == |path| + 2 && segments.Length == parents.Length == |path| + 1
      && resultLen <= result.Length
    }

    /** Each segment's record says where the text before it ends and whether it is "..". */
    ghost predicate Recorded()
      requires Sized()
      reads this, result, segments, parents
    {
      && segmentCount == |stack| <= segments.Length
      && forall k :: 0 <= k < |stack| ==>
           segments[k] == |Join(RootOf(path), stack[..k])| && (parents[k] <==> IsParent(stack[k]))
    }

    /** The buffer holds the text of the stack; i characters of the path have been read. */
    ghost predicate Valid(i: nat)
      reads this, result, segments, parents
    {
      && Sized() && Recorded() && |stack| <= resultLen <= i <= |path|
      && result[..resultLen] == Join(RootOf(path), stack)
      && NormalStack(IsAbsolute(path), stack)
    }

    method Put(c: char)
      requires resultLen < result.Length
      modifies this`resultLen, result
      ensures resultLen == old(resultLen) + 1
      ensures result[..resultLen] == old(result[..resultLen]) + [c]
    {
      result[resultLen] := c;
      resultLen := resultLen + 1;
    }

    method PutRoot() returns (i: nat)
      requires resultLen == 0 && segmentCount == 0 && stack == []
      requires result.Length == |path| + 2 && segments.Length == parents.Length == |path| + 1
      modifies this`resultLen, result
      ensures i == RootLength(path) && Valid(i)
    {
      i := 0;
      if |path| > 0 && IsSep(path[0]) {
        Put('/');
        i := i + 1;
        if i < |path| && IsSep(path[i]) {
          Put('/');
          i := i + 1;
        }
      } else if |path| > 1 && path[1] == ':' {
        Put(path[0]);
        Put(':');
        i := 2;
        if i < |path| && IsSep(path[i]) {
          Put('/');
          i := i + 1;
        }
      }
    }

    method Pop(i: nat)
      requires Valid(i) && segmentCount > 0
      modifies this
      ensures Valid(i) && stack == old(stack)[..|old(stack)| - 1]
    {
      ghost var before, text := stack, result[..resultLen];
      segmentCount := segmentCount - 1;
      resultLen := segments[segmentCount];
      stack := stack[..|stack| - 1];
      WithoutLast(RootOf(path), before);
      assert result[..resultLen] == text[..resultLen];
      assert forall k :: 0 <= k < |stack| ==> before[..k] == stack[..k];
      InitIsNormal(IsAbsolute(path), before);
    }

    /** Writes a segment after the text so far. */
    method Write(seg: string)
      requires Sized() && resultLen + |seg| + 1 <= result.Length
      modifies this`resultLen, result
      ensures Sized() && result[..resultLen] == Extend(old(result[..resultLen]), seg)
    {
      assert resultLen > 0 ==> result[..resultLen][resultLen - 1] == result[resultLen - 1];
      if resultLen > 0 && result[resultLen - 1] != ':' && result[resultLen - 1] != '/' {
        Put('/');
      }
      ghost var text := result[..resultLen];
      for k := 0 to |seg|
        invariant resultLen == |text| + k && |text| + |seg| <= result.Length
        invariant result[..resultLen] == text + seg[..k]
      {
        Put(seg[k]);
      }
      assert seg[..|seg|] == seg;
    }

    method Append(seg: string, i: nat, to: nat)
      requires Valid(i) && i + |seg| <= to <= |path|
      requires NormalStack(IsAbsolute(path), stack + [seg])
      requires i + |seg| < to || stack == []
      modifies this, result, segments, parents
      ensures Valid(to) && stack == old(stack) + [seg]
    {
      ghost var before := stack;
      JoinStep(RootOf(path), stack, seg);
      RootEnd(path);
      Record(seg);
      Write(seg);
      assert (before + [seg])[|before|] == seg;
      assert |seg| > 0;
    }

    /** The body of the main loop after a segment has been read. */
    method Step(seg: string, start: nat, i: nat)
      requires Valid(start) && NoSep(seg) && start + |seg| <= i <= |path|
      requires start + |seg| < i || stack == []
      modifies this, result, segments, parents
      ensures Valid(i) && stack == Push(IsAbsolute(path), old(stack), seg)
    {
      PushIsNormal(IsAbsolute(path), stack, seg);
      if |seg| == 0 || IsDot(seg) {
        return;
      }
      if IsParent(seg) {
        if segmentCount > 0 && !parents[segmentCount - 1] {
          Pop(i);
        } else if !IsAbsolute(path) {
          Append(seg, start, i);
        }
        return;
      }
      Append(seg, start, i);
    }

    method Record(seg: string)
      requires Sized() && Recorded() && segmentCount < segments.Length && resultLen == |Join(RootOf(path), stack)|
      modifies this`segmentCount, this`stack, segments, parents
      ensures Sized() && Recorded() && stack == old(stack) + [seg]
    {
      ghost var before := stack;
      segments[segmentCount] := resultLen;
      parents[segmentCount] := IsParent(seg);
      segmentCount := segmentCount + 1;
      stack := stack + [seg];
      assert forall k :: 0 <= k < |before| ==> before[..k] == stack[..k];
      assert stack[..|before|] == before;
    }

    /** One round of the main loop. */
    method ReadPiece(start: nat, ghost r: nat) returns (i: nat)
      requires Valid(start) && r <= start < |path| && (start == r || IsSep(path[start]))
      requires stack == Fold(IsAbsolute(path), Split(path[r..start]))
      modifies this, result, segments, parents
      ensures start < i <= |path| && Valid(i) && (i == |path| || IsSep(path[i]))
      ensures stack == Fold(IsAbsolute(path), Split(path[r..i]))
    {
      var segStart, next := NextPiece(path, start);
      PieceIsPush(IsAbsolute(path), path, r, start, segStart, next);
      if segStart == start {
        StartIsEmpty(IsAbsolute(path), path, r);
      }
      Step(path[segStart..next], start, next);
      i := next;
    }

    /** An empty result becomes "."; then the terminator is written. */
    method Finish() returns (text: string)
      requires Valid(|path|)
      modifies this`resultLen, result
      ensures text == Render(Meaning(RootOf(path), stack)) && |text| + 1 <= |path| + 2
    {
      JoinAtLeast(RootOf(path), stack);
      assert resultLen == |Join(RootOf(path), stack)|;
      JoinCovers(RootOf(path), stack);
      if resultLen == 0 {
        Put('.');
      }
      ghost var before := result[..resultLen];
      result[resultLen] := '\0';
      text := result[..resultLen];
      assert text == before;
    }
  }

  lemma StartIsEmpty(absolute: bool, path: string, r: nat)
    requires r <= |path|
    ensures Fold(absolute, Split(path[r..r])) == []
  {
    assert path[r..r] == "";
    FoldAppend(absolute, [], "");
    assert [] + [""] == [""];
  }

  /** A text is empty only without root and segments. */
  lemma {:induction false} JoinCovers(root: string, stack: seq<string>)
    ensures |Join(root, stack)| >= |root|
  {
    if stack != [] {
      JoinCovers(root, stack[..|stack| - 1]);
    }
  }

  /** Every segment has at least one character of its own. */
  lemma {:induction false} JoinAtLeast(root: string, stack: seq<string>)
    requires forall k :: 0 <= k < |stack| ==> |stack[k]| > 0
    ensures |Join(root, stack)| >= |stack|
  {
    if stack != [] {
      JoinAtLeast(root, stack[..|stack| - 1]);
    }
  }

  lemma RootEnd(path: string)
    ensures RootOf(path) == "" || RootOf(path)[|RootOf(path)| - 1] == ':' || RootOf(path)[|RootOf(path)| - 1] == '/'
  {
  }

  lemma {:induction false} SkipSeps(absolute: bool, s: string, seps: string)
    requires forall k :: 0 <= k < |seps| ==> IsSep(seps[k])
    ensures Fold(absolute, Split(s + seps)) == Fold(absolute, Split(s))
  {
    if seps == "" {
      assert s + seps == s;
    } else {
      var rest := seps[..|seps| - 1];
      SkipSeps(absolute, s, rest);
      assert s + seps == (s + rest) + [seps[|seps| - 1]];
      SkipSep(absolute, s + rest, seps[|seps| - 1]);
    }
  }

  /** The two scanning loops: separators, then a segment without any. */
  method NextPiece(path: string, start: nat) returns (segStart: nat, i: nat)
    requires start < |path|
    ensures start <= segStart <= i <= |path| && start < i
    ensures (forall k :: start <= k < segStart ==> IsSep(path[k])) && NoSep(path[segStart..i])
    ensures i == |path| || IsSep(path[i])
    ensures segStart == start ==> !IsSep(path[start])
  {
    i := start;
    while i < |path| && IsSep(path[i])
      invariant start <= i <= |path| && forall k :: start <= k < i ==> IsSep(path[k])
    {
      i := i + 1;
    }
    segStart := i;
    while i < |path| && !IsSep(path[i])
      invariant segStart <= i <= |path| && forall k :: segStart <= k < i ==> !IsSep(path[k])
    {
      i := i + 1;
    }
  }

  /** Reading one piece is pushing its segment. */
  lemma PieceIsPush(absolute: bool, path: string, r: nat, start: nat, segStart: nat, i: nat)
    requires r <= start <= segStart <= i <= |path|
    requires (forall k :: start <= k < segStart ==> IsSep(path[k])) && NoSep(path[segStart..i])
    requires segStart == start ==> start == r
    ensures Fold(absolute, Split(path[r..i])) == Push(absolute, Fold(absolute, Split(path[r..start])), path[segStart..i])
  {
    assert path[r..segStart] == path[r..start] + path[start..segStart];
    SkipSeps(absolute, path[r..start], path[start..segStart]);
    assert path[r..i] == path[r..segStart] + path[segStart..i];
    NextSegment(absolute, path[r..segStart], path[segStart..i]);
  }

  /** The whole function: the text of what the path denotes, which with its terminator fits
      the buffer of two characters more than the path. Walking the segments of the result
      ends, from every directory, where walking those of the path ends. */
  method Normalize(path: string) returns (text: string)
    ensures text == Render(Denote(path)) && |text| + 1 <= |path| + 2
    ensures forall dir: seq<string> :: (RootOf(path), Walk(Start(dir, path), Denote(path).stack)) == Destination(dir, path)
  {
    var z := new Normalizer(path);
    var i := z.PutRoot();
    ghost var r := i;
    while i < |path|
      modifies z, z.result, z.segments, z.parents
      invariant r == RootLength(path) <= i && z.Valid(i)
      invariant i == r || i == |path| || IsSep(path[i])
      invariant z.stack == Fold(IsAbsolute(path), Split(path[r..i]))
      invariant i <= |path|
      decreases |path| - i
    {
      i := z.ReadPiece(i, r);
    }
    assert path[r..i] == path[RootLength(path)..];
    assert Denote(path) == Meaning(RootOf(path), z.stack);
    text := z.Finish();
    forall dir: seq<string>
      ensures (RootOf(path), Walk(Start(dir, path), Denote(path).stack)) == Destination(dir, path)
    {
      FoldLeadsAlike(IsAbsolute(path), Start(dir, path), Split(path[RootLength(path)..]));
    }
  }
}
