/** The imperative side of error handling: the statement emitter with its counter, and
    the error cell with its fixed message buffer. */
module ErrorRuntime {
  import opened Machine
  import opened Results
  import opened ErrorSyntax
  import opened ErrorTarget
  import opened ErrorLowering

  class Generator {
    var tryCounter: nat

    constructor ()
      ensures tryCounter == 0
    {
      tryCounter := 0;
    }

    /** Emits one statement; a propagating assignment takes the next temporary. */
    method EmitStatement(p: Prog, s: Stmt) returns (code: seq<CStmt>)
      modifies this
      ensures (code, tryCounter) == Lower(p, s, old(tryCounter))
      decreases s, 1
    {
      match s
      case Assign(x, e) => code := [CSet(x, e)];
      case Print(m) => code := [CPrint(m)];
      case Call(_, _, _, _) => code := EmitCall(p, s);
      case Try(_, _, _, _, _) => code := EmitCatch(p, s);
      case If(c, thn, els) =>
        var t := EmitBlock(p, thn);
        var e := EmitBlock(p, els);
        code := [CIf(c, t, e)];
      case While(c, body) =>
        var b := EmitBlock(p, body);
        code := [CWhile(c, b)];
      case Return(e) => code := [CSetResult(e), CGoto];
      case Fail(m, c) => code := [CFail(m, c), CGoto];
      case Break => code := [CBreak];
      case Continue => code := [CContinue];
    }

    method EmitCall(p: Prog, s: Stmt) returns (code: seq<CStmt>)
      requires s.Call?
      modifies this
      ensures (code, tryCounter) == Lower(p, s, old(tryCounter))
    {
      var target := if CalleeThrows(p, s.fn) then Some(CatchErr) else None;
      match s.how
      case Plain => code := [CCall(LowerDest(s.dest), s.fn, s.args, target)];
      case Must => code := [CMust(LowerDest(s.dest), s.fn, s.args)];
      case Propagate =>
        if s.dest.Assigns? {
          var temp := tryCounter;
          tryCounter := tryCounter + 1;
          code := [CCall(ToTemp(temp), s.fn, s.args, Some(ErrArg)), PROPAGATE, CSetTemp(s.dest.x, temp)];
        } else {
          code := [CCall(LowerDest(s.dest), s.fn, s.args, Some(ErrArg)), PROPAGATE];
        }
    }

    method EmitCatch(p: Prog, s: Stmt) returns (code: seq<CStmt>)
      requires s.Try?
      modifies this
      ensures (code, tryCounter) == Lower(p, s, old(tryCounter))
      decreases s, 0
    {
      var e := EmitBlock(p, s.err);
      e := e + [CClearCatch];
      var q := EmitBlock(p, s.pass);
      var target := if CalleeThrows(p, s.fn) then Some(CatchErr) else None;
      code := [CCatchBlock(s.dest, [CCall(LowerDest(s.dest), s.fn, s.args, target), CIfFailed(CatchErr, e, q)])];
    }

    method EmitBlock(p: Prog, b: seq<Stmt>) returns (code: seq<CStmt>)
      modifies this
      ensures (code, tryCounter) == LowerAll(p, b, old(tryCounter))
      decreases b
    {
      code := [];
      var i := 0;
      assert b[0..] == b;
      assert code + LowerAll(p, b, tryCounter).0 == LowerAll(p, b, tryCounter).0;
      while i < |b|
        invariant 0 <= i <= |b|
        invariant
          var (rest, n) := LowerAll(p, b[i..], tryCounter);
          LowerAll(p, b, old(tryCounter)) == (code + rest, n)
      {
        ghost var before, n0 := code, tryCounter;
        assert b[i..][0] == b[i] && b[i..][1..] == b[i + 1..];
        var c := EmitStatement(p, b[i]);
        code := code + c;
        ghost var rest := LowerAll(p, b[i + 1..], tryCounter).0;
        assert before + (c + rest) == code + rest;
        i := i + 1;
      }
      assert code + [] == code;
    }
  }

  // ----- error cells -----

  /** A C string: no NUL inside. */
  predicate CString(s: string) { NUL_CHAR !in s }

  /** `JikError` with its message buffer of MAX_ERR_MSG bytes. */
  class ErrorCell {
    var failed: bool
    var code: int
    const msg: array<char>
    ghost var text: string

    /** The buffer holds `text` and its terminator. */
    ghost predicate Valid()
      reads this, msg
    {
      && msg.Length == MAX_ERR_MSG && |text| < MAX_ERR_MSG && CString(text)
      && msg[..|text|] == text && msg[|text|] == NUL_CHAR
    }

    ghost function Contents(): Cell
      reads this
    {
      Cell(failed, code, text)
    }

    constructor ()
      ensures Valid() && fresh(msg) && Contents() == CLEAR
    {
      failed, code, text := false, 0, "";
      msg := new char[MAX_ERR_MSG](_ => NUL_CHAR);
    }

    /** `jik_error_set`: the cell holds the code and the first 255 bytes of the message. */
    method Set(c: int, m: string)
      requires Valid() && CString(m)
      modifies this, msg
      ensures Valid() && Contents() == SetCell(c, m)
      ensures failed && code == c
      ensures |Contents().msg| == (if |m| < 255 then |m| else 255) && forall k :: 0 <= k < |Contents().msg| ==> Contents().msg[k] == m[k]
    {
      failed := true;
      code := c;
      var n := |m|;
      if n >= MAX_ERR_MSG {
        n := MAX_ERR_MSG - 1;
      }
      for i := 0 to n
        modifies msg
        invariant forall k :: 0 <= k < i ==> msg[k] == m[k]
      {
        msg[i] := m[i];
      }
      msg[n] := NUL_CHAR;
      text := m[..n];
      assert msg[..n] == text == Kept(m);
    }

    method Clear()
      requires Valid()
      modifies this, msg
      ensures Valid() && Contents() == CLEAR
    {
      failed := false;
      code := 0;
      msg[0] := NUL_CHAR;
      text := "";
    }

    /** `jik_error_msg`: copies up to the first NUL, which is all of the kept text. */
    method Message() returns (s: string)
      requires Valid()
      ensures s == Contents().msg
    {
      s := "";
      var i := 0;
      assert 0 < |text| ==> msg[0] == msg[..|text|][0];
      while i < msg.Length && msg[i] != NUL_CHAR
        invariant 0 <= i <= |text| && s == text[..i]
        invariant i < |text| ==> msg[i] == text[i]
      {
        s := s + [msg[i]];
        i := i + 1;
        assert i < |text| ==> msg[i] == msg[..|text|][i];
      }
      if i < |text| {
        assert false;
      }
    }
  }
}
