/** Which error `error_code()` and `error_msg()` read: the cells the lowered code declares,
    and the programs where the innermost cell is the error caught around the reader. */
module ErrorScoping {
  import opened Results
  import opened ErrorSyntax
  import opened ErrorTarget
  import opened ErrorLowering

  // ----- the lowered code declares the cells it reads -----

  /** Every mention of `jik_catch_err` lies inside a block that declares one. */
  predicate Declared(inBlock: bool, s: CStmt)
    decreases s
  {
    match s
    case CSet(_, e) => inBlock || !MentionsCaught(e)
    case CSetTemp(_, _) => true
    case CPrint(m) => inBlock || !m.CaughtText?
    case CCall(_, _, args, target) => inBlock || (NoneMention(args) && target != Some(CatchErr))
    case CMust(_, _, args) => inBlock || NoneMention(args)
    case CFail(m, code) => inBlock || (!m.CaughtText? && !MentionsCaught(code))
    case CSetResult(e) => inBlock || !MentionsCaught(e)
    case CGoto => true
    case CIfFailed(which, thn, els) =>
      (inBlock || which == ErrArg) && DeclaredAll(inBlock, thn) && DeclaredAll(inBlock, els)
    case CClearCatch => inBlock
    case CCatchBlock(_, body) => DeclaredAll(true, body)
    case CIf(c, thn, els) => (inBlock || !MentionsCaught(c)) && DeclaredAll(inBlock, thn) && DeclaredAll(inBlock, els)
    case CWhile(c, body) => (inBlock || !MentionsCaught(c)) && DeclaredAll(inBlock, body)
    case CBreak => true
    case CContinue => true
  }

  predicate DeclaredAll(inBlock: bool, b: seq<CStmt>)
    decreases b
  {
    b == [] || (Declared(inBlock, b[0]) && DeclaredAll(inBlock, b[1..]))
  }

  lemma {:induction false} DeclaredConcat(inBlock: bool, a: seq<CStmt>, b: seq<CStmt>)
    ensures DeclaredAll(inBlock, a + b) <==> DeclaredAll(inBlock, a) && DeclaredAll(inBlock, b)
  {
    if a == [] {
      assert a + b == b;
    } else {
      assert (a + b)[1..] == a[1..] + b;
      DeclaredConcat(inBlock, a[1..], b);
    }
  }

  lemma DeclaredTwo(inBlock: bool, s: CStmt, t: CStmt)
    ensures DeclaredAll(inBlock, [s, t]) <==> Declared(inBlock, s) && Declared(inBlock, t)
  {
    assert [s, t][1..] == [t];
    assert DeclaredAll(inBlock, [t]) <==> Declared(inBlock, t);
  }

  /** The code of a block declares every cell it reads exactly when the block reads the
      caught error only inside a try/except. */
  lemma {:induction false} BlockDeclares(p: Prog, throws: bool, inTry: bool, b: seq<Stmt>, n: nat)
    requires HandledAll(p, throws, b)
    ensures DeclaredAll(inTry, LowerAll(p, b, n).0) <==> CoveredAll(inTry, b)
    decreases b, 0
  {
    if b != [] {
      var (h, n1) := Lower(p, b[0], n);
      StatementDeclares(p, throws, inTry, b[0], n);
      BlockDeclares(p, throws, inTry, b[1..], n1);
      DeclaredConcat(inTry, h, LowerAll(p, b[1..], n1).0);
    }
  }

  lemma {:induction false} StatementDeclares(p: Prog, throws: bool, inTry: bool, s: Stmt, n: nat)
    requires Handled(p, throws, s)
    ensures DeclaredAll(inTry, Lower(p, s, n).0) <==> Covered(inTry, s)
    decreases s, 1
  {
    match s
    case Call(_, _, _, _) => CallDeclares(p, throws, inTry, s, n);
    case Try(_, _, _, _, _) => TryDeclares(p, throws, inTry, s, n);
    case If(_, thn, els) =>
      BlockDeclares(p, throws, inTry, thn, n);
      BlockDeclares(p, throws, inTry, els, LowerAll(p, thn, n).1);
    case While(_, body) => BlockDeclares(p, throws, inTry, body, n);
    case Return(e) => DeclaredTwo(inTry, CSetResult(e), CGoto);
    case Fail(m, code) => DeclaredTwo(inTry, CFail(m, code), CGoto);
    case _ =>
  }

  lemma CallDeclares(p: Prog, throws: bool, inTry: bool, s: Stmt, n: nat)
    requires s.Call? && Handled(p, throws, s)
    ensures DeclaredAll(inTry, Lower(p, s, n).0) <==> Covered(inTry, s)
  {
    if s.how == Propagate {
      DeclaredTwo(inTry, CCall(LowerDest(s.dest), s.fn, s.args, Some(ErrArg)), PROPAGATE);
      if s.dest.Assigns? {
        DeclaredTwo(inTry, CCall(ToTemp(n), s.fn, s.args, Some(ErrArg)), PROPAGATE);
        DeclaredConcat(inTry, [CCall(ToTemp(n), s.fn, s.args, Some(ErrArg)), PROPAGATE], [CSetTemp(s.dest.x, n)]);
        assert [CCall(ToTemp(n), s.fn, s.args, Some(ErrArg)), PROPAGATE] + [CSetTemp(s.dest.x, n)] == Lower(p, s, n).0;
      }
    }
  }

  lemma {:induction false} TryDeclares(p: Prog, throws: bool, inTry: bool, s: Stmt, n: nat)
    requires s.Try? && Handled(p, throws, s)
    ensures DeclaredAll(inTry, Lower(p, s, n).0) <==> Covered(inTry, s)
    decreases s, 0
  {
    var (e, n1) := LowerAll(p, s.err, n);
    var q := LowerAll(p, s.pass, n1).0;
    BlockDeclares(p, throws, true, s.err, n);
    BlockDeclares(p, throws, true, s.pass, n1);
    DeclaredConcat(true, e, [CClearCatch]);
    DeclaredTwo(true, CCall(LowerDest(s.dest), s.fn, s.args, Some(CatchErr)), CIfFailed(CatchErr, e + [CClearCatch], q));
  }

  /** For a whole program: the generated C has no undeclared error cell if and only if
      every inspection of the caught error lies inside some try/except. */
  lemma CellsDeclaredIffCovered(p: Prog, q: CProg)
    requires AllHandled(p) && Lowered(p, q)
    ensures AllCovered(p) <==> forall fn :: fn in q ==> DeclaredAll(false, q[fn].body)
  {
    forall fn | fn in p
      ensures DeclaredAll(false, q[fn].body) <==> CoveredAll(false, p[fn].body)
    {
      var n :| q[fn] == LowerFunc(p, p[fn], n);
      BlockDeclares(p, p[fn].throws, false, p[fn].body, n);
    }
  }

  // ----- the innermost cell and the lexically caught error -----

  /** How the errors of the two readings are related at a place. */
  predicate Related(at: Place, lexical: Error, innermost: Error) {
    match at
    case Outside => lexical == NO_ERROR && innermost == NO_ERROR
    case InExcept => lexical == innermost
    case Nested => true
  }

  lemma {:induction false} EvalUnmentioned(e: Exp, env: map<Name, int>, s: Error, t: Error)
    requires s == t || !MentionsCaught(e)
    ensures Eval(e, env, s) == Eval(e, env, t)
  {
    if s != t {
      EvalAgrees(e, {}, env, env, s, t);
    }
  }

  lemma ArgsUnmentioned(es: seq<Exp>, env: map<Name, int>, s: Error, t: Error)
    requires s == t || NoneMention(es)
    ensures EvalAll(es, env, s) == EvalAll(es, env, t)
  {
    forall i | 0 <= i < |es|
      ensures Eval(es[i], env, s) == Eval(es[i], env, t)
    {
      EvalUnmentioned(es[i], env, s, t);
    }
  }

  lemma {:induction false} SameBlock(p: Prog, fuel: nat, at: Place, s: Error, t: Error, st: State, b: seq<Stmt>)
    requires AllUnshadowed(p) && UnshadowedAll(at, b) && Related(at, s, t)
    ensures ExecAll(p, Lexical, fuel, s, st, b) == ExecAll(p, Innermost, fuel, t, st, b)
    decreases fuel, 0, b, 0
  {
    if b != [] {
      SameStatement(p, fuel, at, s, t, st, b[0]);
      var (f, st1) := Exec(p, Lexical, fuel, s, st, b[0]);
      if f.Go? {
        SameBlock(p, fuel, at, s, t, st1, b[1..]);
      }
    }
  }

  lemma {:induction false} SameStatement(p: Prog, fuel: nat, at: Place, s: Error, t: Error, st: State, x: Stmt)
    requires AllUnshadowed(p) && Unshadowed(at, x) && Related(at, s, t)
    ensures Exec(p, Lexical, fuel, s, st, x) == Exec(p, Innermost, fuel, t, st, x)
    decreases fuel, 0, x, 1
  {
    match x
    case Assign(_, e) => EvalUnmentioned(e, st.env, s, t);
    case Print(_) =>
    case Call(_, fn, args, _) =>
      ArgsUnmentioned(args, st.env, s, t);
      if fuel > 0 {
        SameCall(p, fuel - 1, fn, EvalAll(args, st.env, s), st.out);
      }
    case Try(_, _, _, _, _) => SameTry(p, fuel, at, s, t, st, x);
    case If(c, thn, els) =>
      EvalUnmentioned(c, st.env, s, t);
      SameBlock(p, fuel, at, s, t, st, thn);
      SameBlock(p, fuel, at, s, t, st, els);
    case While(c, body) =>
      EvalUnmentioned(c, st.env, s, t);
      SameBlock(p, fuel, at, s, t, st, body);
      if fuel > 0 {
        SameStatement(p, fuel - 1, at, s, t, ExecAll(p, Lexical, fuel, s, st, body).1, x);
      }
    case Return(e) => EvalUnmentioned(e, st.env, s, t);
    case Fail(_, code) => EvalUnmentioned(code, st.env, s, t);
    case Break =>
    case Continue =>
  }

  lemma {:induction false} SameTry(p: Prog, fuel: nat, at: Place, s: Error, t: Error, st: State, x: Stmt)
    requires AllUnshadowed(p) && x.Try? && Unshadowed(at, x) && Related(at, s, t)
    ensures Exec(p, Lexical, fuel, s, st, x) == Exec(p, Innermost, fuel, t, st, x)
    decreases fuel, 0, x, 0
  {
    ArgsUnmentioned(x.args, st.env, s, NO_ERROR);
    if fuel > 0 {
      var vs := EvalAll(x.args, st.env, s);
      SameCall(p, fuel - 1, x.fn, vs, st.out);
      var (a, out) := Invoke(p, Lexical, fuel - 1, x.fn, vs, st.out);
      var st1 := st.(out := out);
      if a.Value? {
        SameBlock(p, fuel, PassPlace(at), s, NO_ERROR, Store(x.dest, a.v, st1), x.pass);
      } else if a.Raises? {
        SameBlock(p, fuel, InExcept, a.error, a.error, st1, x.err);
      }
    }
  }

  /** Where no inspection of a caught error is shadowed, the two readings give every call
      the same answer and output. */
  lemma {:induction false} SameCall(p: Prog, fuel: nat, fn: Name, vs: seq<int>, out: seq<string>)
    requires AllUnshadowed(p)
    ensures Invoke(p, Lexical, fuel, fn, vs, out) == Invoke(p, Innermost, fuel, fn, vs, out)
    decreases fuel, 1
  {
    if fn in p {
      SameBlock(p, fuel, Outside, NO_ERROR, NO_ERROR, State(BindParams(p[fn].params, vs), out), p[fn].body);
    }
  }

  // ----- the static checks keep errors inside -----

  lemma {:induction false} BlockKeepsErrors(p: Prog, scoping: Scoping, fuel: nat, caught: Error, st: State, b: seq<Stmt>)
    requires AllHandled(p) && HandledAll(p, false, b)
    ensures !ExecAll(p, scoping, fuel, caught, st, b).0.Throw?
    decreases fuel, 0, b, 0
  {
    if b != [] {
      StatementKeepsErrors(p, scoping, fuel, caught, st, b[0]);
      var (f, st1) := Exec(p, scoping, fuel, caught, st, b[0]);
      if f.Go? {
        BlockKeepsErrors(p, scoping, fuel, caught, st1, b[1..]);
      }
    }
  }

  lemma {:induction false} StatementKeepsErrors(p: Prog, scoping: Scoping, fuel: nat, caught: Error, st: State, s: Stmt)
    requires AllHandled(p) && Handled(p, false, s)
    ensures !Exec(p, scoping, fuel, caught, st, s).0.Throw?
    decreases fuel, 0, s, 1
  {
    match s
    case Call(_, fn, args, how) =>
      if fuel > 0 && how == Plain {
        NonThrowingNeverRaises(p, scoping, fuel - 1, fn, EvalAll(args, st.env, caught), st.out);
      }
    case Try(dest, fn, args, pass, err) =>
      if fuel > 0 {
        var inner := Current(scoping, caught);
        var (a, out) := Invoke(p, scoping, fuel - 1, fn, EvalAll(args, st.env, inner), st.out);
        var st1 := st.(out := out);
        if a.Value? {
          BlockKeepsErrors(p, scoping, fuel, inner, Store(dest, a.v, st1), pass);
        } else if a.Raises? {
          BlockKeepsErrors(p, scoping, fuel, a.error, st1, err);
        }
      }
    case If(_, thn, els) =>
      BlockKeepsErrors(p, scoping, fuel, caught, st, thn);
      BlockKeepsErrors(p, scoping, fuel, caught, st, els);
    case While(_, body) =>
      BlockKeepsErrors(p, scoping, fuel, caught, st, body);
      if fuel > 0 {
        StatementKeepsErrors(p, scoping, fuel - 1, caught, ExecAll(p, scoping, fuel, caught, st, body).1, s);
      }
    case _ =>
  }

  /** A function that does not throw never lets an error out. */
  lemma {:induction false} NonThrowingNeverRaises(p: Prog, scoping: Scoping, fuel: nat, fn: Name, vs: seq<int>, out: seq<string>)
    requires AllHandled(p) && fn in p && !p[fn].throws
    ensures !Invoke(p, scoping, fuel, fn, vs, out).0.Raises?
    decreases fuel, 1
  {
    BlockKeepsErrors(p, scoping, fuel, NO_ERROR, State(BindParams(p[fn].params, vs), out), p[fn].body);
  }
}
