/** What the lowering of error handling promises a whole program, and where it stops. */
module ErrorGuarantees {
  import opened Results
  import opened ErrorSyntax
  import opened ErrorTarget
  import opened ErrorLowering
  import opened ErrorScoping

  function LowerProg(p: Prog): CProg {
    map fn | fn in p :: LowerFunc(p, p[fn], 0)
  }

  lemma LowerProgIsLowered(p: Prog)
    ensures Lowered(p, LowerProg(p))
  {
    forall fn | fn in p
      ensures exists n: nat :: LowerProg(p)[fn] == LowerFunc(p, p[fn], n)
    {
      assert LowerProg(p)[fn] == LowerFunc(p, p[fn], 0);
    }
  }

  /** The C answer b, over the worlds w and w', stands for the source answer a and output. */
  ghost predicate Faithful(a: Answer, out: seq<string>, b: CAnswer, cell: Option<Cell>, w: World, w': World) {
    && b != CStuck
    && w'.out == out
    && (a.Value? <==> b.Back? && (b.err.Some? ==> !b.err.value.failed))
    && (a.Value? ==> b.v == a.v && b.err == cell)
    && (a.Raises? <==> b.Back? && b.err.Some? && b.err.value.failed)
    && (a.Raises? ==> b.err.value.code == a.error.code)
    && (a.Raises? ==> b.err.value.msg == if |a.error.msg| < 256 then a.error.msg else a.error.msg[..255])
    && (a.Panics? <==> b == CPanics)
    && (b.Back? ==> w'.made - w.made == w'.freed - w.freed)
  }

  /** Any call of any function of a covered program, started with its flag unset: the C
      code never gets stuck, prints the same, returns the same value with the flag unset
      exactly when the source returns, and otherwise carries the same code and the first
      255 bytes of the message. Every local region made on the way is freed once. The
      current error of the source is that of the innermost try/except. */
  lemma LoweringPreservesMeaning(p: Prog, q: CProg, fuel: nat, fn: Name, vs: seq<int>, cell: Option<Cell>, w: World)
    requires AllHandled(p) && AllCovered(p) && Lowered(p, q) && fn in p
    requires p[fn].throws == cell.Some? && (cell.Some? ==> !cell.value.failed)
    ensures
      var (a, out) := Invoke(p, Innermost, fuel, fn, vs, w.out);
      var (b, w') := CInvoke(q, fuel, fn, vs, cell, w);
      Faithful(a, out, b, cell, w, w')
  {
    SimInvoke(p, q, fuel, fn, vs, cell, w);
  }

  /** The same against the errors caught lexically, where no inspection is shadowed. */
  lemma LexicalMeaningPreserved(p: Prog, q: CProg, fuel: nat, fn: Name, vs: seq<int>, cell: Option<Cell>, w: World)
    requires AllHandled(p) && AllCovered(p) && AllUnshadowed(p) && Lowered(p, q) && fn in p
    requires p[fn].throws == cell.Some? && (cell.Some? ==> !cell.value.failed)
    ensures
      var (a, out) := Invoke(p, Lexical, fuel, fn, vs, w.out);
      var (b, w') := CInvoke(q, fuel, fn, vs, cell, w);
      Faithful(a, out, b, cell, w, w')
  {
    SameCall(p, fuel, fn, vs, w.out);
    LoweringPreservesMeaning(p, q, fuel, fn, vs, cell, w);
  }

  // ----- a message on its way to the handler -----

  /** `func f() throws: fail(m, k)` and `func main(): try f() except: print(error_msg())`. */
  function Failing(m: string, k: int): Prog {
    map["f" := Func([], true, [Fail(Lit(m), Num(k))]), "main" := Func([], false, [Handler()])]
  }

  function Handler(): Stmt { Try(NoDest, "f", [], [], [Print(CaughtText)]) }

  lemma OneStatement(p: Prog, throws: bool, inTry: bool, s: Stmt)
    ensures HandledAll(p, throws, [s]) <==> Handled(p, throws, s)
    ensures CoveredAll(inTry, [s]) <==> Covered(inTry, s)
  {
    assert [s][1..] == [];
  }

  lemma FailingIsAccepted(m: string, k: int)
    ensures AllHandled(Failing(m, k)) && AllCovered(Failing(m, k))
  {
    var p := Failing(m, k);
    OneStatement(p, true, false, Fail(Lit(m), Num(k)));
    OneStatement(p, false, true, Print(CaughtText));
    OneStatement(p, false, false, Handler());
    assert HandledAll(p, false, Handler().pass) && CoveredAll(true, Handler().pass);
  }

  lemma HandlerInSource(m: string, k: int)
    ensures Invoke(Failing(m, k), Innermost, 2, "main", [], []).1 == [if |m| < 256 then m else m[..255]]
  {
    var p, st := Failing(m, k), State(map[], []);
    assert Invoke(p, Innermost, 1, "f", [], []) == (Raises(Error(k, m)), []);
    assert EvalAll([], st.env, NO_ERROR) == [];
    var shown := if |m| < 256 then m else m[..255];
    assert [] + [shown] == [shown];
    assert ExecAll(p, Innermost, 2, Error(k, m), st, [Print(CaughtText)]) == (Go, State(map[], [shown]));
    assert Exec(p, Innermost, 2, NO_ERROR, st, Handler()) == (Go, State(map[], [shown]));
    assert ExecAll(p, Innermost, 2, NO_ERROR, st, [Handler()]) == (Go, State(map[], [shown]));
  }

  /** In the C run of that program `error_msg()` is the raised message, or its first 255 bytes. */
  lemma HandlerPrintsMessage(m: string, k: int)
    ensures CInvoke(LowerProg(Failing(m, k)), 2, "main", [], None, World([], 0, 0)).1.out == [if |m| < 256 then m else m[..255]]
  {
    var p := Failing(m, k);
    FailingIsAccepted(m, k);
    HandlerInSource(m, k);
    LowerProgIsLowered(p);
    hide Invoke, CInvoke, Handled, HandledAll;
    LoweringPreservesMeaning(p, LowerProg(p), 2, "main", [], None, World([], 0, 0));
  }

  // ----- error_code() outside every try -----

  const UNCOVERED: Prog := map["main" := Func([], false, [Return(CaughtCode)])]

  /** `func main(): return error_code()` passes every check, but its C mentions a cell that
      no block declares. */
  lemma UncoveredReadsNoCell(fuel: nat)
    ensures AllHandled(UNCOVERED) && !AllCovered(UNCOVERED)
    ensures CInvoke(LowerProg(UNCOVERED), fuel, "main", [], None, World([], 0, 0)).0 == CStuck
  {
    var q := LowerProg(UNCOVERED);
    var body := UNCOVERED["main"].body;
    assert body == [Return(CaughtCode)];
    assert HandledAll(UNCOVERED, false, body);
    assert !Covered(false, Return(CaughtCode));
    assert LowerAll(UNCOVERED, body, 0).0 == [CSetResult(CaughtCode), CGoto];
    ExecTwo(q, fuel, Frame(map[], map[], 0, None, [], false), World([], 0, 0), CSetResult(CaughtCode), CGoto);
  }

  // ----- error_code() in a nested try -----

  // `try f() except { try x := g(error_code()) { return x } }`, where f fails with code 7
  // and g returns its argument: accepted, but main returns 0 instead of 7.
  const INNER := Try(Declares("x"), "g", [CaughtCode], [Return(Var("x"))], [])
  const OUTER := Try(NoDest, "f", [], [], [INNER])
  const F := Func([], true, [Fail(NoText, Num(7))])
  const G := Func(["y"], true, [Return(Var("y"))])
  const MAIN := Func([], false, [OUTER])
  const NESTED: Prog := map["f" := F, "g" := G, "main" := MAIN]

  lemma NestedIsHandled()
    ensures AllHandled(NESTED) && AllCovered(NESTED) && !AllUnshadowed(NESTED)
  {
    NestedIsCovered();
    NestedIsShadowed();
    assert HandledAll(NESTED, false, INNER.pass);
    assert Handled(NESTED, false, INNER);
    assert HandledAll(NESTED, false, [INNER]);
    assert Handled(NESTED, false, OUTER) by {
      assert HandledAll(NESTED, false, OUTER.pass);
    }
    assert HandledAll(NESTED, false, MAIN.body);
    assert HandledAll(NESTED, true, F.body);
    assert HandledAll(NESTED, true, G.body);
  }

  lemma NestedIsCovered()
    ensures AllCovered(NESTED)
  {
    assert CoveredAll(true, INNER.pass);
    assert Covered(true, INNER);
    assert CoveredAll(true, [INNER]);
    assert Covered(false, OUTER) by {
      assert CoveredAll(true, OUTER.pass);
    }
    assert CoveredAll(false, MAIN.body);
    assert CoveredAll(false, F.body);
    assert CoveredAll(false, G.body);
  }

  lemma NestedIsShadowed()
    ensures !AllUnshadowed(NESTED)
  {
    assert CaughtCode in INNER.args;
    assert !Unshadowed(InExcept, INNER);
    assert !UnshadowedAll(InExcept, [INNER]);
    assert !Unshadowed(Outside, OUTER);
    assert !UnshadowedAll(Outside, NESTED["main"].body);
  }

  lemma CalleesInSource(out: seq<string>, k: int)
    ensures Invoke(NESTED, Lexical, 1, "f", [], out) == (Raises(Error(7, "")), out)
    ensures Invoke(NESTED, Lexical, 1, "g", [k], out) == (Value(k), out)
  {
    assert BindParams(["y"], [k])["y"] == k;
  }

  lemma FInTarget(w: World)
    ensures CInvoke(LowerProg(NESTED), 1, "f", [], Some(CLEAR), w) == (Back(0, Some(Cell(true, 7, ""))), w)
  {
    var q := LowerProg(NESTED);
    assert LowerAll(NESTED, F.body, 0).0 == [CFail(NoText, Num(7)), CGoto];
    ExecTwo(q, 1, Frame(map[], map[], 0, Some(CLEAR), [], false), w, CFail(NoText, Num(7)), CGoto);
  }

  lemma GInTarget(w: World, k: int)
    ensures CInvoke(LowerProg(NESTED), 1, "g", [k], Some(CLEAR), w) == (Back(k, Some(CLEAR)), w)
  {
    var q := LowerProg(NESTED);
    assert LowerAll(NESTED, G.body, 0).0 == [CSetResult(Var("y")), CGoto];
    assert BindParams(["y"], [k])["y"] == k;
    ExecTwo(q, 1, Frame(BindParams(["y"], [k]), map[], 0, Some(CLEAR), [], false), w, CSetResult(Var("y")), CGoto);
  }

  /** Accepted and covered: the enclosing `except` caught 7, the C code passes 0 to g. */
  lemma NestedTryReadsInnerCell()
    ensures AllHandled(NESTED) && AllCovered(NESTED) && !AllUnshadowed(NESTED)
    ensures Invoke(NESTED, Lexical, 2, "main", [], []).0 == Value(7)
    ensures Invoke(NESTED, Innermost, 2, "main", [], []).0 == Value(0)
    ensures CInvoke(LowerProg(NESTED), 2, "main", [], None, World([], 0, 0)).0 == Back(0, None)
  {
    NestedIsHandled();
    NestedSource();
    NestedTarget();
    LowerProgIsLowered(NESTED);
    LoweringPreservesMeaning(NESTED, LowerProg(NESTED), 2, "main", [], None, World([], 0, 0));
  }

  lemma NestedSource()
    ensures Invoke(NESTED, Lexical, 2, "main", [], []).0 == Value(7)
  {
    var st := State(map[], []);
    CalleesInSource([], 7);
    assert EvalAll([CaughtCode], st.env, Error(7, "")) == [7];
    assert EvalAll([], st.env, NO_ERROR) == [];
    var st1 := State(map["x" := 7], []);
    assert ExecAll(NESTED, Lexical, 2, Error(7, ""), st1, [Return(Var("x"))]) == (Ret(7), st1);
    assert Exec(NESTED, Lexical, 2, Error(7, ""), st, INNER).0 == Ret(7);
    assert ExecAll(NESTED, Lexical, 2, Error(7, ""), st, [INNER]).0 == Ret(7);
    assert Exec(NESTED, Lexical, 2, NO_ERROR, st, OUTER).0 == Ret(7);
    assert ExecAll(NESTED, Lexical, 2, NO_ERROR, st, [OUTER]).0 == Ret(7);
  }

  /** The call of g sees the argument 0. */
  lemma NestedCall(q: CProg, inner: Frame, w: World)
    requires q == LowerProg(NESTED) && w == World([], 0, 0)
    requires inner == Frame(map[], map[], 0, None, [Cell(true, 7, ""), CLEAR], false)
    ensures CExec(q, 2, inner, w, CCall(ToVar("x"), "g", [CaughtCode], Some(CatchErr))) == (CGo, inner.(env := map["x" := 0]), w)
  {
    GInTarget(w, 0);
    assert EvalAll([CaughtCode], inner.env, Caught(inner)) == [0];
    assert inner.catches[1 := CLEAR] == inner.catches;
  }

  lemma LowerAllOne(p: Prog, s: Stmt, n: nat)
    ensures LowerAll(p, [s], n) == Lower(p, s, n)
  {
    assert Lower(p, s, n).0 + [] == Lower(p, s, n).0;
  }

  lemma ReturnX(q: CProg, fr: Frame, w: World, n: nat)
    requires "x" in fr.env
    ensures CExecAll(q, 2, fr, w, LowerAll(NESTED, [Return(Var("x"))], n).0) == (CJump, fr.(result := fr.env["x"]), w)
  {
    assert LowerAll(NESTED, [Return(Var("x"))], n).0 == [CSetResult(Var("x")), CGoto];
    ExecTwo(q, 2, fr, w, CSetResult(Var("x")), CGoto);
  }

  /** The inner try, run with the error of f in the enclosing cell. */
  lemma NestedInner(q: CProg, fr1: Frame, w: World)
    requires q == LowerProg(NESTED) && w == World([], 0, 0)
    requires fr1 == Frame(map[], map[], 0, None, [Cell(true, 7, "")], false)
    ensures
      var (g, fr2, w2) := CExecAll(q, 2, fr1, w, Lower(NESTED, INNER, 0).0);
      g == CJump && fr2.result == 0 && fr2.err == None && w2 == w
  {
    var inner := fr1.(catches := [Cell(true, 7, ""), CLEAR]);
    assert fr1.catches + [CLEAR] == inner.catches;
    NestedCall(q, inner, w);
    var got := inner.(env := map["x" := 0]);
    assert GetCell(got, CatchErr) == Some(CLEAR);
    ReturnX(q, got, w, LowerAll(NESTED, INNER.err, 0).1);
    TryShape(NESTED, q, 2, fr1, w, INNER, 0);
  }

  lemma NestedNeedsNoRegion()
    ensures !NeedsRegionAny(MAIN.body)
  {
    assert !NeedsRegionAny(INNER.pass);
    assert !NeedsRegion(INNER);
    assert !NeedsRegionAny(OUTER.err);
    assert !NeedsRegion(OUTER);
  }

  /** The outer try: f fails, and the inner statement ends the function with result 0. */
  lemma NestedOuter(q: CProg, fr: Frame, w: World)
    requires q == LowerProg(NESTED) && w == World([], 0, 0) && fr == Frame(map[], map[], 0, None, [], false)
    ensures
      var (g, fr2, w2) := CExecAll(q, 2, fr, w, Lower(NESTED, OUTER, 0).0);
      g == CJump && fr2.result == 0 && fr2.err == None && w2 == w
  {
    hide ExecAll, Lower;
    FInTarget(w);
    var fr1 := fr.(catches := [Cell(true, 7, "")]);
    NestedInner(q, fr1, w);
    ExecConcat(q, 2, fr1, w, Lower(NESTED, INNER, 0).0, [CClearCatch]);
    var outer := fr.(catches := [CLEAR]);
    assert fr.catches + [CLEAR] == [CLEAR];
    assert EvalAll([], outer.env, Caught(outer)) == [];
    assert [CLEAR][0 := Cell(true, 7, "")] == [Cell(true, 7, "")];
    assert CExec(q, 2, outer, w, CCall(ToNone, "f", [], Some(CatchErr))) == (CGo, fr1, w);
    LowerAllOne(NESTED, INNER, 0);
    TryShape(NESTED, q, 2, fr, w, OUTER, 0);
  }

  lemma NestedTarget()
    ensures CInvoke(LowerProg(NESTED), 2, "main", [], None, World([], 0, 0)).0 == Back(0, None)
  {
    var q := LowerProg(NESTED);
    NestedOuter(q, Frame(map[], map[], 0, None, [], false), World([], 0, 0));
    LowerAllOne(NESTED, OUTER, 0);
    NestedNeedsNoRegion();
  }
}
