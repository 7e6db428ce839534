/** The driver may stop right after the pass that found the last spec. */
module RegionEarlyStop {
  import opened RegionSyntax
  import opened RegionCheck
  import opened RegionSemantics
  import opened RegionAccepted
  import opened RegionPasses
  import opened RegionSoundness
  import opened RegionStart
  import opened RegionTraces
  import opened Collections
  import opened Results

  const MAKE := Return(Obj0(0))
  const MADE_HERE := Call(1, "mk", [LocalRegion], false, CompositeTy)
  const HAND_OUT := Return(MADE_HERE)

  function MakeSpecs(made: Spec): Specs { Specs(map["r" := IN_R], map[0 := made], NONE) }

  const BAD_START := Specs(map["q" := Of("q")], NONE, NONE)

  const BAD_FINAL := Specs(map["q" := Of("q")], NONE, map[1 := LOCAL])

  /** mk(r): return S{}[r]        bad(q): return mk(_) */
  const EARLY := Prog(
    map["mk" := FuncDecl([Param("r", RegionTy, false)], [MAKE]), "bad" := FuncDecl([Param("q", CompositeTy, false)], [HAND_OUT])],
    map["mk" := MakeSpecs(IN_R), "bad" := BAD_FINAL],
    {},
    map[])

  const EARLY_HISTORY := History(
    ["mk", "bad"],
    map["mk" := MakeSpecs(SUFFIX_R), "bad" := BAD_START],
    map["mk" := MakeSpecs(IN_R), "bad" := BAD_START])

  const MK_NODES: seq<Node> := [StmtNode(MAKE), ExprNode(Obj0(0))]

  const BAD_NODES: seq<Node> := [StmtNode(HAND_OUT), ExprNode(MADE_HERE), ExprNode(LocalRegion)]

  lemma EarlyNodes()
    ensures NodesB(EARLY.funcs["mk"].body) == MK_NODES && NodesB(EARLY.funcs["bad"].body) == BAD_NODES
  {
    NodesOne(MAKE);
    NodesOne(HAND_OUT);
    assert NodesEs([LocalRegion]) == [ExprNode(LocalRegion)];
  }

  lemma MakeChecked()
    ensures FunctionChecked(EARLY, "mk")
  {
    EarlyNodes();
    MakeNodes();
  }

  lemma MakeNodes()
    ensures NodeChecked(EARLY, "mk", StmtNode(MAKE)) && NodeChecked(EARLY, "mk", ExprNode(Obj0(0)))
  {
    assert GetSpec(MakeSpecs(IN_R), Obj0(0)) == Ok((IN_R, MakeSpecs(IN_R)));
  }

  lemma MakeFirst(all: set<Name>)
    ensures Pass(EARLY.funcs, all, EARLY.funcs["mk"].params, MakeSpecs(SUFFIX_R), MK_NODES) == Ok(MakeSpecs(IN_R))
  {
    assert SetAlloc(MakeSpecs(SUFFIX_R), Obj0(0), IN_R) == MakeSpecs(IN_R);
    assert MK_NODES == [StmtNode(MAKE)] + [ExprNode(Obj0(0))] + [];
    PassOnce(EARLY.funcs, all, EARLY.funcs["mk"].params, MakeSpecs(SUFFIX_R),
             [StmtNode(MAKE)], ExprNode(Obj0(0)), [], MakeSpecs(IN_R));
  }

  lemma MakeDriven()
    ensures FunctionDriven(EARLY, EARLY_HISTORY, "mk")
  {
    EarlyNodes();
    MakeChecked();
    MakeFirst(Elements(["mk", "bad"]));
    InitialOne(EARLY.funcs["mk"], Param("r", RegionTy, false), MakeSpecs(SUFFIX_R));
    DrivenBy(EARLY, EARLY_HISTORY, "mk");
  }

  lemma EarlyCall(S: Specs)
    ensures CallArgs(EARLY.funcs, MADE_HERE) == [LocalRegion]
    ensures MarkForeign(S, EARLY.funcs["mk"].params, [LocalRegion]) == S && SameRegion(S, [LocalRegion]) == Ok((LOCAL, S))
  {
    assert ![LocalRegion][0].Lit?;
    assert FirstNonLiteral([LocalRegion]) == LocalRegion;
  }

  /** The return is visited before the call below it gets its spec. */
  lemma BadSecond()
    ensures Pass(EARLY.funcs, {}, EARLY.funcs["bad"].params, BAD_START, BAD_NODES) == Ok(BAD_FINAL)
  {
    EarlyCall(BAD_START);
    assert BAD_START.SetCall(1, LOCAL) == BAD_FINAL;
    assert BAD_NODES == [StmtNode(HAND_OUT)] + [ExprNode(MADE_HERE)] + [ExprNode(LocalRegion)];
    PassOnce(EARLY.funcs, {}, EARLY.funcs["bad"].params, BAD_START,
             [StmtNode(HAND_OUT)], ExprNode(MADE_HERE), [ExprNode(LocalRegion)], BAD_FINAL);
  }

  lemma BadFirst(all: set<Name>)
    requires "mk" in all
    ensures Pass(EARLY.funcs, all, EARLY.funcs["bad"].params, BAD_START, BAD_NODES) == Ok(BAD_START)
  {
    QuietAroundTwo(EARLY.funcs, all, EARLY.funcs["bad"].params, BAD_START, BAD_NODES, StmtNode(HAND_OUT), ExprNode(MADE_HERE));
    PassUnmoved(EARLY.funcs, all, EARLY.funcs["bad"].params, BAD_START, BAD_NODES);
  }

  lemma BadEnds()
    ensures NeedsMet(BAD_FINAL, BAD_NODES) && forall nd :: nd in BAD_NODES ==> PostCheck(EARLY.funcs, {}, BAD_FINAL, nd)
  {
    EarlyCall(BAD_FINAL);
    assert PostCheck(EARLY.funcs, {}, BAD_FINAL, ExprNode(MADE_HERE));
  }

  lemma BadDriven()
    ensures FunctionDriven(EARLY, EARLY_HISTORY, "bad")
  {
    EarlyNodes();
    InitialOne(EARLY.funcs["bad"], Param("q", CompositeTy, false), BAD_START);
    BadFirst(Elements(["mk", "bad"]));
    BadSecond();
    BadEnds();
  }

  lemma EarlyUnsafe()
    ensures Greatest(EARLY.funcs, EARLY_HISTORY.first, Elements(["mk", "bad"]), {})
  {
    var p, first := EARLY, EARLY_HISTORY.first;
    EarlyNodes();
    assert StmtNode(MAKE) in NodesB(p.funcs["mk"].body) && StmtNode(HAND_OUT) in NodesB(p.funcs["bad"].body);
    assert Elements(["mk", "bad"]) == {"mk", "bad"};
    forall other | other <= {"mk", "bad"} && SelfSafe(p.funcs, first, other)
      ensures other <= {}
    {
      UnsafeIsOut(p.funcs, first, other, "mk");
      UnsafeIsOut(p.funcs, first, other, "bad");
    }
  }

  lemma EarlyAccepted()
    ensures DrivenTo(EARLY, EARLY_HISTORY)
  {
    hide FunctionDriven, Greatest;
    MakeDriven();
    BadDriven();
    EarlyUnsafe();
    OneRound(EARLY, EARLY_HISTORY);
  }

  /** The deciding pass reads the result of `mk` before it visits the call that determines it:
      it accepts and leaves no spec unknown, so the loop ends; one more visit of the return
      would have rejected the program. */
  lemma EarlyStopDriven()
    ensures DrivenTo(EARLY, EARLY_HISTORY)
    ensures Visit(EARLY.funcs, {}, EARLY.funcs["bad"].params, BAD_FINAL, StmtNode(HAND_OUT)) == Err("cannot return local allocation")
  {
    EarlyAccepted();
    HandOutRejected();
  }

  lemma HandOutRejected()
    ensures Visit(EARLY.funcs, {}, EARLY.funcs["bad"].params, BAD_FINAL, StmtNode(HAND_OUT)) == Err("cannot return local allocation")
  {
    assert GetSpec(BAD_FINAL, MADE_HERE) == Ok((LOCAL, BAD_FINAL));
  }

  // ----- a run -----

  lemma MakeInRegion(o: nat -> nat, st: State)
    requires st == State(map[0 := Obj(0, map[])], {0, 1}, 2, 1, 0)
    ensures
      Run(EARLY, o, 0, "mk", [Reg(1)], st)
      == Done(Ref(1), State(map[0 := Obj(0, map[]), 1 := Obj(1, map[])], {0, 1}, 3, 2, 0))
  {
    var env := map["r" := Reg(1)];
    assert Bind(EARLY.funcs["mk"].params, [Reg(1)]) == env;
    var fr := Frame("mk", env, 2);
    assert st.live + {2} == {0, 1, 2} && {0, 1, 2} - {2} == {0, 1};
    var st1 := st.(live := {0, 1, 2}, nextRegion := 3);
    var st2 := st1.(heap := map[0 := Obj(0, map[]), 1 := Obj(1, map[])], nextLoc := 2);
    assert Pointers([]) == map[];
    assert Eval(EARLY, o, 0, fr, st1, Obj0(0)) == Done(Ref(1), st2);
    assert Exec(EARLY, o, 0, fr, st1, MAKE) == Done(Returned(Ref(1)), st2);
    RunOf(EARLY, o, 0, "mk", [Reg(1)], st, env, Returned(Ref(1)), st2);
  }

  /** The call inside `bad` returns the object that `mk` made in the region of `bad`. */
  lemma EarlyStopCall(o: nat -> nat, fr: Frame, st1: State)
    requires st1 == State(map[0 := Obj(0, map[])], {0, 1}, 2, 1, 0) && fr.fn == "bad" && fr.local == 1
    ensures
      Eval(EARLY, o, 1, fr, st1, MADE_HERE)
      == Done(Ref(1), State(map[0 := Obj(0, map[]), 1 := Obj(1, map[])], {0, 1}, 3, 2, 0))
  {
    EvalLast(EARLY, o, 1, fr, st1, LocalRegion, Reg(1), st1);
    MakeInRegion(o, st1);
  }

  /** Running the accepted function: the returned object lies in the freed region. */
  lemma EarlyStopBreaks(o: nat -> nat)
    ensures
      var st := State(map[0 := Obj(0, map[])], {0}, 1, 1, 0);
      var out := Run(EARLY, o, 1, "bad", [Ref(0)], st);
      && ArgsOk(EARLY, OneRegion(0), "bad", [Ref(0)], st)
      && out.Done? && out.v.Ref? && !Alive(out.v, out.st)
  {
    var st := State(map[0 := Obj(0, map[])], {0}, 1, 1, 0);
    var env := map["q" := Ref(0)];
    assert Bind(EARLY.funcs["bad"].params, [Ref(0)]) == env;
    assert st.live + {1} == {0, 1} && {0, 1} - {1} == {0};
    var st1 := st.(live := {0, 1}, nextRegion := 2);
    var st2 := State(map[0 := Obj(0, map[]), 1 := Obj(1, map[])], {0, 1}, 3, 2, 0);
    EarlyStopCall(o, Frame("bad", env, 1), st1);
    assert Exec(EARLY, o, 1, Frame("bad", env, 1), st1, HAND_OUT) == Done(Returned(Ref(1)), st2);
    RunOf(EARLY, o, 1, "bad", [Ref(0)], st, env, Returned(Ref(1)), st2);
  }
}
