/** The premises of `RegionDriver.CheckedProgramSound` are met by a program that allocates,
    calls and stores. */
module RegionWitness {
  import opened RegionSyntax
  import opened RegionCheck
  import opened RegionSemantics
  import opened RegionAccepted
  import opened RegionPasses
  import opened RegionFixpoint
  import opened RegionPlaces
  import opened RegionStart
  import opened RegionTraces
  import opened RegionDriver
  import opened Collections
  import opened Results

  const P_GETS_Q := Store(Var("p"), 0, Var("q"))
  const SET := FuncDecl([Param("p", CompositeTy, false), Param("q", CompositeTy, false)], [P_GETS_Q])
  const SET_SPECS := Specs(map["p" := Of("p"), "q" := Of("q")], NONE, NONE)

  const NEW_X := Declare("x", Obj0(0))
  const X_AND_NEW: seq<Expr> := [Var("x"), Obj0(2)]
  const CALL_SET := Call(1, "set", X_AND_NEW, false, PrimTy)
  const MAIN := FuncDecl([], [NEW_X, Do(CALL_SET)])

  function MainSpecs(x: Spec, call: map<nat, Spec>): Specs {
    Specs(map["x" := x], map[0 := LOCAL, 2 := LOCAL], call)
  }

  /** set(p, q): p.f = q        main(): x := S{}; set(x, S{}) */
  const WITNESS := Prog(
    map["set" := SET, "main" := MAIN], map["set" := SET_SPECS, "main" := MainSpecs(LOCAL, map[1 := LOCAL])], {}, map[])

  const WITNESS_HISTORY := History(
    ["set", "main"],
    map["set" := SET_SPECS, "main" := MainSpecs(UNKNOWN, NONE)],
    map["set" := SET_SPECS, "main" := MainSpecs(LOCAL, NONE)])

  const SET_NODES: seq<Node> := [StmtNode(P_GETS_Q), ExprNode(Var("p")), ExprNode(Var("q"))]

  const MAIN_NODES: seq<Node> :=
    [StmtNode(NEW_X), ExprNode(Obj0(0)), ExprNode(Var("x")),
     StmtNode(Do(CALL_SET)), ExprNode(CALL_SET), ExprNode(Var("x")), ExprNode(Obj0(2))]

  lemma SetNodes()
    ensures NodesB(SET.body) == SET_NODES
  {
    NodesOne(P_GETS_Q);
  }

  lemma MainNodes()
    ensures NodesB(MAIN.body) == MAIN_NODES
  {
    NodesTwo(NEW_X, Do(CALL_SET));
    NodesPair(Var("x"), Obj0(2));
    assert NodesS(NEW_X) == [StmtNode(NEW_X), ExprNode(Obj0(0)), ExprNode(Var("x"))];
    assert NodesE(CALL_SET) == [ExprNode(CALL_SET), ExprNode(Var("x")), ExprNode(Obj0(2))];
  }

  /** Both arguments are local, and so is the call. */
  lemma CallIsLocal(S: Specs)
    requires S.tab == map["x" := LOCAL] && S.lit == map[0 := LOCAL, 2 := LOCAL]
    ensures CallArgs(WITNESS.funcs, CALL_SET) == X_AND_NEW && Anchor(X_AND_NEW) == Var("x")
    ensures MarkForeign(S, SET.params, X_AND_NEW) == S && SameRegion(S, X_AND_NEW) == Ok((LOCAL, S))
  {
    assert X_AND_NEW[1..] == [Obj0(2)] && !X_AND_NEW[0].Lit?;
    assert AllocatedArgs(SET.params[1..], [Obj0(2)]) == [Obj0(2)];
    assert MarkForeign(S, SET.params[1..], [Obj0(2)]) == S;
    assert AlignArgs(S, [Obj0(2)], LOCAL) == Ok(S);
  }

  lemma SetChecked()
    ensures FunctionChecked(WITNESS, "set")
  {
    SetNodes();
  }

  lemma MainNode(nd: Node)
    requires nd in MAIN_NODES
    ensures NodeChecked(WITNESS, "main", nd)
  {
    if nd == ExprNode(CALL_SET) {
      CallChecked();
    } else {
      SetSame(WITNESS.info["main"], "x");
    }
  }

  lemma CallChecked()
    ensures NodeChecked(WITNESS, "main", ExprNode(CALL_SET))
  {
    SetCallSame(WITNESS.info["main"], 1);
    CallIsLocal(WITNESS.info["main"]);
  }

  lemma MainChecked()
    ensures FunctionChecked(WITNESS, "main")
  {
    MainNodes();
    forall nd | nd in NodesB(MAIN.body)
      ensures NodeChecked(WITNESS, "main", nd)
    {
      MainNode(nd);
    }
  }

  // ----- the driver accepts it -----

  const BEFORE_CALL: seq<Node> := [ExprNode(Obj0(0)), ExprNode(Var("x")), StmtNode(Do(CALL_SET))]
  const AFTER_CALL: seq<Node> := [ExprNode(Var("x")), ExprNode(Obj0(2))]

  lemma AroundCall(safe: set<Name>, call: map<nat, Spec>)
    ensures Unmoved(WITNESS.funcs, safe, [], MainSpecs(LOCAL, call), BEFORE_CALL)
    ensures Unmoved(WITNESS.funcs, safe, [], MainSpecs(LOCAL, call), AFTER_CALL)
  {
    QuietAround(WITNESS.funcs, safe, [], MainSpecs(LOCAL, call), BEFORE_CALL, ExprNode(Obj0(0)));
    QuietAround(WITNESS.funcs, safe, [], MainSpecs(LOCAL, call), AFTER_CALL, ExprNode(Obj0(2)));
  }

  /** x gets its spec at once; the call waits until it is known not to be region-safe. */
  lemma MainPass(safe: set<Name>, x: Spec, call: map<nat, Spec>)
    requires Visit(WITNESS.funcs, safe, [], MainSpecs(LOCAL, NONE), ExprNode(CALL_SET)) == Ok(MainSpecs(LOCAL, call))
    ensures Pass(WITNESS.funcs, safe, [], MainSpecs(x, NONE), MAIN_NODES) == Ok(MainSpecs(LOCAL, call))
  {
    var S, T := MainSpecs(x, NONE), MainSpecs(LOCAL, NONE);
    assert S.SetName("x", LOCAL) == T;
    var rest := BEFORE_CALL + [ExprNode(CALL_SET)] + AFTER_CALL;
    assert MAIN_NODES == [] + [StmtNode(NEW_X)] + rest;
    PassVia(WITNESS.funcs, safe, [], S, [], StmtNode(NEW_X), rest, T);
    AroundCall(safe, NONE);
    AroundCall(safe, call);
    PassOnce(WITNESS.funcs, safe, [], T, BEFORE_CALL, ExprNode(CALL_SET), AFTER_CALL, MainSpecs(LOCAL, call));
  }

  lemma MainFirst(all: set<Name>)
    requires "set" in all
    ensures Pass(WITNESS.funcs, all, [], MainSpecs(UNKNOWN, NONE), MAIN_NODES) == Ok(MainSpecs(LOCAL, NONE))
  {
    MainPass(all, UNKNOWN, NONE);
  }

  lemma MainSecond()
    ensures Pass(WITNESS.funcs, {}, [], MainSpecs(LOCAL, NONE), MAIN_NODES) == Ok(WITNESS.info["main"])
  {
    CallIsLocal(MainSpecs(LOCAL, NONE));
    assert MainSpecs(LOCAL, NONE).SetCall(1, LOCAL) == WITNESS.info["main"];
    MainPass({}, LOCAL, map[1 := LOCAL]);
  }

  lemma SetFirst(all: set<Name>)
    ensures Pass(WITNESS.funcs, all, SET.params, SET_SPECS, SET_NODES) == Ok(SET_SPECS)
  {
    QuietAround(WITNESS.funcs, all, SET.params, SET_SPECS, SET_NODES, StmtNode(P_GETS_Q));
    PassUnmoved(WITNESS.funcs, all, SET.params, SET_SPECS, SET_NODES);
  }

  lemma SetDriven()
    ensures FunctionDriven(WITNESS, WITNESS_HISTORY, "set")
  {
    SetChecked();
    SetNodes();
    SetFirst(Elements(["set", "main"]));
    InitialTwo(SET, Param("p", CompositeTy, false), Param("q", CompositeTy, false), SET_SPECS);
    DrivenBy(WITNESS, WITNESS_HISTORY, "set");
  }

  lemma MainInitial()
    ensures TableNames(MAIN) == {"x"} && Initial(MAIN, MainSpecs(UNKNOWN, NONE))
  {
    DeclaredTwo(NEW_X, Do(CALL_SET));
    assert DeclaredB(MAIN.body) == ["x"];
    InitialNone(MAIN, MainSpecs(UNKNOWN, NONE));
  }

  lemma MainDriven()
    ensures FunctionDriven(WITNESS, WITNESS_HISTORY, "main")
  {
    MainChecked();
    MainNodes();
    MainFirst(Elements(["set", "main"]));
    MainSecond();
    MainInitial();
    DrivenBy(WITNESS, WITNESS_HISTORY, "main");
  }

  lemma NoneSafe()
    ensures Greatest(WITNESS.funcs, WITNESS_HISTORY.first, Elements(["set", "main"]), {})
  {
    var p, first := WITNESS, WITNESS_HISTORY.first;
    SetNodes();
    MainNodes();
    assert StmtNode(P_GETS_Q) in NodesB(SET.body) && ExprNode(CALL_SET) in NodesB(MAIN.body);
    assert Elements(["set", "main"]) == {"set", "main"};
    forall other | other <= {"set", "main"} && SelfSafe(p.funcs, first, other)
      ensures other <= {}
    {
      UnsafeIsOut(p.funcs, first, other, "set");
      CallerIsOut(p.funcs, first, other, "main", CALL_SET);
    }
  }

  // ----- it is a tree, and in scope -----

  lemma SetIsTree()
    ensures WellFormed(SET)
  {
    SetNodes();
    InitialTwo(SET, Param("p", CompositeTy, false), Param("q", CompositeTy, false), SET_SPECS);
  }

  /** The three spec fields of main, with the operand positions that have one. */
  lemma MainIsTree()
    ensures WellFormed(MAIN)
  {
    MainNodes();
    MainInitial();
    forall a, i | a in MAIN_NODES && 0 <= i < |Operands(a)| && TagOf(Operands(a)[i]) != NoTag
      ensures PlaceOf(TagOf(Operands(a)[i])) == (a, i)
    {
    }
    forall a, b, i: nat, j: nat | SameOperand(MAIN_NODES, a, i, b, j)
      ensures a == b && i == j
    {
      assert PlaceOf(TagOf(Operands(a)[i])) == (a, i) && PlaceOf(TagOf(Operands(b)[j])) == (b, j);
    }
  }

  function PlaceOf(t: Tag): (Node, int) {
    if t == LitTag(0) then (StmtNode(NEW_X), 0)
    else if t == CallTag(1) then (StmtNode(Do(CALL_SET)), 0)
    else (ExprNode(CALL_SET), 1)
  }

  lemma SetInScope()
    ensures FunctionInScope(WITNESS, "set")
  {
    SetNodes();
  }

  lemma MainInScope()
    ensures FunctionInScope(WITNESS, "main")
  {
    MainNodes();
    forall nd | nd in MAIN_NODES
      ensures InFragment(WITNESS, "main", nd) && BindingAgrees(WITNESS.info["main"], nd)
    {
      MainNodeInScope(nd);
    }
  }

  lemma MainNodeInScope(nd: Node)
    requires nd in MAIN_NODES
    ensures InFragment(WITNESS, "main", nd) && BindingAgrees(WITNESS.info["main"], nd)
  {
    if nd == ExprNode(CALL_SET) {
      CallIsLocal(WITNESS.info["main"]);
      assert SpecOf(WITNESS.info["main"], Var("x")) == LOCAL == SpecOf(WITNESS.info["main"], Obj0(2));
    }
  }

  lemma WitnessDriven()
    ensures DrivenTo(WITNESS, WITNESS_HISTORY)
  {
    hide FunctionDriven, Greatest;
    SetDriven();
    MainDriven();
    NoneSafe();
    OneRound(WITNESS, WITNESS_HISTORY);
  }

  lemma SetStays()
    ensures Verdict(WITNESS, "set")
  {
    SetChecked();
    CheckedEnds(WITNESS, "set");
    NoneUnknown(SET_SPECS, NodesB(SET.body));
  }

  lemma MainStays()
    ensures Verdict(WITNESS, "main")
  {
    MainChecked();
    CheckedEnds(WITNESS, "main");
    NoneUnknown(WITNESS.info["main"], NodesB(MAIN.body));
  }

  lemma WitnessIdle()
    ensures DrivenIdle(WITNESS, WITNESS_HISTORY)
  {
    WitnessDriven();
    SetStays();
    MainStays();
    SetIsTree();
    MainIsTree();
  }

  lemma WitnessInScope()
    ensures InScope(WITNESS)
  {
    SetInScope();
    MainInScope();
  }

  /** The theorem is not empty: this program meets everything it asks for. */
  lemma WitnessMeetsPremises()
    ensures "main" in WITNESS.funcs && DrivenIdle(WITNESS, WITNESS_HISTORY) && InScope(WITNESS)
  {
    WitnessIdle();
    WitnessInScope();
  }
}
