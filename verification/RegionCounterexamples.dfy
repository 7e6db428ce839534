/** Programs outside the fragment of `RegionAccepted.InFragment`: the driver accepts each,
    starting from the parser's specs, and ends with specs that no visit would change, yet a
    run leaves a pointer across regions. */
module RegionCounterexamples {
  import opened RegionSyntax
  import opened RegionCheck
  import opened RegionSemantics
  import opened RegionAccepted
  import opened RegionPasses
  import opened RegionSoundness
  import opened RegionStart
  import opened RegionTraces
  import opened Collections
  import opened Results

  // ----- a composite global counts as the argument region -----

  const TO_GLOBAL := Store(Var("g"), 0, Var("p"))

  /** f(p): g.f = p */
  const GLOBAL_STORE := Prog(
    map["f" := FuncDecl([Param("p", CompositeTy, false)], [TO_GLOBAL])],
    map["f" := Specs(map["p" := Of("p")], NONE, NONE)],
    {},
    map["g" := 0])

  const GLOBAL_STORE_HISTORY := History(["f"], GLOBAL_STORE.info, GLOBAL_STORE.info)

  lemma GlobalStoreNodes()
    ensures NodesB(GLOBAL_STORE.funcs["f"].body) == [StmtNode(TO_GLOBAL), ExprNode(Var("g")), ExprNode(Var("p"))]
  {
    NodesOne(TO_GLOBAL);
  }

  lemma GlobalStoreChecked()
    ensures CheckedEverywhere(GLOBAL_STORE)
  {
    GlobalStoreNodes();
  }

  lemma GlobalStoreFirst()
    ensures BodyPass(GLOBAL_STORE.funcs, Elements(["f"]), GLOBAL_STORE.info, "f") == Ok(GLOBAL_STORE.info["f"])
  {
    var p, S := GLOBAL_STORE, GLOBAL_STORE.info["f"];
    GlobalStoreNodes();
    QuietAround(p.funcs, Elements(["f"]), p.funcs["f"].params, S, NodesB(p.funcs["f"].body), StmtNode(TO_GLOBAL));
    PassUnmoved(p.funcs, Elements(["f"]), p.funcs["f"].params, S, NodesB(p.funcs["f"].body));
  }

  lemma GlobalStoreFunction()
    ensures FunctionDriven(GLOBAL_STORE, GLOBAL_STORE_HISTORY, "f")
  {
    GlobalStoreChecked();
    InitialOne(GLOBAL_STORE.funcs["f"], Param("p", CompositeTy, false), GLOBAL_STORE.info["f"]);
    GlobalStoreFirst();
    DrivenBy(GLOBAL_STORE, GLOBAL_STORE_HISTORY, "f");
  }

  lemma GlobalStoreUnsafe()
    ensures Greatest(GLOBAL_STORE.funcs, GLOBAL_STORE.info, Elements(["f"]), {})
  {
    var p := GLOBAL_STORE;
    GlobalStoreNodes();
    assert StmtNode(TO_GLOBAL) in NodesB(p.funcs["f"].body);
    assert Elements(["f"]) == {"f"};
    forall other | other <= {"f"} && SelfSafe(p.funcs, p.info, other)
      ensures other <= {}
    {
      UnsafeIsOut(p.funcs, p.info, other, "f");
    }
  }

  lemma GlobalStoreDriven()
    ensures DrivenTo(GLOBAL_STORE, GLOBAL_STORE_HISTORY) && CheckedEverywhere(GLOBAL_STORE)
  {
    hide FunctionDriven, Greatest;
    GlobalStoreChecked();
    GlobalStoreFunction();
    GlobalStoreUnsafe();
    OneRound(GLOBAL_STORE, GLOBAL_STORE_HISTORY);
  }

  lemma GlobalStoreBody(o: nat -> nat, st: State)
    requires st == State(map[0 := Obj(0, map[]), 1 := Obj(1, map[])], {0, 1, 2}, 3, 2, 0)
    ensures
      ExecAll(GLOBAL_STORE, o, 0, Frame("f", map["p" := Ref(1)], 2), st, GLOBAL_STORE.funcs["f"].body)
      == Done(Next(map["p" := Ref(1)]), Write(0, 0, Ref(1), st))
  {
    var fr := Frame("f", map["p" := Ref(1)], 2);
    assert Exec(GLOBAL_STORE, o, 0, fr, st, TO_GLOBAL) == Done(Next(fr.env), Write(0, 0, Ref(1), st));
    ExecLast(GLOBAL_STORE, o, 0, fr, st, TO_GLOBAL, fr.env, Write(0, 0, Ref(1), st));
  }

  lemma GlobalStoreStart(st: State)
    requires st == State(map[0 := Obj(0, map[]), 1 := Obj(1, map[])], {0, 1}, 2, 2, 0)
    ensures StateOk(GLOBAL_STORE, st) && ArgsOk(GLOBAL_STORE, OneRegion(1), "f", [Ref(1)], st)
  {
  }

  /** The global object and the argument start in different regions. */
  lemma GlobalStoreBreaks(o: nat -> nat)
    ensures
      var st := State(map[0 := Obj(0, map[]), 1 := Obj(1, map[])], {0, 1}, 2, 2, 0);
      && StateOk(GLOBAL_STORE, st) && ArgsOk(GLOBAL_STORE, OneRegion(1), "f", [Ref(1)], st)
      && !Confined(Run(GLOBAL_STORE, o, 0, "f", [Ref(1)], st).Final())
  {
    var st := State(map[0 := Obj(0, map[]), 1 := Obj(1, map[])], {0, 1}, 2, 2, 0);
    GlobalStoreStart(st);
    assert st.live + {2} == {0, 1, 2} && {0, 1, 2} - {2} == {0, 1};
    var env := map["p" := Ref(1)];
    assert Bind(GLOBAL_STORE.funcs["f"].params, [Ref(1)]) == env;
    var st1 := st.(live := {0, 1, 2}, nextRegion := 3);
    GlobalStoreBody(o, st1);
    RunOf(GLOBAL_STORE, o, 0, "f", [Ref(1)], st, env, Next(env), Write(0, 0, Ref(1), st1));
    var end := Run(GLOBAL_STORE, o, 0, "f", [Ref(1)], st).Final();
    assert LiveLoc(end, 0) && 0 in end.heap[0].fields;
  }

  // ----- a region parameter marked `foreign` still counts as the argument region -----

  const MAKE_IN_R := Declare("x", Obj0(0))
  const STORE_X := Store(Var("p"), 0, Var("x"))

  function ForeignRegionSpecs(x: Spec, made: Spec): Specs {
    Specs(map["r" := IN_R, "p" := Of("p"), "x" := x], map[0 := made], NONE)
  }

  /** k(foreign r, p): x := S{}[r]; p.f = x */
  const FOREIGN_REGION := Prog(
    map["k" := FuncDecl([Param("r", RegionTy, true), Param("p", CompositeTy, false)], [MAKE_IN_R, STORE_X])],
    map["k" := ForeignRegionSpecs(IN_R, IN_R)],
    {},
    map[])

  const FOREIGN_REGION_HISTORY := History(
    ["k"], map["k" := ForeignRegionSpecs(UNKNOWN, SUFFIX_R)], map["k" := ForeignRegionSpecs(UNKNOWN, IN_R)])

  const FOREIGN_REGION_NODES: seq<Node> :=
    [StmtNode(MAKE_IN_R), ExprNode(Obj0(0)), ExprNode(Var("x")), StmtNode(STORE_X), ExprNode(Var("p")), ExprNode(Var("x"))]

  lemma ForeignRegionNodes()
    ensures NodesB(FOREIGN_REGION.funcs["k"].body) == FOREIGN_REGION_NODES
  {
    NodesTwo(MAKE_IN_R, STORE_X);
    assert NodesS(MAKE_IN_R) == [StmtNode(MAKE_IN_R), ExprNode(Obj0(0)), ExprNode(Var("x"))];
    assert NodesS(STORE_X) == [StmtNode(STORE_X), ExprNode(Var("p")), ExprNode(Var("x"))];
  }

  lemma ForeignRegionNode(nd: Node)
    requires nd in FOREIGN_REGION_NODES
    ensures NodeChecked(FOREIGN_REGION, "k", nd)
  {
    SetSame(FOREIGN_REGION.info["k"], "x");
  }

  lemma ForeignRegionChecked()
    ensures CheckedEverywhere(FOREIGN_REGION)
  {
    ForeignRegionNodes();
    forall nd | nd in NodesB(FOREIGN_REGION.funcs["k"].body)
      ensures NodeChecked(FOREIGN_REGION, "k", nd)
    {
      ForeignRegionNode(nd);
    }
  }

  /** The first pass learns where the literal is. */
  lemma ForeignRegionFirst()
    ensures BodyPass(FOREIGN_REGION.funcs, {"k"}, FOREIGN_REGION_HISTORY.start, "k") == Ok(FOREIGN_REGION_HISTORY.first["k"])
  {
    var p, S, T := FOREIGN_REGION, ForeignRegionSpecs(UNKNOWN, SUFFIX_R), ForeignRegionSpecs(UNKNOWN, IN_R);
    assert SetAlloc(S, Obj0(0), IN_R) == T;
    ForeignRegionNodes();
    assert FOREIGN_REGION_NODES == [StmtNode(MAKE_IN_R)] + [ExprNode(Obj0(0))]
      + [ExprNode(Var("x")), StmtNode(STORE_X), ExprNode(Var("p")), ExprNode(Var("x"))];
    PassOnce(p.funcs, {"k"}, p.funcs["k"].params, S, [StmtNode(MAKE_IN_R)], ExprNode(Obj0(0)),
             [ExprNode(Var("x")), StmtNode(STORE_X), ExprNode(Var("p")), ExprNode(Var("x"))], T);
  }

  /** The second one takes this over into the table. */
  lemma ForeignRegionSecond()
    ensures BodyPass(FOREIGN_REGION.funcs, {}, FOREIGN_REGION_HISTORY.first, "k") == Ok(FOREIGN_REGION.info["k"])
  {
    var p, S, T := FOREIGN_REGION, ForeignRegionSpecs(UNKNOWN, IN_R), ForeignRegionSpecs(IN_R, IN_R);
    assert S.SetName("x", IN_R) == T;
    ForeignRegionNodes();
    var rest := FOREIGN_REGION_NODES[1..];
    assert FOREIGN_REGION_NODES == [] + [StmtNode(MAKE_IN_R)] + rest;
    forall nd | nd in rest
      ensures Visit(p.funcs, {}, p.funcs["k"].params, T, nd) == Ok(T)
    {
      ForeignRegionNode(nd);
    }
    PassOnce(p.funcs, {}, p.funcs["k"].params, S, [], StmtNode(MAKE_IN_R), rest, T);
  }

  lemma ForeignRegionInitial()
    ensures Initial(FOREIGN_REGION.funcs["k"], ForeignRegionSpecs(UNKNOWN, SUFFIX_R))
  {
    DeclaredTwo(MAKE_IN_R, STORE_X);
    InitialTwo(FOREIGN_REGION.funcs["k"], Param("r", RegionTy, true), Param("p", CompositeTy, false), ForeignRegionSpecs(UNKNOWN, SUFFIX_R));
  }

  lemma ForeignRegionUnsafe()
    ensures Greatest(FOREIGN_REGION.funcs, FOREIGN_REGION_HISTORY.first, Elements(["k"]), {})
  {
    var p, first := FOREIGN_REGION, FOREIGN_REGION_HISTORY.first;
    ForeignRegionNodes();
    assert StmtNode(STORE_X) in NodesB(p.funcs["k"].body);
    assert Elements(["k"]) == {"k"};
    forall other | other <= {"k"} && SelfSafe(p.funcs, first, other)
      ensures other <= {}
    {
      UnsafeIsOut(p.funcs, first, other, "k");
    }
  }

  lemma ForeignRegionFunction()
    ensures FunctionDriven(FOREIGN_REGION, FOREIGN_REGION_HISTORY, "k")
  {
    ForeignRegionChecked();
    ForeignRegionFirst();
    ForeignRegionSecond();
    ForeignRegionInitial();
    assert Elements(["k"]) == {"k"};
    DrivenBy(FOREIGN_REGION, FOREIGN_REGION_HISTORY, "k");
  }

  lemma ForeignRegionDriven()
    ensures DrivenTo(FOREIGN_REGION, FOREIGN_REGION_HISTORY) && CheckedEverywhere(FOREIGN_REGION)
  {
    hide FunctionDriven, Greatest;
    ForeignRegionChecked();
    ForeignRegionFunction();
    ForeignRegionUnsafe();
    OneRound(FOREIGN_REGION, FOREIGN_REGION_HISTORY);
  }

  /** The body of k stores an object of region 1 into one of region 0. */
  lemma ForeignRegionBody(o: nat -> nat, st1: State)
    requires st1 == State(map[0 := Obj(0, map[])], {0, 1, 2}, 3, 1, 0)
    ensures
      var env := map["r" := Reg(1), "p" := Ref(0)];
      var st2 := st1.(heap := map[0 := Obj(0, map[]), 1 := Obj(1, map[])], nextLoc := 2);
      ExecAll(FOREIGN_REGION, o, 0, Frame("k", env, 2), st1, FOREIGN_REGION.funcs["k"].body)
      == Done(Next(env["x" := Ref(1)]), Write(0, 0, Ref(1), st2))
  {
    var p := FOREIGN_REGION;
    var env := map["r" := Reg(1), "p" := Ref(0)];
    var fr := Frame("k", env, 2);
    var st2 := st1.(heap := map[0 := Obj(0, map[]), 1 := Obj(1, map[])], nextLoc := 2);
    assert Pointers([]) == map[];
    assert Exec(p, o, 0, fr, st1, MAKE_IN_R) == Done(Next(env["x" := Ref(1)]), st2);
    assert p.funcs["k"].body == [MAKE_IN_R] + [STORE_X];
    ExecCons(p, o, 0, fr, st1, MAKE_IN_R, [STORE_X], env["x" := Ref(1)], st2);
    ForeignRegionStore(o, fr.(env := env["x" := Ref(1)]), st2);
  }

  lemma ForeignRegionStore(o: nat -> nat, fr: Frame, st2: State)
    requires fr == Frame("k", map["r" := Reg(1), "p" := Ref(0), "x" := Ref(1)], 2)
    requires st2 == State(map[0 := Obj(0, map[]), 1 := Obj(1, map[])], {0, 1, 2}, 3, 2, 0)
    ensures ExecAll(FOREIGN_REGION, o, 0, fr, st2, [STORE_X]) == Done(Next(fr.env), Write(0, 0, Ref(1), st2))
  {
    assert Exec(FOREIGN_REGION, o, 0, fr, st2, STORE_X) == Done(Next(fr.env), Write(0, 0, Ref(1), st2));
    ExecLast(FOREIGN_REGION, o, 0, fr, st2, STORE_X, fr.env, Write(0, 0, Ref(1), st2));
  }

  lemma ForeignRegionStart(st: State)
    requires st == State(map[0 := Obj(0, map[])], {0, 1}, 2, 1, 0)
    ensures StateOk(FOREIGN_REGION, st) && ArgsOk(FOREIGN_REGION, OneRegion(0), "k", [Reg(1), Ref(0)], st)
  {
  }

  lemma ForeignRegionBreaks(o: nat -> nat)
    ensures
      var st := State(map[0 := Obj(0, map[])], {0, 1}, 2, 1, 0);
      && StateOk(FOREIGN_REGION, st) && ArgsOk(FOREIGN_REGION, OneRegion(0), "k", [Reg(1), Ref(0)], st)
      && !Confined(Run(FOREIGN_REGION, o, 0, "k", [Reg(1), Ref(0)], st).Final())
  {
    var st := State(map[0 := Obj(0, map[])], {0, 1}, 2, 1, 0);
    ForeignRegionStart(st);
    var env := map["r" := Reg(1), "p" := Ref(0)];
    assert Bind(FOREIGN_REGION.funcs["k"].params, [Reg(1), Ref(0)]) == env;
    assert st.live + {2} == {0, 1, 2} && {0, 1, 2} - {2} == {0, 1};
    var st1 := st.(live := {0, 1, 2}, nextRegion := 3);
    ForeignRegionBody(o, st1);
    var end1 := Write(0, 0, Ref(1), st1.(heap := map[0 := Obj(0, map[]), 1 := Obj(1, map[])], nextLoc := 2));
    RunOf(FOREIGN_REGION, o, 0, "k", [Reg(1), Ref(0)], st, env, Next(env["x" := Ref(1)]), end1);
    var end := Run(FOREIGN_REGION, o, 0, "k", [Reg(1), Ref(0)], st).Final();
    assert LiveLoc(end, 0) && 0 in end.heap[0].fields;
  }

  // ----- a first argument that is a literal is never compared -----

  const A_GETS_B := Store(Var("a"), 0, Var("b"))

  const A_B_SPECS := Specs(map["a" := Of("a"), "b" := Of("b")], NONE, NONE)

  const MAKE_X := Declare("x", Obj0(0))
  const R_AND_X: seq<Expr> := [Obj0(2), Var("x")]
  const CALL_F := Call(1, "f", R_AND_X, false, PrimTy)

  function FirstLiteralSpecs(x: Spec, inR: Spec, call: map<nat, Spec>): Specs {
    Specs(map["r" := IN_R, "x" := x], map[0 := LOCAL, 2 := inR], call)
  }

  /** h(r): x := S{}; f(S{}[r], x) where f(a, b) stores b into a */
  const FIRST_LITERAL := Prog(
    map["f" := FuncDecl([Param("a", CompositeTy, false), Param("b", CompositeTy, false)], [A_GETS_B]),
        "h" := FuncDecl([Param("r", RegionTy, false)], [MAKE_X, Do(CALL_F)])],
    map["f" := A_B_SPECS, "h" := FirstLiteralSpecs(LOCAL, IN_R, map[1 := LOCAL])],
    {},
    map[])

  const FIRST_LITERAL_HISTORY := History(
    ["f", "h"],
    map["f" := A_B_SPECS, "h" := FirstLiteralSpecs(UNKNOWN, SUFFIX_R, NONE)],
    map["f" := A_B_SPECS, "h" := FirstLiteralSpecs(LOCAL, IN_R, NONE)])

  const A_B_NODES: seq<Node> := [StmtNode(A_GETS_B), ExprNode(Var("a")), ExprNode(Var("b"))]

  const FIRST_LITERAL_NODES: seq<Node> :=
    [StmtNode(MAKE_X), ExprNode(Obj0(0)), ExprNode(Var("x")),
     StmtNode(Do(CALL_F)), ExprNode(CALL_F), ExprNode(Obj0(2)), ExprNode(Var("x"))]

  lemma StoreIntoNodes()
    ensures NodesB(FIRST_LITERAL.funcs["f"].body) == A_B_NODES
  {
    NodesOne(A_GETS_B);
  }

  lemma FirstLiteralNodes()
    ensures NodesB(FIRST_LITERAL.funcs["h"].body) == FIRST_LITERAL_NODES
  {
    NodesTwo(MAKE_X, Do(CALL_F));
    NodesPair(Obj0(2), Var("x"));
    assert NodesS(MAKE_X) == [StmtNode(MAKE_X), ExprNode(Obj0(0)), ExprNode(Var("x"))];
    assert NodesE(CALL_F) == [ExprNode(CALL_F), ExprNode(Obj0(2)), ExprNode(Var("x"))];
  }

  /** The call is compared with the second argument only. */
  lemma FirstLiteralCall(S: Specs)
    requires S.tab == map["r" := IN_R, "x" := LOCAL]
    ensures CallArgs(FIRST_LITERAL.funcs, CALL_F) == R_AND_X && Anchor(R_AND_X) == Var("x")
    ensures MarkForeign(S, FIRST_LITERAL.funcs["f"].params, R_AND_X) == S && SameRegion(S, R_AND_X) == Ok((LOCAL, S))
  {
    FirstLiteralCompared();
    assert R_AND_X[1..] == [Var("x")];
    assert MarkForeign(S, FIRST_LITERAL.funcs["f"].params[1..], [Var("x")]) == S;
    assert AlignArgs(S, [Var("x")], LOCAL) == Ok(S);
  }

  lemma FirstLiteralCompared()
    ensures CallArgs(FIRST_LITERAL.funcs, CALL_F) == R_AND_X && Anchor(R_AND_X) == Var("x")
  {
    assert R_AND_X[1..] == [Var("x")] && !R_AND_X[1].Lit?;
    assert FirstNonLiteral(R_AND_X) == FirstNonLiteral([Var("x")]);
    assert AllocatedArgs(FIRST_LITERAL.funcs["f"].params[1..], [Var("x")]) == [Var("x")];
  }

  lemma FirstLiteralNode(nd: Node)
    requires nd in FIRST_LITERAL_NODES
    ensures NodeChecked(FIRST_LITERAL, "h", nd)
  {
    if nd == ExprNode(CALL_F) {
      FirstLiteralCallChecked();
    } else {
      SetSame(FIRST_LITERAL.info["h"], "x");
    }
  }

  lemma FirstLiteralCallChecked()
    ensures NodeChecked(FIRST_LITERAL, "h", ExprNode(CALL_F))
  {
    SetCallSame(FIRST_LITERAL.info["h"], 1);
    FirstLiteralCall(FIRST_LITERAL.info["h"]);
  }

  lemma FirstLiteralCaller()
    ensures FunctionChecked(FIRST_LITERAL, "h")
  {
    FirstLiteralNodes();
    forall nd | nd in NodesB(FIRST_LITERAL.funcs["h"].body)
      ensures NodeChecked(FIRST_LITERAL, "h", nd)
    {
      FirstLiteralNode(nd);
    }
  }

  lemma StoreIntoChecked()
    ensures FunctionChecked(FIRST_LITERAL, "f")
  {
    StoreIntoNodes();
  }

  const BEFORE_CALL: seq<Node> := [StmtNode(MAKE_X), ExprNode(Obj0(0)), ExprNode(Var("x")), StmtNode(Do(CALL_F))]
  const AFTER_CALL: seq<Node> := [ExprNode(Obj0(2)), ExprNode(Var("x"))]

  /** While every function counts as safe, the call is not looked at. */
  lemma FirstLiteralFirst()
    ensures BodyPass(FIRST_LITERAL.funcs, Elements(["f", "h"]), FIRST_LITERAL_HISTORY.start, "h") == Ok(FIRST_LITERAL_HISTORY.first["h"])
  {
    var p, params, all := FIRST_LITERAL, FIRST_LITERAL.funcs["h"].params, Elements(["f", "h"]);
    var S, T := FirstLiteralSpecs(UNKNOWN, SUFFIX_R, NONE), FirstLiteralSpecs(LOCAL, SUFFIX_R, NONE);
    assert S.SetName("x", LOCAL) == T;
    FirstLiteralNodes();
    assert FIRST_LITERAL_NODES == [] + [StmtNode(MAKE_X)] + FIRST_LITERAL_NODES[1..];
    PassVia(p.funcs, all, params, S, [], StmtNode(MAKE_X), FIRST_LITERAL_NODES[1..], T);
    FirstLiteralFilled(all);
  }

  lemma FirstLiteralFilled(all: set<Name>)
    requires "f" in all
    ensures
      Pass(FIRST_LITERAL.funcs, all, FIRST_LITERAL.funcs["h"].params, FirstLiteralSpecs(LOCAL, SUFFIX_R, NONE), FIRST_LITERAL_NODES[1..])
      == Ok(FIRST_LITERAL_HISTORY.first["h"])
  {
    var p, params := FIRST_LITERAL, FIRST_LITERAL.funcs["h"].params;
    var T, U := FirstLiteralSpecs(LOCAL, SUFFIX_R, NONE), FirstLiteralSpecs(LOCAL, IN_R, NONE);
    assert SetAlloc(T, Obj0(2), IN_R) == U;
    var a := [ExprNode(Obj0(0)), ExprNode(Var("x")), StmtNode(Do(CALL_F)), ExprNode(CALL_F)];
    assert FIRST_LITERAL_NODES[1..] == a + [ExprNode(Obj0(2))] + [ExprNode(Var("x"))];
    QuietAroundTwo(p.funcs, all, params, T, a, ExprNode(Obj0(0)), ExprNode(CALL_F));
    QuietUnmoved(p.funcs, all, params, U, [ExprNode(Var("x"))]);
    PassOnce(p.funcs, all, params, T, a, ExprNode(Obj0(2)), [ExprNode(Var("x"))], U);
  }

  lemma FirstLiteralAround(call: map<nat, Spec>)
    ensures Unmoved(FIRST_LITERAL.funcs, {}, FIRST_LITERAL.funcs["h"].params, FirstLiteralSpecs(LOCAL, IN_R, call), BEFORE_CALL)
    ensures Unmoved(FIRST_LITERAL.funcs, {}, FIRST_LITERAL.funcs["h"].params, FirstLiteralSpecs(LOCAL, IN_R, call), AFTER_CALL)
  {
    var p, params, S := FIRST_LITERAL, FIRST_LITERAL.funcs["h"].params, FirstLiteralSpecs(LOCAL, IN_R, call);
    SetSame(S, "x");
    QuietAroundTwo(p.funcs, {}, params, S, BEFORE_CALL, StmtNode(MAKE_X), ExprNode(Obj0(0)));
    QuietAround(p.funcs, {}, params, S, AFTER_CALL, ExprNode(Obj0(2)));
  }

  lemma FirstLiteralVisited()
    ensures
      Visit(FIRST_LITERAL.funcs, {}, FIRST_LITERAL.funcs["h"].params, FIRST_LITERAL_HISTORY.first["h"], ExprNode(CALL_F))
      == Ok(FIRST_LITERAL.info["h"])
  {
    var S := FirstLiteralSpecs(LOCAL, IN_R, NONE);
    assert S.SetCall(1, LOCAL) == FIRST_LITERAL.info["h"];
    FirstLiteralCall(S);
  }

  lemma FirstLiteralSecond()
    ensures BodyPass(FIRST_LITERAL.funcs, {}, FIRST_LITERAL_HISTORY.first, "h") == Ok(FIRST_LITERAL.info["h"])
  {
    var p, S, T := FIRST_LITERAL, FIRST_LITERAL_HISTORY.first["h"], FIRST_LITERAL.info["h"];
    FirstLiteralNodes();
    FirstLiteralVisited();
    FirstLiteralAround(NONE);
    FirstLiteralAround(map[1 := LOCAL]);
    assert FIRST_LITERAL_NODES == BEFORE_CALL + [ExprNode(CALL_F)] + AFTER_CALL;
    PassOnce(p.funcs, {}, p.funcs["h"].params, S, BEFORE_CALL, ExprNode(CALL_F), AFTER_CALL, T);
  }

  lemma FirstLiteralInitial()
    ensures Initial(FIRST_LITERAL.funcs["h"], FirstLiteralSpecs(UNKNOWN, SUFFIX_R, NONE))
  {
    DeclaredTwo(MAKE_X, Do(CALL_F));
    InitialOne(FIRST_LITERAL.funcs["h"], Param("r", RegionTy, false), FirstLiteralSpecs(UNKNOWN, SUFFIX_R, NONE));
  }

  lemma StoreIntoUnsafe()
    ensures NeverSafe(FIRST_LITERAL.funcs, A_B_SPECS, FIRST_LITERAL.funcs["f"].body)
  {
    StoreIntoNodes();
    assert StmtNode(A_GETS_B) in NodesB(FIRST_LITERAL.funcs["f"].body);
  }

  lemma FirstLiteralUnsafe()
    ensures Greatest(FIRST_LITERAL.funcs, FIRST_LITERAL_HISTORY.first, Elements(["f", "h"]), {})
  {
    hide NeverSafe;
    var p, first := FIRST_LITERAL, FIRST_LITERAL_HISTORY.first;
    StoreIntoUnsafe();
    FirstLiteralNodes();
    assert Elements(["f", "h"]) == {"f", "h"};
    assert ExprNode(CALL_F) in NodesB(p.funcs["h"].body);
    forall other | other <= {"f", "h"} && SelfSafe(p.funcs, first, other)
      ensures other <= {}
    {
      UnsafeIsOut(p.funcs, first, other, "f");
      CallerIsOut(p.funcs, first, other, "h", CALL_F);
    }
  }

  lemma StoreIntoFirst()
    ensures BodyPass(FIRST_LITERAL.funcs, Elements(["f", "h"]), FIRST_LITERAL_HISTORY.start, "f") == Ok(A_B_SPECS)
  {
    var p := FIRST_LITERAL;
    StoreIntoNodes();
    QuietAround(p.funcs, Elements(["f", "h"]), p.funcs["f"].params, A_B_SPECS, A_B_NODES, StmtNode(A_GETS_B));
    PassUnmoved(p.funcs, Elements(["f", "h"]), p.funcs["f"].params, A_B_SPECS, A_B_NODES);
  }

  lemma StoreIntoDriven()
    ensures FunctionDriven(FIRST_LITERAL, FIRST_LITERAL_HISTORY, "f")
  {
    StoreIntoChecked();
    StoreIntoFirst();
    InitialTwo(FIRST_LITERAL.funcs["f"], Param("a", CompositeTy, false), Param("b", CompositeTy, false), A_B_SPECS);
    DrivenBy(FIRST_LITERAL, FIRST_LITERAL_HISTORY, "f");
  }

  lemma FirstLiteralCallerDriven()
    ensures FunctionDriven(FIRST_LITERAL, FIRST_LITERAL_HISTORY, "h")
  {
    FirstLiteralCaller();
    FirstLiteralFirst();
    FirstLiteralSecond();
    FirstLiteralInitial();
    DrivenBy(FIRST_LITERAL, FIRST_LITERAL_HISTORY, "h");
  }

  lemma FirstLiteralAccepted()
    ensures DrivenTo(FIRST_LITERAL, FIRST_LITERAL_HISTORY)
  {
    hide FunctionDriven, Greatest;
    StoreIntoDriven();
    FirstLiteralCallerDriven();
    FirstLiteralUnsafe();
    OneRound(FIRST_LITERAL, FIRST_LITERAL_HISTORY);
  }

  lemma FirstLiteralDriven()
    ensures DrivenTo(FIRST_LITERAL, FIRST_LITERAL_HISTORY) && CheckedEverywhere(FIRST_LITERAL)
  {
    FirstLiteralAccepted();
    StoreIntoChecked();
    FirstLiteralCaller();
  }

  lemma FirstLiteralStore(o: nat -> nat, st: State)
    requires st == State(map[0 := Obj(1, map[]), 1 := Obj(0, map[])], {0, 1}, 2, 2, 0)
    ensures
      Run(FIRST_LITERAL, o, 0, "f", [Ref(1), Ref(0)], st)
      == Done(NoVal, State(map[0 := Obj(1, map[]), 1 := Obj(0, map[0 := 0])], {0, 1}, 3, 2, 0))
  {
    var p := FIRST_LITERAL;
    var env := map["a" := Ref(1), "b" := Ref(0)];
    assert Bind(p.funcs["f"].params, [Ref(1), Ref(0)]) == env;
    var fr := Frame("f", env, 2);
    assert st.live + {2} == {0, 1, 2} && {0, 1, 2} - {2} == {0, 1};
    var st1 := st.(live := {0, 1, 2}, nextRegion := 3);
    var st2 := st1.(heap := map[0 := Obj(1, map[]), 1 := Obj(0, map[0 := 0])]);
    assert Write(1, 0, Ref(0), st1) == st2;
    assert Exec(p, o, 0, fr, st1, A_GETS_B) == Done(Next(env), st2);
    ExecLast(p, o, 0, fr, st1, A_GETS_B, env, st2);
    RunOf(p, o, 0, "f", [Ref(1), Ref(0)], st, env, Next(env), st2);
  }

  lemma FirstLiteralArgs(o: nat -> nat, fr: Frame, st2: State)
    requires fr == Frame("h", map["r" := Reg(0), "x" := Ref(0)], 1) && st2 == State(map[0 := Obj(1, map[])], {0, 1}, 2, 1, 0)
    ensures
      EvalAll(FIRST_LITERAL, o, 1, fr, st2, R_AND_X)
      == Done([Ref(1), Ref(0)], st2.(heap := map[0 := Obj(1, map[]), 1 := Obj(0, map[])], nextLoc := 2))
  {
    var p := FIRST_LITERAL;
    var st3 := st2.(heap := map[0 := Obj(1, map[]), 1 := Obj(0, map[])], nextLoc := 2);
    assert Pointers([]) == map[];
    assert Eval(p, o, 1, fr, st2, Obj0(2)) == Done(Ref(1), st3);
    EvalLast(p, o, 1, fr, st3, Var("x"), Ref(0), st3);
    EvalCons(p, o, 1, fr, st2, Obj0(2), [Var("x")], Ref(1), st3);
    assert [Obj0(2)] + [Var("x")] == R_AND_X && [Ref(1)] + [Ref(0)] == [Ref(1), Ref(0)];
  }

  lemma FirstLiteralDo(o: nat -> nat, fr: Frame, st2: State)
    requires fr == Frame("h", map["r" := Reg(0), "x" := Ref(0)], 1) && st2 == State(map[0 := Obj(1, map[])], {0, 1}, 2, 1, 0)
    ensures
      Exec(FIRST_LITERAL, o, 1, fr, st2, Do(CALL_F))
      == Done(Next(fr.env), State(map[0 := Obj(1, map[]), 1 := Obj(0, map[0 := 0])], {0, 1}, 3, 2, 0))
  {
    FirstLiteralArgs(o, fr, st2);
    FirstLiteralStore(o, State(map[0 := Obj(1, map[]), 1 := Obj(0, map[])], {0, 1}, 2, 2, 0));
    assert Eval(FIRST_LITERAL, o, 1, fr, st2, CALL_F)
      == Done(NoVal, State(map[0 := Obj(1, map[]), 1 := Obj(0, map[0 := 0])], {0, 1}, 3, 2, 0));
  }

  lemma FirstLiteralDeclare(o: nat -> nat, fr: Frame)
    requires fr == Frame("h", map["r" := Reg(0)], 1)
    ensures
      Exec(FIRST_LITERAL, o, 1, fr, State(map[], {0, 1}, 2, 0, 0), MAKE_X)
        == Done(Next(fr.env["x" := Ref(0)]), State(map[0 := Obj(1, map[])], {0, 1}, 2, 1, 0))
  {
    assert Pointers([]) == map[];
  }

  lemma FirstLiteralBody(o: nat -> nat, fr: Frame)
    requires fr == Frame("h", map["r" := Reg(0)], 1)
    ensures
      ExecAll(FIRST_LITERAL, o, 1, fr, State(map[], {0, 1}, 2, 0, 0), [MAKE_X, Do(CALL_F)])
      == Done(Next(fr.env["x" := Ref(0)]), State(map[0 := Obj(1, map[]), 1 := Obj(0, map[0 := 0])], {0, 1}, 3, 2, 0))
  {
    var p := FIRST_LITERAL;
    var env := fr.env["x" := Ref(0)];
    var st2 := State(map[0 := Obj(1, map[])], {0, 1}, 2, 1, 0);
    FirstLiteralDeclare(o, fr);
    assert [MAKE_X] + [Do(CALL_F)] == [MAKE_X, Do(CALL_F)];
    ExecCons(p, o, 1, fr, State(map[], {0, 1}, 2, 0, 0), MAKE_X, [Do(CALL_F)], env, st2);
    FirstLiteralDo(o, fr.(env := env), st2);
    ExecLast(p, o, 1, fr.(env := env), st2, Do(CALL_F), env,
             State(map[0 := Obj(1, map[]), 1 := Obj(0, map[0 := 0])], {0, 1}, 3, 2, 0));
  }

  lemma FirstLiteralBreaks(o: nat -> nat)
    ensures
      && StateOk(FIRST_LITERAL, INITIAL) && ArgsOk(FIRST_LITERAL, OneRegion(GLOBAL_REGION), "h", [Reg(GLOBAL_REGION)], INITIAL)
      && !Confined(Run(FIRST_LITERAL, o, 1, "h", [Reg(GLOBAL_REGION)], INITIAL).Final())
  {
    var env := map["r" := Reg(0)];
    assert Bind(FIRST_LITERAL.funcs["h"].params, [Reg(0)]) == env;
    FirstLiteralBody(o, Frame("h", env, 1));
    assert INITIAL.live + {1} == {0, 1} && {0, 1} - {1} == {0};
    var st := State(map[0 := Obj(1, map[]), 1 := Obj(0, map[0 := 0])], {0, 1}, 3, 2, 0);
    RunOf(FIRST_LITERAL, o, 1, "h", [Reg(0)], INITIAL, env, Next(env["x" := Ref(0)]), st);
    var end := Run(FIRST_LITERAL, o, 1, "h", [Reg(0)], INITIAL).Final();
    assert LiveLoc(end, 1) && 0 in end.heap[1].fields;
  }
}
