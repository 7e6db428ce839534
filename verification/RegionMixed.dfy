/** Containers that mix regions: the documented exception for `foreign` parameters, which
    costs strict confinement only, and two ways out of it that the checker does not close. */
module RegionMixed {
  import opened RegionSyntax
  import opened RegionCheck
  import opened RegionSemantics
  import opened RegionAccepted
  import opened RegionPasses
  import opened RegionSoundness
  import opened RegionStart
  import opened RegionTraces
  import opened Collections
  import opened Results

  // ----- a caller that makes a temporary mixed container -----

  const K_PARAMS: seq<Param> := [Param("v", CompositeTy, true), Param("q", CompositeTy, false)]
  const MIXED := Lit(VecLit, 2, [Var("p")])
  const GIVE_ARGS: seq<Expr> := [MIXED, Var("p")]
  const GIVE := Call(1, "k", GIVE_ARGS, false, CompositeTy)

  /** h(p): k([p], p) where k(foreign v, q) */
  const GIVER := FuncDecl([Param("p", CompositeTy, false)], [Do(GIVE)])

  const CROSS_LOCAL := Spec(LocalKind, CrossSrc, "")

  const GIVER_START := Specs(map["p" := Of("p")], map[2 := LOCAL], NONE)

  const GIVER_SPECS := Specs(map["p" := Of("p")], map[2 := CROSS_LOCAL], map[1 := Of("p")])

  const GIVER_NODES: seq<Node> := [StmtNode(Do(GIVE)), ExprNode(GIVE), ExprNode(MIXED), ExprNode(Var("p")), ExprNode(Var("p"))]

  const FOREIGN_V := Specs(map["v" := Spec(ContainerKind, CrossSrc, "v"), "q" := Of("q")], NONE, NONE)

  /** h is one of the functions, and k is not region-safe. */
  ghost predicate Gives(p: Prog) {
    && "h" in p.funcs && p.funcs["h"] == GIVER && "k" in p.funcs && p.funcs["k"].params == K_PARAMS
    && "h" in p.info && p.info["h"] == GIVER_SPECS && "k" !in p.safe && "h" !in p.safe
  }

  lemma GiverNodes()
    ensures NodesB(GIVER.body) == GIVER_NODES
  {
    NodesOne(Do(GIVE));
    NodesPair(MIXED, Var("p"));
    assert NodesEs([Var("p")]) == [ExprNode(Var("p"))];
    assert NodesE(MIXED) == [ExprNode(MIXED), ExprNode(Var("p"))];
    assert NodesE(GIVE) == [ExprNode(GIVE)] + NodesEs(GIVE_ARGS);
  }

  /** The container is marked, the other argument is compared with nothing. */
  lemma GiverCall(p: Prog, S: Specs)
    requires Gives(p) && S.tab == map["p" := Of("p")] && S.lit.Keys == {2}
    requires S.lit[2] == LOCAL || S.lit[2] == CROSS_LOCAL
    ensures CallArgs(p.funcs, GIVE) == [Var("p")]
    ensures MarkForeign(S, K_PARAMS, GIVE_ARGS) == S.SetLit(2, CROSS_LOCAL)
    ensures forall T: Specs :: T.tab == S.tab ==> SameRegion(T, [Var("p")]) == Ok((Of("p"), T))
  {
    assert GIVE_ARGS[1..] == [Var("p")];
    assert AllocatedArgs(K_PARAMS[1..], [Var("p")]) == [Var("p")];
    assert forall T: Specs :: MarkForeign(T, K_PARAMS[1..], [Var("p")]) == T;
    assert S.lit[2] != LOCAL ==> S.lit[2 := S.lit[2]] == S.lit;
    assert FirstNonLiteral([Var("p")]) == Var("p");
  }

  lemma GiverNode(p: Prog, nd: Node)
    requires Gives(p) && nd in GIVER_NODES
    ensures NodeChecked(p, "h", nd)
  {
    if nd == ExprNode(GIVE) {
      GiveChecked(p);
    }
  }

  lemma GiveChecked(p: Prog)
    requires Gives(p)
    ensures NodeChecked(p, "h", ExprNode(GIVE))
  {
    GiverCall(p, GIVER_SPECS);
    assert GIVER_SPECS.SetLit(2, CROSS_LOCAL) == GIVER_SPECS by {
      assert GIVER_SPECS.lit[2 := CROSS_LOCAL] == GIVER_SPECS.lit;
    }
    SetCallSame(GIVER_SPECS, 1);
  }

  lemma GiverChecked(p: Prog)
    requires Gives(p)
    ensures FunctionChecked(p, "h")
  {
    GiverNodes();
    forall nd | nd in NodesB(p.funcs["h"].body)
      ensures NodeChecked(p, "h", nd)
    {
      GiverNode(p, nd);
    }
  }

  lemma GiverFirst(p: Prog, all: set<Name>)
    requires Gives(p) && "k" in all
    ensures Pass(p.funcs, all, GIVER.params, GIVER_START, NodesB(GIVER.body)) == Ok(GIVER_START)
  {
    GiverNodes();
    QuietAroundTwo(p.funcs, all, GIVER.params, GIVER_START, GIVER_NODES, ExprNode(GIVE), ExprNode(MIXED));
    PassUnmoved(p.funcs, all, GIVER.params, GIVER_START, GIVER_NODES);
  }

  lemma GiveVisited(p: Prog)
    requires Gives(p)
    ensures Visit(p.funcs, p.safe, GIVER.params, GIVER_START, ExprNode(GIVE)) == Ok(GIVER_SPECS)
  {
    GiverCall(p, GIVER_START);
    assert GIVER_START.SetLit(2, CROSS_LOCAL).SetCall(1, Of("p")) == GIVER_SPECS by {
      assert map[2 := LOCAL][2 := CROSS_LOCAL] == map[2 := CROSS_LOCAL];
    }
  }

  lemma GiverSecond(p: Prog)
    requires Gives(p)
    ensures Pass(p.funcs, p.safe, GIVER.params, GIVER_START, NodesB(GIVER.body)) == Ok(GIVER_SPECS)
  {
    GiverNodes();
    GiveVisited(p);
    var rest := [ExprNode(MIXED), ExprNode(Var("p")), ExprNode(Var("p"))];
    assert GIVER_NODES == [StmtNode(Do(GIVE))] + [ExprNode(GIVE)] + rest;
    QuietUnmoved(p.funcs, p.safe, GIVER.params, GIVER_START, [StmtNode(Do(GIVE))]);
    QuietAround(p.funcs, p.safe, GIVER.params, GIVER_SPECS, rest, ExprNode(MIXED));
    PassOnce(p.funcs, p.safe, GIVER.params, GIVER_START, [StmtNode(Do(GIVE))], ExprNode(GIVE), rest, GIVER_SPECS);
  }

  lemma GiverDriven(p: Prog, r: History)
    requires Gives(p) && "k" in r.order && "h" in r.start && "h" in r.first && r.start["h"] == GIVER_START == r.first["h"]
    ensures FunctionDriven(p, r, "h")
  {
    GiverChecked(p);
    GiverFirst(p, Elements(r.order));
    GiverSecond(p);
    InitialOne(GIVER, Param("p", CompositeTy, false), GIVER_START);
    DrivenBy(p, r, "h");
  }

  /** The container is local, its element is not. */
  lemma GiverUnsafe(funcs: Funcs)
    ensures NeverSafe(funcs, GIVER_START, GIVER.body)
  {
    GiverNodes();
    assert ExprNode(MIXED) in NodesB(GIVER.body) && Var("p") in MIXED.elems;
    assert forall safe :: !SafeNode(funcs, safe, GIVER_START, ExprNode(MIXED));
  }

  lemma GiverArgs(p: Prog, o: nat -> nat, fuel: nat, fr: Frame, st1: State)
    requires Gives(p) && fr == Frame("h", map["p" := Ref(0)], 1) && st1 == State(map[0 := Obj(0, map[])], {0, 1}, 2, 1, 0)
    ensures
      EvalAll(p, o, fuel, fr, st1, GIVE_ARGS)
      == Done([Ref(1), Ref(0)], State(map[0 := Obj(0, map[]), 1 := Obj(1, map[0 := 0], true)], {0, 1}, 2, 2, 0))
  {
    var st2 := State(map[0 := Obj(0, map[]), 1 := Obj(1, map[0 := 0], true)], {0, 1}, 2, 2, 0);
    EvalLast(p, o, fuel, fr, st1, Var("p"), Ref(0), st1);
    assert Var("p") in MIXED.elems && Pointers([Ref(0)]) == map[0 := 0];
    assert Eval(p, o, fuel, fr, st1, MIXED) == Done(Ref(1), st2);
    EvalLast(p, o, fuel, fr, st2, Var("p"), Ref(0), st2);
    EvalCons(p, o, fuel, fr, st1, MIXED, [Var("p")], Ref(1), st2);
    assert [MIXED] + [Var("p")] == GIVE_ARGS && [Ref(1)] + [Ref(0)] == [Ref(1), Ref(0)];
  }

  // ----- the documented exception: confinement gives way, safety does not -----

  const RETURN_Q := Return(Var("q"))

  /** k(foreign v, q): return q */
  const MIXED_CONTAINER := Prog(
    map["k" := FuncDecl(K_PARAMS, [RETURN_Q]), "h" := GIVER], map["k" := FOREIGN_V, "h" := GIVER_SPECS], {}, map[])

  const MIXED_HISTORY := History(
    ["k", "h"], map["k" := FOREIGN_V, "h" := GIVER_START], map["k" := FOREIGN_V, "h" := GIVER_START])

  const RETURN_NODES: seq<Node> := [StmtNode(RETURN_Q), ExprNode(Var("q"))]

  lemma MixedContainerNodes()
    ensures NodesB(MIXED_CONTAINER.funcs["k"].body) == RETURN_NODES
  {
    NodesOne(RETURN_Q);
  }

  lemma MixedContainerCallee()
    ensures FunctionChecked(MIXED_CONTAINER, "k")
  {
    MixedContainerNodes();
  }

  lemma ForeignTable(f: FuncDecl)
    requires f.params == K_PARAMS && DeclaredB(f.body) == []
    ensures Initial(f, FOREIGN_V)
  {
    InitialTwo(f, K_PARAMS[0], K_PARAMS[1], FOREIGN_V);
  }

  lemma ReturnFirst(funcs: Funcs, all: set<Name>)
    ensures Pass(funcs, all, K_PARAMS, FOREIGN_V, RETURN_NODES) == Ok(FOREIGN_V)
  {
    QuietAround(funcs, all, K_PARAMS, FOREIGN_V, RETURN_NODES, StmtNode(RETURN_Q));
    PassUnmoved(funcs, all, K_PARAMS, FOREIGN_V, RETURN_NODES);
  }

  lemma MixedContainerCalleeDriven()
    ensures FunctionDriven(MIXED_CONTAINER, MIXED_HISTORY, "k")
  {
    MixedContainerCallee();
    MixedContainerNodes();
    ReturnFirst(MIXED_CONTAINER.funcs, Elements(["k", "h"]));
    ForeignTable(MIXED_CONTAINER.funcs["k"]);
    DrivenBy(MIXED_CONTAINER, MIXED_HISTORY, "k");
  }

  lemma MixedContainerUnsafe()
    ensures Greatest(MIXED_CONTAINER.funcs, MIXED_HISTORY.first, Elements(["k", "h"]), {})
  {
    var p, first := MIXED_CONTAINER, MIXED_HISTORY.first;
    MixedContainerNodes();
    assert StmtNode(RETURN_Q) in NodesB(p.funcs["k"].body);
    GiverUnsafe(p.funcs);
    assert Elements(["k", "h"]) == {"k", "h"};
    forall other | other <= {"k", "h"} && SelfSafe(p.funcs, first, other)
      ensures other <= {}
    {
      UnsafeIsOut(p.funcs, first, other, "k");
      UnsafeIsOut(p.funcs, first, other, "h");
    }
  }

  lemma MixedContainerAccepted()
    ensures DrivenTo(MIXED_CONTAINER, MIXED_HISTORY)
  {
    hide FunctionDriven, Greatest;
    MixedContainerCalleeDriven();
    GiverDriven(MIXED_CONTAINER, MIXED_HISTORY);
    MixedContainerUnsafe();
    OneRound(MIXED_CONTAINER, MIXED_HISTORY);
  }

  lemma MixedContainerDriven()
    ensures DrivenTo(MIXED_CONTAINER, MIXED_HISTORY) && CheckedEverywhere(MIXED_CONTAINER)
  {
    MixedContainerAccepted();
    MixedContainerCallee();
    GiverChecked(MIXED_CONTAINER);
  }

  lemma MixedContainerMixes()
    ensures Mixing(MIXED_CONTAINER)
  {
    GiverNodes();
    assert ExprNode(MIXED) in NodesB(MIXED_CONTAINER.funcs["h"].body) && Var("p") in MIXED.elems;
    assert MixingNode(MIXED_CONTAINER.info["h"], ExprNode(MIXED));
  }

  lemma MixedContainerNodeInFragment(nd: Node)
    requires nd in GIVER_NODES
    ensures InFragment(MIXED_CONTAINER, "h", nd)
  {
    MixedContainerMixes();
    if nd == ExprNode(GIVE) {
      GiverCall(MIXED_CONTAINER, GIVER_SPECS);
      assert GIVE_ARGS[1] == Var("p") && SpecOf(GIVER_SPECS, Var("p")) == Of("p");
    }
  }

  lemma MixedContainerReturn()
    ensures forall nd :: nd in NodesB(MIXED_CONTAINER.funcs["k"].body) ==> InFragment(MIXED_CONTAINER, "k", nd)
  {
    MixedContainerNodes();
  }

  /** The exception is part of the fragment: the soundness theorem covers it. */
  lemma MixedContainerInFragment()
    ensures Mixing(MIXED_CONTAINER)
    ensures forall fn, nd :: fn in MIXED_CONTAINER.funcs && nd in NodesB(MIXED_CONTAINER.funcs[fn].body) ==>
      InFragment(MIXED_CONTAINER, fn, nd)
  {
    MixedContainerMixes();
    GiverNodes();
    MixedContainerReturn();
    forall nd | nd in NodesB(MIXED_CONTAINER.funcs["h"].body)
      ensures InFragment(MIXED_CONTAINER, "h", nd)
    {
      MixedContainerNodeInFragment(nd);
    }
  }

  /** The run is cut off at the call, while the temporary vector is alive. */
  lemma MixedContainerRun(o: nat -> nat, st: State)
    requires st == State(map[0 := Obj(0, map[])], {0}, 1, 1, 0)
    ensures
      Run(MIXED_CONTAINER, o, 0, "h", [Ref(0)], st)
      == Halt(OutOfFuel, State(map[0 := Obj(0, map[]), 1 := Obj(1, map[0 := 0], true)], {0, 1}, 2, 2, 0))
  {
    var p, env := MIXED_CONTAINER, map["p" := Ref(0)];
    assert Bind(p.funcs["h"].params, [Ref(0)]) == env;
    var st2 := State(map[0 := Obj(0, map[]), 1 := Obj(1, map[0 := 0], true)], {0, 1}, 2, 2, 0);
    assert st.live + {1} == {0, 1};
    GiverArgs(p, o, 0, Frame("h", env, 1), st.(live := {0, 1}, nextRegion := 2));
    assert Exec(p, o, 0, Frame("h", env, 1), st.(live := {0, 1}, nextRegion := 2), Do(GIVE)) == Halt(OutOfFuel, st2);
  }

  lemma MixedContainerUnconfined(o: nat -> nat)
    ensures
      var st := State(map[0 := Obj(0, map[])], {0}, 1, 1, 0);
      var out := Run(MIXED_CONTAINER, o, 0, "h", [Ref(0)], st);
      && StateOk(MIXED_CONTAINER, st) && ArgsOk(MIXED_CONTAINER, OneRegion(0), "h", [Ref(0)], st)
      && !Confined(out.Final()) && Sheltered(out.Final())
  {
    var st := State(map[0 := Obj(0, map[])], {0}, 1, 1, 0);
    MixedContainerRun(o, st);
    var end := Run(MIXED_CONTAINER, o, 0, "h", [Ref(0)], st).Final();
    assert LiveLoc(end, 1) && 0 in end.heap[1].fields;
  }

  // ----- a mixed container handed on to an ordinary parameter -----

  const GIVEN := Store(Var("w"), 0, Obj0(0))
  const TAKEN := Declare("w", Part(Var("v"), 0, CompositeTy))
  const HAND_ON := Call(3, "g", [Var("v")], false, PrimTy)

  function TakerSpecs(w: Spec, given: Spec): Specs {
    Specs(map["v" := Of("v"), "w" := w], map[0 := given], NONE)
  }

  /** k(foreign v, q): g(v); return q        g(v): w := v[0]; w.f = T{}[.v] */
  const HANDED_ON := Prog(
    map["g" := FuncDecl([Param("v", CompositeTy, false)], [TAKEN, GIVEN]),
        "k" := FuncDecl(K_PARAMS, [Do(HAND_ON), RETURN_Q]),
        "h" := GIVER],
    map["g" := TakerSpecs(Of("v"), Of("v")), "k" := FOREIGN_V, "h" := GIVER_SPECS],
    {"g"},
    map[])

  const HANDED_HISTORY := History(
    ["g", "k", "h"],
    map["g" := TakerSpecs(UNKNOWN, SuffixOf("v")), "k" := FOREIGN_V, "h" := GIVER_START],
    map["g" := TakerSpecs(Of("v"), Of("v")), "k" := FOREIGN_V, "h" := GIVER_START])

  const TAKER_NODES: seq<Node> :=
    [StmtNode(TAKEN), ExprNode(TAKEN.e), ExprNode(Var("v")), ExprNode(Var("w")), StmtNode(GIVEN), ExprNode(Var("w")), ExprNode(Obj0(0))]

  const HANDER_NODES: seq<Node> :=
    [StmtNode(Do(HAND_ON)), ExprNode(HAND_ON), ExprNode(Var("v")), StmtNode(RETURN_Q), ExprNode(Var("q"))]

  lemma HandedOnGNodes()
    ensures NodesB(HANDED_ON.funcs["g"].body) == TAKER_NODES
  {
    NodesTwo(TAKEN, GIVEN);
    assert NodesS(TAKEN) == [StmtNode(TAKEN), ExprNode(TAKEN.e), ExprNode(Var("v")), ExprNode(Var("w"))];
    assert NodesS(GIVEN) == [StmtNode(GIVEN), ExprNode(Var("w")), ExprNode(Obj0(0))];
  }

  lemma HandedOnGNode(nd: Node)
    requires nd in TAKER_NODES
    ensures NodeChecked(HANDED_ON, "g", nd)
  {
    if nd == StmtNode(TAKEN) {
      TakenChecked();
    } else if nd == StmtNode(GIVEN) {
      GivenChecked();
    }
  }

  lemma TakenChecked()
    ensures NodeChecked(HANDED_ON, "g", StmtNode(TAKEN))
  {
    SetSame(HANDED_ON.info["g"], "w");
    assert GetSpec(HANDED_ON.info["g"], TAKEN.e) == Ok((Of("v"), HANDED_ON.info["g"]));
  }

  lemma GivenChecked()
    ensures NodeChecked(HANDED_ON, "g", StmtNode(GIVEN))
  {
    assert GetSpec(HANDED_ON.info["g"], Var("w")) == Ok((Of("v"), HANDED_ON.info["g"]));
    assert GetSpec(HANDED_ON.info["g"], Obj0(0)) == Ok((Of("v"), HANDED_ON.info["g"]));
  }

  lemma HandedOnG()
    ensures FunctionChecked(HANDED_ON, "g")
  {
    HandedOnGNodes();
    forall nd | nd in NodesB(HANDED_ON.funcs["g"].body)
      ensures NodeChecked(HANDED_ON, "g", nd)
    {
      HandedOnGNode(nd);
    }
  }

  lemma HandedOnKNodes()
    ensures NodesB(HANDED_ON.funcs["k"].body) == HANDER_NODES
  {
    NodesTwo(Do(HAND_ON), RETURN_Q);
    assert NodesEs([Var("v")]) == [ExprNode(Var("v"))];
    assert NodesS(Do(HAND_ON)) == [StmtNode(Do(HAND_ON)), ExprNode(HAND_ON), ExprNode(Var("v"))];
    assert NodesS(RETURN_Q) == [StmtNode(RETURN_Q), ExprNode(Var("q"))];
  }

  /** The only argument of an ordinary parameter is compared with nothing. */
  lemma HandedOnKNode(nd: Node)
    requires nd in HANDER_NODES
    ensures NodeChecked(HANDED_ON, "k", nd)
  {
  }

  lemma HandedOnK()
    ensures FunctionChecked(HANDED_ON, "k")
  {
    HandedOnKNodes();
    forall nd | nd in NodesB(HANDED_ON.funcs["k"].body)
      ensures NodeChecked(HANDED_ON, "k", nd)
    {
      HandedOnKNode(nd);
    }
  }

  lemma HandedOnGFirst(all: set<Name>)
    ensures Pass(HANDED_ON.funcs, all, HANDED_ON.funcs["g"].params, HANDED_HISTORY.start["g"], TAKER_NODES) == Ok(HANDED_HISTORY.first["g"])
  {
    var p, params := HANDED_ON, HANDED_ON.funcs["g"].params;
    var S, T := TakerSpecs(UNKNOWN, SuffixOf("v")), TakerSpecs(Of("v"), SuffixOf("v"));
    assert S.SetName("w", Of("v")) == T;
    assert TAKER_NODES == [] + [StmtNode(TAKEN)] + TAKER_NODES[1..];
    PassVia(p.funcs, all, params, S, [], StmtNode(TAKEN), TAKER_NODES[1..], T);
    HandedOnGFilled(all);
  }

  lemma GivenFilled(all: set<Name>)
    ensures
      Visit(HANDED_ON.funcs, all, HANDED_ON.funcs["g"].params, TakerSpecs(Of("v"), SuffixOf("v")), ExprNode(Obj0(0)))
      == Ok(TakerSpecs(Of("v"), Of("v")))
  {
    assert SetAlloc(TakerSpecs(Of("v"), SuffixOf("v")), Obj0(0), Of("v")) == TakerSpecs(Of("v"), Of("v"));
  }

  /** Before the region of its literal is known, the store compares nothing. */
  lemma GivenKept(all: set<Name>)
    ensures
      Visit(HANDED_ON.funcs, all, HANDED_ON.funcs["g"].params, TakerSpecs(Of("v"), SuffixOf("v")), StmtNode(GIVEN))
      == Ok(TakerSpecs(Of("v"), SuffixOf("v")))
  {
  }

  lemma HandedOnGFilled(all: set<Name>)
    ensures
      Pass(HANDED_ON.funcs, all, HANDED_ON.funcs["g"].params, TakerSpecs(Of("v"), SuffixOf("v")), TAKER_NODES[1..])
      == Ok(TakerSpecs(Of("v"), Of("v")))
  {
    var p, params := HANDED_ON, HANDED_ON.funcs["g"].params;
    var T, U := TakerSpecs(Of("v"), SuffixOf("v")), TakerSpecs(Of("v"), Of("v"));
    GivenFilled(all);
    GivenKept(all);
    var rest := [ExprNode(TAKEN.e), ExprNode(Var("v")), ExprNode(Var("w")), StmtNode(GIVEN), ExprNode(Var("w"))];
    assert TAKER_NODES[1..] == rest + [ExprNode(Obj0(0))] + [];
    QuietAround(p.funcs, all, params, T, rest, StmtNode(GIVEN));
    PassOnce(p.funcs, all, params, T, rest, ExprNode(Obj0(0)), [], U);
  }

  lemma HandedOnGInitial()
    ensures Initial(HANDED_ON.funcs["g"], HANDED_HISTORY.start["g"])
  {
    DeclaredTwo(TAKEN, GIVEN);
    InitialOne(HANDED_ON.funcs["g"], Param("v", CompositeTy, false), HANDED_HISTORY.start["g"]);
  }

  lemma HandedOnGDriven()
    ensures FunctionDriven(HANDED_ON, HANDED_HISTORY, "g")
  {
    HandedOnG();
    HandedOnGNodes();
    HandedOnGFirst(Elements(HANDED_HISTORY.order));
    HandedOnGInitial();
    DrivenBy(HANDED_ON, HANDED_HISTORY, "g");
  }

  lemma HandedOnKFirst(all: set<Name>)
    requires "g" in all
    ensures Pass(HANDED_ON.funcs, all, K_PARAMS, FOREIGN_V, HANDER_NODES) == Ok(FOREIGN_V)
  {
    QuietAroundTwo(HANDED_ON.funcs, all, K_PARAMS, FOREIGN_V, HANDER_NODES, ExprNode(HAND_ON), StmtNode(RETURN_Q));
    PassUnmoved(HANDED_ON.funcs, all, K_PARAMS, FOREIGN_V, HANDER_NODES);
  }

  lemma HandedOnKDriven()
    ensures FunctionDriven(HANDED_ON, HANDED_HISTORY, "k")
  {
    HandedOnK();
    HandedOnKNodes();
    HandedOnKFirst(Elements(HANDED_HISTORY.order));
    DeclaredTwo(Do(HAND_ON), RETURN_Q);
    ForeignTable(HANDED_ON.funcs["k"]);
    DrivenBy(HANDED_ON, HANDED_HISTORY, "k");
  }

  lemma HanderUnsafe()
    ensures NeverSafe(HANDED_ON.funcs, FOREIGN_V, HANDED_ON.funcs["k"].body)
  {
    HandedOnKNodes();
    assert StmtNode(RETURN_Q) in NodesB(HANDED_ON.funcs["k"].body);
  }

  lemma HandedOnClassified()
    ensures Greatest(HANDED_ON.funcs, HANDED_HISTORY.first, Elements(["g", "k", "h"]), {"g"})
  {
    hide NeverSafe, SafeBody;
    var p, first := HANDED_ON, HANDED_HISTORY.first;
    HanderUnsafe();
    GiverUnsafe(p.funcs);
    assert Elements(["g", "k", "h"]) == {"g", "k", "h"};
    forall other | other <= {"g", "k", "h"} && SelfSafe(p.funcs, first, other)
      ensures other <= {"g"}
    {
      UnsafeIsOut(p.funcs, first, other, "k");
      UnsafeIsOut(p.funcs, first, other, "h");
    }
    HandedOnGSafe();
  }

  lemma HandedOnGSafe()
    ensures SafeBody(HANDED_ON.funcs, {"g"}, HANDED_ON.info["g"], HANDED_ON.funcs["g"].body)
  {
    HandedOnG();
    forall nd | nd in NodesB(HANDED_ON.funcs["g"].body)
      ensures SafeNode(HANDED_ON.funcs, {"g"}, HANDED_ON.info["g"], nd)
    {
      assert NodeChecked(HANDED_ON, "g", nd);
    }
  }

  lemma HandedOnAccepted()
    ensures DrivenTo(HANDED_ON, HANDED_HISTORY)
  {
    hide FunctionDriven, Greatest, DrivenTo;
    HandedOnGDriven();
    HandedOnKDriven();
    GiverDriven(HANDED_ON, HANDED_HISTORY);
    HandedOnClassified();
    OneRound(HANDED_ON, HANDED_HISTORY);
  }

  lemma HandedOnDriven()
    ensures DrivenTo(HANDED_ON, HANDED_HISTORY) && CheckedEverywhere(HANDED_ON)
  {
    hide DrivenTo, FunctionChecked;
    HandedOnAccepted();
    HandedOnG();
    HandedOnK();
    GiverChecked(HANDED_ON);
  }

  lemma HandedOnTake(o: nat -> nat, fr: Frame, st1: State)
    requires fr == Frame("g", map["v" := Ref(1)], 3)
    requires st1 == State(map[0 := Obj(0, map[]), 1 := Obj(1, map[0 := 0], true)], {0, 1, 2, 3}, 4, 2, 0)
    ensures Exec(HANDED_ON, o, 0, fr, st1, TAKEN) == Done(Next(fr.env["w" := Ref(0)]), st1)
  {
    assert Eval(HANDED_ON, o, 0, fr, st1, Var("v")) == Done(Ref(1), st1);
  }

  lemma HandedOnGiven(o: nat -> nat, fr: Frame, st1: State)
    requires fr == Frame("g", map["v" := Ref(1), "w" := Ref(0)], 3)
    requires st1 == State(map[0 := Obj(0, map[]), 1 := Obj(1, map[0 := 0], true)], {0, 1, 2, 3}, 4, 2, 0)
    ensures
      var st2 := st1.(heap := st1.heap[2 := Obj(1, map[])], nextLoc := 3);
      Exec(HANDED_ON, o, 0, fr, st1, GIVEN) == Done(Next(fr.env), Write(0, 0, Ref(2), st2))
  {
    assert Pointers([]) == map[];
    var st2 := st1.(heap := st1.heap[2 := Obj(1, map[])], nextLoc := 3);
    assert Eval(HANDED_ON, o, 0, fr, st1, Var("w")) == Done(Ref(0), st1);
    assert Eval(HANDED_ON, o, 0, fr, st1, Obj0(0)) == Done(Ref(2), st2);
  }

  lemma HandedOnBodyG(o: nat -> nat, fr: Frame, st1: State)
    requires fr == Frame("g", map["v" := Ref(1)], 3)
    requires st1 == State(map[0 := Obj(0, map[]), 1 := Obj(1, map[0 := 0], true)], {0, 1, 2, 3}, 4, 2, 0)
    ensures
      ExecAll(HANDED_ON, o, 0, fr, st1, [TAKEN, GIVEN])
      == Done(Next(fr.env["w" := Ref(0)]), State(HANDED_HEAP, {0, 1, 2, 3}, 4, 3, 0))
  {
    var p := HANDED_ON;
    var env1 := fr.env["w" := Ref(0)];
    assert [TAKEN, GIVEN] == [TAKEN] + [GIVEN];
    HandedOnTake(o, fr, st1);
    ExecCons(p, o, 0, fr, st1, TAKEN, [GIVEN], env1, st1);
    HandedOnGiven(o, fr.(env := env1), st1);
    GivenHeap(st1);
    ExecLast(p, o, 0, fr.(env := env1), st1, GIVEN, env1, State(HANDED_HEAP, {0, 1, 2, 3}, 4, 3, 0));
  }

  lemma GivenHeap(st1: State)
    requires st1 == State(map[0 := Obj(0, map[]), 1 := Obj(1, map[0 := 0], true)], {0, 1, 2, 3}, 4, 2, 0)
    ensures
      Write(0, 0, Ref(2), st1.(heap := st1.heap[2 := Obj(1, map[])], nextLoc := 3)) == State(HANDED_HEAP, {0, 1, 2, 3}, 4, 3, 0)
  {
    assert st1.heap[2 := Obj(1, map[])][0 := Obj(0, map[0 := 2])] == HANDED_HEAP;
  }

  const HANDED_HEAP: map<nat, Obj> := map[0 := Obj(0, map[0 := 2]), 1 := Obj(1, map[0 := 0], true), 2 := Obj(1, map[])]

  /** g puts an object of the vector's region into the vector's element. */
  lemma HandedOnRunG(o: nat -> nat, st: State)
    requires st == State(map[0 := Obj(0, map[]), 1 := Obj(1, map[0 := 0], true)], {0, 1, 2}, 3, 2, 0)
    ensures Run(HANDED_ON, o, 0, "g", [Ref(1)], st) == Done(NoVal, State(HANDED_HEAP, {0, 1, 2}, 4, 3, 0))
  {
    hide ExecAll, Exec, Eval;
    var p, env := HANDED_ON, map["v" := Ref(1)];
    assert Bind(p.funcs["g"].params, [Ref(1)]) == env;
    assert st.live + {3} == {0, 1, 2, 3} && {0, 1, 2, 3} - {3} == {0, 1, 2};
    var st1 := st.(live := {0, 1, 2, 3}, nextRegion := 4);
    HandedOnBodyG(o, Frame("g", env, 3), st1);
    RunOf(p, o, 0, "g", [Ref(1)], st, env, Next(env["w" := Ref(0)]), State(HANDED_HEAP, {0, 1, 2, 3}, 4, 3, 0));
  }

  lemma HandedOnBodyK(o: nat -> nat, fr: Frame, st1: State)
    requires fr == Frame("k", map["v" := Ref(1), "q" := Ref(0)], 2)
    requires st1 == State(map[0 := Obj(0, map[]), 1 := Obj(1, map[0 := 0], true)], {0, 1, 2}, 3, 2, 0)
    ensures
      ExecAll(HANDED_ON, o, 1, fr, st1, [Do(HAND_ON), RETURN_Q])
      == Done(Returned(Ref(0)), State(HANDED_HEAP, {0, 1, 2}, 4, 3, 0))
  {
    var p := HANDED_ON;
    var st2 := State(HANDED_HEAP, {0, 1, 2}, 4, 3, 0);
    HandedOnRunG(o, st1);
    EvalLast(p, o, 1, fr, st1, Var("v"), Ref(1), st1);
    assert Eval(p, o, 1, fr, st1, HAND_ON) == Done(NoVal, st2);
    assert [Do(HAND_ON), RETURN_Q] == [Do(HAND_ON)] + [RETURN_Q];
    ExecCons(p, o, 1, fr, st1, Do(HAND_ON), [RETURN_Q], fr.env, st2);
    assert Exec(p, o, 1, fr, st2, RETURN_Q) == Done(Returned(Ref(0)), st2);
  }

  lemma HandedOnRunK(o: nat -> nat, st: State)
    requires st == State(map[0 := Obj(0, map[]), 1 := Obj(1, map[0 := 0], true)], {0, 1}, 2, 2, 0)
    ensures Run(HANDED_ON, o, 1, "k", [Ref(1), Ref(0)], st) == Done(Ref(0), State(HANDED_HEAP, {0, 1}, 4, 3, 0))
  {
    hide ExecAll, Exec, Eval;
    var env := map["v" := Ref(1), "q" := Ref(0)];
    assert K_PARAMS[1..] == [K_PARAMS[1]] && [Ref(1), Ref(0)][1..] == [Ref(0)];
    assert Bind(K_PARAMS, [Ref(1), Ref(0)]) == env;
    assert st.live + {2} == {0, 1, 2} && {0, 1, 2} - {2} == {0, 1};
    HandedOnBodyK(o, Frame("k", env, 2), st.(live := {0, 1, 2}, nextRegion := 3));
    RunOf(HANDED_ON, o, 1, "k", [Ref(1), Ref(0)], st, env, Returned(Ref(0)), State(HANDED_HEAP, {0, 1, 2}, 4, 3, 0));
  }

  lemma HandedOnBodyH(o: nat -> nat, fr: Frame, st1: State)
    requires fr == Frame("h", map["p" := Ref(0)], 1) && st1 == State(map[0 := Obj(0, map[])], {0, 1}, 2, 1, 0)
    ensures ExecAll(HANDED_ON, o, 2, fr, st1, [Do(GIVE)]) == Done(Next(fr.env), State(HANDED_HEAP, {0, 1}, 4, 3, 0))
  {
    GiverArgs(HANDED_ON, o, 2, fr, st1);
    HandedOnRunK(o, State(map[0 := Obj(0, map[]), 1 := Obj(1, map[0 := 0], true)], {0, 1}, 2, 2, 0));
    var end := State(HANDED_HEAP, {0, 1}, 4, 3, 0);
    assert Eval(HANDED_ON, o, 2, fr, st1, GIVE) == Done(Ref(0), end);
    ExecLast(HANDED_ON, o, 2, fr, st1, Do(GIVE), fr.env, end);
  }

  lemma HandedOnRunH(o: nat -> nat, st: State)
    requires st == State(map[0 := Obj(0, map[])], {0}, 1, 1, 0)
    ensures Run(HANDED_ON, o, 2, "h", [Ref(0)], st) == Done(NoVal, State(HANDED_HEAP, {0}, 4, 3, 0))
  {
    hide ExecAll, Exec, Eval;
    var env := map["p" := Ref(0)];
    assert Bind(GIVER.params, [Ref(0)]) == env;
    assert st.live + {1} == {0, 1} && {0, 1} - {1} == {0};
    HandedOnBodyH(o, Frame("h", env, 1), st.(live := {0, 1}, nextRegion := 2));
    RunOf(HANDED_ON, o, 2, "h", [Ref(0)], st, env, Next(env), State(HANDED_HEAP, {0, 1}, 4, 3, 0));
  }

  /** After h has returned, the caller's object points into the region h has freed. */
  lemma HandedOnBreaks(o: nat -> nat)
    ensures
      var st := State(map[0 := Obj(0, map[])], {0}, 1, 1, 0);
      && StateOk(HANDED_ON, st) && ArgsOk(HANDED_ON, OneRegion(0), "h", [Ref(0)], st)
      && !Sheltered(Run(HANDED_ON, o, 2, "h", [Ref(0)], st).Final())
  {
    var st := State(map[0 := Obj(0, map[])], {0}, 1, 1, 0);
    HandedOnRunH(o, st);
    var end := Run(HANDED_ON, o, 2, "h", [Ref(0)], st).Final();
    assert LiveLoc(end, 0) && 0 in end.heap[0].fields && !PointerOk(end.heap, end.live, end.heap[0], 2);
  }

  // ----- a mixed container made in the region of a `foreign` value -----

  const MADE := Lit(VecLit, 1, [Var("y")])
  const LOCAL_Y := Declare("y", Obj0(0))
  const CROSS_V := Spec(ContainerKind, CrossSrc, "v")

  function MakerSpecs(y: Spec, made: Spec): Specs {
    Specs(map["v" := CROSS_V, "y" := y], map[0 := LOCAL, 1 := made], NONE)
  }

  /** k(foreign v): y := S{}; [y][.v] */
  const MADE_THERE := Prog(
    map["k" := FuncDecl([Param("v", CompositeTy, true)], [LOCAL_Y, Do(MADE)])], map["k" := MakerSpecs(LOCAL, CROSS_V)], {}, map[])

  const MADE_HISTORY := History(
    ["k"], map["k" := MakerSpecs(UNKNOWN, SuffixOf("v"))], map["k" := MakerSpecs(LOCAL, CROSS_V)])

  const MADE_NODES: seq<Node> :=
    [StmtNode(LOCAL_Y), ExprNode(Obj0(0)), ExprNode(Var("y")), StmtNode(Do(MADE)), ExprNode(MADE), ExprNode(Var("y"))]

  lemma MadeThereNodes()
    ensures NodesB(MADE_THERE.funcs["k"].body) == MADE_NODES
  {
    NodesTwo(LOCAL_Y, Do(MADE));
    assert NodesEs([Var("y")]) == [ExprNode(Var("y"))];
    assert NodesS(LOCAL_Y) == [StmtNode(LOCAL_Y), ExprNode(Obj0(0)), ExprNode(Var("y"))];
    assert NodesS(Do(MADE)) == [StmtNode(Do(MADE)), ExprNode(MADE), ExprNode(Var("y"))];
  }

  lemma MadeThereNode(nd: Node)
    requires nd in MADE_NODES
    ensures NodeChecked(MADE_THERE, "k", nd)
  {
    SetSame(MADE_THERE.info["k"], "y");
  }

  lemma MadeThereChecked()
    ensures CheckedEverywhere(MADE_THERE)
  {
    MadeThereNodes();
    forall nd | nd in NodesB(MADE_THERE.funcs["k"].body)
      ensures NodeChecked(MADE_THERE, "k", nd)
    {
      MadeThereNode(nd);
    }
  }

  lemma MadeThereFirst()
    ensures BodyPass(MADE_THERE.funcs, Elements(["k"]), MADE_HISTORY.start, "k") == Ok(MADE_HISTORY.first["k"])
  {
    var p, params, all := MADE_THERE, MADE_THERE.funcs["k"].params, Elements(["k"]);
    var S, T := MakerSpecs(UNKNOWN, SuffixOf("v")), MakerSpecs(LOCAL, SuffixOf("v"));
    assert S.SetName("y", LOCAL) == T;
    MadeThereNodes();
    assert MADE_NODES == [] + [StmtNode(LOCAL_Y)] + MADE_NODES[1..];
    PassVia(p.funcs, all, params, S, [], StmtNode(LOCAL_Y), MADE_NODES[1..], T);
    MadeThereFilled(all);
  }

  lemma MadeThereFilled(all: set<Name>)
    ensures
      Pass(MADE_THERE.funcs, all, MADE_THERE.funcs["k"].params, MakerSpecs(LOCAL, SuffixOf("v")), MADE_NODES[1..])
      == Ok(MakerSpecs(LOCAL, CROSS_V))
  {
    var p, params := MADE_THERE, MADE_THERE.funcs["k"].params;
    var T, U := MakerSpecs(LOCAL, SuffixOf("v")), MakerSpecs(LOCAL, CROSS_V);
    assert T.SetLit(1, CROSS_V) == U && SetAllocs(U, [Var("y")], CROSS_V) == U && SetAlloc(T, MADE, CROSS_V) == U;
    var rest := [ExprNode(Obj0(0)), ExprNode(Var("y")), StmtNode(Do(MADE))];
    assert MADE_NODES[1..] == rest + [ExprNode(MADE)] + [ExprNode(Var("y"))];
    QuietAround(p.funcs, all, params, T, rest, ExprNode(Obj0(0)));
    QuietUnmoved(p.funcs, all, params, U, [ExprNode(Var("y"))]);
    PassOnce(p.funcs, all, params, T, rest, ExprNode(MADE), [ExprNode(Var("y"))], U);
  }

  lemma MadeThereUnsafe()
    ensures Greatest(MADE_THERE.funcs, MADE_HISTORY.first, Elements(["k"]), {})
  {
    var p, first := MADE_THERE, MADE_HISTORY.first;
    MadeThereNodes();
    assert ExprNode(MADE) in NodesB(p.funcs["k"].body) && Var("y") in MADE.elems;
    assert forall safe :: !SafeNode(p.funcs, safe, first["k"], ExprNode(MADE));
    assert Elements(["k"]) == {"k"};
    forall other | other <= {"k"} && SelfSafe(p.funcs, first, other)
      ensures other <= {}
    {
      UnsafeIsOut(p.funcs, first, other, "k");
    }
  }

  lemma MadeThereInitial()
    ensures Initial(MADE_THERE.funcs["k"], MADE_HISTORY.start["k"])
  {
    DeclaredTwo(LOCAL_Y, Do(MADE));
    InitialOne(MADE_THERE.funcs["k"], Param("v", CompositeTy, true), MADE_HISTORY.start["k"]);
  }

  lemma MadeThereFunction()
    ensures FunctionDriven(MADE_THERE, MADE_HISTORY, "k")
  {
    MadeThereChecked();
    MadeThereFirst();
    MadeThereInitial();
    DrivenBy(MADE_THERE, MADE_HISTORY, "k");
  }

  lemma MadeThereDriven()
    ensures DrivenTo(MADE_THERE, MADE_HISTORY) && CheckedEverywhere(MADE_THERE)
  {
    hide FunctionDriven, Greatest;
    MadeThereChecked();
    MadeThereFunction();
    MadeThereUnsafe();
    OneRound(MADE_THERE, MADE_HISTORY);
  }

  lemma MadeThereLit(o: nat -> nat, fr: Frame, st2: State)
    requires fr == Frame("k", map["v" := Ref(0), "y" := Ref(1)], 1)
    requires st2 == State(map[0 := Obj(0, map[]), 1 := Obj(1, map[])], {0, 1}, 2, 2, 0)
    ensures Exec(MADE_THERE, o, 0, fr, st2, Do(MADE)) == Done(Next(fr.env), st2.(heap := st2.heap[2 := Obj(0, map[0 := 1], true)], nextLoc := 3))
  {
    EvalLast(MADE_THERE, o, 0, fr, st2, Var("y"), Ref(1), st2);
    assert Var("y") in MADE.elems && Pointers([Ref(1)]) == map[0 := 1];
  }

  lemma MadeThereBody(o: nat -> nat, fr: Frame, st1: State)
    requires fr == Frame("k", map["v" := Ref(0)], 1) && st1 == State(map[0 := Obj(0, map[])], {0, 1}, 2, 1, 0)
    ensures
      var st3 := st1.(heap := map[0 := Obj(0, map[]), 1 := Obj(1, map[]), 2 := Obj(0, map[0 := 1], true)], nextLoc := 3);
      ExecAll(MADE_THERE, o, 0, fr, st1, [LOCAL_Y, Do(MADE)]) == Done(Next(fr.env["y" := Ref(1)]), st3)
  {
    var p, env1 := MADE_THERE, fr.env["y" := Ref(1)];
    assert Pointers([]) == map[];
    assert [LOCAL_Y, Do(MADE)] == [LOCAL_Y] + [Do(MADE)];
    var st2 := st1.(heap := map[0 := Obj(0, map[]), 1 := Obj(1, map[])], nextLoc := 2);
    assert Exec(p, o, 0, fr, st1, LOCAL_Y) == Done(Next(env1), st2);
    ExecCons(p, o, 0, fr, st1, LOCAL_Y, [Do(MADE)], env1, st2);
    MadeThereLit(o, fr.(env := env1), st2);
    var st3 := st1.(heap := map[0 := Obj(0, map[]), 1 := Obj(1, map[]), 2 := Obj(0, map[0 := 1], true)], nextLoc := 3);
    ExecLast(p, o, 0, fr.(env := env1), st2, Do(MADE), env1, st3);
  }

  /** The vector outlives its element, though no name leads to it. */
  lemma MadeThereBreaks(o: nat -> nat)
    ensures
      var st := State(map[0 := Obj(0, map[])], {0}, 1, 1, 0);
      && StateOk(MADE_THERE, st) && ArgsOk(MADE_THERE, OneRegion(0), "k", [Ref(0)], st)
      && !Sheltered(Run(MADE_THERE, o, 0, "k", [Ref(0)], st).Final())
  {
    var p, env := MADE_THERE, map["v" := Ref(0)];
    var st := State(map[0 := Obj(0, map[])], {0}, 1, 1, 0);
    assert Bind(p.funcs["k"].params, [Ref(0)]) == env;
    assert st.live + {1} == {0, 1};
    MadeThereBody(o, Frame("k", env, 1), st.(live := {0, 1}, nextRegion := 2));
    var st3 := State(map[0 := Obj(0, map[]), 1 := Obj(1, map[]), 2 := Obj(0, map[0 := 1], true)], {0, 1}, 2, 3, 0);
    RunOf(p, o, 0, "k", [Ref(0)], st, env, Next(env["y" := Ref(1)]), st3);
    var end := Run(p, o, 0, "k", [Ref(0)], st).Final();
    assert LiveLoc(end, 2) && 0 in end.heap[2].fields && !PointerOk(end.heap, end.live, end.heap[2], 1);
  }
}
