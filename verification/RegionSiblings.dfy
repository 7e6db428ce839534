/** Two bindings of one name: the table is keyed by name alone, so declarations in sibling
    blocks overwrite each other and an unchanged pass proves nothing. */
module RegionSiblings {
  import opened RegionSyntax
  import opened RegionCheck
  import opened RegionSemantics
  import opened RegionAccepted
  import opened RegionPasses
  import opened RegionFixpoint
  import opened RegionSoundness
  import opened RegionStart
  import opened RegionTraces
  import opened Collections
  import opened Results

  const OUTER := Lit(StructLit, 1, [Var("x")])
  const INNER_X := Declare("x", Obj0(0))
  const OUTER_Y := Declare("y", OUTER)
  const PARAM_X := Declare("x", Var("p"))

  const BRANCHES := If(Prim, [INNER_X, OUTER_Y], [PARAM_X])

  function SiblingSpecs(x: Spec, y: Spec, outer: Spec): Specs {
    Specs(map["p" := Of("p"), "x" := x, "y" := y], map[0 := LOCAL, 1 := outer], NONE)
  }

  /** f(p): if c: x := Inner{}; y := Outer{inner = x}[.p] else: x := p */
  const SIBLING := Prog(
    map["f" := FuncDecl([Param("p", CompositeTy, false)], [BRANCHES])],
    map["f" := SiblingSpecs(Of("p"), Of("p"), Of("p"))],
    {"f"},
    map[])

  const SIBLING_HISTORY := History(
    ["f"], map["f" := SiblingSpecs(UNKNOWN, UNKNOWN, SuffixOf("p"))], map["f" := SiblingSpecs(Of("p"), UNKNOWN, Of("p"))])

  const SIBLING_NODES: seq<Node> := [
    StmtNode(BRANCHES), ExprNode(Prim),
    StmtNode(INNER_X), ExprNode(Obj0(0)), ExprNode(Var("x")),
    StmtNode(OUTER_Y), ExprNode(OUTER), ExprNode(Var("x")), ExprNode(Var("y")),
    StmtNode(PARAM_X), ExprNode(Var("p")), ExprNode(Var("x"))]

  lemma SiblingStatements()
    ensures NodesS(INNER_X) == SIBLING_NODES[2..5]
    ensures NodesS(OUTER_Y) == SIBLING_NODES[5..9]
    ensures NodesS(PARAM_X) == SIBLING_NODES[9..]
  {
    assert NodesEs([Var("x")]) == [ExprNode(Var("x"))];
    assert SIBLING_NODES[2..5] == [StmtNode(INNER_X), ExprNode(Obj0(0)), ExprNode(Var("x"))];
    assert SIBLING_NODES[5..9] == [StmtNode(OUTER_Y), ExprNode(OUTER), ExprNode(Var("x")), ExprNode(Var("y"))];
    assert SIBLING_NODES[9..] == [StmtNode(PARAM_X), ExprNode(Var("p")), ExprNode(Var("x"))];
  }

  lemma BranchNodes(cond: Expr, thn: seq<Stmt>, els: seq<Stmt>)
    ensures NodesS(If(cond, thn, els)) == [StmtNode(If(cond, thn, els))] + (NodesE(cond) + NodesB(thn) + NodesB(els))
  {
  }

  lemma SiblingNodes()
    ensures NodesB(SIBLING.funcs["f"].body) == SIBLING_NODES
  {
    NodesOne(BRANCHES);
    NodesTwo(INNER_X, OUTER_Y);
    NodesOne(PARAM_X);
    SiblingStatements();
    BranchNodes(Prim, [INNER_X, OUTER_Y], [PARAM_X]);
    SiblingJoined(NodesS(INNER_X), NodesS(OUTER_Y), NodesS(PARAM_X));
    assert NodesE(Prim) == [ExprNode(Prim)];
  }

  lemma SiblingJoined(x: seq<Node>, y: seq<Node>, z: seq<Node>)
    requires x == SIBLING_NODES[2..5] && y == SIBLING_NODES[5..9] && z == SIBLING_NODES[9..]
    ensures [StmtNode(BRANCHES)] + ([ExprNode(Prim)] + (x + y) + z) == SIBLING_NODES
  {
    assert SIBLING_NODES[..2] == [StmtNode(BRANCHES), ExprNode(Prim)];
    assert SIBLING_NODES == SIBLING_NODES[..2] + SIBLING_NODES[2..5] + SIBLING_NODES[5..9] + SIBLING_NODES[9..];
  }

  // ----- the passes -----

  /** Visits that do not depend on the specs of x and y. */
  lemma SiblingStays(x: Spec, y: Spec, outer: Spec, nodes: seq<Node>)
    requires forall nd :: nd in nodes ==> nd in [StmtNode(BRANCHES), ExprNode(Prim), ExprNode(Obj0(0)), ExprNode(Var("x")), ExprNode(Var("y"))]
    ensures Unmoved(SIBLING.funcs, {"f"}, SIBLING.funcs["f"].params, SiblingSpecs(x, y, outer), nodes)
  {
  }

  /** The first declaration writes the local region over whatever the table held for x. */
  lemma SiblingHead(x: Spec, y: Spec, outer: Spec)
    ensures
      var p := SIBLING;
      Pass(p.funcs, {"f"}, p.funcs["f"].params, SiblingSpecs(x, y, outer), SIBLING_NODES)
      == Pass(p.funcs, {"f"}, p.funcs["f"].params, SiblingSpecs(LOCAL, y, outer), SIBLING_NODES[5..])
  {
    var p, S, T := SIBLING, SiblingSpecs(x, y, outer), SiblingSpecs(LOCAL, y, outer);
    var a, b := [StmtNode(BRANCHES), ExprNode(Prim)], [ExprNode(Obj0(0)), ExprNode(Var("x"))];
    SiblingStays(x, y, outer, a);
    SiblingStays(LOCAL, y, outer, b);
    assert S.SetName("x", LOCAL) == T;
    assert SIBLING_NODES == a + [StmtNode(INNER_X)] + (b + SIBLING_NODES[5..]);
    PassVia(p.funcs, {"f"}, p.funcs["f"].params, S, a, StmtNode(INNER_X), b + SIBLING_NODES[5..], T);
    PassOver(p.funcs, {"f"}, p.funcs["f"].params, T, b, SIBLING_NODES[5..]);
  }

  /** The last one writes the region of p over it. */
  lemma SiblingTail(y: Spec, outer: Spec)
    ensures
      var p := SIBLING;
      Pass(p.funcs, {"f"}, p.funcs["f"].params, SiblingSpecs(LOCAL, y, outer), SIBLING_NODES[7..])
      == Ok(SiblingSpecs(Of("p"), y, outer))
  {
    var p, S, T := SIBLING, SiblingSpecs(LOCAL, y, outer), SiblingSpecs(Of("p"), y, outer);
    var a, b := [ExprNode(Var("x")), ExprNode(Var("y"))], [ExprNode(Var("p")), ExprNode(Var("x"))];
    SiblingStays(LOCAL, y, outer, a);
    assert S.SetName("x", Of("p")) == T;
    assert SIBLING_NODES[7..] == a + [StmtNode(PARAM_X)] + b;
    PassOnce(p.funcs, {"f"}, p.funcs["f"].params, S, a, StmtNode(PARAM_X), b, T);
  }

  lemma SiblingFill()
    ensures
      Visit(SIBLING.funcs, {"f"}, SIBLING.funcs["f"].params, SiblingSpecs(LOCAL, UNKNOWN, SuffixOf("p")), ExprNode(OUTER))
      == Ok(SiblingSpecs(LOCAL, UNKNOWN, Of("p")))
  {
    var S, T := SiblingSpecs(LOCAL, UNKNOWN, SuffixOf("p")), SiblingSpecs(LOCAL, UNKNOWN, Of("p"));
    assert S.SetLit(1, Of("p")) == T && SetAllocs(T, OUTER.elems, Of("p")) == T && SetAlloc(S, OUTER, Of("p")) == T;
  }

  /** y is declared before the region of its literal is known. */
  lemma SiblingFirst()
    ensures
      Pass(SIBLING.funcs, {"f"}, SIBLING.funcs["f"].params, SIBLING_HISTORY.start["f"], SIBLING_NODES) == Ok(SIBLING_HISTORY.first["f"])
  {
    var p, S, T := SIBLING, SiblingSpecs(LOCAL, UNKNOWN, SuffixOf("p")), SiblingSpecs(LOCAL, UNKNOWN, Of("p"));
    SiblingHead(UNKNOWN, UNKNOWN, SuffixOf("p"));
    SiblingFill();
    assert SIBLING_NODES[5..] == [StmtNode(OUTER_Y)] + [ExprNode(OUTER)] + SIBLING_NODES[7..];
    PassVia(p.funcs, {"f"}, p.funcs["f"].params, S, [StmtNode(OUTER_Y)], ExprNode(OUTER), SIBLING_NODES[7..], T);
    SiblingTail(UNKNOWN, Of("p"));
  }

  /** From then on y has the region of p, and x that of its last declaration. */
  lemma SiblingLater(y: Spec)
    ensures
      Pass(SIBLING.funcs, {"f"}, SIBLING.funcs["f"].params, SiblingSpecs(Of("p"), y, Of("p")), SIBLING_NODES) == Ok(SIBLING.info["f"])
  {
    var p, S, T := SIBLING, SiblingSpecs(LOCAL, y, Of("p")), SiblingSpecs(LOCAL, Of("p"), Of("p"));
    SiblingHead(Of("p"), y, Of("p"));
    assert S.SetName("y", Of("p")) == T;
    assert SIBLING_NODES[5..] == [] + [StmtNode(OUTER_Y)] + ([ExprNode(OUTER)] + SIBLING_NODES[7..]);
    PassVia(p.funcs, {"f"}, p.funcs["f"].params, S, [], StmtNode(OUTER_Y), [ExprNode(OUTER)] + SIBLING_NODES[7..], T);
    PassOver(p.funcs, {"f"}, p.funcs["f"].params, T, [ExprNode(OUTER)], SIBLING_NODES[7..]);
    SiblingTail(Of("p"), Of("p"));
  }

  /** The pass goes through other specs, but ends with those it began with. */
  lemma SiblingPass()
    ensures
      var F := SIBLING.info["f"];
      Pass(SIBLING.funcs, SIBLING.safe, SIBLING.funcs["f"].params, F, NodesB(SIBLING.funcs["f"].body)) == Ok(F)
  {
    SiblingNodes();
    SiblingLater(Of("p"));
  }

  lemma SiblingNode(nd: Node)
    requires nd in SIBLING_NODES
    ensures PostCheck(SIBLING.funcs, SIBLING.safe, SIBLING.info["f"], nd)
    ensures SafeNode(SIBLING.funcs, SIBLING.safe, SIBLING.info["f"], nd)
    ensures nd.ExprNode? && HasAllocSpec(nd.e) ==>
      GetSpec(SIBLING.info["f"], nd.e).Ok? && GetSpec(SIBLING.info["f"], nd.e).value.1 == SIBLING.info["f"]
      && Complete(GetSpec(SIBLING.info["f"], nd.e).value.0)
  {
    if nd == ExprNode(OUTER) {
      assert OUTER.elems == [Var("x")];
    }
  }

  lemma SiblingNodeOrderly(nd: Node)
    requires nd in SIBLING_NODES
    ensures InFragment(SIBLING, "f", nd)
    ensures nd.ExprNode? ==> forall s :: s in NodeSpecs(SIBLING.info["f"], nd.e) ==> Consistent(SIBLING.info["f"], s)
  {
    assert OUTER.elems == [Var("x")];
  }

  lemma {:induction false} SiblingCount(nodes: seq<Node>)
    requires forall nd :: nd in nodes ==> nd in SIBLING_NODES
    ensures Unknowns(SIBLING.info["f"], nodes) == Ok((0, SIBLING.info["f"]))
    decreases nodes
  {
    if nodes != [] {
      SiblingNode(nodes[0]);
      SiblingCount(nodes[1..]);
    }
  }

  lemma SiblingVerdict()
    ensures Verdict(SIBLING, "f")
  {
    SiblingPass();
    SiblingNodes();
    SiblingCount(SIBLING_NODES);
    forall nd | nd in SIBLING_NODES
      ensures PostCheck(SIBLING.funcs, SIBLING.safe, SIBLING.info["f"], nd)
    {
      SiblingNode(nd);
    }
  }

  /** The literal of y and its element are in the region of p, as the table has it. */
  lemma SiblingSafe(y: Spec)
    ensures SelfSafe(SIBLING.funcs, map["f" := SiblingSpecs(Of("p"), y, Of("p"))], {"f"})
  {
    SiblingNodes();
    forall nd | nd in SIBLING_NODES
      ensures SafeNode(SIBLING.funcs, {"f"}, SiblingSpecs(Of("p"), y, Of("p")), nd)
    {
      if nd == ExprNode(OUTER) {
        assert OUTER.elems == [Var("x")];
      }
    }
  }

  lemma SiblingInitial()
    ensures Initial(SIBLING.funcs["f"], SIBLING_HISTORY.start["f"])
  {
    var f := SIBLING.funcs["f"];
    DeclaredTwo(INNER_X, OUTER_Y);
    assert DeclaredB([PARAM_X]) == ["x"] && f.body == [BRANCHES];
    assert DeclaredB(f.body) == DeclaredS(BRANCHES) + DeclaredB([]);
    assert DeclaredB(f.body) == ["x", "y", "x"];
    InitialOne(f, Param("p", CompositeTy, false), SIBLING_HISTORY.start["f"]);
  }

  lemma SiblingFunction()
    ensures FunctionDriven(SIBLING, SIBLING_HISTORY, "f")
  {
    SiblingInitial();
    SiblingNodes();
    SiblingFirst();
    SiblingLater(UNKNOWN);
    forall nd | nd in SIBLING_NODES
      ensures PostCheck(SIBLING.funcs, SIBLING.safe, SIBLING.info["f"], nd)
      ensures nd.ExprNode? && HasAllocSpec(nd.e) ==>
        GetSpec(SIBLING.info["f"], nd.e) == Ok((SpecOf(SIBLING.info["f"], nd.e), SIBLING.info["f"]))
        && Complete(SpecOf(SIBLING.info["f"], nd.e))
    {
      SiblingNode(nd);
    }
    assert Elements(["f"]) == {"f"};
  }

  lemma SiblingGreatest()
    ensures Greatest(SIBLING.funcs, SIBLING_HISTORY.first, Elements(["f"]), {"f"})
  {
    SiblingSafe(UNKNOWN);
    assert Elements(["f"]) == {"f"};
  }

  lemma SiblingDriven()
    ensures DrivenTo(SIBLING, SIBLING_HISTORY)
  {
    hide FunctionDriven, Greatest;
    SiblingFunction();
    SiblingGreatest();
    OneRound(SIBLING, SIBLING_HISTORY);
  }

  /** Each node is in the fragment, and each spec carries the source it names. */
  ghost predicate Orderly(p: Prog, fn: Name)
    requires fn in p.funcs && fn in p.info
  {
    forall nd :: nd in NodesB(p.funcs[fn].body) ==>
      InFragment(p, fn, nd) && (nd.ExprNode? ==> forall s :: s in NodeSpecs(p.info[fn], nd.e) ==> Consistent(p.info[fn], s))
  }

  lemma SiblingOrderly()
    ensures Orderly(SIBLING, "f")
  {
    SiblingNodes();
    forall nd | nd in SIBLING_NODES
      ensures InFragment(SIBLING, "f", nd)
      ensures nd.ExprNode? ==> forall s :: s in NodeSpecs(SIBLING.info["f"], nd.e) ==> Consistent(SIBLING.info["f"], s)
    {
      SiblingNodeOrderly(nd);
    }
  }

  lemma SiblingTable()
    ensures TableOk(SIBLING, "f")
  {
  }

  lemma SiblingDisagrees()
    ensures !BindingsAgree(SIBLING.info["f"], NodesB(SIBLING.funcs["f"].body))
  {
    SiblingNodes();
    assert SIBLING_NODES[2] in SIBLING_NODES && !BindingAgrees(SIBLING.info["f"], SIBLING_NODES[2]);
  }

  /** Everything but the agreement of the two bindings holds: the driver accepts, another
      round changes nothing, the function is region-safe, the table and every spec are
      consistent, each node is in the fragment. */
  lemma SiblingAccepted()
    ensures DrivenTo(SIBLING, SIBLING_HISTORY) && Verdict(SIBLING, "f")
    ensures SelfSafe(SIBLING.funcs, SIBLING.info, SIBLING.safe)
    ensures TableOk(SIBLING, "f") && Orderly(SIBLING, "f")
    ensures !BindingsAgree(SIBLING.info["f"], NodesB(SIBLING.funcs["f"].body))
  {
    SiblingDriven();
    SiblingVerdict();
    SiblingSafe(Of("p"));
    SiblingOrderly();
    SiblingTable();
    SiblingDisagrees();
  }

  // ----- a run -----

  lemma SiblingOuter(o: nat -> nat, fr: Frame, st: State)
    requires fr == Frame("f", map["p" := Ref(0), "x" := Ref(1)], 1)
    requires st == State(map[0 := Obj(0, map[]), 1 := Obj(1, map[])], {0, 1}, 2, 2, 1)
    ensures
      Exec(SIBLING, o, 0, fr, st, OUTER_Y)
      == Done(Next(fr.env["y" := Ref(2)]), st.(heap := st.heap[2 := Obj(0, map[0 := 1])], nextLoc := 3))
  {
    EvalLast(SIBLING, o, 0, fr, st, Var("x"), Ref(1), st);
    assert Pointers([Ref(1)]) == map[0 := 1];
  }

  lemma SiblingBlock(o: nat -> nat, fr: Frame, st: State)
    requires fr == Frame("f", map["p" := Ref(0)], 1) && st == State(map[0 := Obj(0, map[])], {0, 1}, 2, 1, 1)
    ensures
      ExecAll(SIBLING, o, 0, fr, st, [INNER_X, OUTER_Y])
      == Done(Next(fr.env["x" := Ref(1)]["y" := Ref(2)]),
              State(map[0 := Obj(0, map[]), 1 := Obj(1, map[]), 2 := Obj(0, map[0 := 1])], {0, 1}, 2, 3, 1))
  {
    var p := SIBLING;
    assert [INNER_X, OUTER_Y] == [INNER_X] + [OUTER_Y];
    assert Pointers([]) == map[];
    var st1 := State(map[0 := Obj(0, map[]), 1 := Obj(1, map[])], {0, 1}, 2, 2, 1);
    var env1 := fr.env["x" := Ref(1)];
    assert Exec(p, o, 0, fr, st, INNER_X) == Done(Next(env1), st1);
    ExecCons(p, o, 0, fr, st, INNER_X, [OUTER_Y], env1, st1);
    SiblingOuter(o, fr.(env := env1), st1);
    var st2 := State(map[0 := Obj(0, map[]), 1 := Obj(1, map[]), 2 := Obj(0, map[0 := 1])], {0, 1}, 2, 3, 1);
    ExecLast(p, o, 0, fr.(env := env1), st1, OUTER_Y, env1["y" := Ref(2)], st2);
  }

  lemma SiblingRun(o: nat -> nat, st: State)
    requires o(0) == 0 && st == State(map[0 := Obj(0, map[])], {0}, 1, 1, 0)
    ensures
      Run(SIBLING, o, 0, "f", [Ref(0)], st)
      == Done(NoVal, State(map[0 := Obj(0, map[]), 1 := Obj(1, map[]), 2 := Obj(0, map[0 := 1])], {0}, 2, 3, 1))
  {
    var p, env := SIBLING, map["p" := Ref(0)];
    assert Bind(p.funcs["f"].params, [Ref(0)]) == env;
    assert st.live + {1} == {0, 1} && {0, 1} - {1} == {0};
    var fr, st1 := Frame("f", env, 1), st.(live := {0, 1}, nextRegion := 2);
    var end := State(map[0 := Obj(0, map[]), 1 := Obj(1, map[]), 2 := Obj(0, map[0 := 1])], {0, 1}, 2, 3, 1);
    SiblingBlock(o, fr, st1.(pos := 1));
    assert Exec(p, o, 0, fr, st1, BRANCHES) == Done(Next(env["x" := Ref(1)]["y" := Ref(2)]), end);
    ExecLast(p, o, 0, fr, st1, BRANCHES, env["x" := Ref(1)]["y" := Ref(2)], end);
    RunOf(p, o, 0, "f", [Ref(0)], st, env, Next(env["x" := Ref(1)]["y" := Ref(2)]), end);
  }

  /** The first branch leaves a live object in the region of p that points to a freed one. */
  lemma SiblingBreaks(o: nat -> nat)
    requires o(0) == 0
    ensures
      var st := State(map[0 := Obj(0, map[])], {0}, 1, 1, 0);
      && StateOk(SIBLING, st) && ArgsOk(SIBLING, ManyRegions, "f", [Ref(0)], st)
      && !Sheltered(Run(SIBLING, o, 0, "f", [Ref(0)], st).Final())
  {
    var st := State(map[0 := Obj(0, map[])], {0}, 1, 1, 0);
    SiblingRun(o, st);
    var end := Run(SIBLING, o, 0, "f", [Ref(0)], st).Final();
    assert LiveLoc(end, 2) && 0 in end.heap[2].fields && !PointerOk(end.heap, end.live, end.heap[2], 1);
  }
}
