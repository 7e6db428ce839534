/** Two ways a region-safe function, whose arguments may lie in many regions, gets one name
    for values of two of them: rebinding a name, and a ternary. */
module RegionSafeFunctions {
  import opened RegionSyntax
  import opened RegionCheck
  import opened RegionSemantics
  import opened RegionAccepted
  import opened RegionPasses
  import opened RegionSoundness
  import opened RegionStart
  import opened RegionTraces
  import opened Collections
  import opened Results

  const TWO_PARAMS: seq<Param> := [Param("p", CompositeTy, false), Param("q", CompositeTy, false)]

  /** Two parameters and one local, x. */
  function LocalSpecs(x: Spec): Specs {
    Specs(map["p" := Of("p"), "q" := Of("q"), "x" := x], NONE, NONE)
  }

  const ONE_FUNCTION := History(["f"], map["f" := LocalSpecs(UNKNOWN)], map["f" := LocalSpecs(Of("p"))])

  const TWO_OBJECTS := State(map[0 := Obj(0, map[]), 1 := Obj(1, map[])], {0, 1}, 2, 2, 0)

  /** A program of one function that ends with x in the region of p after the first pass. */
  ghost predicate OneSafe(p: Prog) {
    && p.funcs.Keys == {"f"} && p.info == map["f" := LocalSpecs(Of("p"))] && p.safe == {"f"} && p.globals == map[]
    && p.funcs["f"].params == TWO_PARAMS && DeclaredB(p.funcs["f"].body) == ["x"]
  }

  /** If the first pass gives x the region of p, which nothing changes again, the driver accepts. */
  lemma OneSafeDriven(p: Prog)
    requires OneSafe(p) && FunctionChecked(p, "f")
    requires Pass(p.funcs, {"f"}, TWO_PARAMS, LocalSpecs(UNKNOWN), NodesB(p.funcs["f"].body)) == Ok(LocalSpecs(Of("p")))
    ensures DrivenTo(p, ONE_FUNCTION) && CheckedEverywhere(p)
  {
    CheckedEnds(p, "f");
    assert Elements(["f"]) == {"f"};
    OneSafeStart(p);
    assert FunctionDriven(p, ONE_FUNCTION, "f");
    assert SafeBody(p.funcs, {"f"}, LocalSpecs(Of("p")), p.funcs["f"].body) by {
      forall nd | nd in NodesB(p.funcs["f"].body)
        ensures SafeNode(p.funcs, {"f"}, LocalSpecs(Of("p")), nd)
      {
        assert NodeChecked(p, "f", nd);
      }
    }
    assert Greatest(p.funcs, ONE_FUNCTION.first, {"f"}, {"f"});
    OneRound(p, ONE_FUNCTION);
  }

  lemma OneSafeStart(p: Prog)
    requires OneSafe(p)
    ensures Initial(p.funcs["f"], LocalSpecs(UNKNOWN))
  {
    InitialTwo(p.funcs["f"], TWO_PARAMS[0], TWO_PARAMS[1], LocalSpecs(UNKNOWN));
  }

  // ----- rebinding -----

  const X_IS_P := Declare("x", Var("p"))
  const X_TO_Q := Assign("x", Var("q"))
  const X_GETS_P := Store(Var("x"), 0, Var("p"))

  /** f(p, q): x := p; x = q; x.f = p, classified region-safe */
  const SAFE_REBINDING := Prog(
    map["f" := FuncDecl(TWO_PARAMS, [X_IS_P, X_TO_Q, X_GETS_P])], map["f" := LocalSpecs(Of("p"))], {"f"}, map[])

  const SAFE_REBINDING_NODES: seq<Node> :=
    [StmtNode(X_IS_P), ExprNode(Var("p")), ExprNode(Var("x")),
     StmtNode(X_TO_Q), ExprNode(Var("q")), ExprNode(Var("x")),
     StmtNode(X_GETS_P), ExprNode(Var("x")), ExprNode(Var("p"))]

  lemma SafeRebindingNodes()
    ensures NodesB(SAFE_REBINDING.funcs["f"].body) == SAFE_REBINDING_NODES
  {
    assert [X_IS_P, X_TO_Q, X_GETS_P] == [X_IS_P] + [X_TO_Q, X_GETS_P];
    NodesCons(X_IS_P, [X_TO_Q, X_GETS_P]);
    NodesTwo(X_TO_Q, X_GETS_P);
    assert NodesS(X_IS_P) == [StmtNode(X_IS_P), ExprNode(Var("p")), ExprNode(Var("x"))];
    assert NodesS(X_TO_Q) == [StmtNode(X_TO_Q), ExprNode(Var("q")), ExprNode(Var("x"))];
    assert NodesS(X_GETS_P) == [StmtNode(X_GETS_P), ExprNode(Var("x")), ExprNode(Var("p"))];
  }

  lemma SafeRebindingNode(nd: Node)
    requires nd in SAFE_REBINDING_NODES
    ensures NodeChecked(SAFE_REBINDING, "f", nd)
  {
    SetSame(LocalSpecs(Of("p")), "x");
  }

  lemma SafeRebindingFirst()
    ensures Pass(SAFE_REBINDING.funcs, {"f"}, TWO_PARAMS, LocalSpecs(UNKNOWN), SAFE_REBINDING_NODES) == Ok(LocalSpecs(Of("p")))
  {
    var p, S, T := SAFE_REBINDING, LocalSpecs(UNKNOWN), LocalSpecs(Of("p"));
    assert S.SetName("x", Of("p")) == T;
    var rest := SAFE_REBINDING_NODES[1..];
    assert SAFE_REBINDING_NODES == [] + [StmtNode(X_IS_P)] + rest;
    forall nd | nd in rest
      ensures Visit(p.funcs, {"f"}, TWO_PARAMS, T, nd) == Ok(T)
    {
      SafeRebindingNode(nd);
    }
    PassOnce(p.funcs, {"f"}, TWO_PARAMS, S, [], StmtNode(X_IS_P), rest, T);
  }

  lemma SafeRebindingDeclares()
    ensures OneSafe(SAFE_REBINDING)
  {
    assert [X_IS_P, X_TO_Q, X_GETS_P][1..] == [X_TO_Q, X_GETS_P];
    DeclaredTwo(X_TO_Q, X_GETS_P);
  }

  lemma SafeRebindingDriven()
    ensures DrivenTo(SAFE_REBINDING, ONE_FUNCTION) && CheckedEverywhere(SAFE_REBINDING)
  {
    SafeRebindingNodes();
    forall nd | nd in NodesB(SAFE_REBINDING.funcs["f"].body)
      ensures NodeChecked(SAFE_REBINDING, "f", nd)
    {
      SafeRebindingNode(nd);
    }
    SafeRebindingFirst();
    SafeRebindingDeclares();
    OneSafeDriven(SAFE_REBINDING);
  }

  /** The body of f stores p into the object its rebound local now names. */
  lemma SafeRebindingBody(o: nat -> nat, st1: State)
    requires st1 == TWO_OBJECTS.(live := {0, 1, 2}, nextRegion := 3)
    ensures
      var env := map["p" := Ref(0), "q" := Ref(1)];
      ExecAll(SAFE_REBINDING, o, 0, Frame("f", env, 2), st1, [X_IS_P, X_TO_Q, X_GETS_P])
      == Done(Next(env["x" := Ref(0)]["x" := Ref(1)]), Write(1, 0, Ref(0), st1))
  {
    var p := SAFE_REBINDING;
    assert [X_IS_P, X_TO_Q, X_GETS_P] == [X_IS_P] + ([X_TO_Q] + [X_GETS_P]);
    var env0 := map["p" := Ref(0), "q" := Ref(1)];
    var env1 := env0["x" := Ref(0)];
    var env2 := env1["x" := Ref(1)];
    var fr := Frame("f", env0, 2);
    ExecCons(p, o, 0, fr, st1, X_IS_P, [X_TO_Q] + [X_GETS_P], env1, st1);
    ExecCons(p, o, 0, fr.(env := env1), st1, X_TO_Q, [X_GETS_P], env2, st1);
    var fr2 := fr.(env := env2);
    assert Exec(p, o, 0, fr2, st1, X_GETS_P) == Done(Next(env2), Write(1, 0, Ref(0), st1));
    ExecLast(p, o, 0, fr2, st1, X_GETS_P, env2, Write(1, 0, Ref(0), st1));
  }

  lemma TwoObjectsOk(p: Prog)
    requires OneSafe(p)
    ensures StateOk(p, TWO_OBJECTS) && ArgsOk(p, ManyRegions, "f", [Ref(0), Ref(1)], TWO_OBJECTS)
  {
  }

  /** A call of f that leaves object 1 pointing to object 0. */
  lemma CrossPointer(p: Prog, o: nat -> nat, env: map<Name, Value>, end: State)
    requires OneSafe(p) && end.heap == Write(1, 0, Ref(0), TWO_OBJECTS).heap && end.live == {0, 1, 2}
    requires
      ExecAll(p, o, 0, Frame("f", map["p" := Ref(0), "q" := Ref(1)], 2),
              TWO_OBJECTS.(live := {0, 1, 2}, nextRegion := 3), p.funcs["f"].body) == Done(Next(env), end)
    ensures !Confined(Run(p, o, 0, "f", [Ref(0), Ref(1)], TWO_OBJECTS).Final())
  {
    assert TWO_OBJECTS.live + {2} == {0, 1, 2};
    assert Bind(TWO_PARAMS[1..], [Ref(1)]) == map["q" := Ref(1)];
    assert [Ref(0), Ref(1)][1..] == [Ref(1)];
    assert Bind(TWO_PARAMS, [Ref(0), Ref(1)]) == map["p" := Ref(0), "q" := Ref(1)];
    RunOf(p, o, 0, "f", [Ref(0), Ref(1)], TWO_OBJECTS, map["p" := Ref(0), "q" := Ref(1)], Next(env), end);
    var out := Run(p, o, 0, "f", [Ref(0), Ref(1)], TWO_OBJECTS).Final();
    assert LiveLoc(out, 1) && 0 in out.heap[1].fields;
  }

  lemma SafeRebindingBreaks(o: nat -> nat)
    ensures StateOk(SAFE_REBINDING, TWO_OBJECTS) && ArgsOk(SAFE_REBINDING, ManyRegions, "f", [Ref(0), Ref(1)], TWO_OBJECTS)
    ensures !Confined(Run(SAFE_REBINDING, o, 0, "f", [Ref(0), Ref(1)], TWO_OBJECTS).Final())
  {
    SafeRebindingDeclares();
    TwoObjectsOk(SAFE_REBINDING);
    var st1 := TWO_OBJECTS.(live := {0, 1, 2}, nextRegion := 3);
    SafeRebindingBody(o, st1);
    assert map["p" := Ref(0), "q" := Ref(1)]["x" := Ref(0)]["x" := Ref(1)] == map["p" := Ref(0), "q" := Ref(1), "x" := Ref(1)];
    CrossPointer(SAFE_REBINDING, o, map["p" := Ref(0), "q" := Ref(1), "x" := Ref(1)], Write(1, 0, Ref(0), st1));
  }

  // ----- a ternary -----

  const P_OR_Q := Ternary(Prim, Var("p"), Var("q"), CompositeTy)
  const X_IS_EITHER := Declare("x", P_OR_Q)

  /** f(p, q): x := c ? p : q; x.f = p, classified region-safe: the ternary has the region of p */
  const SAFE_TERNARY := Prog(
    map["f" := FuncDecl(TWO_PARAMS, [X_IS_EITHER, X_GETS_P])], map["f" := LocalSpecs(Of("p"))], {"f"}, map[])

  const SAFE_TERNARY_NODES: seq<Node> :=
    [StmtNode(X_IS_EITHER), ExprNode(P_OR_Q), ExprNode(Prim), ExprNode(Var("p")), ExprNode(Var("q")), ExprNode(Var("x")),
     StmtNode(X_GETS_P), ExprNode(Var("x")), ExprNode(Var("p"))]

  lemma SafeTernaryNodes()
    ensures NodesB(SAFE_TERNARY.funcs["f"].body) == SAFE_TERNARY_NODES
  {
    NodesTwo(X_IS_EITHER, X_GETS_P);
    assert NodesE(P_OR_Q) == [ExprNode(P_OR_Q), ExprNode(Prim), ExprNode(Var("p")), ExprNode(Var("q"))];
    assert NodesS(X_IS_EITHER) == [StmtNode(X_IS_EITHER)] + (NodesE(P_OR_Q) + [ExprNode(Var("x"))]);
    assert NodesS(X_GETS_P) == [StmtNode(X_GETS_P), ExprNode(Var("x")), ExprNode(Var("p"))];
  }

  lemma SafeTernaryRead(S: Specs)
    requires S.tab.Keys == {"p", "q", "x"} && S.tab["p"] == Of("p") && S.tab["q"] == Of("q")
    ensures GetSpec(S, P_OR_Q) == Ok((Of("p"), S))
  {
    assert GetSpec(S, Var("p")) == Ok((Of("p"), S)) && GetSpec(S, Var("q")) == Ok((Of("q"), S));
  }

  lemma SafeTernaryNode(nd: Node)
    requires nd in SAFE_TERNARY_NODES
    ensures NodeChecked(SAFE_TERNARY, "f", nd)
  {
    SafeTernaryRead(LocalSpecs(Of("p")));
    if nd == StmtNode(X_IS_EITHER) {
      SetSame(LocalSpecs(Of("p")), "x");
    }
  }

  lemma SafeTernaryFirst()
    ensures Pass(SAFE_TERNARY.funcs, {"f"}, TWO_PARAMS, LocalSpecs(UNKNOWN), SAFE_TERNARY_NODES) == Ok(LocalSpecs(Of("p")))
  {
    var p, S, T := SAFE_TERNARY, LocalSpecs(UNKNOWN), LocalSpecs(Of("p"));
    SafeTernaryRead(S);
    assert S.SetName("x", Of("p")) == T;
    var rest := SAFE_TERNARY_NODES[1..];
    assert SAFE_TERNARY_NODES == [] + [StmtNode(X_IS_EITHER)] + rest;
    forall nd | nd in rest
      ensures Visit(p.funcs, {"f"}, TWO_PARAMS, T, nd) == Ok(T)
    {
      SafeTernaryNode(nd);
    }
    PassOnce(p.funcs, {"f"}, TWO_PARAMS, S, [], StmtNode(X_IS_EITHER), rest, T);
  }

  lemma SafeTernaryDriven()
    ensures DrivenTo(SAFE_TERNARY, ONE_FUNCTION) && CheckedEverywhere(SAFE_TERNARY)
  {
    SafeTernaryNodes();
    forall nd | nd in NodesB(SAFE_TERNARY.funcs["f"].body)
      ensures NodeChecked(SAFE_TERNARY, "f", nd)
    {
      SafeTernaryNode(nd);
    }
    SafeTernaryFirst();
    DeclaredTwo(X_IS_EITHER, X_GETS_P);
    OneSafeDriven(SAFE_TERNARY);
  }

  lemma SafeTernaryBody(o: nat -> nat, st1: State)
    requires st1 == TWO_OBJECTS.(live := {0, 1, 2}, nextRegion := 3) && o(0) != 0
    ensures
      var env := map["p" := Ref(0), "q" := Ref(1)];
      ExecAll(SAFE_TERNARY, o, 0, Frame("f", env, 2), st1, [X_IS_EITHER, X_GETS_P])
      == Done(Next(env["x" := Ref(1)]), Write(1, 0, Ref(0), st1.(pos := 1)))
  {
    var p := SAFE_TERNARY;
    assert [X_IS_EITHER, X_GETS_P] == [X_IS_EITHER] + [X_GETS_P];
    var env := map["p" := Ref(0), "q" := Ref(1)];
    var env1 := env["x" := Ref(1)];
    var fr, st2 := Frame("f", env, 2), st1.(pos := 1);
    assert Eval(p, o, 0, fr, st1, P_OR_Q) == Done(Ref(1), st2);
    ExecCons(p, o, 0, fr, st1, X_IS_EITHER, [X_GETS_P], env1, st2);
    assert Exec(p, o, 0, fr.(env := env1), st2, X_GETS_P) == Done(Next(env1), Write(1, 0, Ref(0), st2));
    ExecLast(p, o, 0, fr.(env := env1), st2, X_GETS_P, env1, Write(1, 0, Ref(0), st2));
  }

  /** When the second branch is taken, x is q although its spec is that of p. */
  lemma SafeTernaryBreaks(o: nat -> nat)
    requires o(0) != 0
    ensures StateOk(SAFE_TERNARY, TWO_OBJECTS) && ArgsOk(SAFE_TERNARY, ManyRegions, "f", [Ref(0), Ref(1)], TWO_OBJECTS)
    ensures !Confined(Run(SAFE_TERNARY, o, 0, "f", [Ref(0), Ref(1)], TWO_OBJECTS).Final())
  {
    DeclaredTwo(X_IS_EITHER, X_GETS_P);
    TwoObjectsOk(SAFE_TERNARY);
    var st1 := TWO_OBJECTS.(live := {0, 1, 2}, nextRegion := 3);
    SafeTernaryBody(o, st1);
    CrossPointer(SAFE_TERNARY, o, map["p" := Ref(0), "q" := Ref(1), "x" := Ref(1)], Write(1, 0, Ref(0), st1.(pos := 1)));
  }
}
