/** Two small functions with right sitings: one that is accepted, and one on which the
    inference loop gives up before it has inferred everything. */
module RegionSitedPrograms {
  import opened RegionSyntax
  import opened RegionCheck
  import opened RegionSemantics
  import opened RegionAccepted
  import opened RegionPasses
  import opened RegionPlaces
  import opened RegionSteps
  import opened RegionStart
  import opened RegionTraces
  import opened RegionSiting
  import opened RegionAcceptance
  import opened RegionSitedPass
  import opened RegionLearning
  import opened RegionInferred
  import opened RegionRounds
  import opened Collections
  import opened Machine
  import opened Results

  // ----- storing and returning literals -----

  const INNER := Obj0(1)
  const OUTER := Lit(StructLit, 0, [INNER])
  const PUT := Store(Var("p"), 0, OUTER)
  const GIVE := Return(Obj0(2))

  /** put(p): p.inner = S{T{}}; return U{} */
  const PUTTING := FuncDecl([Param("p", CompositeTy, false)], [PUT, GIVE])

  const PUT_PARSED := Specs(map["p" := Of("p")], map[0 := LOCAL, 1 := LOCAL, 2 := LOCAL], NONE)

  const PUT_NODES: seq<Node> := [StmtNode(PUT), ExprNode(Var("p")), ExprNode(OUTER), ExprNode(INNER), StmtNode(GIVE), ExprNode(Obj0(2))]

  function PutCase(): Case {
    Case(map["put" := PUTTING], PUTTING, PUT_PARSED, {},
         Siting(map["p" := OuterSite], _ => OuterSite, _ => OuterSite, _ => true, _ => false))
  }

  lemma OuterNodes()
    ensures NodesS(PUT) == [StmtNode(PUT), ExprNode(Var("p")), ExprNode(OUTER), ExprNode(INNER)]
  {
    assert [INNER][1..] == [] && NodesEs([INNER]) == [ExprNode(INNER)];
    assert NodesE(OUTER) == [ExprNode(OUTER), ExprNode(INNER)];
  }

  lemma PutNodes()
    ensures NodesB(PUTTING.body) == PUT_NODES && DeclaredB(PUTTING.body) == []
  {
    OuterNodes();
    NodesTwo(PUT, GIVE);
    DeclaredTwo(PUT, GIVE);
    assert NodesS(GIVE) == [StmtNode(GIVE), ExprNode(Obj0(2))];
  }

  lemma PutNodesSited()
    ensures forall nd :: nd in PUT_NODES ==> NodeSited(PutCase(), nd)
  {
    var c := PutCase();
    assert NodeSited(c, ExprNode(INNER)) && NodeSited(c, ExprNode(Obj0(2)));
    assert ElementSited(c, OUTER, INNER);
  }

  lemma PutIsSited()
    ensures Sited(PutCase())
  {
    hide NodeSited, OwnTags, OneParent, Initial, Unvisited;
    PutNodes();
    PutInitial();
    PutIsTree();
    PutNodesSited();
  }

  lemma PutInitial()
    ensures Initial(PUTTING, PUT_PARSED) && TableNames(PUTTING) == {"p"}
  {
    PutNodes();
    InitialOne(PUTTING, Param("p", CompositeTy, false), PUT_PARSED);
  }

  function PutPlace(t: Tag): (Node, int) {
    if t == LitTag(0) then (StmtNode(PUT), 1)
    else if t == LitTag(1) then (ExprNode(OUTER), 0)
    else (StmtNode(GIVE), 0)
  }

  lemma PutIsTree()
    ensures OwnTags(PUT_NODES) && OneParent(PUT_NODES)
  {
    forall a, i | a in PUT_NODES && 0 <= i < |Operands(a)| && TagOf(Operands(a)[i]) != NoTag
      ensures PutPlace(TagOf(Operands(a)[i])) == (a, i)
    {
    }
    forall a, b, i: nat, j: nat | SameOperand(PUT_NODES, a, i, b, j)
      ensures a == b && i == j
    {
      assert PutPlace(TagOf(Operands(a)[i])) == (a, i) && PutPlace(TagOf(Operands(b)[j])) == (b, j);
    }
  }

  lemma PutLearns(nd: Node)
    requires nd == StmtNode(PUT) || nd == StmtNode(GIVE)
    ensures
      var c := PutCase();
      var r := Pass(c.funcs, {}, PUTTING.params, PUT_PARSED, PUT_NODES);
      r.Ok? && Below(c, PUT_PARSED, r.value) && Learned(c, r.value, nd)
  {
    var c := PutCase();
    PutIsSited();
    PutNodes();
    ParsedBelow(c);
    assert Informed(c, PUT_PARSED, nd);
    hide Sited, Below, Learned, Informed;
    PassLearns(c, PUT_PARSED, PUT_NODES, nd);
  }

  lemma PutArrived(T: Specs)
    requires Learned(PutCase(), T, StmtNode(PUT)) && Learned(PutCase(), T, StmtNode(GIVE))
    ensures LitThere(PutCase(), T, 0) && LitThere(PutCase(), T, 2)
  {
  }

  lemma OuterGiven()
    ensures IsGiven(PutCase(), OUTER)
  {
    PutNodes();
  }

  lemma PutInner(T: Specs)
    requires Spread(PutCase(), T) && T.LitAt(0).src == ForeignSrc
    ensures LitThere(PutCase(), T, 1)
  {
    OuterGiven();
    hide Tells, IsGiven;
    InElems([INNER], INNER);
    assert 1 in LitIds(OUTER);
  }

  lemma PutMoves(T: Specs)
    requires Below(PutCase(), PUT_PARSED, T) && Learned(PutCase(), T, StmtNode(PUT)) && Learned(PutCase(), T, StmtNode(GIVE))
    ensures T.LitAt(0).src == ForeignSrc && T.LitAt(1).src == ForeignSrc && T.LitAt(2).src == ForeignSrc
  {
    hide Learned, NamesBelow, LitsBelow, CallsBelow, Spread;
    PutArrived(T);
    PutInner(T);
  }

  /** One pass accepts it and moves all three literals out of the local region. */
  lemma PutIsAccepted()
    ensures
      var r := Pass(PutCase().funcs, {}, PUTTING.params, PUT_PARSED, NodesB(PUTTING.body));
      r.Ok? && r.value.LitAt(0).src == ForeignSrc && r.value.LitAt(1).src == ForeignSrc && r.value.LitAt(2).src == ForeignSrc
  {
    PutNodes();
    hide Pass, Below, Learned;
    PutLearns(StmtNode(PUT));
    PutLearns(StmtNode(GIVE));
    PutMoves(Pass(PutCase().funcs, {}, PUTTING.params, PUT_PARSED, PUT_NODES).value);
  }

  // ----- an element of a call's result -----

  const FETCHED := Call(0, "pick", [Var("q")], false, CompositeTy)
  const LAST := Pop(1, FETCHED, CompositeTy)
  const TAKE := Declare("x", LAST)
  const BACK := Return(Var("q"))

  /** pick(q): x := pick(q).pop(); return q */
  const PICKING := FuncDecl([Param("q", CompositeTy, false)], [TAKE, BACK])
  const PICK: Funcs := map["pick" := PICKING]

  const PICK_PARSED := Specs(map["q" := Of("q"), "x" := UNKNOWN], NONE, NONE)

  const PICK_NODES: seq<Node> := [
    StmtNode(TAKE), ExprNode(LAST), ExprNode(FETCHED), ExprNode(Var("q")), ExprNode(Var("x")), StmtNode(BACK), ExprNode(Var("q"))]

  function PickCase(): Case {
    Case(PICK, PICKING, PICK_PARSED, {},
         Siting(map["q" := OuterSite, "x" := OuterSite], _ => LocalSite, _ => OuterSite, _ => false, _ => false))
  }

  /** The call is known one round before the element, that one before the variable. */
  function PickTimes(): Times {
    Times(x => if x == "x" then 3 else 0, _ => 0, i => if i == 0 then 1 else 2)
  }

  lemma TakeNodes()
    ensures NodesS(TAKE) == [StmtNode(TAKE), ExprNode(LAST), ExprNode(FETCHED), ExprNode(Var("q")), ExprNode(Var("x"))]
  {
    assert NodesEs([Var("q")]) == [ExprNode(Var("q"))];
    assert NodesE(FETCHED) == [ExprNode(FETCHED), ExprNode(Var("q"))];
    assert NodesE(LAST) == [ExprNode(LAST), ExprNode(FETCHED), ExprNode(Var("q"))];
  }

  lemma PickNodes()
    ensures NodesB(PICKING.body) == PICK_NODES && DeclaredB(PICKING.body) == ["x"]
  {
    TakeNodes();
    NodesTwo(TAKE, BACK);
    DeclaredTwo(TAKE, BACK);
    assert NodesS(BACK) == [StmtNode(BACK), ExprNode(Var("q"))];
  }

  lemma PickArgs()
    ensures CallArgs(PICK, FETCHED) == [Var("q")] && Compared(PickCase(), FETCHED) == [Var("q")]
  {
    assert [Var("q")][1..] == [] && AllocatedArgs([], []) == [];
    assert AllocatedArgs(PICKING.params, [Var("q")]) == [Var("q")];
    ComparedIsCallArgs(PickCase(), FETCHED);
  }

  function PickPlace(t: Tag): (Node, int) {
    if t == CallTag(0) then (ExprNode(LAST), 0) else (StmtNode(TAKE), 0)
  }

  lemma PickIsTree()
    ensures OwnTags(PICK_NODES) && OneParent(PICK_NODES)
  {
    forall a, i | a in PICK_NODES && 0 <= i < |Operands(a)| && TagOf(Operands(a)[i]) != NoTag
      ensures PickPlace(TagOf(Operands(a)[i])) == (a, i)
    {
    }
    forall a, b, i: nat, j: nat | SameOperand(PICK_NODES, a, i, b, j)
      ensures a == b && i == j
    {
      assert PickPlace(TagOf(Operands(a)[i])) == (a, i) && PickPlace(TagOf(Operands(b)[j])) == (b, j);
    }
  }

  lemma PickNodesSited()
    ensures forall nd :: nd in PICK_NODES ==> NodeSited(PickCase(), nd)
  {
    PickArgs();
    var c := PickCase();
    assert ArgsSited(c, [Var("q")], OuterSite);
    assert NodeSited(c, ExprNode(FETCHED)) && NodeSited(c, ExprNode(LAST));
    assert NodeSited(c, StmtNode(TAKE)) && NodeSited(c, StmtNode(BACK));
  }

  lemma PickNodesOnTime()
    ensures forall nd :: nd in PICK_NODES ==> OnTime(PickCase(), PickTimes(), nd)
  {
    PickArgs();
    assert OnTime(PickCase(), PickTimes(), ExprNode(FETCHED));
  }

  lemma PickOrdered()
    ensures Ordered(PickCase(), PickTimes())
  {
    hide OnTime;
    PickNodes();
    PickNodesOnTime();
  }

  lemma PickIsSited()
    ensures Sited(PickCase())
  {
    hide NodeSited, OwnTags, OneParent, Initial, Unvisited;
    PickNodes();
    PickInitial();
    PickIsTree();
    PickNodesSited();
  }

  lemma PickInitial()
    ensures Initial(PICKING, PICK_PARSED) && TableNames(PICKING) == {"q", "x"}
  {
    PickNodes();
    InitialOne(PICKING, Param("q", CompositeTy, false), PICK_PARSED);
  }

  function PickSpecs(call: map<nat, Spec>): Specs { Specs(PICK_PARSED.tab, NONE, call) }

  lemma PickCall(call: map<nat, Spec>)
    ensures
      var S := PickSpecs(call);
      VisitExpr(PICK, {}, S, FETCHED) == Ok(S.SetCall(0, Of("q")))
  {
    var S := PickSpecs(call);
    PickArgs();
    assert MarkForeign(S, PICKING.params, [Var("q")]) == S by { assert [Var("q")][1..] == []; }
    assert !([Var("q")][0].Lit?) && FirstNonLiteral([Var("q")]) == Var("q");
    assert SameRegion(S, [Var("q")]) == Ok((Of("q"), S));
  }

  function PickAfter(call: map<nat, Spec>): map<nat, Spec> {
    if 0 in call && Complete(call[0]) then call[1 := call[0]] else call
  }

  lemma PickHead(call: map<nat, Spec>)
    requires 1 !in call || call[1] == UNKNOWN
    ensures Visit(PICK, {}, PICKING.params, PickSpecs(call), StmtNode(TAKE)) == Ok(PickSpecs(call))
    ensures Visit(PICK, {}, PICKING.params, PickSpecs(call), ExprNode(LAST)) == Ok(PickSpecs(PickAfter(call)))
  {
  }

  /** The declaration comes before the element, and the element before the call. */
  lemma PickPass(call: map<nat, Spec>)
    requires 1 !in call || call[1] == UNKNOWN
    ensures Pass(PICK, {}, PICKING.params, PickSpecs(call), PICK_NODES) == Ok(PickSpecs(PickAfter(call)[0 := Of("q")]))
  {
    var S, after := PickSpecs(call), PickAfter(call);
    var b := [ExprNode(Var("q")), ExprNode(Var("x")), StmtNode(BACK), ExprNode(Var("q"))];
    PickHead(call);
    PickCall(after);
    assert PickSpecs(after).SetCall(0, Of("q")) == PickSpecs(after[0 := Of("q")]);
    PickQuiet(after[0 := Of("q")], b);
    assert Visit(PICK, {}, PICKING.params, PickSpecs(after), ExprNode(FETCHED)) == Ok(PickSpecs(after[0 := Of("q")]));
    hide Visit, Pass;
    assert PICK_NODES == [StmtNode(TAKE)] + [ExprNode(LAST)] + ([ExprNode(FETCHED)] + b);
    PassVia(PICK, {}, PICKING.params, S, [StmtNode(TAKE)], ExprNode(LAST), [ExprNode(FETCHED)] + b, PickSpecs(after));
    assert [ExprNode(FETCHED)] + b == [] + [ExprNode(FETCHED)] + b;
    PassOnce(PICK, {}, PICKING.params, PickSpecs(after), [], ExprNode(FETCHED), b, PickSpecs(after[0 := Of("q")]));
  }

  lemma PickQuiet(call: map<nat, Spec>, b: seq<Node>)
    requires b == [ExprNode(Var("q")), ExprNode(Var("x")), StmtNode(BACK), ExprNode(Var("q"))]
    ensures Unmoved(PICK, {}, PICKING.params, PickSpecs(call), b)
  {
    var S := PickSpecs(call);
    assert ImplicitSpec(S, PICKING.params) == Of("q");
    QuietAround(PICK, {}, PICKING.params, S, b, StmtNode(BACK));
  }

  lemma CountStep(S: Specs, nodes: seq<Node>, n: nat)
    requires nodes != [] && Unknowns(S, nodes[1..]) == Ok((n, S))
    requires nodes[0].ExprNode? && HasAllocSpec(nodes[0].e) ==> GetSpec(S, nodes[0].e).Ok? && GetSpec(S, nodes[0].e).value.1 == S
    ensures
      Unknowns(S, nodes) ==
      Ok((if nodes[0].ExprNode? && HasAllocSpec(nodes[0].e) && !Complete(GetSpec(S, nodes[0].e).value.0) then n + 1 else n, S))
  {
  }

  /** The variable alone is counted: the element is no node with a spec of its own. */
  lemma PickCount(call: map<nat, Spec>)
    requires 0 in call && call[0] == Of("q")
    ensures Unknowns(PickSpecs(call), PICK_NODES) == Ok((1, PickSpecs(call)))
  {
    var S := PickSpecs(call);
    var q, x := ExprNode(Var("q")), ExprNode(Var("x"));
    assert Unknowns(S, []) == Ok((0, S));
    CountStep(S, [q], 0);
    CountStep(S, [StmtNode(BACK), q], 0);
    assert [StmtNode(BACK), q][1..] == [q];
    CountStep(S, [x, StmtNode(BACK), q], 0);
    CountStep(S, [q, x, StmtNode(BACK), q], 1);
    CountStep(S, [ExprNode(FETCHED), q, x, StmtNode(BACK), q], 1);
    CountStep(S, [ExprNode(LAST), ExprNode(FETCHED), q, x, StmtNode(BACK), q], 1);
    CountStep(S, PICK_NODES, 1);
  }

  function PickInfo(call: map<nat, Spec>): map<Name, Specs> { map["pick" := PickSpecs(call)] }

  lemma OneFunction(safe: set<Name>, call: map<nat, Spec>)
    ensures Listed(PICK, PickInfo(call), ["pick"])
    ensures PassAll(PICK, safe, PickInfo(call), ["pick"]) ==
      match BodyPass(PICK, safe, PickInfo(call), "pick") { case Err(m) => Err(m) case Ok(S) => Ok(map["pick" := S]) }
    ensures CountAll(PICK, PickInfo(call), ["pick"]) ==
      match BodyUnknowns(PICK, PickInfo(call), "pick") { case Err(m) => Err(m) case Ok((n, S)) => Ok((n, map["pick" := S])) }
  {
    assert ["pick"][1..] == [];
    assert forall S: Specs :: PickInfo(call)["pick" := S] == map["pick" := S];
  }

  lemma PickRound(call: map<nat, Spec>)
    requires 1 !in call || call[1] == UNKNOWN
    ensures Listed(PICK, PickInfo(call), ["pick"])
    ensures Round(PICK, {}, ["pick"], PickInfo(call)) == Ok((1, PickInfo(PickAfter(call)[0 := Of("q")])))
  {
    var after := PickAfter(call)[0 := Of("q")];
    PickNodes();
    PickPass(call);
    PickCount(after);
    OneFunction({}, call);
    OneFunction({}, after);
  }

  lemma PickFirstPass()
    ensures Pass(PICK, {"pick"}, PICKING.params, PickSpecs(NONE), PICK_NODES) == Ok(PickSpecs(NONE))
  {
    var S := PickSpecs(NONE);
    assert ImplicitSpec(S, PICKING.params) == Of("q");
    forall nd | nd in PICK_NODES
      ensures Visit(PICK, {"pick"}, PICKING.params, S, nd) == Ok(S)
    {
    }
    PassUnmoved(PICK, {"pick"}, PICKING.params, S, PICK_NODES);
  }

  /** The first pass takes pick for region-safe and learns nothing; it is not. */
  lemma PickFirst()
    ensures Listed(PICK, PickInfo(NONE), ["pick"])
    ensures PassAll(PICK, Elements(["pick"]), PickInfo(NONE), ["pick"]) == Ok(PickInfo(NONE))
    ensures Greatest(PICK, PickInfo(NONE), Elements(["pick"]), {})
  {
    PickNodes();
    PickFirstPass();
    assert Elements(["pick"]) == {"pick"};
    OneFunction({"pick"}, NONE);
    PickUnsafe();
  }

  lemma PickUnsafe()
    ensures Greatest(PICK, PickInfo(NONE), {"pick"}, {})
  {
    PickNodes();
    assert StmtNode(BACK) in NodesB(PICK["pick"].body);
    forall other | other <= {"pick"} && SelfSafe(PICK, PickInfo(NONE), other)
      ensures other <= {}
    {
      UnsafeIsOut(PICK, PickInfo(NONE), other, "pick");
    }
  }

  lemma PickUncounted()
    ensures !Counted(PickCase())
  {
    PickNodes();
    assert !CountedNode(PickCase(), ExprNode(LAST)) && ExprNode(LAST) in PICK_NODES;
  }

  lemma PickInference()
    ensures Listed(PICK, PickInfo(NONE), ["pick"]) && InferAll(PICK, {}, ["pick"], PickInfo(NONE), SIZE_MAX) == Err(UNINFERRED)
  {
    PickRound(NONE);
    var one := map[0 := Of("q")];
    assert NONE[0 := Of("q")] == one;
    PickRound(one);
    hide PassAll, CountAll;
    assert InferAll(PICK, {}, ["pick"], PickInfo(one), 1) == Err(UNINFERRED);
  }

  /** Where the loop gives up on the classification of the first pass, nothing is accepted. */
  lemma GivenUp(funcs: Funcs, order: seq<Name>, start: map<Name, Specs>, first: map<Name, Specs>, safe: set<Name>)
    requires Listed(funcs, start, order) && PassAll(funcs, Elements(order), start, order) == Ok(first)
    requires Listed(funcs, first, order) && Greatest(funcs, first, Elements(order), safe)
    requires InferAll(funcs, safe, order, first, SIZE_MAX).Err?
    ensures forall f, s, g :: !Driven(funcs, order, start, f, s, g)
  {
    hide InferAll, PassAll, Greatest, PostAll;
    forall f, s, g | Driven(funcs, order, start, f, s, g)
      ensures false
    {
      GreatestUnique(funcs, first, Elements(order), s, safe);
    }
  }

  /** `pick` has a right siting in which each place can be told from earlier ones, but the
      driver refuses it: in the round that finds out about `pick(q).pop()` the number of
      unknown specs does not fall, since an element taken from a vector is not counted. */
  lemma PickIsRefused()
    ensures Sited(PickCase()) && Ordered(PickCase(), PickTimes()) && !Counted(PickCase())
    ensures Listed(PICK, PickInfo(NONE), ["pick"]) && InferAll(PICK, {}, ["pick"], PickInfo(NONE), SIZE_MAX) == Err(UNINFERRED)
    ensures forall f, s, g :: !Driven(PICK, ["pick"], PickInfo(NONE), f, s, g)
  {
    hide Sited, Ordered, Counted, Greatest, InferAll, PassAll;
    PickUncounted();
    PickIsSited();
    PickOrdered();
    PickFirst();
    PickInference();
    GivenUp(PICK, ["pick"], PickInfo(NONE), PickInfo(NONE), {});
  }
}
