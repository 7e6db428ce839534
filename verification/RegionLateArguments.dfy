/** A literal argument next to a call: everything is inferred in one round, which visits the
    arguments before the call among them, and the post-check refuses the literal it has left
    behind. */
module RegionLateArguments {
  import opened RegionSyntax
  import opened RegionCheck
  import opened RegionSemantics
  import opened RegionAccepted
  import opened RegionPasses
  import opened RegionPlaces
  import opened RegionStart
  import opened RegionTraces
  import opened RegionSiting
  import opened RegionAcceptance
  import opened RegionSitedPass
  import opened RegionRounds
  import opened RegionSitedPrograms
  import opened Collections
  import opened Machine
  import opened Results

  const KEEP := Store(Var("a"), 0, Var("b"))

  /** link(a, b): a.inner = b */
  const LINK := FuncDecl([Param("a", CompositeTy, false), Param("b", CompositeTy, false)], [KEEP])

  const SAME := Call(1, "late", [Var("q")], false, CompositeTy)
  const JOINED := Call(0, "link", [SAME, Obj0(0)], false, PrimTy)
  const RUN := Do(JOINED)
  const BACK_Q := Return(Var("q"))

  /** late(q): link(late(q), S{}); return q */
  const LATE := FuncDecl([Param("q", CompositeTy, false)], [RUN, BACK_Q])

  const FUNCS: Funcs := map["link" := LINK, "late" := LATE]
  const ORDER := ["link", "late"]

  const LINK_SPECS := Specs(map["a" := Of("a"), "b" := Of("b")], NONE, NONE)

  function LateSpecs(call: map<nat, Spec>): Specs { Specs(map["q" := Of("q")], map[0 := LOCAL], call) }

  const FOUND: map<nat, Spec> := map[1 := Of("q")]

  function Info(call: map<nat, Spec>): map<Name, Specs> { map["link" := LINK_SPECS, "late" := LateSpecs(call)] }

  const LINK_NODES: seq<Node> := [StmtNode(KEEP), ExprNode(Var("a")), ExprNode(Var("b"))]

  const LATE_NODES: seq<Node> := [
    StmtNode(RUN), ExprNode(JOINED), ExprNode(SAME), ExprNode(Var("q")), ExprNode(Obj0(0)), StmtNode(BACK_Q), ExprNode(Var("q"))]

  lemma RunNodes()
    ensures NodesS(RUN) == [StmtNode(RUN), ExprNode(JOINED), ExprNode(SAME), ExprNode(Var("q")), ExprNode(Obj0(0))]
  {
    assert NodesEs([Var("q")]) == [ExprNode(Var("q"))];
    assert NodesE(SAME) == [ExprNode(SAME), ExprNode(Var("q"))];
    assert NodesE(Obj0(0)) == [ExprNode(Obj0(0))];
    NodesPair(SAME, Obj0(0));
  }

  lemma LateNodes()
    ensures NodesB(LINK.body) == LINK_NODES && NodesB(LATE.body) == LATE_NODES
    ensures DeclaredB(LINK.body) == [] && DeclaredB(LATE.body) == []
  {
    RunNodes();
    NodesOne(KEEP);
    NodesTwo(RUN, BACK_Q);
    DeclaredTwo(RUN, BACK_Q);
    assert NodesS(BACK_Q) == [StmtNode(BACK_Q), ExprNode(Var("q"))];
  }

  // ----- right sitings -----

  function LinkCase(): Case {
    Case(FUNCS, LINK, LINK_SPECS, {},
         Siting(map["a" := OuterSite, "b" := OuterSite], _ => LocalSite, _ => OuterSite, _ => false, _ => false))
  }

  function LateCase(): Case {
    Case(FUNCS, LATE, LateSpecs(NONE), {},
         Siting(map["q" := OuterSite], _ => OuterSite, _ => OuterSite, _ => true, _ => false))
  }

  function LateTimes(): Times { Times(_ => 0, _ => 0, i => if i == 1 then 1 else 2) }

  lemma LinkInitial()
    ensures Initial(LINK, LINK_SPECS) && TableNames(LINK) == {"a", "b"}
  {
    LateNodes();
    InitialTwo(LINK, Param("a", CompositeTy, false), Param("b", CompositeTy, false), LINK_SPECS);
  }

  lemma LinkNodesFit()
    ensures forall nd :: nd in LINK_NODES ==> NodeSited(LinkCase(), nd) && OnTime(LinkCase(), LateTimes(), nd) && CountedNode(LinkCase(), nd)
    ensures OwnTags(LINK_NODES) && OneParent(LINK_NODES)
  {
    forall a, i | a in LINK_NODES && 0 <= i < |Operands(a)|
      ensures TagOf(Operands(a)[i]) == NoTag
    {
    }
    assert NodeSited(LinkCase(), StmtNode(KEEP));
  }

  lemma LinkIsSited()
    ensures Sited(LinkCase()) && Ordered(LinkCase(), LateTimes()) && Counted(LinkCase())
  {
    hide NodeSited, OnTime, CountedNode, OwnTags, OneParent, Initial, Unvisited;
    LateNodes();
    LinkInitial();
    LinkNodesFit();
    LinkFormed();
    hide WellFormed;
  }

  lemma LinkFormed()
    ensures WellFormed(LINK) && ParamsSited(LinkCase())
  {
    LateNodes();
    LinkInitial();
    LinkNodesFit();
    hide NodeSited, OnTime, CountedNode, OwnTags, OneParent, Initial, Unvisited;
  }

  lemma LateArgs()
    ensures Compared(LateCase(), JOINED) == CallArgs(FUNCS, JOINED) == [SAME, Obj0(0)]
    ensures Compared(LateCase(), SAME) == CallArgs(FUNCS, SAME) == [Var("q")]
  {
    assert [SAME, Obj0(0)][1..] == [Obj0(0)] && [Obj0(0)][1..] == [] && [Var("q")][1..] == [];
    assert LINK.params[1..] == [Param("b", CompositeTy, false)];
    assert AllocatedArgs(LINK.params[1..], [Obj0(0)]) == [Obj0(0)];
    assert AllocatedArgs(LATE.params, [Var("q")]) == [Var("q")];
    ComparedIsCallArgs(LateCase(), JOINED);
    ComparedIsCallArgs(LateCase(), SAME);
  }

  function LatePlace(t: Tag): (Node, int) {
    if t == CallTag(0) then (StmtNode(RUN), 0)
    else if t == CallTag(1) then (ExprNode(JOINED), 0)
    else (ExprNode(JOINED), 1)
  }

  lemma LateIsTree()
    ensures OwnTags(LATE_NODES) && OneParent(LATE_NODES)
  {
    forall a, i | a in LATE_NODES && 0 <= i < |Operands(a)| && TagOf(Operands(a)[i]) != NoTag
      ensures LatePlace(TagOf(Operands(a)[i])) == (a, i)
    {
    }
    forall a, b, i: nat, j: nat | SameOperand(LATE_NODES, a, i, b, j)
      ensures a == b && i == j
    {
      assert LatePlace(TagOf(Operands(a)[i])) == (a, i) && LatePlace(TagOf(Operands(b)[j])) == (b, j);
    }
  }

  lemma LateNodesSited()
    ensures forall nd :: nd in LATE_NODES ==> NodeSited(LateCase(), nd)
  {
    var c := LateCase();
    LateArgs();
    assert ArgsSited(c, [SAME, Obj0(0)], OuterSite) && ArgsSited(c, [Var("q")], OuterSite);
    assert NodeSited(c, ExprNode(JOINED)) && NodeSited(c, ExprNode(SAME));
    assert NodeSited(c, ExprNode(Obj0(0))) && NodeSited(c, StmtNode(BACK_Q));
  }

  lemma LateNodesOnTime()
    ensures forall nd :: nd in LATE_NODES ==> OnTime(LateCase(), LateTimes(), nd) && CountedNode(LateCase(), nd)
  {
    LateArgs();
    assert OnTime(LateCase(), LateTimes(), ExprNode(SAME));
  }

  lemma LateInitial()
    ensures Initial(LATE, LateSpecs(NONE)) && TableNames(LATE) == {"q"}
  {
    LateNodes();
    InitialOne(LATE, Param("q", CompositeTy, false), LateSpecs(NONE));
  }

  lemma LateParams()
    ensures ParamsSited(LateCase())
  {
  }

  lemma LateFormed()
    ensures WellFormed(LATE)
  {
    hide NodeSited, OwnTags, OneParent, Initial, Unvisited;
    LateNodes();
    LateInitial();
    LateIsTree();
  }

  lemma LateIsSited()
    ensures Sited(LateCase()) && Ordered(LateCase(), LateTimes()) && Counted(LateCase())
  {
    hide NodeSited, OnTime, CountedNode, WellFormed, Initial, Unvisited;
    LateNodes();
    LateInitial();
    LateFormed();
    LateParams();
    LateNodesSited();
    LateNodesOnTime();
  }

  // ----- the driver -----

  lemma LinkQuiet(safe: set<Name>)
    ensures Pass(FUNCS, safe, LINK.params, LINK_SPECS, LINK_NODES) == Ok(LINK_SPECS)
    ensures Unknowns(LINK_SPECS, LINK_NODES) == Ok((0, LINK_SPECS))
  {
    QuietAround(FUNCS, safe, LINK.params, LINK_SPECS, LINK_NODES, StmtNode(KEEP));
    PassUnmoved(FUNCS, safe, LINK.params, LINK_SPECS, LINK_NODES);
    NoneUnknown(LINK_SPECS, LINK_NODES);
  }

  lemma LateTail(safe: set<Name>, call: map<nat, Spec>, b: seq<Node>)
    requires b == [ExprNode(Var("q")), ExprNode(Obj0(0)), StmtNode(BACK_Q), ExprNode(Var("q"))]
    ensures Unmoved(FUNCS, safe, LATE.params, LateSpecs(call), b)
  {
    var S := LateSpecs(call);
    assert ImplicitSpec(S, LATE.params) == Of("q");
    assert Visit(FUNCS, safe, LATE.params, S, StmtNode(BACK_Q)) == Ok(S);
    assert Visit(FUNCS, safe, LATE.params, S, ExprNode(Obj0(0))) == Ok(S);
    QuietAroundTwo(FUNCS, safe, LATE.params, S, b, StmtNode(BACK_Q), ExprNode(Obj0(0)));
  }

  /** As long as every function is taken for region-safe, calls are passed over. */
  lemma LateFirst()
    ensures Pass(FUNCS, {"link", "late"}, LATE.params, LateSpecs(NONE), LATE_NODES) == Ok(LateSpecs(NONE))
  {
    var S, safe := LateSpecs(NONE), {"link", "late"};
    var a, b := [StmtNode(RUN), ExprNode(JOINED), ExprNode(SAME)], [ExprNode(Var("q")), ExprNode(Obj0(0)), StmtNode(BACK_Q), ExprNode(Var("q"))];
    assert Visit(FUNCS, safe, LATE.params, S, ExprNode(JOINED)) == Ok(S);
    assert Visit(FUNCS, safe, LATE.params, S, ExprNode(SAME)) == Ok(S);
    QuietAroundTwo(FUNCS, safe, LATE.params, S, a, ExprNode(JOINED), ExprNode(SAME));
    LateTail(safe, NONE, b);
    assert LATE_NODES == a + b;
    PassOver(FUNCS, safe, LATE.params, S, a, b);
    PassUnmoved(FUNCS, safe, LATE.params, S, b);
  }

  /** The outer call does not know yet where the inner one allocates. */
  lemma OuterCall()
    ensures VisitExpr(FUNCS, {}, LateSpecs(NONE), JOINED) == Ok(LateSpecs(NONE))
  {
    var S := LateSpecs(NONE);
    var args := [SAME, Obj0(0)];
    LateArgs();
    assert args[1..] == [Obj0(0)] && [Obj0(0)][1..] == [] && LINK.params[1..][1..] == [];
    assert MarkForeign(S, LINK.params, args) == S;
    assert !args[0].Lit? && FirstNonLiteral(args) == SAME;
    assert AlignArgs(S, [Obj0(0)], UNKNOWN) == Ok(S);
    assert SameRegion(S, args) == Ok((UNKNOWN, S));
  }

  lemma InnerCall()
    ensures VisitExpr(FUNCS, {}, LateSpecs(NONE), SAME) == Ok(LateSpecs(FOUND))
  {
    var S := LateSpecs(NONE);
    LateArgs();
    assert MarkForeign(S, LATE.params, [Var("q")]) == S by { assert [Var("q")][1..] == []; }
    assert !([Var("q")][0].Lit?) && FirstNonLiteral([Var("q")]) == Var("q");
    assert SameRegion(S, [Var("q")]) == Ok((Of("q"), S));
    assert NONE[1 := Of("q")] == FOUND;
  }

  lemma LateSecond()
    ensures Pass(FUNCS, {}, LATE.params, LateSpecs(NONE), LATE_NODES) == Ok(LateSpecs(FOUND))
  {
    var a, b := [StmtNode(RUN), ExprNode(JOINED)], [ExprNode(Var("q")), ExprNode(Obj0(0)), StmtNode(BACK_Q), ExprNode(Var("q"))];
    OuterCall();
    InnerCall();
    assert Visit(FUNCS, {}, LATE.params, LateSpecs(NONE), ExprNode(JOINED)) == Ok(LateSpecs(NONE));
    assert Visit(FUNCS, {}, LATE.params, LateSpecs(NONE), ExprNode(SAME)) == Ok(LateSpecs(FOUND));
    QuietAround(FUNCS, {}, LATE.params, LateSpecs(NONE), a, ExprNode(JOINED));
    LateTail({}, FOUND, b);
    assert LATE_NODES == a + [ExprNode(SAME)] + b;
    PassOnce(FUNCS, {}, LATE.params, LateSpecs(NONE), a, ExprNode(SAME), b, LateSpecs(FOUND));
  }

  lemma LateCounted()
    ensures Unknowns(LateSpecs(FOUND), LATE_NODES) == Ok((0, LateSpecs(FOUND)))
  {
    NoneUnknown(LateSpecs(FOUND), LATE_NODES);
  }

  lemma LateFirstPass()
    ensures Listed(FUNCS, Info(NONE), ORDER) && PassAll(FUNCS, Elements(ORDER), Info(NONE), ORDER) == Ok(Info(NONE))
  {
    LateNodes();
    LinkQuiet({"link", "late"});
    LateFirst();
    assert Elements(ORDER) == {"link", "late"};
    PassAllIs(FUNCS, {"link", "late"}, ORDER, Info(NONE), Info(NONE));
  }

  /** Both functions have a node that is never region-safe. */
  lemma NeverSafeHere()
    ensures NeverSafe(FUNCS, LINK_SPECS, LINK.body) && NeverSafe(FUNCS, LateSpecs(NONE), LATE.body)
  {
    LateNodes();
    assert StmtNode(KEEP) in NodesB(LINK.body) && StmtNode(BACK_Q) in NodesB(LATE.body);
    assert forall safe :: !SafeNode(FUNCS, safe, LINK_SPECS, StmtNode(KEEP));
    assert forall safe :: !SafeNode(FUNCS, safe, LateSpecs(NONE), StmtNode(BACK_Q));
  }

  lemma LateUnsafe()
    ensures Greatest(FUNCS, Info(NONE), Elements(ORDER), {})
  {
    NeverSafeHere();
    hide NeverSafe;
    assert Elements(ORDER) == {"link", "late"};
    forall other | other <= {"link", "late"} && SelfSafe(FUNCS, Info(NONE), other)
      ensures other <= {}
    {
      UnsafeIsOut(FUNCS, Info(NONE), other, "link");
      UnsafeIsOut(FUNCS, Info(NONE), other, "late");
    }
  }

  lemma LateInferred()
    ensures Listed(FUNCS, Info(NONE), ORDER) && InferAll(FUNCS, {}, ORDER, Info(NONE), SIZE_MAX) == Ok(Info(FOUND))
  {
    LateNodes();
    LinkQuiet({});
    LateSecond();
    LateCounted();
    PassAllIs(FUNCS, {}, ORDER, Info(NONE), Info(FOUND));
    CountAllIs(FUNCS, ORDER, Info(FOUND));
  }

  lemma LateArgsDiffer()
    ensures !ArgsInRegion(LateSpecs(FOUND), [SAME, Obj0(0)])
  {
    var S, args := LateSpecs(FOUND), [SAME, Obj0(0)];
    assert !args[0].Lit? && FirstNonLiteral(args) == SAME;
    assert GetSpec(S, args[1]) == Ok((LOCAL, S)) && GetSpec(S, SAME) == Ok((Of("q"), S));
  }

  lemma LateRefused()
    ensures !PostAll(FUNCS, {}, Info(FOUND))
  {
    hide ArgsInRegion;
    LateNodes();
    LateArgs();
    LateArgsDiffer();
    assert !PostCheck(FUNCS, {}, LateSpecs(FOUND), ExprNode(JOINED));
    assert ExprNode(JOINED) in NodesB(FUNCS["late"].body);
  }

  lemma RefusedAfter(funcs: Funcs, order: seq<Name>, start: map<Name, Specs>, first: map<Name, Specs>, safe: set<Name>, last: map<Name, Specs>)
    requires Listed(funcs, start, order) && PassAll(funcs, Elements(order), start, order) == Ok(first)
    requires Listed(funcs, first, order) && Greatest(funcs, first, Elements(order), safe)
    requires InferAll(funcs, safe, order, first, SIZE_MAX) == Ok(last) && !PostAll(funcs, safe, last)
    ensures forall f, s, g :: !Driven(funcs, order, start, f, s, g)
  {
    hide InferAll, PassAll, Greatest, PostAll;
    forall f, s, g | Driven(funcs, order, start, f, s, g)
      ensures false
    {
      GreatestUnique(funcs, first, Elements(order), s, safe);
    }
  }

  /** Both functions have right sitings, in order and counted, and all specs are inferred; but
      the loop has stopped one round too early for the literal, and the post-check refuses it. */
  lemma LateIsRefused()
    ensures Sited(LinkCase()) && Ordered(LinkCase(), LateTimes()) && Counted(LinkCase())
    ensures Sited(LateCase()) && Ordered(LateCase(), LateTimes()) && Counted(LateCase())
    ensures Listed(FUNCS, Info(NONE), ORDER) && InferAll(FUNCS, {}, ORDER, Info(NONE), SIZE_MAX) == Ok(Info(FOUND))
    ensures forall f, s, g :: !Driven(FUNCS, ORDER, Info(NONE), f, s, g)
  {
    hide Sited, Ordered, Counted, Greatest, InferAll, PassAll, PostAll;
    LinkIsSited();
    LateIsSited();
    LateFirstPass();
    LateUnsafe();
    LateInferred();
    LateRefused();
    RefusedAfter(FUNCS, ORDER, Info(NONE), Info(NONE), {}, Info(FOUND));
  }
}
