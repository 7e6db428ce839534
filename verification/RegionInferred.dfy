/** When every spec of a function with a right siting has been inferred and a further round
    changes none, each literal is where the siting puts it and the post-check accepts. */
module RegionInferred {
  import opened RegionSyntax
  import opened RegionCheck
  import opened RegionSemantics
  import opened RegionAccepted
  import opened RegionPasses
  import opened RegionFixpoint
  import opened RegionPlaces
  import opened RegionSteps
  import opened RegionStart
  import opened RegionSiting
  import opened RegionAcceptance
  import opened RegionSitedPass
  import opened RegionLearning
  import opened Collections
  import opened Results

  /** Nothing is unknown, and one more round changes nothing. */
  ghost predicate Idle(c: Case, F: Specs) {
    var nodes := NodesB(c.f.body);
    && Sited(c) && Below(c, F, F)
    && Pass(c.funcs, c.safe, c.f.params, F, nodes) == Ok(F)
    && Unknowns(F, nodes) == Ok((0, F))
  }

  lemma IdleCounted(c: Case, F: Specs, e: Expr)
    requires Idle(c, F) && ExprNode(e) in NodesB(c.f.body) && HasAllocSpec(e)
    ensures GetSpec(F, e).Ok? && Complete(GetSpec(F, e).value.0) && GetSpec(F, e).value.1 == F
  {
    IdleCountIsComplete(F, NodesB(c.f.body));
  }

  lemma IdleLearns(c: Case, F: Specs, nd: Node)
    requires Idle(c, F) && nd in NodesB(c.f.body) && Informed(c, F, nd)
    ensures Learned(c, F, nd)
  {
    PassLearns(c, F, NodesB(c.f.body), nd);
  }

  /** Every composite that has a place is told. */
  lemma {:induction false} CompositeTold(c: Case, F: Specs, e: Expr)
    requires Idle(c, F) && Within(c, e) && Placed(c, e) && Allocated(e)
    ensures Told(F, e)
    decreases e
  {
    hide Idle;
    assert ExprNode(e) in NodesE(e);
    match e
    case Pop(_, vec, _) =>
      PartWithin(c, e, vec);
      CompositeTold(c, F, vec);
      IdleLearns(c, F, ExprNode(e));
    case Part(base, _, _) => PartWithin(c, e, base); CompositeTold(c, F, base);
    case Lookup(base, _) => PartWithin(c, e, base); CompositeTold(c, F, base);
    case Slice(base) => PartWithin(c, e, base); CompositeTold(c, F, base);
    case Ternary(_, thn, els, _) =>
      PartWithin(c, e, thn);
      PartWithin(c, e, els);
      CompositeTold(c, F, thn);
      CompositeTold(c, F, els);
    case _ => IdleCounted(c, F, e);
  }

  /** Every name of the table is known. */
  lemma NameTold(c: Case, F: Specs, x: Name)
    requires Idle(c, F) && x in F.tab
    ensures SrcKnown(F.tab[x])
  {
    assert x in TableNames(c.f) && NamesBelow(c, F, F);
    if x in DeclaredB(c.f.body) {
      DeclaredIsBound(c.f.body, x);
      var nd :| nd in NodesB(c.f.body) && Binds(nd, x);
      assert NodeSited(c, nd);
      OperandWithin(c, nd, nd.s.e);
      CompositeTold(c, F, nd.s.e);
      IdleLearns(c, F, nd);
    } else {
      var q :| q in c.f.params && q.ty != PrimTy && q.name == x;
      assert Complete(F.tab[x]);
    }
  }

  lemma NamedTold(c: Case, F: Specs, x: Name)
    requires Idle(c, F)
    ensures SrcKnown(F.Named(x))
  {
    if x in F.tab {
      NameTold(c, F, x);
    }
  }

  /** Everything that has a place is told. */
  lemma {:induction false} PlacedTold(c: Case, F: Specs, e: Expr)
    requires Idle(c, F) && (Within(c, e) || e.LocalRegion?) && Placed(c, e)
    ensures Told(F, e)
    decreases e
  {
    if Allocated(e) {
      CompositeTold(c, F, e);
    } else {
      match e
      case Ident(x, _) => NamedTold(c, F, x);
      case RegionOf(x) => NamedTold(c, F, x);
      case Ternary(_, thn, els, _) =>
        PartWithin(c, e, thn);
        PartWithin(c, e, els);
        PlacedTold(c, F, thn);
        PlacedTold(c, F, els);
      case _ =>
    }
  }

  lemma LeadersTold(c: Case, F: Specs, args: seq<Expr>, site: Site)
    requires Idle(c, F) && AllWithin(c, args) && ArgsSited(c, args, site)
    ensures LeaderTold(F, args)
  {
    hide Idle;
    forall i | 0 <= i < |args| && Leads(args, i)
      ensures Told(F, args[i])
    {
      PlacedTold(c, F, args[i]);
    }
  }

  lemma StmtInformed(c: Case, F: Specs, nd: Node)
    requires Idle(c, F) && nd in NodesB(c.f.body) && nd.StmtNode?
    ensures Informed(c, F, nd)
  {
    assert NodeSited(c, nd);
    hide Idle;
    match nd.s
    case Declare(_, e) => OperandWithin(c, nd, e); if Allocated(e) { CompositeTold(c, F, e); }
    case ForIn(_, ty, e, _) => OperandWithin(c, nd, e); if ty == CompositeTy { CompositeTold(c, F, e); }
    case Store(target, _, _) => OperandWithin(c, nd, target); CompositeTold(c, F, target);
    case _ =>
  }

  lemma ExprInformed(c: Case, F: Specs, nd: Node)
    requires Idle(c, F) && nd in NodesB(c.f.body) && nd.ExprNode? && !nd.e.Push?
    ensures Informed(c, F, nd)
  {
    assert NodeSited(c, nd);
    hide Idle;
    match nd.e
    case Call(_, fn, _, _, _) => if !SafeFn(c, fn) && Compared(c, nd.e) != [] { LearnedArgs(c, F, nd.e); }
    case Pop(_, vec, _) => OperandWithin(c, nd, vec); CompositeTold(c, F, vec);
    case Copy(_, _, dest) => if dest != [] { OperandWithin(c, nd, dest[0]); PlacedTold(c, F, dest[0]); }
    case Lit(_, id, _) => NamedTold(c, F, c.parsed.LitAt(id).region);
    case _ =>
  }

  /** So every node is informed, and learned. */
  lemma NodeLearned(c: Case, F: Specs, nd: Node)
    requires Idle(c, F) && nd in NodesB(c.f.body) && !(nd.ExprNode? && nd.e.Push?)
    ensures Learned(c, F, nd)
  {
    hide Idle, Informed, Learned;
    if nd.StmtNode? { StmtInformed(c, F, nd); } else { ExprInformed(c, F, nd); }
    IdleLearns(c, F, nd);
  }

  lemma LearnedArgs(c: Case, F: Specs, e: Expr)
    requires Idle(c, F) && e.Call? && ExprNode(e) in NodesB(c.f.body) && CallSited(c, e) && !SafeFn(c, e.fn) && Compared(c, e) != []
    ensures LeaderTold(F, Compared(c, e))
  {
    ComparedWithin(c, e);
    LeadersTold(c, F, Compared(c, e), c.at.call(e.id));
  }

  lemma PushLearned(c: Case, F: Specs, e: Expr)
    requires Idle(c, F) && e.Push? && ExprNode(e) in NodesB(c.f.body) && Allocated(e.item)
    ensures AllArrived(c, F, [e.vec, e.item])
  {
    assert NodeSited(c, ExprNode(e));
    hide Idle;
    OperandWithin(c, ExprNode(e), e.vec);
    OperandWithin(c, ExprNode(e), e.item);
    LeadersTold(c, F, [e.vec, e.item], if e.vec.Lit? && !e.item.Lit? then Where(c, e.item) else Where(c, e.vec));
    IdleLearns(c, F, ExprNode(e));
  }

  /** The literal branches of a ternary are where they have to be. */
  lemma BranchesArrived(c: Case, F: Specs, e: Expr)
    requires Idle(c, F) && e.Ternary? && ExprNode(e) in NodesB(c.f.body) && e.ty == CompositeTy
    ensures Arrived(c, F, e.thn) && Arrived(c, F, e.els)
  {
    assert NodeSited(c, ExprNode(e));
    IdleCounted(c, F, e);
    TernaryWithin(c, e);
    CompositeTold(c, F, e);
    ReadTold(c, F, e);
  }

  // ----- every literal is where the siting puts it -----

  /** A literal of the body is in its place, with everything it has passed its place on to. */
  ghost predicate Done(c: Case, F: Specs, x: Expr) {
    x.Lit? ==> LitThere(c, F, x.id) && (c.at.given(x.id) ==> AllThere(c, F, x))
  }

  /** A literal of the body has been inferred: it has its parsed spec or another that is known. */
  lemma LitInferred(c: Case, F: Specs, x: Expr)
    requires Idle(c, F) && x.Lit? && ExprNode(x) in NodesB(c.f.body)
    ensures SrcKnown(F.LitAt(x.id)) && LitBelow(c, x.id, F.LitAt(x.id)) && InitialLit(c.f, c.parsed.LitAt(x.id))
    ensures c.at.given(x.id) && F.LitAt(x.id) != c.parsed.LitAt(x.id) ==> AllThere(c, F, x)
  {
    IdleCounted(c, F, x);
    assert LitsBelow(c, F, F) && Spread(c, F);
    assert c.at.given(x.id) ==> IsGiven(c, x);
  }

  /** A literal at rest is at home. */
  lemma RestDone(c: Case, F: Specs, x: Expr)
    requires Idle(c, F) && ExprNode(x) in NodesB(c.f.body) && AtRest(c, x)
    ensures Done(c, F, x)
  {
    hide Idle;
    if x.Lit? {
      LitInferred(c, F, x);
    }
  }

  lemma MovedDone(c: Case, F: Specs, x: Expr)
    requires Idle(c, F) && ExprNode(x) in NodesB(c.f.body) && Free(c, x) && c.at.given(x.id) && c.at.lit(x.id) == OuterSite && Arrived(c, F, x)
    ensures Done(c, F, x)
  {
    LitInferred(c, F, x);
  }

  lemma PutDone(c: Case, F: Specs, x: Expr, site: Site)
    requires Idle(c, F) && ExprNode(x) in NodesB(c.f.body) && PutAt(c, x, site) && Arrived(c, F, x)
    ensures Done(c, F, x)
  {
    if !Free(c, x) || site == LocalSite {
      RestDone(c, F, x);
    } else {
      MovedDone(c, F, x);
    }
  }

  lemma ForeignDone(c: Case, F: Specs, a: Expr)
    requires Idle(c, F) && ExprNode(a) in NodesB(c.f.body) && ForeignSited(c, a) && Marked(c, F, a)
    ensures Done(c, F, a)
  {
    if !(Free(c, a) && (a.lit.VecLit? || a.lit.DictLit?)) {
      RestDone(c, F, a);
    }
  }

  lemma ElementDone(c: Case, F: Specs, e: Expr, x: Expr)
    requires Idle(c, F) && e.Lit? && ExprNode(e) in NodesB(c.f.body) && Done(c, F, e) && x in e.elems
    ensures Done(c, F, x)
  {
    assert NodeSited(c, ExprNode(e)) && ElementSited(c, e, x);
    OperandWithin(c, ExprNode(e), x);
    assert ExprNode(x) in NodesE(x);
    if x.Lit? {
      if c.at.given(e.id) {
        GivenElementDone(c, F, e, x);
      } else {
        RestDone(c, F, x);
      }
    }
  }

  lemma GivenElementDone(c: Case, F: Specs, e: Expr, x: Expr)
    requires Idle(c, F) && e.Lit? && ExprNode(e) in NodesB(c.f.body) && x in e.elems && x.Lit? && ExprNode(x) in NodesB(c.f.body)
    requires AllThere(c, F, e) && c.at.given(e.id) && c.at.given(x.id)
    ensures Done(c, F, x)
  {
    WithinNode(c, e);
    InElems(e.elems, x);
    ReachedBelow(c, e, x);
  }

  lemma {:induction false} InElems(es: seq<Expr>, x: Expr)
    requires x in es && x.Lit?
    ensures x.id in ElemLitIds(es)
  {
    if es[0] != x {
      InElems(es[1..], x);
    }
  }

  lemma ArgDone(c: Case, F: Specs, args: seq<Expr>, i: nat, site: Site)
    requires Idle(c, F) && ArgsSited(c, args, site) && i < |args| && ExprNode(args[i]) in NodesB(c.f.body) && Arrived(c, F, args[i])
    ensures Done(c, F, args[i])
  {
    if Leads(args, i) {
      RestDone(c, F, args[i]);
    } else {
      PutDone(c, F, args[i], site);
    }
  }

  lemma {:induction false} JoinedHas(params: seq<Param>, args: seq<Expr>, i: nat, k: nat) returns (j: nat)
    requires i <= k < |args| && TakesPart(params, args, k)
    ensures j < |Joined(params, args, i)| && Joined(params, args, i)[j] == args[k]
    decreases k - i
  {
    if i == k {
      j := 0;
    } else {
      j := JoinedHas(params, args, i + 1, k);
      if TakesPart(params, args, i) {
        j := j + 1;
      }
    }
  }

  lemma CallOperandDone(c: Case, F: Specs, e: Expr, k: nat)
    requires Idle(c, F) && e.Call? && ExprNode(e) in NodesB(c.f.body) && k < |e.args| && e.args[k].Lit?
    ensures Done(c, F, e.args[k])
  {
    var nd, x, params := ExprNode(e), e.args[k], ParamsOf(c, e.fn);
    assert NodeSited(c, nd);
    OperandWithin(c, nd, x);
    assert ExprNode(x) in NodesE(x);
    NodeLearned(c, F, nd);
    if SafeFn(c, e.fn) {
      assert x in e.args;
      RestDone(c, F, x);
    } else if TakesPart(params, e.args, k) {
      var j := JoinedHas(params, e.args, 0, k);
      var args := Compared(c, e);
      assert args[j] == x;
      ArgDone(c, F, args, j, c.at.call(e.id));
    } else {
      assert params[k].isForeign;
      ForeignDone(c, F, x);
    }
  }

  lemma PushOperandDone(c: Case, F: Specs, e: Expr, x: Expr)
    requires Idle(c, F) && e.Push? && ExprNode(e) in NodesB(c.f.body) && x in OperandsE(e)
    ensures Done(c, F, x)
  {
    assert NodeSited(c, ExprNode(e));
    OperandWithin(c, ExprNode(e), x);
    assert ExprNode(x) in NodesE(x);
    if Allocated(e.item) {
      var args := [e.vec, e.item];
      PushLearned(c, F, e);
      var i := if x == e.vec then 0 else 1;
      assert args[i] == x;
      ArgDone(c, F, args, i, if e.vec.Lit? && !e.item.Lit? then Where(c, e.item) else Where(c, e.vec));
    } else if x.Lit? {
      RestDone(c, F, x);
    }
  }

  lemma BranchDone(c: Case, F: Specs, e: Expr, x: Expr)
    requires Idle(c, F) && e.Ternary? && ExprNode(e) in NodesB(c.f.body) && x in OperandsE(e) && x.Lit?
    ensures Done(c, F, x)
  {
    OperandWithin(c, ExprNode(e), x);
    assert ExprNode(x) in NodesE(x);
    if e.ty == CompositeTy && (x == e.thn || x == e.els) {
      BranchesArrived(c, F, e);
    }
    BranchPlace(c, e, x);
    hide Idle, Done;
    if AtRest(c, x) {
      RestDone(c, F, x);
    } else {
      MovedDone(c, F, x);
    }
  }

  /** A literal of a ternary is at rest or moves to the outer place. */
  lemma BranchPlace(c: Case, e: Expr, x: Expr)
    requires Sited(c) && e.Ternary? && ExprNode(e) in NodesB(c.f.body) && x in OperandsE(e) && x.Lit?
    ensures AtRest(c, x) ||
      (e.ty == CompositeTy && (x == e.thn || x == e.els) && Free(c, x) && c.at.given(x.id) && c.at.lit(x.id) == OuterSite)
  {
    assert NodeSited(c, ExprNode(e));
  }

  /** Outside other literals. */
  lemma OperandDone(c: Case, F: Specs, nd: Node, x: Expr)
    requires Idle(c, F) && nd in NodesB(c.f.body) && x in Operands(nd) && !IsLit(nd)
    ensures Done(c, F, x)
  {
    if x.Lit? {
      OperandWithin(c, nd, x);
      assert ExprNode(x) in NodesE(x) && NodeSited(c, nd);
      match nd
      case ExprNode(Call(_, _, args, _, _)) =>
        var k :| 0 <= k < |args| && args[k] == x;
        CallOperandDone(c, F, nd.e, k);
      case ExprNode(Push(_, _)) => PushOperandDone(c, F, nd.e, x);
      case ExprNode(Ternary(_, _, _, _)) => BranchDone(c, F, nd.e, x);
      case StmtNode(Store(target, _, e)) =>
        NodeLearned(c, F, nd);
        if x == target { RestDone(c, F, x); } else { PutDone(c, F, x, Where(c, target)); }
      case StmtNode(Return(e)) =>
        NodeLearned(c, F, nd);
        if Free(c, x) { MovedDone(c, F, x); } else { RestDone(c, F, x); }
      case _ => RestDone(c, F, x);
    }
  }

  ghost predicate AllDone(c: Case, F: Specs, nodes: seq<Node>) {
    forall nd :: nd in nodes && IsLit(nd) ==> Done(c, F, nd.e)
  }

  lemma PartsDone(c: Case, F: Specs, e: Expr)
    requires Idle(c, F) && Within(c, e) && Done(c, F, e)
    ensures forall x :: x in OperandsE(e) ==> Within(c, x) && Done(c, F, x)
  {
    assert ExprNode(e) in NodesE(e) && ExprNode(e) in NodesB(c.f.body);
    hide Idle, Done;
    forall x | x in OperandsE(e)
      ensures Within(c, x) && Done(c, F, x)
    {
      PartWithin(c, e, x);
      if e.Lit? { ElementDone(c, F, e, x); } else { OperandDone(c, F, ExprNode(e), x); }
    }
  }

  lemma {:induction false} ExprDone(c: Case, F: Specs, e: Expr)
    requires Idle(c, F) && Within(c, e) && Done(c, F, e)
    ensures AllDone(c, F, NodesE(e))
    decreases e, 1
  {
    hide Idle, Done, Within;
    PartsDone(c, F, e);
    match e
    case Lit(_, _, elems) => ExprsDone(c, F, elems);
    case Call(_, _, args, _, _) => ExprsDone(c, F, args);
    case Push(vec, item) => assert vec in OperandsE(e) && item in OperandsE(e); ExprDone(c, F, vec); ExprDone(c, F, item);
    case Pop(_, vec, _) => assert vec in OperandsE(e); ExprDone(c, F, vec);
    case Copy(_, of, dest) =>
      assert of in OperandsE(e) && forall d :: d in dest ==> d in OperandsE(e);
      ExprDone(c, F, of);
      ExprsDone(c, F, dest);
    case Part(base, _, _) => assert base in OperandsE(e); ExprDone(c, F, base);
    case Lookup(base, _) => assert base in OperandsE(e); ExprDone(c, F, base);
    case Slice(base) => assert base in OperandsE(e); ExprDone(c, F, base);
    case Ternary(cond, thn, els, _) =>
      assert cond in OperandsE(e) && thn in OperandsE(e) && els in OperandsE(e);
      ExprDone(c, F, cond);
      ExprDone(c, F, thn);
      ExprDone(c, F, els);
    case _ =>
  }

  lemma {:induction false} ExprsDone(c: Case, F: Specs, es: seq<Expr>)
    requires Idle(c, F) && forall x :: x in es ==> Within(c, x) && Done(c, F, x)
    ensures AllDone(c, F, NodesEs(es))
    decreases es, 0
  {
    if es != [] {
      ExprDone(c, F, es[0]);
      ExprsDone(c, F, es[1..]);
    }
  }

  lemma {:induction false} StmtDone(c: Case, F: Specs, s: Stmt)
    requires Idle(c, F) && forall nd :: nd in NodesS(s) ==> nd in NodesB(c.f.body)
    ensures AllDone(c, F, NodesS(s))
    decreases s, 0
  {
    hide Idle, Done;
    assert StmtNode(s) in NodesS(s);
    forall x | x in OperandsS(s)
      ensures AllDone(c, F, NodesE(x))
    {
      OperandWithin(c, StmtNode(s), x);
      OperandDone(c, F, StmtNode(s), x);
      ExprDone(c, F, x);
    }
    match s
    case If(_, thn, els) => BodyDone(c, F, thn); BodyDone(c, F, els);
    case While(_, body) => BodyDone(c, F, body);
    case ForIn(_, _, _, body) => BodyDone(c, F, body);
    case _ =>
  }

  lemma {:induction false} BodyDone(c: Case, F: Specs, b: seq<Stmt>)
    requires Idle(c, F) && forall nd :: nd in NodesB(b) ==> nd in NodesB(c.f.body)
    ensures AllDone(c, F, NodesB(b))
    decreases b, 1
  {
    hide Idle, Done;
    if b != [] {
      StmtDone(c, F, b[0]);
      BodyDone(c, F, b[1..]);
    }
  }

  // ----- the post-check -----

  /** Reading yields the place. */
  lemma ReadThere(c: Case, F: Specs, x: Expr)
    requires Idle(c, F) && (Within(c, x) || x.LocalRegion?) && Placed(c, x) && Fixed(c, x) && Done(c, F, x)
    ensures GetSpec(F, x).Ok? && Tells(GetSpec(F, x).value.0, Where(c, x))
  {
    ReadSited(c, F, F, x);
    if !x.Lit? {
      PlacedTold(c, F, x);
      ReadTold(c, F, x);
    }
  }

  lemma ArgsAccepted(c: Case, F: Specs, args: seq<Expr>, site: Site)
    requires Idle(c, F) && args != [] && AllWithin(c, args) && ArgsSited(c, args, site)
    requires forall i :: 0 <= i < |args| ==> Done(c, F, args[i])
    ensures ArgsInRegion(F, args)
  {
    hide Idle, Done;
    var k := AnchorLeads(args);
    ReadThere(c, F, args[k]);
    forall i | 1 <= i < |args|
      ensures GetSpec(F, args[i]).Ok? && Tells(GetSpec(F, args[i]).value.0, Where(c, args[i])) && Agree(Where(c, args[i]), site)
    {
      LeaderIsPut(c, args, i, site);
      ReadThere(c, F, args[i]);
    }
  }

  lemma CallAccepted(c: Case, F: Specs, e: Expr)
    requires Idle(c, F) && e.Call? && ExprNode(e) in NodesB(c.f.body) && !SafeFn(c, e.fn) && Compared(c, e) != []
    ensures CallArgs(c.funcs, e) == Compared(c, e) && ArgsInRegion(F, Compared(c, e))
  {
    assert NodeSited(c, ExprNode(e));
    var args := Compared(c, e);
    ComparedIsCallArgs(c, e);
    ComparedWithin(c, e);
    JoinedFrom(ParamsOf(c, e.fn), e.args, 0);
    forall i | 0 <= i < |args|
      ensures Done(c, F, args[i])
    {
      if args[i].Lit? {
        OperandDone(c, F, ExprNode(e), args[i]);
      }
    }
    ArgsAccepted(c, F, args, c.at.call(e.id));
  }

  lemma PushAccepted(c: Case, F: Specs, e: Expr)
    requires Idle(c, F) && e.Push? && ExprNode(e) in NodesB(c.f.body) && Allocated(e.item)
    ensures ArgsInRegion(F, [e.vec, e.item])
  {
    var nd, args := ExprNode(e), [e.vec, e.item];
    assert NodeSited(c, nd);
    OperandWithin(c, nd, e.vec);
    OperandWithin(c, nd, e.item);
    OperandDone(c, F, nd, e.vec);
    OperandDone(c, F, nd, e.item);
    ArgsAccepted(c, F, args, if e.vec.Lit? && !e.item.Lit? then Where(c, e.item) else Where(c, e.vec));
  }

  lemma ElementRead(c: Case, F: Specs, e: Expr, x: Expr)
    requires Idle(c, F) && e.Lit? && ExprNode(e) in NodesB(c.f.body) && Done(c, F, e) && x in e.elems
    requires Allocated(x) && ElementSited(c, e, x)
    ensures GetSpec(F, x).Ok? && Tells(GetSpec(F, x).value.0, Where(c, x))
  {
    OperandWithin(c, ExprNode(e), x);
    ElementDone(c, F, e, x);
    if x.Call? {
      AutoThere(c, F, e, x);
    } else if !x.Lit? {
      hide Idle, Done, ElementSited;
      ReadThere(c, F, x);
    }
  }

  lemma ElementFacts(c: Case, F: Specs, e: Expr, x: Expr)
    requires Idle(c, F) && e.Lit? && ExprNode(e) in NodesB(c.f.body) && Done(c, F, e) && x in e.elems
    ensures ElementSited(c, e, x) && LitThere(c, F, e.id)
  {
    assert NodeSited(c, ExprNode(e));
  }

  lemma AgreeMatches(s: Spec, a: Site, t: Spec, b: Site)
    requires Tells(s, a) && Tells(t, b) && Agree(b, a)
    ensures BothKnown(s, t) && SourcesMatch(s, t)
  {
  }

  /** An element is read as living with its literal. */
  lemma ChildAccepted(c: Case, F: Specs, e: Expr, x: Expr)
    requires Idle(c, F) && e.Lit? && ExprNode(e) in NodesB(c.f.body) && Done(c, F, e) && x in e.elems
    ensures ChildInRegion(F, e, x)
  {
    hide Idle, Done, Agree;
    ElementFacts(c, F, e, x);
    if Allocated(x) {
      ElementRead(c, F, e, x);
      if !MixedContainer(c, e) {
        AgreeMatches(F.LitAt(e.id), c.at.lit(e.id), GetSpec(F, x).value.0, Where(c, x));
      }
    }
  }

  lemma AutoThere(c: Case, F: Specs, e: Expr, x: Expr)
    requires Idle(c, F) && e.Lit? && ExprNode(e) in NodesB(c.f.body) && Done(c, F, e) && x in e.elems
    requires x.Call? && Allocated(x) && ElementSited(c, e, x)
    ensures Tells(F.CallAt(x.id), c.at.call(x.id))
  {
    OperandWithin(c, ExprNode(e), x);
    assert ExprNode(x) in NodesE(x) && NodeSited(c, ExprNode(x));
    IdleCounted(c, F, x);
    assert CallsBelow(c, F, F) && CallBelow(c, x.id, F.CallAt(x.id));
    if c.at.handed(x.id) {
      InAutos(e.elems, x);
      assert AllThere(c, F, e);
    }
  }

  lemma {:induction false} InAutos(es: seq<Expr>, x: Expr)
    requires x in es && x.Call? && x.auto
    ensures x.id in ElemAutoIds(es)
  {
    if es[0] != x {
      InAutos(es[1..], x);
    }
  }

  lemma NodeAccepted(c: Case, F: Specs, nd: Node)
    requires Idle(c, F) && nd in NodesB(c.f.body) && (IsLit(nd) ==> Done(c, F, nd.e))
    ensures PostCheck(c.funcs, c.safe, F, nd)
  {
    hide Idle, Done;
    if nd.ExprNode? {
      var e := nd.e;
      if e.Lit? {
        forall x | x in e.elems
          ensures ChildInRegion(F, e, x)
        {
          ChildAccepted(c, F, e, x);
        }
      } else if e.Push? {
        if Allocated(e.item) {
          PushAccepted(c, F, e);
        }
      } else if e.Call? && !SafeFn(c, e.fn) {
        ComparedIsCallArgs(c, e);
        if Compared(c, e) != [] {
          CallAccepted(c, F, e);
        }
      }
    }
  }

  /** Every literal of the function is where the siting puts it, and every node passes the post-check. */
  lemma IdleIsAccepted(c: Case, F: Specs)
    requires Idle(c, F)
    ensures forall e: Expr :: e.Lit? && ExprNode(e) in NodesB(c.f.body) ==> LitThere(c, F, e.id)
    ensures forall nd :: nd in NodesB(c.f.body) ==> PostCheck(c.funcs, c.safe, F, nd)
  {
    BodyDone(c, F, c.f.body);
    forall nd | nd in NodesB(c.f.body)
      ensures PostCheck(c.funcs, c.safe, F, nd)
    {
      NodeAccepted(c, F, nd);
    }
    forall e: Expr | e.Lit? && ExprNode(e) in NodesB(c.f.body)
      ensures LitThere(c, F, e.id)
    {
      assert IsLit(ExprNode(e));
    }
  }
}
