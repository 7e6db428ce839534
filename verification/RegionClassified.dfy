/** The classification is taken on the specs of the first pass; what it found safe is still
    safe on the specs the driver ends with. */
module RegionClassified {
  import opened RegionSyntax
  import opened RegionCheck
  import opened RegionSemantics
  import opened RegionPasses
  import opened RegionPlaces
  import opened RegionSteps
  import opened RegionHistory
  import opened RegionInvariant
  import opened Results

  // ----- a literal and the elements that take over its spec -----

  predicate TakesOver(c: Expr) { c.Lit? || (c.Call? && c.auto) }

  function OwnSpec(S: Specs, c: Expr): Spec
    requires TakesOver(c)
  {
    if c.Lit? then S.LitAt(c.id) else S.CallAt(c.id)
  }

  predicate Alike(s: Spec, t: Spec) {
    (s.src == LocalSrc && t.src == LocalSrc) || (SrcKnown(s) && s == t)
  }

  predicate Tied(S: Specs, e: Expr, c: Expr)
    requires e.Lit? && TakesOver(c)
  {
    Alike(S.LitAt(e.id), OwnSpec(S, c))
  }

  predicate IsElement(nodes: seq<Node>, e: Expr, c: Expr) {
    e.Lit? && ExprNode(e) in nodes && c in e.elems && TakesOver(c)
  }

  ghost predicate TiesKept(nodes: seq<Node>, S: Specs, T: Specs) {
    forall e, c :: IsElement(nodes, e, c) && Tied(S, e, c) ==> Tied(T, e, c)
  }

  lemma {:induction false} BelowElem(es: seq<Expr>, c: Expr)
    requires c in es && TakesOver(c)
    ensures c.Lit? ==> c.id in ElemLitIds(es) && ElemLitIds(c.elems) <= ElemLitIds(es) && ElemAutoIds(c.elems) <= ElemAutoIds(es)
    ensures c.Call? ==> c.id in ElemAutoIds(es)
  {
    if es[0] != c {
      BelowElem(es[1..], c);
    }
  }

  function OwnIds(g: Expr, c: Expr): set<nat>
    requires g.Lit? && TakesOver(c)
  {
    if c.Lit? then LitIds(g) else ElemAutoIds(g.elems)
  }

  ghost predicate Tree(nodes: seq<Node>, es: seq<Expr>) {
    OwnTags(nodes) && OneParent(nodes) && forall nd :: nd in NodesEs(es) ==> nd in nodes
  }

  /** A literal reached by handing down hands down to its elements. */
  lemma {:induction false} ReachesElement(nodes: seq<Node>, es: seq<Expr>, e: Expr, c: Expr)
    requires Tree(nodes, es) && IsElement(nodes, e, c) && e.id in ElemLitIds(es)
    ensures if c.Lit? then c.id in ElemLitIds(es) else c.id in ElemAutoIds(es)
    decreases es
  {
    var g := es[0];
    if g.Lit? && e.id == g.id {
      assert ExprNode(g) in NodesEs(es);
      SameTagSameNode(nodes, ExprNode(g), ExprNode(e));
      BelowElem(g.elems, c);
    } else if g.Lit? && e.id in ElemLitIds(g.elems) {
      assert NodesE(g) == [ExprNode(g)] + NodesEs(g.elems);
      ReachesElement(nodes, g.elems, e, c);
    } else {
      ReachesElement(nodes, es[1..], e, c);
    }
  }

  /** An element reached below g was reached through the literal it stands in. */
  lemma {:induction false} ReachedThrough(nodes: seq<Node>, g: Expr, e: Expr, c: Expr)
    requires g.Lit? && ExprNode(g) in nodes && Tree(nodes, g.elems) && IsElement(nodes, e, c)
    requires c.Lit? ==> c.id in ElemLitIds(g.elems)
    requires c.Call? ==> c.id in ElemAutoIds(g.elems)
    ensures e.id in LitIds(g)
    decreases g, 1
  {
    ReachedIn(nodes, g, g.elems, e, c);
  }

  lemma {:induction false} ReachedIn(nodes: seq<Node>, g: Expr, es: seq<Expr>, e: Expr, c: Expr)
    requires g.Lit? && ExprNode(g) in nodes && Tree(nodes, es) && IsElement(nodes, e, c)
    requires forall x :: x in es ==> x in g.elems
    requires c.Lit? ==> c.id in ElemLitIds(es)
    requires c.Call? ==> c.id in ElemAutoIds(es)
    ensures e.id == g.id || e.id in ElemLitIds(es)
    decreases es, 0
  {
    var x := es[0];
    assert x in es;
    if TakesOver(x) && x.Lit? == c.Lit? && x.id == c.id {
      ElementParent(nodes, g, x, e, c);
    } else if x.Lit? && (if c.Lit? then c.id in ElemLitIds(x.elems) else c.id in ElemAutoIds(x.elems)) {
      assert NodesE(x) == [ExprNode(x)] + NodesEs(x.elems);
      assert ExprNode(x) in NodesEs(es);
      ReachedIn(nodes, x, x.elems, e, c);
    } else {
      ReachedIn(nodes, g, es[1..], e, c);
    }
  }

  lemma ElementParent(nodes: seq<Node>, g: Expr, x: Expr, e: Expr, c: Expr)
    requires OneParent(nodes) && IsElement(nodes, g, x) && IsElement(nodes, e, c) && TagOf(x) == TagOf(c)
    ensures g == e
  {
    var i :| 0 <= i < |g.elems| && g.elems[i] == x;
    var j :| 0 <= j < |e.elems| && e.elems[j] == c;
    assert Operands(ExprNode(g))[i] == x && Operands(ExprNode(e))[j] == c;
    assert SameOperand(nodes, ExprNode(g), i, ExprNode(e), j);
  }

  // ----- handing down keeps the ties -----

  lemma HandDownTies(p: Prog, fn: Name, at: Places, S: Specs, g: Expr, s: Spec)
    requires Here(p, fn, at, g) && OneParent(NodesB(p.funcs[fn].body)) && g.Lit? && SrcKnown(s)
    requires g.id in at.nested ==> !SrcKnown(S.LitAt(g.id))
    ensures TiesKept(NodesB(p.funcs[fn].body), S, SetAlloc(S, g, s))
  {
    var nodes, T := NodesB(p.funcs[fn].body), SetAlloc(S, g, s);
    SetAllocExact(S, g, s);
    assert ExprNode(g) in NodesE(g) && NodesE(g) == [ExprNode(g)] + NodesEs(g.elems);
    forall e, c | IsElement(nodes, e, c) && Tied(S, e, c)
      ensures Tied(T, e, c)
    {
      HandDownTie(p, fn, at, S, g, s, e, c);
    }
  }

  lemma HandDownTie(p: Prog, fn: Name, at: Places, S: Specs, g: Expr, s: Spec, e: Expr, c: Expr)
    requires Here(p, fn, at, g) && g.Lit? && SrcKnown(s) && ExprNode(g) in NodesB(p.funcs[fn].body)
    requires Tree(NodesB(p.funcs[fn].body), g.elems) && IsElement(NodesB(p.funcs[fn].body), e, c)
    requires Written(S, SetAlloc(S, g, s), LitIds(g), ElemAutoIds(g.elems), s)
    requires g.id in at.nested ==> !SrcKnown(S.LitAt(g.id))
    requires Tied(S, e, c)
    ensures Tied(SetAlloc(S, g, s), e, c)
  {
    var nodes := NodesB(p.funcs[fn].body);
    if e.id in LitIds(g) {
      if e.id == g.id {
        SameTagSameNode(nodes, ExprNode(g), ExprNode(e));
        BelowElem(g.elems, c);
      } else {
        ReachesElement(nodes, g.elems, e, c);
      }
    } else if c.id in OwnIds(g, c) {
      assert Whole(p.funcs, at, ExprNode(e)) && c in Operands(ExprNode(e));
      if !(c.Lit? && c.id == g.id) {
        ReachedThrough(nodes, g, e, c);
      }
    }
  }

  lemma TiesTrans(nodes: seq<Node>, S: Specs, T: Specs, U: Specs)
    requires TiesKept(nodes, S, T) && TiesKept(nodes, T, U)
    ensures TiesKept(nodes, S, U)
  {
  }

  /** A function whose calls are all region-safe, with its tree. */
  ghost predicate Calm(p: Prog, fn: Name, at: Places) {
    && Ended(p, fn, at) && OneParent(NodesB(p.funcs[fn].body))
    && forall nd :: nd in NodesB(p.funcs[fn].body) && nd.ExprNode? && nd.e.Call? ==> nd.e.fn in p.funcs && nd.e.fn in p.safe
  }

  lemma {:induction false} ReadTies(p: Prog, fn: Name, at: Places, S: Specs, e: Expr)
    requires Calm(p, fn, at) && Inside(p, fn, e) && GetSpec(S, e).Ok?
    ensures TiesKept(NodesB(p.funcs[fn].body), S, GetSpec(S, e).value.1)
    decreases e
  {
    HereFits(p, fn, at, e);
    match e
    case Part(base, _, _) => ReadTies(p, fn, at, S, base);
    case Lookup(base, _) => ReadTies(p, fn, at, S, base);
    case Slice(base) => ReadTies(p, fn, at, S, base);
    case Ternary(_, thn, els, _) =>
      assert Fits(p.funcs, at, ExprNode(e)) && thn in Operands(ExprNode(e)) && els in Operands(ExprNode(e));
      ReadTies(p, fn, at, S, thn);
      var (a, S1) := GetSpec(S, thn).value;
      ReadTies(p, fn, at, S1, els);
      var (b, S2) := GetSpec(S1, els).value;
      TiesTrans(NodesB(p.funcs[fn].body), S, S1, S2);
      JoinTies(p, fn, at, S2, thn, els, a, b);
      TiesTrans(NodesB(p.funcs[fn].body), S, S2, Join(S2, thn, els, a, b).value.1);
    case _ =>
  }

  lemma JoinTies(p: Prog, fn: Name, at: Places, S: Specs, thn: Expr, els: Expr, a: Spec, b: Spec)
    requires Calm(p, fn, at) && Inside(p, fn, thn) && Inside(p, fn, els) && Join(S, thn, els, a, b).Ok?
    requires (thn.Lit? ==> thn.id !in at.nested) && (els.Lit? ==> els.id !in at.nested)
    ensures TiesKept(NodesB(p.funcs[fn].body), S, Join(S, thn, els, a, b).value.1)
  {
    if Retargets(S, a, els, b) == Ok(true) {
      HandDownTies(p, fn, at, S, els, a);
    } else if Retargets(S, b, thn, a) == Ok(true) {
      HandDownTies(p, fn, at, S, thn, b);
    }
  }

  lemma {:induction false} AlignTies(p: Prog, fn: Name, at: Places, S: Specs, args: seq<Expr>, req: Spec)
    requires Calm(p, fn, at) && AlignArgs(S, args, req).Ok?
    requires forall a :: a in args ==> Inside(p, fn, a) && (a.Lit? ==> a.id !in at.nested)
    ensures TiesKept(NodesB(p.funcs[fn].body), S, AlignArgs(S, args, req).value)
    decreases args
  {
    if args != [] {
      assert args[0] in args;
      ReadTies(p, fn, at, S, args[0]);
      var (a, S1) := GetSpec(S, args[0]).value;
      if BothKnown(a, req) && args[0].Lit? && CanRetarget(S1.LitAt(args[0].id), req) == Ok(true) {
        HandDownTies(p, fn, at, S1, args[0], req);
        TiesTrans(NodesB(p.funcs[fn].body), S, S1, SetAlloc(S1, args[0], req));
        AlignTies(p, fn, at, SetAlloc(S1, args[0], req), args[1..], req);
        TiesTrans(NodesB(p.funcs[fn].body), S, SetAlloc(S1, args[0], req), AlignArgs(S, args, req).value);
      } else {
        AlignTies(p, fn, at, S1, args[1..], req);
        TiesTrans(NodesB(p.funcs[fn].body), S, S1, AlignArgs(S, args, req).value);
      }
    }
  }

  lemma PairTies(p: Prog, fn: Name, at: Places, S: Specs, args: seq<Expr>)
    requires Calm(p, fn, at) && args != [] && SameRegion(S, args).Ok?
    requires forall a :: a in args ==> Inside(p, fn, a) && (a.Lit? ==> a.id !in at.nested)
    ensures TiesKept(NodesB(p.funcs[fn].body), S, SameRegion(S, args).value.1)
  {
    var nodes := NodesB(p.funcs[fn].body);
    ReadTies(p, fn, at, S, Anchor(args));
    var (req, S1) := GetSpec(S, Anchor(args)).value;
    var S2 := RetargetFirst(S1, args[0], req).value;
    if S2 != S1 {
      HandDownTies(p, fn, at, S1, args[0], req);
    }
    AlignTies(p, fn, at, S2, args[1..], req);
    TiesTrans(nodes, S, S1, S2);
    TiesTrans(nodes, S, S2, SameRegion(S, args).value.1);
  }

  lemma PushTies(p: Prog, fn: Name, at: Places, S: Specs, e: Expr)
    requires Calm(p, fn, at) && Inside(p, fn, e) && e.Push? && VisitExpr(p.funcs, p.safe, S, e).Ok?
    ensures TiesKept(NodesB(p.funcs[fn].body), S, VisitExpr(p.funcs, p.safe, S, e).value)
  {
    if !SafeCall(p.funcs, p.safe, S, e) {
      HereFits(p, fn, at, e);
      var args := [e.vec, e.item];
      assert Fits(p.funcs, at, ExprNode(e)) && Operands(ExprNode(e)) == args && e.vec in args && e.item in args;
      PairTies(p, fn, at, S, args);
    }
  }

  /** Writing the spec of a call that takes over none. */
  lemma OwnCallTies(p: Prog, fn: Name, at: Places, S: Specs, nd: Node, s: Spec)
    requires Calm(p, fn, at) && nd in NodesB(p.funcs[fn].body) && NodeTag(nd).CallTag?
    requires nd.e.Call? && nd.e.auto ==> !SrcKnown(S.CallAt(nd.e.id))
    ensures TiesKept(NodesB(p.funcs[fn].body), S, S.SetCall(NodeTag(nd).id, s))
  {
    var nodes, T := NodesB(p.funcs[fn].body), S.SetCall(NodeTag(nd).id, s);
    assert forall i :: T.LitAt(i) == S.LitAt(i);
    forall e, c | IsElement(nodes, e, c) && Tied(S, e, c)
      ensures Tied(T, e, c)
    {
      if c.Call? && c.id == NodeTag(nd).id {
        assert Whole(p.funcs, at, ExprNode(e)) && c in Operands(ExprNode(e));
        OperandIn(p.funcs[fn].body, ExprNode(e), c);
        assert ExprNode(c) in NodesE(c);
        SameTagSameNode(nodes, nd, ExprNode(c));
      }
    }
  }

  lemma SafeCallTies(p: Prog, fn: Name, at: Places, S: Specs, e: Expr)
    requires Calm(p, fn, at) && ExprNode(e) in NodesB(p.funcs[fn].body) && e.Call? && HasInv(p, fn, at, S)
    ensures VisitExpr(p.funcs, p.safe, S, e).Ok? && TiesKept(NodesB(p.funcs[fn].body), S, VisitExpr(p.funcs, p.safe, S, e).value)
  {
    if e.auto && S.CallAt(e.id).kind == UnknownKind {
      assert Good(p.info[fn], S.CallAt(e.id));
      OwnCallTies(p, fn, at, S, ExprNode(e), LOCAL);
    }
  }

  lemma FillTies(p: Prog, fn: Name, at: Places, S: Specs, e: Expr)
    requires Calm(p, fn, at) && Inside(p, fn, e) && e.Lit?
    ensures VisitExpr(p.funcs, p.safe, S, e).Ok? && TiesKept(NodesB(p.funcs[fn].body), S, VisitExpr(p.funcs, p.safe, S, e).value)
  {
    var own := S.LitAt(e.id);
    if (own.kind.NamedRegionKind? || own.kind.ContainerKind?) && SrcKnown(S.Named(own.region)) && !SrcKnown(own) {
      HandDownTies(p, fn, at, S, e, own.(src := S.Named(own.region).src));
    }
  }

  lemma TakeTies(p: Prog, fn: Name, at: Places, S: Specs, e: Expr)
    requires Calm(p, fn, at) && Inside(p, fn, e) && ExprNode(e) in NodesB(p.funcs[fn].body) && (e.Pop? || e.Copy?)
    requires VisitExpr(p.funcs, p.safe, S, e).Ok?
    ensures TiesKept(NodesB(p.funcs[fn].body), S, VisitExpr(p.funcs, p.safe, S, e).value)
  {
    hide Calm, TiesKept;
    if e.Pop? {
      TakenTies(p, fn, at, S, e, e.vec);
    } else if e.dest == [] {
      OwnCallTies(p, fn, at, S, ExprNode(e), LOCAL);
    } else {
      TakenTies(p, fn, at, S, e, e.dest[0]);
    }
  }

  lemma VisitExprTies(p: Prog, fn: Name, at: Places, S: Specs, e: Expr)
    requires Calm(p, fn, at) && Inside(p, fn, e) && ExprNode(e) in NodesB(p.funcs[fn].body) && HasInv(p, fn, at, S)
    requires VisitExpr(p.funcs, p.safe, S, e).Ok?
    ensures TiesKept(NodesB(p.funcs[fn].body), S, VisitExpr(p.funcs, p.safe, S, e).value)
  {
    match e
    case Call(_, _, _, _, _) => SafeCallTies(p, fn, at, S, e);
    case Push(_, _) => PushTies(p, fn, at, S, e);
    case Pop(_, _, _) => TakeTies(p, fn, at, S, e);
    case Copy(_, _, _) => TakeTies(p, fn, at, S, e);
    case Lit(_, _, _) => FillTies(p, fn, at, S, e);
    case _ =>
  }

  lemma TakenTies(p: Prog, fn: Name, at: Places, S: Specs, e: Expr, c: Expr)
    requires Calm(p, fn, at) && Inside(p, fn, e) && ExprNode(e) in NodesB(p.funcs[fn].body) && (e.Pop? || e.Copy?)
    requires c in OperandsE(e) && GetSpec(S, c).Ok?
    ensures TiesKept(NodesB(p.funcs[fn].body), S, GetSpec(S, c).value.1)
    ensures TiesKept(NodesB(p.funcs[fn].body), S, GetSpec(S, c).value.1.SetCall(e.id, GetSpec(S, c).value.0))
  {
    HereFits(p, fn, at, e);
    ReadTies(p, fn, at, S, c);
    var (s, S1) := GetSpec(S, c).value;
    OwnCallTies(p, fn, at, S1, ExprNode(e), s);
    TiesTrans(NodesB(p.funcs[fn].body), S, S1, S1.SetCall(e.id, s));
  }

  lemma VisitStmtTies(p: Prog, fn: Name, at: Places, S: Specs, st: Stmt)
    requires Calm(p, fn, at) && StmtNode(st) in NodesB(p.funcs[fn].body)
    requires VisitStmt(p.funcs[fn].params, S, st).Ok?
    ensures TiesKept(NodesB(p.funcs[fn].body), S, VisitStmt(p.funcs[fn].params, S, st).value)
  {
    match st
    case Declare(_, _) => BindTies(p, fn, at, S, st);
    case Assign(_, _) => BindTies(p, fn, at, S, st);
    case Store(_, _, _) => StoreTies(p, fn, at, S, st);
    case Return(_) => ReturnTies(p, fn, at, S, st);
    case ForIn(_, _, _, _) => BindTies(p, fn, at, S, st);
    case _ =>
  }

  /** Declarations, assignments and loops read one spec and may write a name. */
  lemma BindTies(p: Prog, fn: Name, at: Places, S: Specs, st: Stmt)
    requires Calm(p, fn, at) && StmtNode(st) in NodesB(p.funcs[fn].body) && (st.Declare? || st.Assign? || st.ForIn?)
    requires VisitStmt(p.funcs[fn].params, S, st).Ok?
    ensures TiesKept(NodesB(p.funcs[fn].body), S, VisitStmt(p.funcs[fn].params, S, st).value)
  {
    StmtOperandsHere(p, fn, at, st);
    assert st.e in OperandsS(st);
    ReadNameTies(p, fn, at, S, st.x, st.e);
  }

  lemma ReadNameTies(p: Prog, fn: Name, at: Places, S: Specs, x: Name, e: Expr)
    requires Calm(p, fn, at) && Inside(p, fn, e)
    ensures GetSpec(S, e).Ok? ==>
      var (s, S1) := GetSpec(S, e).value;
      TiesKept(NodesB(p.funcs[fn].body), S, S1) && TiesKept(NodesB(p.funcs[fn].body), S, BindRead(S1, x, s))
  {
    if GetSpec(S, e).Ok? {
      ReadTies(p, fn, at, S, e);
      NameTies(NodesB(p.funcs[fn].body), S, GetSpec(S, e).value.1, x, GetSpec(S, e).value.0);
    }
  }

  lemma NameTies(nodes: seq<Node>, S: Specs, S1: Specs, x: Name, s: Spec)
    requires TiesKept(nodes, S, S1)
    ensures TiesKept(nodes, S, S1.SetName(x, s))
  {
    forall e, c | IsElement(nodes, e, c) && Tied(S, e, c)
      ensures Tied(S1.SetName(x, s), e, c)
    {
      assert Tied(S1, e, c);
    }
  }

  /** A literal that stands directly in a statement, stored or returned. */
  lemma RootTies(p: Prog, fn: Name, at: Places, S: Specs, st: Stmt, c: Expr, s: Spec)
    requires Calm(p, fn, at) && StmtNode(st) in NodesB(p.funcs[fn].body) && c in OperandsS(st) && c.Lit? && SrcKnown(s)
    ensures TiesKept(NodesB(p.funcs[fn].body), S, SetAlloc(S, c, s))
  {
    StmtOperandsHere(p, fn, at, st);
    assert c in Operands(StmtNode(st));
    HandDownTies(p, fn, at, S, c, s);
  }

  lemma StoreReadTies(p: Prog, fn: Name, at: Places, S: Specs, st: Stmt, lhs: Spec, rhs: Spec)
    requires Calm(p, fn, at) && StmtNode(st) in NodesB(p.funcs[fn].body) && st.Store? && StoreRead(S, lhs, rhs, st.e).Ok?
    ensures TiesKept(NodesB(p.funcs[fn].body), S, StoreRead(S, lhs, rhs, st.e).value)
  {
    if st.e.Lit? && Complete(lhs) && CanRetarget(S.LitAt(st.e.id), lhs) == Ok(true) {
      RootTies(p, fn, at, S, st, st.e, lhs);
    }
  }

  lemma StoreTies(p: Prog, fn: Name, at: Places, S: Specs, st: Stmt)
    requires Calm(p, fn, at) && StmtNode(st) in NodesB(p.funcs[fn].body) && st.Store? && VisitStore(S, st.target, st.e).Ok?
    ensures TiesKept(NodesB(p.funcs[fn].body), S, VisitStore(S, st.target, st.e).value)
  {
    var nodes := NodesB(p.funcs[fn].body);
    StmtOperandsHere(p, fn, at, st);
    assert st.target in OperandsS(st) && st.e in OperandsS(st);
    ReadTies(p, fn, at, S, st.target);
    var (lhs, S1) := GetSpec(S, st.target).value;
    if Allocated(st.e) {
      ReadTies(p, fn, at, S1, st.e);
      var (rhs, S2) := GetSpec(S1, st.e).value;
      StoreReadTies(p, fn, at, S2, st, lhs, rhs);
      ThreeTies(nodes, S, S1, S2, StoreRead(S2, lhs, rhs, st.e).value);
    }
  }

  lemma ThreeTies(nodes: seq<Node>, S: Specs, S1: Specs, S2: Specs, T: Specs)
    requires TiesKept(nodes, S, S1) && TiesKept(nodes, S1, S2) && TiesKept(nodes, S2, T)
    ensures TiesKept(nodes, S, T)
  {
    TiesTrans(nodes, S, S1, S2);
    TiesTrans(nodes, S, S2, T);
  }

  lemma ReturnReadTies(p: Prog, fn: Name, at: Places, S: Specs, st: Stmt, implicit: Spec, s: Spec)
    requires Calm(p, fn, at) && StmtNode(st) in NodesB(p.funcs[fn].body) && st.Return? && ReturnRead(S, implicit, s, st.e).Ok?
    ensures TiesKept(NodesB(p.funcs[fn].body), S, ReturnRead(S, implicit, s, st.e).value)
  {
    if st.e.Lit? && s.src == LocalSrc && Complete(implicit) && CanRetarget(s, implicit) == Ok(true) {
      RootTies(p, fn, at, S, st, st.e, implicit);
    }
  }

  /** A composite return may move its literal. */
  lemma ReturnTies(p: Prog, fn: Name, at: Places, S: Specs, st: Stmt)
    requires Calm(p, fn, at) && StmtNode(st) in NodesB(p.funcs[fn].body) && st.Return? && VisitReturn(p.funcs[fn].params, S, st.e).Ok?
    ensures TiesKept(NodesB(p.funcs[fn].body), S, VisitReturn(p.funcs[fn].params, S, st.e).value)
  {
    if Allocated(st.e) {
      StmtOperandsHere(p, fn, at, st);
      assert st.e in OperandsS(st);
      ReadTies(p, fn, at, S, st.e);
      var (s, S1) := GetSpec(S, st.e).value;
      var implicit := ImplicitSpec(S1, p.funcs[fn].params);
      ReturnReadTies(p, fn, at, S1, st, implicit, s);
      TiesTrans(NodesB(p.funcs[fn].body), S, S1, ReturnRead(S1, implicit, s, st.e).value);
    }
  }

  lemma {:induction false} PassTies(p: Prog, fn: Name, at: Places, S: Specs, nodes: seq<Node>)
    requires Calm(p, fn, at) && (forall nd :: nd in nodes ==> nd in NodesB(p.funcs[fn].body)) && HasInv(p, fn, at, S)
    requires Pass(p.funcs, p.safe, p.funcs[fn].params, S, nodes).Ok?
    requires Step(at, Pass(p.funcs, p.safe, p.funcs[fn].params, S, nodes).value, p.info[fn])
    ensures TiesKept(NodesB(p.funcs[fn].body), S, Pass(p.funcs, p.safe, p.funcs[fn].params, S, nodes).value)
    decreases nodes
  {
    if nodes != [] {
      var S1 := Visit(p.funcs, p.safe, p.funcs[fn].params, S, nodes[0]).value;
      var T := Pass(p.funcs, p.safe, p.funcs[fn].params, S, nodes).value;
      PassStep(p.funcs, p.safe, p.funcs[fn].params, at, S1, nodes[1..]);
      StepTrans(at, S1, T, p.info[fn]);
      VisitInv(p, fn, at, p.safe, S, nodes[0]);
      match nodes[0] {
        case ExprNode(e) =>
          NodeHere(p, fn, at, e);
          VisitExprTies(p, fn, at, S, e);
        case StmtNode(st) => VisitStmtTies(p, fn, at, S, st);
      }
      PassTies(p, fn, at, S1, nodes[1..]);
      TiesTrans(NodesB(p.funcs[fn].body), S, S1, T);
    }
  }

  lemma {:induction false} CountTies(p: Prog, fn: Name, at: Places, S: Specs, nodes: seq<Node>)
    requires Calm(p, fn, at) && (forall nd :: nd in nodes ==> nd in NodesB(p.funcs[fn].body)) && Unknowns(S, nodes).Ok?
    ensures TiesKept(NodesB(p.funcs[fn].body), S, Unknowns(S, nodes).value.1)
    decreases nodes
  {
    if nodes != [] {
      if nodes[0].ExprNode? && HasAllocSpec(nodes[0].e) {
        NodeHere(p, fn, at, nodes[0].e);
        ReadTies(p, fn, at, S, nodes[0].e);
        var S1 := GetSpec(S, nodes[0].e).value.1;
        CountTies(p, fn, at, S1, nodes[1..]);
        TiesTrans(NodesB(p.funcs[fn].body), S, S1, Unknowns(S, nodes).value.1);
      } else {
        CountTies(p, fn, at, S, nodes[1..]);
      }
    }
  }
}
