/** Each node that was region-safe on the specs of the first pass is so on the final ones. */
module RegionStillSafe {
  import opened RegionSyntax
  import opened RegionCheck
  import opened RegionSemantics
  import opened RegionAccepted
  import opened RegionPlaces
  import opened RegionSteps
  import opened RegionHistory
  import opened RegionInvariant
  import opened RegionClassified
  import opened Results

  /** fn was classified safe on S, from which the passes went on to the final specs. */
  ghost predicate WasSafe(p: Prog, fn: Name, at: Places, S: Specs) {
    && Ended(p, fn, at) && fn in p.safe && "" !in p.info[fn].tab
    && Towards(p, fn, at, S) && HasInv(p, fn, at, p.info[fn])
    && TiesKept(NodesB(p.funcs[fn].body), S, p.info[fn])
    && SafeBody(p.funcs, p.safe, S, p.funcs[fn].body)
  }

  lemma FinalRead(p: Prog, fn: Name, at: Places, e: Expr)
    requires Here(p, fn, at, e) && Allocated(e)
    ensures GetSpec(p.info[fn], e) == Ok((SpecOf(p.info[fn], e), p.info[fn])) && Complete(SpecOf(p.info[fn], e))
  {
    HereFits(p, fn, at, e);
    SpecSettled(p, fn, e);
  }

  // ----- stores and pushes -----

  /** What an operand of a safe store shows of its final spec. A literal may have moved. */
  ghost predicate Shows(at: Places, S: Spec, F: Spec, e: Expr) {
    && (S.src == ForeignSrc ==> F == S)
    && (S.src == LocalSrc && (e.Lit? ==> e.id in at.steady) ==> F.src == LocalSrc)
  }

  lemma OperandShows(p: Prog, fn: Name, at: Places, S: Specs, e: Expr)
    requires Here(p, fn, at, e) && fn in p.safe && Towards(p, fn, at, S) && Allocated(e) && GetSpec(S, e).Ok?
    requires e.Lit? ==> e.id !in at.nested
    requires e.Call? && e.auto ==> e.id in at.own
    ensures Shows(at, GetSpec(S, e).value.0, SpecOf(p.info[fn], e), e) && Towards(p, fn, at, GetSpec(S, e).value.1)
  {
    if !e.Lit? {
      ReadForetells(p, fn, at, S, e);
    }
  }

  lemma OperandsShow(p: Prog, fn: Name, at: Places, S: Specs, lhs: Expr, rhs: Expr)
    requires Here(p, fn, at, lhs) && Here(p, fn, at, rhs) && fn in p.safe && Towards(p, fn, at, S)
    requires Allocated(lhs) && Allocated(rhs) && SafeOp(S, lhs, rhs)
    requires forall e :: e in [lhs, rhs] ==> (e.Lit? ==> e.id !in at.nested) && (e.Call? && e.auto ==> e.id in at.own)
    ensures
      var (a, S1) := GetSpec(S, lhs).value;
      var b := GetSpec(S1, rhs).value.0;
      Shows(at, a, SpecOf(p.info[fn], lhs), lhs) && Shows(at, b, SpecOf(p.info[fn], rhs), rhs)
  {
    assert lhs in [lhs, rhs] && rhs in [lhs, rhs];
    OperandShows(p, fn, at, S, lhs);
    OperandShows(p, fn, at, GetSpec(S, lhs).value.1, rhs);
  }

  /** The final specs of both operands, both local or one and the same. */
  lemma SafeOpOf(p: Prog, fn: Name, at: Places, lhs: Expr, rhs: Expr)
    requires Here(p, fn, at, lhs) && Here(p, fn, at, rhs) && Allocated(lhs) && Allocated(rhs)
    requires
      var a, b := SpecOf(p.info[fn], lhs), SpecOf(p.info[fn], rhs);
      (a.src == LocalSrc && b.src == LocalSrc)
      || (a.src == ForeignSrc && b.src == ForeignSrc && a.kind == b.kind && a.region != "" && a.region == b.region)
    ensures SafeOp(p.info[fn], lhs, rhs)
  {
    FinalRead(p, fn, at, lhs);
    FinalRead(p, fn, at, rhs);
  }

  lemma StoreStillSafe(p: Prog, fn: Name, at: Places, S: Specs, st: Stmt)
    requires WasSafe(p, fn, at, S) && StmtNode(st) in NodesB(p.funcs[fn].body) && st.Store? && Allocated(st.e)
    ensures SafeOp(p.info[fn], st.target, st.e)
  {
    hide Towards, HasInv, TiesKept, AllWhole, Settled, InFragment;
    var F := p.info[fn];
    StmtOperandsHere(p, fn, at, st);
    assert Operands(StmtNode(st)) == [st.target, st.e] && st.target in OperandsS(st) && st.e in OperandsS(st);
    assert SafeNode(p.funcs, p.safe, S, StmtNode(st));
    OperandsShow(p, fn, at, S, st.target, st.e);
    FinalRead(p, fn, at, st.target);
    FinalRead(p, fn, at, st.e);
    assert VisitStore(F, st.target, st.e) == Ok(F);
    var a, b := SpecOf(F, st.target), SpecOf(F, st.e);
    if a.src == LocalSrc {
      assert SourcesMatch(a, b);
    }
    SafeOpOf(p, fn, at, st.target, st.e);
  }

  /** A push that is checked has operands of one source. */
  lemma CheckedPush(p: Prog, fn: Name, at: Places, e: Expr)
    requires Here(p, fn, at, e) && e.Push? && ExprNode(e) in NodesB(p.funcs[fn].body) && Allocated(e.item)
    requires !SafeCall(p.funcs, p.safe, p.info[fn], e)
    ensures SpecOf(p.info[fn], e.vec).src == SpecOf(p.info[fn], e.item).src
  {
    var F, args := p.info[fn], [e.vec, e.item];
    HereFits(p, fn, at, e);
    assert NodeStable(p, fn, ExprNode(e)) && e.vec in OperandsE(e) && e.item in OperandsE(e);
    FinalRead(p, fn, at, e.vec);
    FinalRead(p, fn, at, e.item);
    assert args[1] == e.item;
    assert ArgsInRegion(F, args) && FirstAgrees(F, args);
    assert Anchor(args) == e.vec || Anchor(args) == e.item;
  }

  lemma PushStillSafe(p: Prog, fn: Name, at: Places, S: Specs, e: Expr)
    requires WasSafe(p, fn, at, S) && ExprNode(e) in NodesB(p.funcs[fn].body) && e.Push?
    ensures SafeCall(p.funcs, p.safe, p.info[fn], e)
  {
    hide Towards, HasInv, TiesKept, AllWhole, Settled, NodeStable;
    NodeHere(p, fn, at, e);
    HereFits(p, fn, at, e);
    assert Fits(p.funcs, at, ExprNode(e)) && Operands(ExprNode(e)) == [e.vec, e.item];
    assert e.vec in OperandsE(e) && e.item in OperandsE(e);
    assert SafeNode(p.funcs, p.safe, S, ExprNode(e));
    if e.vec.Lit? && e.item.Lit? {
      assert AllLits([e.vec, e.item]) && [e.vec, e.item][0].id in at.steady;
    }
    if Allocated(e.item) && !SafeCall(p.funcs, p.safe, p.info[fn], e) {
      CheckedPush(p, fn, at, e);
      OperandsShow(p, fn, at, S, e.vec, e.item);
      SafeOpOf(p, fn, at, e.vec, e.item);
    }
  }

  // ----- literals -----

  ghost predicate Held(S: Specs, F: Specs, e: Expr) {
    e.Lit? && S.LitAt(e.id).src == ForeignSrc ==> F.LitAt(e.id) == S.LitAt(e.id)
  }

  /** An element that takes over its literal's spec is still safe in it. */
  lemma TiedStillSafe(p: Prog, fn: Name, at: Places, S: Specs, e: Expr, c: Expr)
    requires WasSafe(p, fn, at, S) && IsElement(NodesB(p.funcs[fn].body), e, c) && Allocated(c)
    ensures SafeOp(S, e, c) && Tied(S, e, c) && Tied(p.info[fn], e, c) && SafeOp(p.info[fn], e, c)
  {
    var F := p.info[fn];
    assert SafeNode(p.funcs, p.safe, S, ExprNode(e));
    NodeHere(p, fn, at, e);
    HereFits(p, fn, at, e);
    assert InFragment(p, fn, ExprNode(e)) && c in OperandsE(e);
    assert Tied(F, e, c);
    assert !Mixes(F.LitAt(e.id), e.elems);
    assert Good(F, F.LitAt(e.id));
    SafeOpOf(p, fn, at, e, c);
  }

  lemma HeldByParent(p: Prog, fn: Name, at: Places, S: Specs, e: Expr, c: Expr)
    requires WasSafe(p, fn, at, S) && IsElement(NodesB(p.funcs[fn].body), e, c) && c.Lit? && Held(S, p.info[fn], e)
    ensures Held(S, p.info[fn], c)
  {
    TiedStillSafe(p, fn, at, S, e, c);
  }

  lemma {:induction false} HeldBelow(p: Prog, fn: Name, at: Places, S: Specs, e: Expr, nd: Node)
    requires WasSafe(p, fn, at, S) && ExprNode(e) in NodesB(p.funcs[fn].body) && Held(S, p.info[fn], e)
    requires nd in NodesE(e) && nd.ExprNode?
    ensures Held(S, p.info[fn], nd.e)
    decreases |NodesE(e)|
  {
    if nd != ExprNode(e) {
      var c := UnderOperand(e, nd);
      OperandIn(p.funcs[fn].body, ExprNode(e), c);
      assert ExprNode(c) in NodesE(c) && Whole(p.funcs, at, ExprNode(e)) && c in Operands(ExprNode(e));
      if c.Lit? && e.Lit? {
        HeldByParent(p, fn, at, S, e, c);
      }
      OperandShorter(e, c);
      HeldBelow(p, fn, at, S, c, nd);
    }
  }

  lemma OperandShorter(e: Expr, c: Expr)
    requires c in OperandsE(e)
    ensures |NodesE(c)| < |NodesE(e)|
  {
    match e
    case Lit(_, _, elems) => ElemShorter(elems, c);
    case Call(_, _, args, _, _) => ElemShorter(args, c);
    case Copy(_, _, dest) => if c in dest { ElemShorter(dest, c); }
    case _ =>
  }

  lemma {:induction false} ElemShorter(es: seq<Expr>, c: Expr)
    requires c in es
    ensures |NodesE(c)| <= |NodesEs(es)|
  {
    if es[0] != c {
      ElemShorter(es[1..], c);
    }
  }

  /** Every expression node lies below an operand of a statement, but for bound names. */
  lemma {:induction false} UnderStatement(b: seq<Stmt>, nd: Node)
    requires nd in NodesB(b) && nd.ExprNode? && !nd.e.Ident?
    ensures exists st, c :: StmtNode(st) in NodesB(b) && c in OperandsS(st) && nd in NodesE(c)
    decreases b, 1
  {
    if nd in NodesS(b[0]) {
      UnderStatementS(b[0], nd);
      var st, c :| StmtNode(st) in NodesS(b[0]) && c in OperandsS(st) && nd in NodesE(c);
      assert StmtNode(st) in NodesB(b);
    } else {
      UnderStatement(b[1..], nd);
      var st, c :| StmtNode(st) in NodesB(b[1..]) && c in OperandsS(st) && nd in NodesE(c);
      assert StmtNode(st) in NodesB(b);
    }
  }

  lemma {:induction false} UnderStatementS(s: Stmt, nd: Node)
    requires nd in NodesS(s) && nd.ExprNode? && !nd.e.Ident?
    ensures exists st, c :: StmtNode(st) in NodesS(s) && c in OperandsS(st) && nd in NodesE(c)
    decreases s, 0
  {
    assert StmtNode(s) in NodesS(s);
    match s
    case Declare(_, e) => assert e in OperandsS(s);
    case Assign(_, e) => assert e in OperandsS(s);
    case Store(target, _, e) => assert target in OperandsS(s) && e in OperandsS(s);
    case Do(e) => assert e in OperandsS(s);
    case Return(e) => assert e in OperandsS(s);
    case ReturnVoid =>
    case If(cond, thn, els) =>
      assert cond in OperandsS(s);
      if nd in NodesB(thn) { UnderBlock(s, thn, nd); } else if nd in NodesB(els) { UnderBlock(s, els, nd); }
    case While(cond, body) =>
      assert cond in OperandsS(s);
      if nd in NodesB(body) { UnderBlock(s, body, nd); }
    case ForIn(_, _, e, body) =>
      assert e in OperandsS(s);
      if nd in NodesB(body) { UnderBlock(s, body, nd); }
  }

  lemma {:induction false} UnderBlock(s: Stmt, block: seq<Stmt>, nd: Node)
    requires nd in NodesB(block) && nd.ExprNode? && !nd.e.Ident? && forall n :: n in NodesB(block) ==> n in NodesS(s)
    ensures exists st, c :: StmtNode(st) in NodesS(s) && c in OperandsS(st) && nd in NodesE(c)
    decreases block, 2
  {
    UnderStatement(block, nd);
    var st, c :| StmtNode(st) in NodesB(block) && c in OperandsS(st) && nd in NodesE(c);
    assert StmtNode(st) in NodesS(s);
  }

  /** A literal of a safe function that left the local region keeps its spec, nested or not. */
  lemma LiteralHeld(p: Prog, fn: Name, at: Places, S: Specs, e: Expr)
    requires WasSafe(p, fn, at, S) && ExprNode(e) in NodesB(p.funcs[fn].body) && e.Lit?
    ensures Held(S, p.info[fn], e)
  {
    var b := p.funcs[fn].body;
    UnderStatement(b, ExprNode(e));
    var st, c :| StmtNode(st) in NodesB(b) && c in OperandsS(st) && ExprNode(e) in NodesE(c);
    OperandIn(b, StmtNode(st), c);
    assert ExprNode(c) in NodesE(c) && Whole(p.funcs, at, StmtNode(st)) && c in Operands(StmtNode(st));
    HeldBelow(p, fn, at, S, c, ExprNode(e));
  }

  lemma ElementStillSafe(p: Prog, fn: Name, at: Places, S: Specs, e: Expr, c: Expr)
    requires WasSafe(p, fn, at, S) && ExprNode(e) in NodesB(p.funcs[fn].body) && e.Lit? && c in e.elems && Allocated(c)
    ensures SafeOp(p.info[fn], e, c)
  {
    if TakesOver(c) {
      TiedStillSafe(p, fn, at, S, e, c);
    } else {
      var F := p.info[fn];
      NodeHere(p, fn, at, e);
      HereFits(p, fn, at, e);
      assert c in OperandsE(e) && NodeStable(p, fn, ExprNode(e)) && InFragment(p, fn, ExprNode(e));
      assert SafeNode(p.funcs, p.safe, S, ExprNode(e));
      ReadForetells(p, fn, at, S, c);
      LiteralHeld(p, fn, at, S, e);
      FinalRead(p, fn, at, c);
      assert !Mixes(F.LitAt(e.id), e.elems);
      assert ChildInRegion(F, e, c);
      SafeOpOf(p, fn, at, e, c);
    }
  }

  // ----- whole bodies -----

  lemma BodyStillSafe(p: Prog, fn: Name, at: Places, S: Specs)
    requires WasSafe(p, fn, at, S)
    ensures SafeBody(p.funcs, p.safe, p.info[fn], p.funcs[fn].body)
  {
    forall nd | nd in NodesB(p.funcs[fn].body)
      ensures SafeNode(p.funcs, p.safe, p.info[fn], nd)
    {
      assert SafeNode(p.funcs, p.safe, S, nd);
      match nd
      case StmtNode(st) => if st.Store? && Allocated(st.e) { StoreStillSafe(p, fn, at, S, st); }
      case ExprNode(e) =>
        if e.Push? {
          PushStillSafe(p, fn, at, S, e);
        } else if e.Lit? {
          forall c | c in e.elems && Allocated(c)
            ensures SafeOp(p.info[fn], e, c)
          {
            ElementStillSafe(p, fn, at, S, e, c);
          }
        }
    }
  }
}
