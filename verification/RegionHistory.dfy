/** The history of a function's specs, seen from the specs the driver ends with: what is
    known on the way is what is known at the end. */
module RegionHistory {
  import opened RegionSyntax
  import opened RegionCheck
  import opened RegionSemantics
  import opened RegionAccepted
  import opened RegionPlaces
  import opened RegionSteps
  import opened Results

  /** A spec met on the way never belies the final one t. */
  predicate Foretells(s: Spec, t: Spec) {
    SrcKnown(s) ==> s.src == t.src && (s.src == ForeignSrc ==> s == t)
  }

  /** A spec that names a variable carries, once it is known, the variable's final source. */
  predicate Good(F: Specs, s: Spec) {
    match s.kind
    case UnknownKind => s.src == UnknownSrc
    case LocalKind => s.src == LocalSrc || s.src == CrossSrc
    case GlobalKind => false
    case ContainerKind => s.region in F.tab && (SrcKnown(s) ==> s.src == F.tab[s.region].src)
    case NamedRegionKind => s.region in F.tab && (SrcKnown(s) ==> s.src == F.tab[s.region].src)
  }

  /** Names and calls take over specs whole: there is none with only its kind known. */
  predicate Firm(s: Spec) { SrcKnown(s) || s.kind == UnknownKind }

  ghost predicate CallForetold(at: Places, S: Specs, F: Specs, nd: Node) {
    nd.ExprNode? && NodeTag(nd).CallTag? && Allocated(nd.e) && NodeTag(nd).id !in at.handed ==>
      Foretells(S.CallAt(NodeTag(nd).id), F.CallAt(NodeTag(nd).id))
  }

  ghost predicate Inv(at: Places, nodes: seq<Node>, F: Specs, S: Specs) {
    && S.tab.Keys == F.tab.Keys
    && (forall x {:trigger Good(F, S.tab[x])} {:trigger Foretells(S.tab[x], F.tab[x])} ::
          x in S.tab ==> Good(F, S.tab[x]) && Firm(S.tab[x]) && Foretells(S.tab[x], F.tab[x]))
    && (forall i {:trigger Good(F, S.LitAt(i))} :: Good(F, S.LitAt(i)))
    && (forall i {:trigger Good(F, S.CallAt(i))} {:trigger Firm(S.CallAt(i))} :: Good(F, S.CallAt(i)) && Firm(S.CallAt(i)))
    && (forall nd {:trigger CallForetold(at, S, F, nd)} :: nd in nodes ==> CallForetold(at, S, F, nd))
  }

  /** The final specs of fn and what is known of them. */
  ghost predicate Ended(p: Prog, fn: Name, at: Places) {
    && fn in p.funcs && fn in p.info
    && var nodes := NodesB(p.funcs[fn].body);
    && Proper(at) && OwnTags(nodes) && AllWhole(p.funcs, at, nodes)
    && Settled(p, fn, nodes) && NamesComplete(p.info[fn])
    && (forall i :: i in at.own ==> LocalOrUnknown(p.info[fn].CallAt(i)))
    && forall q :: q in p.funcs[fn].params && q.ty != PrimTy ==> q.name in p.info[fn].tab && p.info[fn].tab[q.name] == ParamSpec(q)
  }

  /** An expression of the body, or the region injected into a call. */
  ghost predicate Inside(p: Prog, fn: Name, e: Expr)
    requires fn in p.funcs
  {
    e == LocalRegion || forall nd :: nd in NodesE(e) ==> nd in NodesB(p.funcs[fn].body)
  }

  ghost predicate Here(p: Prog, fn: Name, at: Places, e: Expr) {
    Ended(p, fn, at) && Inside(p, fn, e)
  }

  lemma HereFits(p: Prog, fn: Name, at: Places, e: Expr)
    requires Here(p, fn, at, e)
    ensures AllFit(p.funcs, at, NodesE(e)) && Settled(p, fn, NodesE(e)) && InFragment(p, fn, ExprNode(e))
    ensures forall c :: c in OperandsE(e) ==> Here(p, fn, at, c)
  {
    assert e == LocalRegion ==> NodesE(e) == [ExprNode(e)];
    forall c | c in OperandsE(e)
      ensures Here(p, fn, at, c)
    {
      OperandNodes(e, c);
    }
    forall nd | nd in NodesE(e)
      ensures Fits(p.funcs, at, nd)
    {
      assert Whole(p.funcs, at, nd);
    }
  }

  ghost predicate HasInv(p: Prog, fn: Name, at: Places, S: Specs)
    requires fn in p.funcs && fn in p.info
  {
    Inv(at, NodesB(p.funcs[fn].body), p.info[fn], S)
  }

  // ----- writes that keep the invariant -----

  /** A spec that may stand in the table for x. */
  predicate MayName(F: Specs, x: Name, s: Spec) {
    x in F.tab && Good(F, s) && Firm(s) && Foretells(s, F.tab[x])
  }

  /** What was not overwritten, or only by a good spec, is as good as before. */
  lemma WrittenInv(p: Prog, fn: Name, at: Places, S: Specs, T: Specs)
    requires fn in p.funcs && fn in p.info && HasInv(p, fn, at, S) && T.tab.Keys == S.tab.Keys
    requires forall x :: x in T.tab ==> T.tab[x] == S.tab[x] || MayName(p.info[fn], x, T.tab[x])
    requires forall i :: T.LitAt(i) == S.LitAt(i) || Good(p.info[fn], T.LitAt(i))
    requires forall i :: T.CallAt(i) == S.CallAt(i) || (Good(p.info[fn], T.CallAt(i)) && Firm(T.CallAt(i)))
    requires forall nd {:trigger CallForetold(at, T, p.info[fn], nd)} ::
      nd in NodesB(p.funcs[fn].body) ==> CallForetold(at, T, p.info[fn], nd)
    ensures HasInv(p, fn, at, T)
  {
    var F := p.info[fn];
    forall x | x in T.tab
      ensures Good(F, T.tab[x]) && Firm(T.tab[x]) && Foretells(T.tab[x], F.tab[x])
    {
      assert Good(F, S.tab[x]);
    }
    forall i
      ensures Good(F, T.LitAt(i)) && Good(F, T.CallAt(i)) && Firm(T.CallAt(i))
    {
      assert Good(F, S.LitAt(i)) && Good(F, S.CallAt(i)) && Firm(S.CallAt(i));
    }
  }

  /** Only automatic calls that are handed their spec were overwritten. */
  lemma CallsForetold(p: Prog, fn: Name, at: Places, S: Specs, T: Specs)
    requires fn in p.funcs && fn in p.info && HasInv(p, fn, at, S)
    requires forall i :: i !in at.handed ==> T.CallAt(i) == S.CallAt(i)
    ensures forall nd {:trigger CallForetold(at, T, p.info[fn], nd)} ::
      nd in NodesB(p.funcs[fn].body) ==> CallForetold(at, T, p.info[fn], nd)
  {
    forall nd | nd in NodesB(p.funcs[fn].body)
      ensures CallForetold(at, T, p.info[fn], nd)
    {
      assert CallForetold(at, S, p.info[fn], nd);
    }
  }

  lemma HandDownInv(p: Prog, fn: Name, at: Places, S: Specs, e: Expr, s: Spec)
    requires Here(p, fn, at, e) && e.Lit? && HasInv(p, fn, at, S) && Good(p.info[fn], s) && Complete(s)
    ensures HasInv(p, fn, at, SetAlloc(S, e, s))
  {
    HereFits(p, fn, at, e);
    BelowFits(p.funcs, at, e);
    SetAllocExact(S, e, s);
    CallsForetold(p, fn, at, S, SetAlloc(S, e, s));
    WrittenInv(p, fn, at, S, SetAlloc(S, e, s));
  }

  lemma CallInv(p: Prog, fn: Name, at: Places, S: Specs, nd: Node, s: Spec)
    requires Ended(p, fn, at) && nd in NodesB(p.funcs[fn].body) && NodeTag(nd).CallTag? && HasInv(p, fn, at, S)
    requires Good(p.info[fn], s) && Firm(s)
    requires Allocated(nd.e) && NodeTag(nd).id !in at.handed ==> Foretells(s, p.info[fn].CallAt(NodeTag(nd).id))
    ensures HasInv(p, fn, at, S.SetCall(NodeTag(nd).id, s))
  {
    var nodes := NodesB(p.funcs[fn].body);
    var T := S.SetCall(NodeTag(nd).id, s);
    assert forall i :: T.LitAt(i) == S.LitAt(i);
    assert forall i :: T.CallAt(i) == if i == NodeTag(nd).id then s else S.CallAt(i);
    forall m | m in nodes
      ensures CallForetold(at, T, p.info[fn], m)
    {
      assert CallForetold(at, S, p.info[fn], m);
      if NodeTag(m) == NodeTag(nd) {
        SameTagSameNode(nodes, m, nd);
      }
    }
    WrittenInv(p, fn, at, S, T);
  }

  lemma NameInv(p: Prog, fn: Name, at: Places, S: Specs, x: Name, s: Spec)
    requires Ended(p, fn, at) && HasInv(p, fn, at, S) && MayName(p.info[fn], x, s)
    ensures HasInv(p, fn, at, S.SetName(x, s))
  {
    var T := S.SetName(x, s);
    assert forall i :: T.LitAt(i) == S.LitAt(i) && T.CallAt(i) == S.CallAt(i);
    CallsForetold(p, fn, at, S, T);
    WrittenInv(p, fn, at, S, T);
  }

  lemma {:induction false} MarkInv(p: Prog, fn: Name, at: Places, S: Specs, params: seq<Param>, args: seq<Expr>)
    requires Ended(p, fn, at) && HasInv(p, fn, at, S)
    ensures HasInv(p, fn, at, MarkForeign(S, params, args))
    decreases args
  {
    if args != [] && params != [] {
      var a := args[0];
      if params[0].isForeign && a.Lit? && (a.lit.VecLit? || a.lit.DictLit?)
         && S.LitAt(a.id).kind == LocalKind && S.LitAt(a.id).src == LocalSrc {
        var S1 := S.SetLit(a.id, S.LitAt(a.id).(src := CrossSrc));
        SetLitInv(p, fn, at, S, a.id, S.LitAt(a.id).(src := CrossSrc));
        MarkInv(p, fn, at, S1, params[1..], args[1..]);
      } else {
        MarkInv(p, fn, at, S, params[1..], args[1..]);
      }
    }
  }

  lemma SetLitInv(p: Prog, fn: Name, at: Places, S: Specs, id: nat, s: Spec)
    requires Ended(p, fn, at) && HasInv(p, fn, at, S) && Good(p.info[fn], s)
    ensures HasInv(p, fn, at, S.SetLit(id, s))
  {
    var T := S.SetLit(id, s);
    assert forall i :: T.LitAt(i) == if i == id then s else S.LitAt(i);
    assert forall i :: T.CallAt(i) == S.CallAt(i);
    CallsForetold(p, fn, at, S, T);
    WrittenInv(p, fn, at, S, T);
  }

  // ----- reading keeps the invariant -----

  lemma {:induction false} ReadInv(p: Prog, fn: Name, at: Places, S: Specs, e: Expr)
    requires Here(p, fn, at, e) && HasInv(p, fn, at, S) && TypeOf(e) != PrimTy && GetSpec(S, e).Ok?
    ensures Good(p.info[fn], GetSpec(S, e).value.0) && HasInv(p, fn, at, GetSpec(S, e).value.1)
    decreases e
  {
    HereFits(p, fn, at, e);
    match e
    case Part(base, _, _) => ReadInv(p, fn, at, S, base);
    case Lookup(base, _) => ReadInv(p, fn, at, S, base);
    case Slice(base) => ReadInv(p, fn, at, S, base);
    case Ternary(_, thn, els, _) =>
      assert thn in OperandsE(e) && els in OperandsE(e);
      ReadInv(p, fn, at, S, thn);
      var (a, S1) := GetSpec(S, thn).value;
      ReadInv(p, fn, at, S1, els);
      var (b, S2) := GetSpec(S1, els).value;
      JoinInv(p, fn, at, S2, thn, els, a, b);
    case _ =>
  }

  /** Whichever branch moves takes a complete spec of the final table. */
  lemma JoinInv(p: Prog, fn: Name, at: Places, S: Specs, thn: Expr, els: Expr, a: Spec, b: Spec)
    requires Here(p, fn, at, thn) && Here(p, fn, at, els) && HasInv(p, fn, at, S) && Join(S, thn, els, a, b).Ok?
    requires Good(p.info[fn], a) && Good(p.info[fn], b)
    ensures Good(p.info[fn], Join(S, thn, els, a, b).value.0) && HasInv(p, fn, at, Join(S, thn, els, a, b).value.1)
  {
    hide Here, HasInv;
    if Retargets(S, a, els, b) == Ok(true) {
      HandDownInv(p, fn, at, S, els, a);
    } else if Retargets(S, b, thn, a) == Ok(true) {
      HandDownInv(p, fn, at, S, thn, b);
    }
  }

  // ----- what is read foretells the final spec -----

  /** From here on every spec may only develop towards the final specs. */
  ghost predicate Towards(p: Prog, fn: Name, at: Places, S: Specs)
    requires fn in p.funcs && fn in p.info
  {
    HasInv(p, fn, at, S) && Step(at, S, p.info[fn])
  }

  /** In a region-safe function the classification also reads specs, off the record: their
      ternaries have interchangeable branches, so these readings develop the same way. */
  lemma {:induction false} ReadForetells(p: Prog, fn: Name, at: Places, S: Specs, e: Expr)
    requires Here(p, fn, at, e) && Towards(p, fn, at, S) && TypeOf(e) != PrimTy && GetSpec(S, e).Ok?
    requires Readable(at, e)
    requires fn in p.safe || Step(at, GetSpec(S, e).value.1, p.info[fn])
    ensures Foretells(GetSpec(S, e).value.0, SpecOf(p.info[fn], e))
    ensures Towards(p, fn, at, GetSpec(S, e).value.1)
    decreases e, 2
  {
    hide Towards, Foretells, Ended, AllFit, Settled, InFragment;
    match e
    case Part(base, _, _) => BaseReadable(p, fn, at, e, base); ReadForetells(p, fn, at, S, base);
    case Lookup(base, _) => BaseReadable(p, fn, at, e, base); ReadForetells(p, fn, at, S, base);
    case Slice(base) => BaseReadable(p, fn, at, e, base); ReadForetells(p, fn, at, S, base);
    case Ternary(_, _, _, _) => TernaryForetells(p, fn, at, S, e);
    case Call(_, _, _, _, _) => CallForetells(p, fn, at, S, e);
    case Pop(_, _, _) => CallForetells(p, fn, at, S, e);
    case Copy(_, _, _) => CallForetells(p, fn, at, S, e);
    case _ => LeafForetells(p, fn, at, S, e);
  }

  /** Names and literals are read where their specs are kept. */
  lemma LeafForetells(p: Prog, fn: Name, at: Places, S: Specs, e: Expr)
    requires Here(p, fn, at, e) && Towards(p, fn, at, S) && TypeOf(e) != PrimTy && Readable(at, e)
    requires e.Ident? || e.RegionOf? || e.Lit? || e.LocalRegion?
    ensures GetSpec(S, e).Ok? && Foretells(GetSpec(S, e).value.0, SpecOf(p.info[fn], e))
  {
    HereFits(p, fn, at, e);
  }

  lemma BaseReadable(p: Prog, fn: Name, at: Places, e: Expr, base: Expr)
    requires Here(p, fn, at, e) && (e.Part? || e.Lookup? || e.Slice?) && base == e.base && TypeOf(e) != PrimTy
    ensures Here(p, fn, at, base) && Readable(at, base) && TypeOf(base) != PrimTy
  {
    HereFits(p, fn, at, e);
    assert Fits(p.funcs, at, ExprNode(e)) && base in OperandsE(e);
  }

  lemma CallForetells(p: Prog, fn: Name, at: Places, S: Specs, e: Expr)
    requires Here(p, fn, at, e) && Towards(p, fn, at, S) && TypeOf(e) != PrimTy && (e.Call? || e.Pop? || e.Copy?) && Readable(at, e)
    ensures Foretells(S.CallAt(e.id), p.info[fn].CallAt(e.id))
  {
    HereFits(p, fn, at, e);
    assert ExprNode(e) in NodesE(e);
    assert Fits(p.funcs, at, ExprNode(e)) && CallForetold(at, S, p.info[fn], ExprNode(e));
  }

  /** Reading one branch: a literal is read as it is, and keeps a spec outside the region. */
  lemma {:induction false} BranchForetells(p: Prog, fn: Name, at: Places, S: Specs, e: Expr, c: Expr)
    requires Here(p, fn, at, c) && Towards(p, fn, at, S) && TypeOf(c) != PrimTy && GetSpec(S, c).Ok?
    requires Fits(p.funcs, at, ExprNode(e)) && e.Ternary? && (c == e.thn || c == e.els)
    requires fn in p.safe || Step(at, GetSpec(S, c).value.1, p.info[fn])
    ensures Towards(p, fn, at, GetSpec(S, c).value.1) && Good(p.info[fn], GetSpec(S, c).value.0)
    ensures
      var s, t := GetSpec(S, c).value.0, SpecOf(p.info[fn], c);
      (!c.Lit? ==> Foretells(s, t)) && (Outside(s.src) && c.Lit? ==> s == t)
    decreases c, 3
  {
    hide HasInv, AllWhole, Settled, OwnTags, Step, GetSpec, SpecOf;
    ReadInv(p, fn, at, S, c);
    if c.Lit? {
      LitKept(at, S, p.info[fn], c);
    } else {
      ReadForetells(p, fn, at, S, c);
    }
  }

  lemma LitKept(at: Places, S: Specs, F: Specs, c: Expr)
    requires c.Lit? && c.id !in at.nested && Step(at, S, F)
    ensures GetSpec(S, c) == Ok((S.LitAt(c.id), S)) && SpecOf(F, c) == F.LitAt(c.id)
    ensures Outside(S.LitAt(c.id).src) ==> S.LitAt(c.id) == F.LitAt(c.id)
  {
  }

  /** A literal moved to the very spec it ends with. */
  lemma MovedTowards(p: Prog, fn: Name, at: Places, S: Specs, e: Expr, s: Spec)
    requires Here(p, fn, at, e) && e.Lit? && Towards(p, fn, at, S) && Good(p.info[fn], s) && Complete(s)
    requires e.id !in at.steady && p.info[fn].LitAt(e.id) == s && Outside(s.src)
    ensures Towards(p, fn, at, SetAlloc(S, e, s))
  {
    hide HasInv, Good, Settled, AllWhole;
    HandDownInv(p, fn, at, S, e, s);
    HereFits(p, fn, at, e);
    MovedStep(p.funcs, at, S, e, s, p.info[fn]);
  }

  lemma MovedStep(funcs: Funcs, at: Places, S: Specs, e: Expr, s: Spec, F: Specs)
    requires Proper(at) && e.Lit? && AllFit(funcs, at, NodesE(e)) && Step(at, S, F)
    requires e.id !in at.steady && F.LitAt(e.id) == s && Outside(s.src)
    ensures Step(at, SetAlloc(S, e, s), F)
  {
    BelowFits(funcs, at, e);
    SetAllocExact(S, e, s);
  }

  /** What the readings of two branches say of their final specs. */
  ghost predicate BranchesForetell(p: Prog, fn: Name, thn: Expr, els: Expr, a: Spec, b: Spec)
    requires fn in p.info
  {
    var F := p.info[fn];
    var aF, bF := SpecOf(F, thn), SpecOf(F, els);
    && Good(F, a) && Good(F, b)
    && (!thn.Lit? ==> Foretells(a, aF)) && (Outside(a.src) && thn.Lit? ==> a == aF)
    && (!els.Lit? ==> Foretells(b, bF)) && (Outside(b.src) && els.Lit? ==> b == bF)
    && aF.src == bF.src && (fn in p.safe ==> SameOrLocal(aF, bF))
  }

  lemma {:induction false} TernaryForetells(p: Prog, fn: Name, at: Places, S: Specs, e: Expr)
    requires Here(p, fn, at, e) && Towards(p, fn, at, S) && TypeOf(e) != PrimTy && e.Ternary? && GetSpec(S, e).Ok?
    requires fn in p.safe || Step(at, GetSpec(S, e).value.1, p.info[fn])
    ensures Foretells(GetSpec(S, e).value.0, SpecOf(p.info[fn], e))
    ensures Towards(p, fn, at, GetSpec(S, e).value.1)
    decreases e, 1
  {
    hide AllWhole, Settled, HasInv, Join, Good, Foretells, SameOrLocal;
    TernaryParts(p, fn, at, S, e);
    var (a, S1) := GetSpec(S, e.thn).value;
    var (b, S2) := GetSpec(S1, e.els).value;
    BranchForetells(p, fn, at, S, e, e.thn);
    BranchForetells(p, fn, at, S1, e, e.els);
    if e.thn.Lit? && e.els.Lit? && a.src == LocalSrc && b.src == LocalSrc {
      LocalPair(p, fn, at, S, e);
    }
    JoinForetells(p, fn, at, S2, e.thn, e.els, a, b);
  }

  /** The branches of a ternary, where they stand, and the states their readings lead to. */
  lemma TernaryParts(p: Prog, fn: Name, at: Places, S: Specs, e: Expr)
    requires Here(p, fn, at, e) && TypeOf(e) != PrimTy && e.Ternary? && GetSpec(S, e).Ok?
    requires fn in p.safe || Step(at, GetSpec(S, e).value.1, p.info[fn])
    ensures Here(p, fn, at, e.thn) && Here(p, fn, at, e.els) && Fits(p.funcs, at, ExprNode(e))
    ensures TypeOf(e.thn) != PrimTy && TypeOf(e.els) != PrimTy
    ensures
      var S1 := GetSpec(S, e.thn).value.1;
      fn in p.safe || (Step(at, S1, p.info[fn]) && Step(at, GetSpec(S1, e.els).value.1, p.info[fn]))
    ensures
      var F := p.info[fn];
      var aF, bF := SpecOf(F, e.thn), SpecOf(F, e.els);
      SpecOf(F, e) == aF && aF.src == bF.src && (fn in p.safe ==> SameOrLocal(aF, bF))
  {
    HereFits(p, fn, at, e);
    assert Fits(p.funcs, at, ExprNode(e)) && e.thn in OperandsE(e) && e.els in OperandsE(e);
    TernarySettled(p, fn, e);
    if fn !in p.safe {
      HereFits(p, fn, at, e.thn);
      HereFits(p, fn, at, e.els);
      var (a, S1) := GetSpec(S, e.thn).value;
      var (b, S2) := GetSpec(S1, e.els).value;
      JoinStep(p.funcs, at, S2, e.thn, e.els, a, b);
      StepTrans(at, S2, Join(S2, e.thn, e.els, a, b).value.1, p.info[fn]);
      GetSpecStep(p.funcs, at, S1, e.els);
      StepTrans(at, S1, S2, p.info[fn]);
    }
  }

  /** Two local literals under one ternary stay local. */
  lemma LocalPair(p: Prog, fn: Name, at: Places, S: Specs, e: Expr)
    requires fn in p.funcs && fn in p.info && Step(at, S, p.info[fn]) && e.Ternary? && Fits(p.funcs, at, ExprNode(e))
    requires e.thn.Lit? && e.els.Lit? && BothLocal(S, e.thn.id, e.els.id)
    ensures SpecOf(p.info[fn], e.thn).src == LocalSrc
  {
    assert BranchFits(at, e.thn, e.els);
    assert BothLocal(S, e.thn.id, at.mate[e.thn.id]);
  }

  /** What is known of two readings when their ternary joins them. */
  ghost predicate Joinable(p: Prog, fn: Name, at: Places, S: Specs, thn: Expr, els: Expr, a: Spec, b: Spec) {
    && Here(p, fn, at, thn) && Here(p, fn, at, els) && Towards(p, fn, at, S)
    && BranchFits(at, thn, els) && BranchFits(at, els, thn) && BranchesForetell(p, fn, thn, els, a, b)
    && (thn.Lit? && els.Lit? && a.src == LocalSrc && b.src == LocalSrc ==> SpecOf(p.info[fn], thn).src == LocalSrc)
  }

  lemma ElseMoved(p: Prog, fn: Name, at: Places, S: Specs, thn: Expr, els: Expr, a: Spec, b: Spec)
    requires Joinable(p, fn, at, S, thn, els, a, b) && Retargets(S, a, els, b) == Ok(true)
    requires fn in p.safe || Step(at, Join(S, thn, els, a, b).value.1, p.info[fn])
    ensures Foretells(Join(S, thn, els, a, b).value.0, SpecOf(p.info[fn], thn))
    ensures Towards(p, fn, at, Join(S, thn, els, a, b).value.1)
  {
    OneMoved(p, fn, at, S, els, a, SpecOf(p.info[fn], thn));
  }

  lemma ThenMoved(p: Prog, fn: Name, at: Places, S: Specs, thn: Expr, els: Expr, a: Spec, b: Spec)
    requires Joinable(p, fn, at, S, thn, els, a, b) && Join(S, thn, els, a, b).Ok?
    requires Retargets(S, a, els, b) == Ok(false) && Retargets(S, b, thn, a) == Ok(true)
    requires fn in p.safe || Step(at, Join(S, thn, els, a, b).value.1, p.info[fn])
    ensures Foretells(Join(S, thn, els, a, b).value.0, SpecOf(p.info[fn], thn))
    ensures Towards(p, fn, at, Join(S, thn, els, a, b).value.1)
  {
    OneMoved(p, fn, at, S, thn, b, SpecOf(p.info[fn], els));
  }

  lemma NeitherMoved(p: Prog, fn: Name, at: Places, S: Specs, thn: Expr, els: Expr, a: Spec, b: Spec)
    requires Joinable(p, fn, at, S, thn, els, a, b) && Join(S, thn, els, a, b).Ok?
    requires Retargets(S, a, els, b) == Ok(false) && Retargets(S, b, thn, a) == Ok(false)
    ensures Foretells(Join(S, thn, els, a, b).value.0, SpecOf(p.info[fn], thn))
    ensures Join(S, thn, els, a, b).value.1 == S
  {
    hide AllWhole, Settled, HasInv;
    if Complete(a) && Complete(b) {
      NoneMoved(thn, els, a, b, SpecOf(p.info[fn], thn), SpecOf(p.info[fn], els));
    }
  }

  /** One branch, a local literal, moved to the spec of the other, which is the final one;
      or neither did, and the sources match or the result is unknown. */
  lemma JoinForetells(p: Prog, fn: Name, at: Places, S: Specs, thn: Expr, els: Expr, a: Spec, b: Spec)
    requires Joinable(p, fn, at, S, thn, els, a, b) && Join(S, thn, els, a, b).Ok?
    requires fn in p.safe || Step(at, Join(S, thn, els, a, b).value.1, p.info[fn])
    ensures Foretells(Join(S, thn, els, a, b).value.0, SpecOf(p.info[fn], thn))
    ensures Towards(p, fn, at, Join(S, thn, els, a, b).value.1)
  {
    hide Here, Towards, BranchesForetell, BranchFits, Foretells;
    if Retargets(S, a, els, b) == Ok(true) {
      ElseMoved(p, fn, at, S, thn, els, a, b);
    } else if Retargets(S, b, thn, a) == Ok(true) {
      ThenMoved(p, fn, at, S, thn, els, a, b);
    } else {
      NeitherMoved(p, fn, at, S, thn, els, a, b);
    }
  }

  lemma NoneMoved(thn: Expr, els: Expr, a: Spec, b: Spec, aF: Spec, bF: Spec)
    requires SourcesMatch(a, b) && aF.src == bF.src
    requires (!thn.Lit? ==> Foretells(a, aF)) && (Outside(a.src) && thn.Lit? ==> a == aF) && (!els.Lit? ==> Foretells(b, bF))
    requires thn.Lit? && els.Lit? && a.src == LocalSrc && b.src == LocalSrc ==> aF.src == LocalSrc
    ensures Foretells(a, aF)
  {
  }

  /** The moved literal ends with the spec it was moved to. */
  lemma OneMoved(p: Prog, fn: Name, at: Places, S: Specs, c: Expr, s: Spec, other: Spec)
    requires Here(p, fn, at, c) && c.Lit? && Towards(p, fn, at, S) && Good(p.info[fn], s) && Complete(s) && s.src == ForeignSrc
    requires c.id !in at.steady && c.id !in at.nested && other == s && (fn in p.safe ==> SameOrLocal(SpecOf(p.info[fn], c), other))
    requires fn in p.safe || Step(at, SetAlloc(S, c, s), p.info[fn])
    ensures SpecOf(p.info[fn], c) == s && Towards(p, fn, at, SetAlloc(S, c, s))
  {
    HandDownInv(p, fn, at, S, c, s);
    SetAllocExact(S, c, s);
    assert SpecOf(p.info[fn], c) == p.info[fn].LitAt(c.id);
    if fn in p.safe {
      MovedTowards(p, fn, at, S, c, s);
    }
  }
}
