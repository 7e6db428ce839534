/** What it means for a program to have passed the region checker on specs that no
    longer change, and the fragment on which the checker's promise holds. */
module RegionAccepted {
  import opened RegionSyntax
  import opened RegionCheck
  import opened RegionSemantics
  import opened Results

  /** A spec that names a variable carries that variable's source. */
  ghost predicate Consistent(S: Specs, s: Spec) {
    match s.kind
    case UnknownKind => true
    case LocalKind => s.src == LocalSrc || s.src == CrossSrc
    case GlobalKind => false
    case ContainerKind => s.region in S.tab && S.tab[s.region].src == s.src
    case NamedRegionKind => s.region in S.tab && S.tab[s.region].src == s.src
  }

  /** `populate_spec_tab_from_scope` on a parameter. */
  function ParamSpec(q: Param): Spec {
    if q.ty == RegionTy then Spec(NamedRegionKind, ForeignSrc, q.name)
    else Spec(ContainerKind, if q.isForeign then CrossSrc else ForeignSrc, q.name)
  }

  ghost function SpecOf(S: Specs, e: Expr): Spec {
    match GetSpec(S, e)
    case Ok((s, _)) => s
    case Err(_) => UNKNOWN
  }

  /** The typing facts the region checker relies on. */
  ghost predicate WellTyped(e: Expr) {
    match e
    case Pop(_, vec, ty) => Allocated(vec) && ty != RegionTy
    case Part(base, _, ty) => Allocated(base) && ty != RegionTy
    case Lookup(base, _) => Allocated(base)
    case Slice(base) => Allocated(base)
    case Call(_, _, _, _, ty) => ty != RegionTy
    case Copy(_, of, dest) => Allocated(of) && (dest != [] ==> TypeOf(dest[0]) == RegionTy)
    case Push(vec, item) => Allocated(vec) && TypeOf(item) != RegionTy
    case Ternary(_, thn, els, ty) => ty != RegionTy && TypeOf(thn) == ty && TypeOf(els) == ty
    case Lit(_, _, elems) => forall c :: c in elems ==> TypeOf(c) != RegionTy
    case _ => true
  }

  ghost predicate SameOrLocal(s: Spec, t: Spec) {
    (s.src == LocalSrc && t.src == LocalSrc) || s == t
  }

  /** The first argument is not compared by the checker when it is a literal. */
  ghost predicate FirstAgrees(S: Specs, args: seq<Expr>) {
    args != [] && args[0].Lit? ==>
      var a := SpecOf(S, args[0]).src;
      a == SpecOf(S, Anchor(args)).src && (|args| > 1 ==> a != CrossSrc)
  }

  /** Some literal of the program mixes regions. */
  ghost predicate Mixing(p: Prog) {
    exists fn, nd :: fn in p.funcs && fn in p.info && nd in NodesB(p.funcs[fn].body) && MixingNode(p.info[fn], nd)
  }

  ghost predicate MixingNode(S: Specs, nd: Node) {
    nd.ExprNode? && nd.e.Lit? && Mixes(S.LitAt(nd.e.id), nd.e.elems)
  }

  /** No argument for an ordinary parameter has the source of a `foreign` one. */
  ghost predicate NoCrossArgs(S: Specs, params: seq<Param>, args: seq<Expr>) {
    forall i :: 0 <= i < |args| && Allocated(args[i]) && (i < |params| ==> !params[i].isForeign) ==>
      SpecOf(S, args[i]).src != CrossSrc
  }

  /** Outside this fragment the checker accepts programs that break confinement
      (RegionCounterexamples, RegionSafeFunctions, RegionMixed): composite globals, a first
      literal argument in another region, a mixed container made anywhere but in the local
      region or handed on to an ordinary parameter, and, in region-safe functions, rebinding or a ternary across two
      parameter regions. (The literals of a region-safe function never mix regions.) */
  ghost predicate InFragment(p: Prog, fn: Name, nd: Node)
    requires fn in p.info
  {
    var S := p.info[fn];
    match nd
    case ExprNode(e) =>
      && WellTyped(e)
      && match e {
        case Ident(x, ty) =>
          && (ty == CompositeTy ==> x in S.tab)
          && (ty == RegionTy ==> x in S.tab && S.tab[x] == Spec(NamedRegionKind, ForeignSrc, x))
        case RegionOf(x) => x in S.tab
        case Lit(_, id, elems) => Mixes(S.LitAt(id), elems) ==> Mixing(p) && S.LitAt(id).kind == LocalKind && fn !in p.safe
        case Push(vec, item) => SafeCall(p.funcs, p.safe, S, e) || FirstAgrees(S, [vec, item])
        case Call(_, callee, args, _, _) =>
          && (SafeCall(p.funcs, p.safe, S, e) || FirstAgrees(S, CallArgs(p.funcs, e)))
          && (Mixing(p) && callee in p.funcs ==> NoCrossArgs(S, p.funcs[callee].params, args))
        case Ternary(_, thn, els, ty) =>
          ty == CompositeTy && fn in p.safe ==> SameOrLocal(SpecOf(S, thn), SpecOf(S, els))
        case _ => true
      }
    case StmtNode(Assign(x, e)) =>
      Allocated(e) ==> x in S.tab && (fn in p.safe ==> SameOrLocal(S.tab[x], SpecOf(S, e)))
    case StmtNode(Store(target, _, _)) => Allocated(target)
    case StmtNode(ForIn(_, ty, e, _)) => Allocated(e) && ty != RegionTy
    case _ => true
  }

  ghost function NodeSpecs(S: Specs, e: Expr): set<Spec> {
    match e
    case Lit(_, id, _) => {S.LitAt(id)}
    case Call(id, _, _, _, _) => {S.CallAt(id)}
    case Pop(id, _, _) => {S.CallAt(id)}
    case Copy(id, _, _) => {S.CallAt(id)}
    case _ => {}
  }

  /** What unchanging specs that passed every check have at a node: an integrity visit
      changes nothing, the post-check holds, and a needed spec is complete. */
  ghost predicate NodeStable(p: Prog, fn: Name, nd: Node)
    requires fn in p.funcs && fn in p.info
  {
    var S := p.info[fn];
    && Visit(p.funcs, p.safe, p.funcs[fn].params, S, nd) == Ok(S)
    && PostCheck(p.funcs, p.safe, S, nd)
    && (nd.ExprNode? && HasAllocSpec(nd.e) ==> GetSpec(S, nd.e) == Ok((SpecOf(S, nd.e), S)) && Complete(SpecOf(S, nd.e)))
  }

  /** ... and the region-safe classification still holds of it. */
  ghost predicate NodeChecked(p: Prog, fn: Name, nd: Node)
    requires fn in p.funcs && fn in p.info
  {
    NodeStable(p, fn, nd) && (fn in p.safe ==> SafeNode(p.funcs, p.safe, p.info[fn], nd))
  }

  ghost predicate NodeOk(p: Prog, fn: Name, nd: Node)
    requires fn in p.funcs && fn in p.info
  {
    && NodeChecked(p, fn, nd)
    && InFragment(p, fn, nd)
    && (nd.ExprNode? ==> forall s :: s in NodeSpecs(p.info[fn], nd.e) ==> Consistent(p.info[fn], s))
  }

  ghost predicate NodesOk(p: Prog, fn: Name, nds: seq<Node>)
    requires fn in p.funcs && fn in p.info
  {
    forall nd {:trigger NodeOk(p, fn, nd)} :: nd in nds ==> NodeOk(p, fn, nd)
  }

  ghost predicate TableOk(p: Prog, fn: Name)
    requires fn in p.funcs && fn in p.info
  {
    var S := p.info[fn];
    && (forall x {:trigger Complete(S.tab[x])} {:trigger Consistent(S, S.tab[x])} ::
          x in S.tab ==> Complete(S.tab[x]) && Consistent(S, S.tab[x]))
    && (forall q :: q in p.funcs[fn].params && q.ty != PrimTy ==>
          q.name in S.tab && S.tab[q.name] == ParamSpec(q) && (q.ty == RegionTy ==> !q.isForeign))
  }

  ghost predicate FunctionOk(p: Prog, fn: Name)
    requires fn in p.funcs && fn in p.info
  {
    TableOk(p, fn) && NodesOk(p, fn, NodesB(p.funcs[fn].body))
  }

  ghost predicate Accepted(p: Prog) {
    && p.globals == map[]
    && (forall fn :: fn in p.funcs ==> fn in p.info)
    && forall fn {:trigger FunctionOk(p, fn)} :: fn in p.funcs ==> FunctionOk(p, fn)
  }

  // ----- reading a spec on unchanging specs -----

  /** Literal specs only ever leave the local source. */
  ghost predicate Grows(S: Specs, T: Specs) {
    && S.tab == T.tab
    && forall i :: T.LitAt(i) == S.LitAt(i) || T.LitAt(i).src == ForeignSrc || T.LitAt(i).src == CrossSrc
  }

  ghost predicate OnlyForeign(S: Specs, T: Specs) {
    && S.tab == T.tab
    && forall i :: T.LitAt(i) == S.LitAt(i) || T.LitAt(i).src == ForeignSrc
  }

  lemma {:induction false} SetAllocForeign(S: Specs, e: Expr, s: Spec)
    requires e.Lit? && s.src == ForeignSrc
    ensures OnlyForeign(S, SetAlloc(S, e, s)) && SetAlloc(S, e, s).LitAt(e.id).src == ForeignSrc
    decreases e
  {
    SetAllocsForeign(S.SetLit(e.id, s), e.elems, s);
  }

  lemma {:induction false} SetAllocsForeign(S: Specs, es: seq<Expr>, s: Spec)
    requires s.src == ForeignSrc
    ensures OnlyForeign(S, SetAllocs(S, es, s))
    decreases es
  {
    if es != [] {
      if es[0].Lit? {
        SetAllocForeign(S, es[0], s);
        SetAllocsForeign(SetAlloc(S, es[0], s), es[1..], s);
      } else if es[0].Call? && es[0].auto {
        SetAllocsForeign(S.SetCall(es[0].id, s), es[1..], s);
      } else {
        SetAllocsForeign(S, es[1..], s);
      }
    }
  }

  lemma {:induction false} GetSpecForeign(S: Specs, e: Expr)
    requires GetSpec(S, e).Ok?
    ensures OnlyForeign(S, GetSpec(S, e).value.1)
    decreases e
  {
    match e
    case Part(base, _, _) => GetSpecForeign(S, base);
    case Lookup(base, _) => GetSpecForeign(S, base);
    case Slice(base) => GetSpecForeign(S, base);
    case Ternary(_, thn, els, _) =>
      GetSpecForeign(S, thn);
      var (a, S1) := GetSpec(S, thn).value;
      GetSpecForeign(S1, els);
      var (b, S2) := GetSpec(S1, els).value;
      JoinForeign(S2, thn, els, a, b);
    case _ =>
  }

  lemma JoinForeign(S: Specs, thn: Expr, els: Expr, a: Spec, b: Spec)
    requires Join(S, thn, els, a, b).Ok?
    ensures OnlyForeign(S, Join(S, thn, els, a, b).value.1)
  {
    if Retargets(S, a, els, b) == Ok(true) {
      SetAllocForeign(S, els, a);
    } else if Retargets(S, b, thn, a) == Ok(true) {
      SetAllocForeign(S, thn, b);
    }
  }

  /** A joining that changes nothing joins two specs of one source. */
  lemma JoinIdle(S: Specs, thn: Expr, els: Expr, a: Spec, b: Spec, s: Spec)
    requires Join(S, thn, els, a, b) == Ok((s, S)) && Complete(a) && Complete(b)
    ensures s == a && a.src == b.src
  {
    if Retargets(S, a, els, b) == Ok(true) {
      SetAllocForeign(S, els, a);
    } else if Retargets(S, b, thn, a) == Ok(true) {
      SetAllocForeign(S, thn, b);
    }
  }

  lemma {:induction false} NodesOfPart(e: Expr, c: Expr)
    requires
      match e
      case Lit(_, _, elems) => c in elems
      case Call(_, _, args, _, _) => c in args
      case Push(vec, item) => c == vec || c == item
      case Pop(_, vec, _) => c == vec
      case Copy(_, of, dest) => c == of || c in dest
      case Part(base, _, _) => c == base
      case Lookup(base, _) => c == base
      case Slice(base) => c == base
      case Ternary(cond, thn, els, _) => c == cond || c == thn || c == els
      case _ => false
    ensures forall nd :: nd in NodesE(c) ==> nd in NodesE(e)
  {
    match e
    case Lit(_, _, elems) => NodesOfElem(elems, c);
    case Call(_, _, args, _, _) => NodesOfElem(args, c);
    case Copy(_, _, dest) => if c in dest { NodesOfElem(dest, c); }
    case _ =>
  }

  lemma {:induction false} NodesOfElem(es: seq<Expr>, c: Expr)
    requires c in es
    ensures forall nd :: nd in NodesE(c) ==> nd in NodesEs(es)
  {
    if es[0] != c {
      NodesOfElem(es[1..], c);
    }
  }

  ghost predicate NamesComplete(S: Specs) {
    forall x :: x in S.tab ==> Complete(S.tab[x])
  }

  /** Every node of e is stable and in the fragment. */
  ghost predicate Settled(p: Prog, fn: Name, nds: seq<Node>)
    requires fn in p.funcs && fn in p.info
  {
    forall nd {:trigger NodeStable(p, fn, nd)} {:trigger InFragment(p, fn, nd)} ::
      nd in nds ==> NodeStable(p, fn, nd) && InFragment(p, fn, nd)
  }

  /** On stable specs reading a spec has no effect and always yields a complete one. */
  lemma {:induction false} SpecSettled(p: Prog, fn: Name, e: Expr)
    requires fn in p.funcs && fn in p.info && Settled(p, fn, NodesE(e))
    requires Allocated(e) || (TypeOf(e) == RegionTy && NamesComplete(p.info[fn]))
    ensures GetSpec(p.info[fn], e) == Ok((SpecOf(p.info[fn], e), p.info[fn])) && Complete(SpecOf(p.info[fn], e))
    decreases e
  {
    var S := p.info[fn];
    assert NodeStable(p, fn, ExprNode(e)) && InFragment(p, fn, ExprNode(e));
    match e
    case Part(base, _, _) => NodesOfPart(e, base); SpecSettled(p, fn, base);
    case Lookup(base, _) => NodesOfPart(e, base); SpecSettled(p, fn, base);
    case Slice(base) => NodesOfPart(e, base); SpecSettled(p, fn, base);
    case Pop(id, vec, _) =>
      NodesOfPart(e, vec);
      SpecSettled(p, fn, vec);
      PopSpec(p, fn, e);
    case _ =>
  }

  lemma PopSpec(p: Prog, fn: Name, e: Expr)
    requires fn in p.funcs && fn in p.info && NodeStable(p, fn, ExprNode(e)) && e.Pop?
    requires GetSpec(p.info[fn], e.vec) == Ok((SpecOf(p.info[fn], e.vec), p.info[fn])) && Complete(SpecOf(p.info[fn], e.vec))
    ensures p.info[fn].CallAt(e.id) == SpecOf(p.info[fn], e.vec)
  {
    var S := p.info[fn];
    assert S.SetCall(e.id, SpecOf(S, e.vec)) == S;
  }

  /** The branches of a stable ternary have one source, and the spec is the first one's. */
  lemma TernarySettled(p: Prog, fn: Name, e: Expr)
    requires fn in p.funcs && fn in p.info && Settled(p, fn, NodesE(e)) && e.Ternary? && Allocated(e)
    ensures
      var S := p.info[fn];
      var a, b := SpecOf(S, e.thn), SpecOf(S, e.els);
      && SpecOf(S, e) == a && a.src == b.src && (fn in p.safe ==> SameOrLocal(a, b))
      && Complete(a) && Complete(b)
  {
    var S := p.info[fn];
    assert NodeStable(p, fn, ExprNode(e)) && InFragment(p, fn, ExprNode(e));
    NodesOfPart(e, e.thn);
    NodesOfPart(e, e.els);
    SpecSettled(p, fn, e.thn);
    SpecSettled(p, fn, e.els);
    JoinIdle(S, e.thn, e.els, SpecOf(S, e.thn), SpecOf(S, e.els), SpecOf(S, e));
  }

  /** On accepted specs what is read also carries the source it names. */
  lemma {:induction false} SpecStable(p: Prog, fn: Name, e: Expr)
    requires fn in p.funcs && fn in p.info && TableOk(p, fn) && NodesOk(p, fn, NodesE(e))
    requires TypeOf(e) != PrimTy
    ensures GetSpec(p.info[fn], e) == Ok((SpecOf(p.info[fn], e), p.info[fn]))
    ensures Complete(SpecOf(p.info[fn], e)) && Consistent(p.info[fn], SpecOf(p.info[fn], e))
    decreases e
  {
    assert NodeOk(p, fn, ExprNode(e));
    OkIsSettled(p, fn, NodesE(e));
    SpecSettled(p, fn, e);
    match e
    case Part(base, _, _) => NodesOfPart(e, base); SpecStable(p, fn, base);
    case Lookup(base, _) => NodesOfPart(e, base); SpecStable(p, fn, base);
    case Slice(base) => NodesOfPart(e, base); SpecStable(p, fn, base);
    case Ternary(_, thn, _, _) =>
      NodesOfPart(e, thn);
      SpecStable(p, fn, thn);
      TernarySettled(p, fn, e);
    case _ =>
  }

  lemma OkIsSettled(p: Prog, fn: Name, nds: seq<Node>)
    requires fn in p.funcs && fn in p.info && TableOk(p, fn) && NodesOk(p, fn, nds)
    ensures Settled(p, fn, nds) && NamesComplete(p.info[fn])
  {
    forall nd | nd in nds
      ensures NodeStable(p, fn, nd) && InFragment(p, fn, nd)
    {
      assert NodeOk(p, fn, nd);
    }
  }

  // ----- the spec of a call -----

  lemma {:induction false} AllocatedArgsFrom(params: seq<Param>, args: seq<Expr>)
    ensures forall a :: a in AllocatedArgs(params, args) ==> a in args && TypeOf(a) != PrimTy
  {
    if args != [] {
      AllocatedArgsFrom(if params == [] then [] else params[1..], args[1..]);
    }
  }

  lemma {:induction false} AlignForeign(S: Specs, args: seq<Expr>, req: Spec)
    requires AlignArgs(S, args, req).Ok?
    ensures OnlyForeign(S, AlignArgs(S, args, req).value)
    decreases args
  {
    if args != [] {
      GetSpecForeign(S, args[0]);
      var (a, S1) := GetSpec(S, args[0]).value;
      if BothKnown(a, req) && args[0].Lit? && CanRetarget(S1.LitAt(args[0].id), req) == Ok(true) {
        SetAllocForeign(S1, args[0], req);
        AlignForeign(SetAlloc(S1, args[0], req), args[1..], req);
      } else {
        AlignForeign(S1, args[1..], req);
      }
    }
  }

  lemma SameRegionForeign(S: Specs, args: seq<Expr>)
    requires args != [] && SameRegion(S, args).Ok?
    ensures OnlyForeign(S, SameRegion(S, args).value.1)
  {
    GetSpecForeign(S, Anchor(args));
    var (req, S1) := GetSpec(S, Anchor(args)).value;
    if Complete(req) && args[0].Lit? && CanRetarget(S1.LitAt(args[0].id), req) == Ok(true) {
      SetAllocForeign(S1, args[0], req);
    }
    AlignForeign(RetargetFirst(S1, args[0], req).value, args[1..], req);
  }

  lemma {:induction false} MarkForeignChanges(S: Specs, params: seq<Param>, args: seq<Expr>)
    ensures
      var T := MarkForeign(S, params, args);
      T == S || exists i :: S.LitAt(i).src == LocalSrc && T.LitAt(i).src == CrossSrc
    decreases args
  {
    if args != [] && params != [] {
      var a := args[0];
      if params[0].isForeign && a.Lit? && (a.lit.VecLit? || a.lit.DictLit?)
         && S.LitAt(a.id).kind == LocalKind && S.LitAt(a.id).src == LocalSrc {
        var S1 := S.SetLit(a.id, S.LitAt(a.id).(src := CrossSrc));
        MarkForeignKeeps(S1, params[1..], args[1..], a.id);
        assert S.LitAt(a.id).src == LocalSrc && MarkForeign(S, params, args).LitAt(a.id).src == CrossSrc;
      } else {
        MarkForeignChanges(S, params[1..], args[1..]);
      }
    }
  }

  lemma {:induction false} MarkForeignKeeps(S: Specs, params: seq<Param>, args: seq<Expr>, i: nat)
    requires S.LitAt(i).src == CrossSrc
    ensures MarkForeign(S, params, args).LitAt(i).src == CrossSrc
    decreases args
  {
    if args != [] && params != [] {
      var a := args[0];
      MarkForeignKeeps(
        if params[0].isForeign && a.Lit? && (a.lit.VecLit? || a.lit.DictLit?)
           && S.LitAt(a.id).kind == LocalKind && S.LitAt(a.id).src == LocalSrc
        then S.SetLit(a.id, S.LitAt(a.id).(src := CrossSrc)) else S,
        params[1..], args[1..], i);
    }
  }

  lemma CallArgsSettled(p: Prog, fn: Name, e: Expr, a: Expr)
    requires fn in p.funcs && fn in p.info && e.Call? && Settled(p, fn, NodesE(e)) && a in CallArgs(p.funcs, e)
    ensures TypeOf(a) != PrimTy && (a == LocalRegion || a in e.args) && Settled(p, fn, NodesE(a))
  {
    AllocatedArgsFrom(if e.fn in p.funcs then p.funcs[e.fn].params else [], e.args);
    if a in e.args {
      NodesOfPart(e, a);
    } else {
      assert a == LocalRegion;
    }
  }

  /** The result spec of a checked call is the spec of the argument it is anchored to. */
  lemma CallSpecIsAnchor(p: Prog, fn: Name, e: Expr)
    requires fn in p.funcs && fn in p.info && NamesComplete(p.info[fn]) && e.Call? && Settled(p, fn, NodesE(e))
    requires !SafeCall(p.funcs, p.safe, p.info[fn], e) && CallArgs(p.funcs, e) != []
    ensures p.info[fn].CallAt(e.id) == SpecOf(p.info[fn], Anchor(CallArgs(p.funcs, e)))
  {
    var S := p.info[fn];
    var params := if e.fn in p.funcs then p.funcs[e.fn].params else [];
    var S0 := MarkForeign(S, params, e.args);
    var args := CallArgs(p.funcs, e);
    assert NodeStable(p, fn, ExprNode(e));
    var (req, S1) := SameRegion(S0, args).value;
    SameRegionForeign(S0, args);
    MarkForeignChanges(S, params, e.args);
    assert S0 == S;
    CallArgsSettled(p, fn, e, Anchor(args));
    SpecSettled(p, fn, Anchor(args));
    assert S1.SetCall(e.id, req) == S;
  }
}
