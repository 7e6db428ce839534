/** When a pass that leaves the specs as they were has changed nothing on the way: the
    hypothesis of the soundness theorem follows from one idle pass. */
module RegionFixpoint {
  import opened RegionSyntax
  import opened RegionCheck
  import opened RegionAccepted
  import opened RegionPasses
  import opened RegionSemantics
  import opened Results

  ghost predicate KeepsKnown(S: Specs, T: Specs) {
    forall i :: SrcKnown(S.LitAt(i)) ==> SrcKnown(T.LitAt(i))
  }

  ghost predicate Filled(S: Specs, T: Specs) {
    exists i :: !SrcKnown(S.LitAt(i)) && SrcKnown(T.LitAt(i))
  }

  ghost predicate Moved(S: Specs, T: Specs) {
    exists i :: S.LitAt(i).src == LocalSrc && Outside(T.LitAt(i).src)
  }

  /** Unless a source was filled in, a literal only leaves the local source. */
  ghost predicate Directed(S: Specs, T: Specs) {
    && KeepsKnown(S, T)
    && (Filled(S, T) || forall i :: T.LitAt(i) == S.LitAt(i) || Outside(T.LitAt(i).src))
  }

  ghost predicate Event(S: Specs, T: Specs) {
    Filled(S, T) || Moved(S, T)
  }

  lemma DirectedTrans(S: Specs, T: Specs, U: Specs)
    requires Directed(S, T) && Directed(T, U)
    ensures Directed(S, U)
  {
    if Filled(S, T) {
      var i :| !SrcKnown(S.LitAt(i)) && SrcKnown(T.LitAt(i));
      assert SrcKnown(U.LitAt(i));
    } else if Filled(T, U) {
      var i :| !SrcKnown(T.LitAt(i)) && SrcKnown(U.LitAt(i));
      assert !SrcKnown(S.LitAt(i));
    }
  }

  lemma EventPersists(S: Specs, T: Specs, U: Specs)
    requires Directed(S, T) && Directed(T, U) && Event(S, T)
    ensures Event(S, U)
  {
    if Filled(S, T) {
      var i :| !SrcKnown(S.LitAt(i)) && SrcKnown(T.LitAt(i));
      assert SrcKnown(U.LitAt(i));
    } else if Filled(T, U) {
      var i :| !SrcKnown(T.LitAt(i)) && SrcKnown(U.LitAt(i));
      assert !SrcKnown(S.LitAt(i));
    } else {
      var i :| S.LitAt(i).src == LocalSrc && Outside(T.LitAt(i).src);
      assert Outside(U.LitAt(i).src);
    }
  }

  /** The effect of reading and retargeting. */
  ghost predicate Mild(S: Specs, T: Specs) {
    T.tab == S.tab && Directed(S, T) && (Event(S, T) || T == S)
  }

  lemma MildTrans(S: Specs, T: Specs, U: Specs)
    requires Mild(S, T) && Mild(T, U)
    ensures Mild(S, U)
  {
    DirectedTrans(S, T, U);
    if T != S {
      EventPersists(S, T, U);
    }
  }

  lemma {:induction false} SetAllocWrites(S: Specs, e: Expr, s: Spec)
    requires e.Lit?
    ensures
      var T := SetAlloc(S, e, s);
      T.tab == S.tab && T.LitAt(e.id) == s && forall i :: T.LitAt(i) == S.LitAt(i) || T.LitAt(i) == s
    decreases e
  {
    SetAllocsWrites(S.SetLit(e.id, s), e.elems, s);
  }

  lemma {:induction false} SetAllocsWrites(S: Specs, es: seq<Expr>, s: Spec)
    ensures
      var T := SetAllocs(S, es, s);
      T.tab == S.tab && forall i :: T.LitAt(i) == S.LitAt(i) || T.LitAt(i) == s
    decreases es
  {
    if es != [] {
      if es[0].Lit? {
        SetAllocWrites(S, es[0], s);
        SetAllocsWrites(SetAlloc(S, es[0], s), es[1..], s);
      } else if es[0].Call? && es[0].auto {
        SetAllocsWrites(S.SetCall(es[0].id, s), es[1..], s);
      } else {
        SetAllocsWrites(S, es[1..], s);
      }
    }
  }

  lemma RetargetMild(S: Specs, e: Expr, s: Spec)
    requires e.Lit? && S.LitAt(e.id).src == LocalSrc && s.src == ForeignSrc
    ensures Mild(S, SetAlloc(S, e, s))
  {
    SetAllocWrites(S, e, s);
    assert S.LitAt(e.id).src == LocalSrc && Outside(SetAlloc(S, e, s).LitAt(e.id).src);
  }

  lemma FillMild(S: Specs, e: Expr, s: Spec)
    requires e.Lit? && !SrcKnown(S.LitAt(e.id)) && SrcKnown(s)
    ensures Mild(S, SetAlloc(S, e, s))
  {
    SetAllocWrites(S, e, s);
    assert !SrcKnown(S.LitAt(e.id)) && SrcKnown(SetAlloc(S, e, s).LitAt(e.id));
  }

  lemma JoinMild(S: Specs, thn: Expr, els: Expr, a: Spec, b: Spec)
    requires Join(S, thn, els, a, b).Ok?
    ensures Mild(S, Join(S, thn, els, a, b).value.1)
  {
    if Retargets(S, a, els, b) == Ok(true) {
      RetargetMild(S, els, a);
    } else if Retargets(S, b, thn, a) == Ok(true) {
      RetargetMild(S, thn, b);
    }
  }

  lemma {:induction false} GetSpecMild(S: Specs, e: Expr)
    requires GetSpec(S, e).Ok?
    ensures Mild(S, GetSpec(S, e).value.1)
    ensures e.Lit? ==> GetSpec(S, e) == Ok((S.LitAt(e.id), S))
    decreases e
  {
    match e
    case Part(base, _, _) => GetSpecMild(S, base);
    case Lookup(base, _) => GetSpecMild(S, base);
    case Slice(base) => GetSpecMild(S, base);
    case Ternary(_, thn, els, _) =>
      GetSpecMild(S, thn);
      var (a, S1) := GetSpec(S, thn).value;
      GetSpecMild(S1, els);
      var (b, S2) := GetSpec(S1, els).value;
      MildTrans(S, S1, S2);
      JoinMild(S2, thn, els, a, b);
      MildTrans(S, S2, Join(S2, thn, els, a, b).value.1);
    case _ =>
  }

  lemma {:induction false} AlignMild(S: Specs, args: seq<Expr>, req: Spec)
    requires AlignArgs(S, args, req).Ok?
    ensures Mild(S, AlignArgs(S, args, req).value)
    decreases args
  {
    if args != [] {
      GetSpecMild(S, args[0]);
      var (a, S1) := GetSpec(S, args[0]).value;
      if BothKnown(a, req) && args[0].Lit? && CanRetarget(S1.LitAt(args[0].id), req) == Ok(true) {
        RetargetMild(S1, args[0], req);
        MildTrans(S, S1, SetAlloc(S1, args[0], req));
        AlignMild(SetAlloc(S1, args[0], req), args[1..], req);
        MildTrans(S, SetAlloc(S1, args[0], req), AlignArgs(S, args, req).value);
      } else {
        AlignMild(S1, args[1..], req);
        MildTrans(S, S1, AlignArgs(S, args, req).value);
      }
    }
  }

  lemma SameRegionMild(S: Specs, args: seq<Expr>)
    requires args != [] && SameRegion(S, args).Ok?
    ensures Mild(S, SameRegion(S, args).value.1)
  {
    GetSpecMild(S, Anchor(args));
    var (req, S1) := GetSpec(S, Anchor(args)).value;
    var S2 := RetargetFirst(S1, args[0], req).value;
    if Complete(req) && args[0].Lit? && CanRetarget(S1.LitAt(args[0].id), req) == Ok(true) {
      RetargetMild(S1, args[0], req);
    }
    MildTrans(S, S1, S2);
    AlignMild(S2, args[1..], req);
    MildTrans(S, S2, SameRegion(S, args).value.1);
  }

  lemma {:induction false} MarkForeignMild(S: Specs, params: seq<Param>, args: seq<Expr>)
    ensures Mild(S, MarkForeign(S, params, args))
    decreases args
  {
    if args != [] && params != [] {
      var a := args[0];
      if params[0].isForeign && a.Lit? && (a.lit.VecLit? || a.lit.DictLit?)
         && S.LitAt(a.id).kind == LocalKind && S.LitAt(a.id).src == LocalSrc {
        var S1 := S.SetLit(a.id, S.LitAt(a.id).(src := CrossSrc));
        assert S.LitAt(a.id).src == LocalSrc && Outside(S1.LitAt(a.id).src);
        MarkForeignMild(S1, params[1..], args[1..]);
        MildTrans(S, S1, MarkForeign(S, params, args));
      } else {
        MarkForeignMild(S, params[1..], args[1..]);
      }
    }
  }

  // ----- what a visit may write besides literal specs -----

  function OwnNames(nd: Node): set<Name> {
    match nd
    case StmtNode(Declare(x, e)) => if Allocated(e) then {x} else {}
    case StmtNode(ForIn(x, ty, _, _)) => if ty == CompositeTy then {x} else {}
    case _ => {}
  }

  function OwnCalls(nd: Node): set<nat> {
    match nd
    case ExprNode(Call(id, _, _, _, _)) => {id}
    case ExprNode(Pop(id, _, _)) => {id}
    case ExprNode(Copy(id, _, _)) => {id}
    case _ => {}
  }

  ghost predicate NamesOnly(S: Specs, T: Specs, xs: set<Name>) {
    && S.tab.Keys <= T.tab.Keys
    && forall x :: x !in xs ==> (x in S.tab <==> x in T.tab) && (x in S.tab ==> S.tab[x] == T.tab[x])
  }

  ghost predicate CallsOnly(S: Specs, T: Specs, ids: set<nat>) {
    forall i :: i !in ids ==> (i in S.call <==> i in T.call) && (i in S.call ==> S.call[i] == T.call[i])
  }

  ghost predicate Effect(S: Specs, T: Specs, xs: set<Name>, ids: set<nat>) {
    Directed(S, T) && NamesOnly(S, T, xs) && (Event(S, T) || (T.lit == S.lit && CallsOnly(S, T, ids)))
  }

  lemma EffectTrans(S: Specs, T: Specs, U: Specs, xs: set<Name>, ids: set<nat>, ys: set<Name>, ks: set<nat>)
    requires Effect(S, T, xs, ids) && Effect(T, U, ys, ks)
    ensures Effect(S, U, xs + ys, ids + ks)
  {
    DirectedTrans(S, T, U);
    if Event(S, T) {
      EventPersists(S, T, U);
    } else if Event(T, U) {
      assert forall i :: S.LitAt(i) == T.LitAt(i);
    }
  }

  lemma TakeEffect(S: Specs, S1: Specs, id: nat, s: Spec)
    requires Mild(S, S1)
    ensures Effect(S, TakeRead(S1, id, s), {}, {id})
  {
    assert forall i :: S1.SetCall(id, s).LitAt(i) == S1.LitAt(i);
  }

  lemma BindEffect(S: Specs, S1: Specs, x: Name, s: Spec)
    requires Mild(S, S1)
    ensures Effect(S, BindRead(S1, x, s), {x}, {})
  {
    assert forall i :: S1.SetName(x, s).LitAt(i) == S1.LitAt(i);
  }

  lemma VisitCallEffect(funcs: Funcs, safe: set<Name>, S: Specs, e: Expr)
    requires e.Call? && VisitCall(funcs, safe, S, e).Ok?
    ensures Effect(S, VisitCall(funcs, safe, S, e).value, {}, {e.id})
  {
    if SafeCall(funcs, safe, S, e) {
      TakeEffect(S, S, e.id, LOCAL);
    } else {
      var S0 := MarkForeign(S, if e.fn in funcs then funcs[e.fn].params else [], e.args);
      MarkForeignMild(S, if e.fn in funcs then funcs[e.fn].params else [], e.args);
      var args := CallArgs(funcs, e);
      if args != [] {
        SameRegionMild(S0, args);
        var (req, S1) := SameRegion(S0, args).value;
        MildTrans(S, S0, S1);
        TakeEffect(S, S1, e.id, req);
      }
    }
  }

  lemma VisitPushEffect(funcs: Funcs, safe: set<Name>, S: Specs, e: Expr)
    requires e.Push? && VisitCall(funcs, safe, S, e).Ok?
    ensures Effect(S, VisitCall(funcs, safe, S, e).value, {}, {})
  {
    if !SafeCall(funcs, safe, S, e) {
      SameRegionMild(S, [e.vec, e.item]);
    }
  }

  lemma VisitTakeEffect(funcs: Funcs, safe: set<Name>, S: Specs, e: Expr)
    requires (e.Pop? || e.Copy?) && VisitExpr(funcs, safe, S, e).Ok?
    ensures Effect(S, VisitExpr(funcs, safe, S, e).value, {}, {e.id})
  {
    if e.Copy? && e.dest == [] {
      TakeEffect(S, S, e.id, LOCAL);
    } else {
      var c := if e.Pop? then e.vec else e.dest[0];
      GetSpecMild(S, c);
      TakeEffect(S, GetSpec(S, c).value.1, e.id, GetSpec(S, c).value.0);
    }
  }

  lemma VisitLitEffect(funcs: Funcs, safe: set<Name>, S: Specs, e: Expr)
    requires e.Lit? && VisitExpr(funcs, safe, S, e).Ok?
    ensures Effect(S, VisitExpr(funcs, safe, S, e).value, {}, {})
  {
    var own := S.LitAt(e.id);
    if (own.kind.NamedRegionKind? || own.kind.ContainerKind?) && SrcKnown(S.Named(own.region)) && !SrcKnown(own) {
      FillMild(S, e, own.(src := S.Named(own.region).src));
    }
  }

  lemma VisitExprEffect(funcs: Funcs, safe: set<Name>, S: Specs, e: Expr)
    requires VisitExpr(funcs, safe, S, e).Ok?
    ensures Effect(S, VisitExpr(funcs, safe, S, e).value, {}, OwnCalls(ExprNode(e)))
  {
    match e
    case Call(_, _, _, _, _) => VisitCallEffect(funcs, safe, S, e);
    case Push(_, _) => VisitPushEffect(funcs, safe, S, e);
    case Pop(_, _, _) => VisitTakeEffect(funcs, safe, S, e);
    case Copy(_, _, _) => VisitTakeEffect(funcs, safe, S, e);
    case Lit(_, _, _) => VisitLitEffect(funcs, safe, S, e);
    case _ =>
  }

  lemma VisitBindEffect(params: seq<Param>, S: Specs, st: Stmt)
    requires (st.Declare? || st.ForIn? || st.Assign?) && VisitStmt(params, S, st).Ok?
    ensures Effect(S, VisitStmt(params, S, st).value, OwnNames(StmtNode(st)), {})
  {
    if GetSpec(S, st.e).Ok? {
      GetSpecMild(S, st.e);
      BindEffect(S, GetSpec(S, st.e).value.1, st.x, GetSpec(S, st.e).value.0);
    }
  }

  lemma VisitStmtEffect(params: seq<Param>, S: Specs, st: Stmt)
    requires VisitStmt(params, S, st).Ok?
    ensures Effect(S, VisitStmt(params, S, st).value, OwnNames(StmtNode(st)), {})
  {
    match st
    case Declare(_, _) => VisitBindEffect(params, S, st);
    case Assign(_, _) => VisitBindEffect(params, S, st);
    case Store(target, _, e) => VisitStoreMild(S, target, e);
    case Return(e) => if Allocated(e) { VisitReturnMild(params, S, e); }
    case ForIn(_, _, _, _) => VisitBindEffect(params, S, st);
    case _ =>
  }

  lemma StoreReadMild(S: Specs, lhs: Spec, rhs: Spec, e: Expr)
    requires StoreRead(S, lhs, rhs, e).Ok?
    ensures Mild(S, StoreRead(S, lhs, rhs, e).value)
  {
    if e.Lit? && Complete(lhs) && CanRetarget(S.LitAt(e.id), lhs) == Ok(true) {
      RetargetMild(S, e, lhs);
    }
  }

  lemma VisitStoreMild(S: Specs, target: Expr, e: Expr)
    requires VisitStore(S, target, e).Ok?
    ensures Mild(S, VisitStore(S, target, e).value)
  {
    GetSpecMild(S, target);
    var (lhs, S1) := GetSpec(S, target).value;
    if Allocated(e) {
      GetSpecMild(S1, e);
      var (rhs, S2) := GetSpec(S1, e).value;
      MildTrans(S, S1, S2);
      StoreReadMild(S2, lhs, rhs, e);
      MildTrans(S, S2, StoreRead(S2, lhs, rhs, e).value);
    }
  }

  lemma ReturnReadMild(S: Specs, implicit: Spec, s: Spec, e: Expr)
    requires ReturnRead(S, implicit, s, e).Ok? && (e.Lit? ==> s == S.LitAt(e.id))
    ensures Mild(S, ReturnRead(S, implicit, s, e).value)
  {
    if e.Lit? && s.src == LocalSrc && Complete(implicit) && CanRetarget(s, implicit) == Ok(true) {
      RetargetMild(S, e, implicit);
    }
  }

  lemma VisitReturnMild(params: seq<Param>, S: Specs, e: Expr)
    requires Allocated(e) && VisitReturn(params, S, e).Ok?
    ensures Mild(S, VisitReturn(params, S, e).value)
  {
    GetSpecMild(S, e);
    var (s, S1) := GetSpec(S, e).value;
    var implicit := ImplicitSpec(S1, params);
    ReturnReadMild(S1, implicit, s, e);
    MildTrans(S, S1, ReturnRead(S1, implicit, s, e).value);
  }

  function AllNames(nodes: seq<Node>): set<Name> {
    if nodes == [] then {} else OwnNames(nodes[0]) + AllNames(nodes[1..])
  }

  function AllCalls(nodes: seq<Node>): set<nat> {
    if nodes == [] then {} else OwnCalls(nodes[0]) + AllCalls(nodes[1..])
  }

  lemma {:induction false} PassEffect(funcs: Funcs, safe: set<Name>, params: seq<Param>, S: Specs, nodes: seq<Node>)
    requires Pass(funcs, safe, params, S, nodes).Ok?
    ensures Effect(S, Pass(funcs, safe, params, S, nodes).value, AllNames(nodes), AllCalls(nodes))
    decreases nodes
  {
    if nodes != [] {
      var T := Visit(funcs, safe, params, S, nodes[0]).value;
      VisitEffect(funcs, safe, params, S, nodes[0]);
      PassEffect(funcs, safe, params, T, nodes[1..]);
      EffectTrans(S, T, Pass(funcs, safe, params, T, nodes[1..]).value,
                  OwnNames(nodes[0]), OwnCalls(nodes[0]), AllNames(nodes[1..]), AllCalls(nodes[1..]));
    }
  }

  lemma VisitEffect(funcs: Funcs, safe: set<Name>, params: seq<Param>, S: Specs, nd: Node)
    requires Visit(funcs, safe, params, S, nd).Ok?
    ensures Effect(S, Visit(funcs, safe, params, S, nd).value, OwnNames(nd), OwnCalls(nd))
  {
    match nd
    case ExprNode(e) => VisitExprEffect(funcs, safe, S, e);
    case StmtNode(st) => VisitStmtEffect(params, S, st);
  }

  /** Every call node has its own spec field. */
  predicate OwnFields(nodes: seq<Node>) {
    nodes != [] ==> OwnCalls(nodes[0]) !! AllCalls(nodes[1..]) && OwnFields(nodes[1..])
  }

  /** A composite binding of x, if it writes the table at all, writes what is there. */
  predicate BindingAgrees(S: Specs, nd: Node) {
    match nd
    case StmtNode(Declare(x, e)) => Allocated(e) ==> WritesOwn(S, x, e)
    case StmtNode(ForIn(x, ty, e, _)) => ty == CompositeTy ==> WritesOwn(S, x, e)
    case _ => true
  }

  predicate WritesOwn(S: Specs, x: Name, e: Expr) {
    match GetSpec(S, e)
    case Err(_) => false
    case Ok((s, _)) => SrcKnown(s) ==> x in S.tab && S.tab[x] == s
  }

  ghost predicate BindingsAgree(S: Specs, nodes: seq<Node>) {
    forall nd :: nd in nodes ==> BindingAgrees(S, nd)
  }

  lemma VisitOfBinding(funcs: Funcs, safe: set<Name>, params: seq<Param>, S: Specs, nd: Node)
    requires Visit(funcs, safe, params, S, nd) == Ok(S)
    ensures BindingAgrees(S, nd)
  {
    match nd
    case StmtNode(Declare(x, e)) =>
      if Allocated(e) {
        GetSpecMild(S, e);
        assert S.tab[x := GetSpec(S, e).value.0][x] == GetSpec(S, e).value.0;
      }
    case StmtNode(ForIn(x, ty, e, _)) =>
      if ty == CompositeTy {
        GetSpecMild(S, e);
        assert S.tab[x := GetSpec(S, e).value.0][x] == GetSpec(S, e).value.0;
      }
    case _ =>
  }

  /** A binding that agrees, visited without an event, changes nothing in the table. */
  lemma AgreedBindingKeeps(funcs: Funcs, safe: set<Name>, params: seq<Param>, S: Specs, nd: Node)
    requires Visit(funcs, safe, params, S, nd).Ok? && BindingAgrees(S, nd)
    ensures Visit(funcs, safe, params, S, nd).value.tab == S.tab
  {
    VisitEffect(funcs, safe, params, S, nd);
    match nd
    case StmtNode(Declare(_, e)) => if Allocated(e) { GetSpecMild(S, e); }
    case StmtNode(ForIn(_, ty, e, _)) => if ty == CompositeTy { GetSpecMild(S, e); }
    case _ => assert OwnNames(nd) == {};
  }

  /** A pass that ends in the specs it began with may still change them on the way, when
      two bindings of one name write different specs. Exactly when none does, each of its
      visits accepts the specs and leaves them alone. */
  lemma IdlePassIsStable(funcs: Funcs, safe: set<Name>, params: seq<Param>, S: Specs, nodes: seq<Node>)
    requires OwnFields(nodes) && Pass(funcs, safe, params, S, nodes) == Ok(S)
    ensures (forall nd :: nd in nodes ==> Visit(funcs, safe, params, S, nd) == Ok(S)) <==> BindingsAgree(S, nodes)
  {
    if BindingsAgree(S, nodes) {
      AgreeingPassIsStable(funcs, safe, params, S, nodes);
    } else {
      var nd :| nd in nodes && !BindingAgrees(S, nd);
      if Visit(funcs, safe, params, S, nd) == Ok(S) {
        VisitOfBinding(funcs, safe, params, S, nd);
      }
    }
  }

  lemma {:induction false} AgreeingPassIsStable(funcs: Funcs, safe: set<Name>, params: seq<Param>, S: Specs, nodes: seq<Node>)
    requires OwnFields(nodes) && BindingsAgree(S, nodes) && Pass(funcs, safe, params, S, nodes) == Ok(S)
    ensures forall nd :: nd in nodes ==> Visit(funcs, safe, params, S, nd) == Ok(S)
    decreases nodes
  {
    if nodes != [] {
      assert BindingAgrees(S, nodes[0]);
      var T := Visit(funcs, safe, params, S, nodes[0]).value;
      VisitEffect(funcs, safe, params, S, nodes[0]);
      PassEffect(funcs, safe, params, T, nodes[1..]);
      if Event(S, T) {
        EventPersists(S, T, S);
        assert false;
      }
      assert forall i :: S.LitAt(i) == T.LitAt(i);
      assert !Event(T, S);
      AgreedBindingKeeps(funcs, safe, params, S, nodes[0]);
      assert S.call == T.call;
      AgreeingPassIsStable(funcs, safe, params, S, nodes[1..]);
    }
  }

  lemma {:induction false} UnknownsMild(S: Specs, nodes: seq<Node>)
    requires Unknowns(S, nodes).Ok?
    ensures Mild(S, Unknowns(S, nodes).value.1)
    decreases nodes
  {
    if nodes != [] {
      if nodes[0].ExprNode? && HasAllocSpec(nodes[0].e) {
        GetSpecMild(S, nodes[0].e);
        var S1 := GetSpec(S, nodes[0].e).value.1;
        UnknownsMild(S1, nodes[1..]);
        MildTrans(S, S1, Unknowns(S, nodes).value.1);
      } else {
        UnknownsMild(S, nodes[1..]);
      }
    }
  }

  /** Counting no unknown spec, without changing one, means every needed spec is complete. */
  lemma {:induction false} IdleCountIsComplete(S: Specs, nodes: seq<Node>)
    requires Unknowns(S, nodes) == Ok((0, S))
    ensures forall nd :: nd in nodes && nd.ExprNode? && HasAllocSpec(nd.e) ==>
      GetSpec(S, nd.e) == Ok((SpecOf(S, nd.e), S)) && Complete(SpecOf(S, nd.e))
    decreases nodes
  {
    if nodes != [] {
      if nodes[0].ExprNode? && HasAllocSpec(nodes[0].e) {
        GetSpecMild(S, nodes[0].e);
        var S1 := GetSpec(S, nodes[0].e).value.1;
        UnknownsMild(S1, nodes[1..]);
        if S1 != S {
          EventPersists(S, S1, S);
          assert false;
        }
      }
      IdleCountIsComplete(S, nodes[1..]);
    }
  }

  /** The checker's verdict on one function, as its passes compute it. */
  ghost predicate Verdict(p: Prog, fn: Name)
    requires fn in p.funcs && fn in p.info
  {
    var S, nodes := p.info[fn], NodesB(p.funcs[fn].body);
    && Pass(p.funcs, p.safe, p.funcs[fn].params, S, nodes) == Ok(S)
    && Unknowns(S, nodes) == Ok((0, S))
    && forall nd :: nd in nodes ==> PostCheck(p.funcs, p.safe, S, nd)
  }
}
