/** What the passes may do to a spec that is already known, wherever its node stands. */
module RegionSteps {
  import opened RegionSyntax
  import opened RegionCheck
  import opened RegionPasses
  import opened RegionAccepted
  import opened RegionPlaces
  import opened Results

  predicate BothLocal(S: Specs, i: nat, j: nat) {
    S.LitAt(i).src == LocalSrc && S.LitAt(j).src == LocalSrc
  }

  predicate LocalOrUnknown(s: Spec) { s.src == LocalSrc || s.src == UnknownSrc }

  /** From S to T: a steady literal keeps a known spec; outside other literals, a literal that
      left the local region keeps its spec; a ternary over two local literals stays one; an
      automatic call outside literals stays local. */
  ghost predicate Step(at: Places, S: Specs, T: Specs) {
    && (forall i :: i in at.steady && SrcKnown(S.LitAt(i)) ==> T.LitAt(i) == S.LitAt(i))
    && (forall i :: i !in at.nested && Outside(S.LitAt(i).src) ==> T.LitAt(i) == S.LitAt(i))
    && (forall i :: i in at.mate && BothLocal(S, i, at.mate[i]) ==> BothLocal(T, i, at.mate[i]))
    && (forall i :: i in at.own && LocalOrUnknown(S.CallAt(i)) ==> LocalOrUnknown(T.CallAt(i)))
  }

  lemma StepTrans(at: Places, S: Specs, T: Specs, U: Specs)
    requires Step(at, S, T) && Step(at, T, U)
    ensures Step(at, S, U)
  {
  }

  lemma StepSame(at: Places, S: Specs)
    ensures Step(at, S, S)
  {
  }

  // ----- handing a spec down -----

  /** The literals and automatic calls a spec given to e reaches. */
  function LitIds(e: Expr): set<nat>
    requires e.Lit?
  {
    {e.id} + ElemLitIds(e.elems)
  }

  function ElemLitIds(es: seq<Expr>): set<nat> {
    if es == [] then {}
    else (if es[0].Lit? then {es[0].id} + ElemLitIds(es[0].elems) else {}) + ElemLitIds(es[1..])
  }

  function ElemAutoIds(es: seq<Expr>): set<nat> {
    if es == [] then {}
    else
      (if es[0].Lit? then ElemAutoIds(es[0].elems) else if es[0].Call? && es[0].auto then {es[0].id} else {})
      + ElemAutoIds(es[1..])
  }

  ghost predicate Written(S: Specs, T: Specs, lits: set<nat>, calls: set<nat>, s: Spec) {
    && T.tab == S.tab
    && (forall i :: T.LitAt(i) == if i in lits then s else S.LitAt(i))
    && (forall i :: T.CallAt(i) == if i in calls then s else S.CallAt(i))
  }

  lemma {:induction false} SetAllocExact(S: Specs, e: Expr, s: Spec)
    requires e.Lit?
    ensures Written(S, SetAlloc(S, e, s), LitIds(e), ElemAutoIds(e.elems), s)
    decreases e
  {
    SetAllocsExact(S.SetLit(e.id, s), e.elems, s);
  }

  lemma {:induction false} SetAllocsExact(S: Specs, es: seq<Expr>, s: Spec)
    ensures Written(S, SetAllocs(S, es, s), ElemLitIds(es), ElemAutoIds(es), s)
    decreases es
  {
    if es != [] {
      if es[0].Lit? {
        SetAllocExact(S, es[0], s);
        SetAllocsExact(SetAlloc(S, es[0], s), es[1..], s);
      } else if es[0].Call? && es[0].auto {
        SetAllocsExact(S.SetCall(es[0].id, s), es[1..], s);
      } else {
        SetAllocsExact(S, es[1..], s);
      }
    }
  }

  /** Whatever is reached below a literal is nested or handed its spec. */
  lemma {:induction false} ElemIdsFit(funcs: Funcs, at: Places, es: seq<Expr>)
    requires AllFit(funcs, at, NodesEs(es))
    requires forall c :: c in es ==> (c.Lit? ==> c.id in at.nested) && (c.Call? && c.auto ==> c.id in at.handed)
    ensures forall i :: i in ElemLitIds(es) ==> i in at.nested
    ensures forall i :: i in ElemAutoIds(es) ==> i in at.handed
    decreases es
  {
    if es != [] {
      if es[0].Lit? {
        assert es[0] in es && Fits(funcs, at, ExprNode(es[0]));
        assert NodesE(es[0]) == [ExprNode(es[0])] + NodesEs(es[0].elems);
        ElemIdsFit(funcs, at, es[0].elems);
      }
      ElemIdsFit(funcs, at, es[1..]);
    }
  }

  lemma BelowFits(funcs: Funcs, at: Places, e: Expr)
    requires e.Lit? && AllFit(funcs, at, NodesE(e))
    ensures forall i :: i in LitIds(e) && i != e.id ==> i in at.nested
    ensures forall i :: i in ElemAutoIds(e.elems) ==> i in at.handed
  {
    assert Fits(funcs, at, ExprNode(e));
    ElemIdsFit(funcs, at, e.elems);
  }

  ghost predicate MateLeft(at: Places, S: Specs, e: Expr)
    requires e.Lit?
  {
    e.id in at.mate ==> S.LitAt(at.mate[e.id]).src != LocalSrc
  }

  /** Moving a local literal is a step, unless the other half of a local pair stays behind. */
  lemma MoveStep(funcs: Funcs, at: Places, S: Specs, e: Expr, s: Spec)
    requires Proper(at) && e.Lit? && AllFit(funcs, at, NodesE(e))
    requires !Outside(S.LitAt(e.id).src) && (SrcKnown(S.LitAt(e.id)) ==> e.id !in at.steady && MateLeft(at, S, e))
    ensures Step(at, S, SetAlloc(S, e, s))
  {
    BelowFits(funcs, at, e);
    SetAllocExact(S, e, s);
  }

  // ----- reading -----

  lemma {:induction false} GetSpecStep(funcs: Funcs, at: Places, S: Specs, e: Expr)
    requires Proper(at) && AllFit(funcs, at, NodesE(e)) && GetSpec(S, e).Ok?
    ensures Step(at, S, GetSpec(S, e).value.1)
    decreases e, 1
  {
    match e
    case Part(base, _, _) => PartFits(funcs, at, e, base); GetSpecStep(funcs, at, S, base);
    case Lookup(base, _) => PartFits(funcs, at, e, base); GetSpecStep(funcs, at, S, base);
    case Slice(base) => PartFits(funcs, at, e, base); GetSpecStep(funcs, at, S, base);
    case Ternary(_, thn, els, _) =>
      assert Fits(funcs, at, ExprNode(e));
      PartFits(funcs, at, e, thn);
      PartFits(funcs, at, e, els);
      GetSpecStep(funcs, at, S, thn);
      var (a, S1) := GetSpec(S, thn).value;
      GetSpecStep(funcs, at, S1, els);
      var (b, S2) := GetSpec(S1, els).value;
      StepTrans(at, S, S1, S2);
      JoinStep(funcs, at, S2, thn, els, a, b);
      StepTrans(at, S, S2, Join(S2, thn, els, a, b).value.1);
    case _ =>
  }

  lemma PartFits(funcs: Funcs, at: Places, e: Expr, c: Expr)
    requires AllFit(funcs, at, NodesE(e)) && c in OperandsE(e)
    ensures AllFit(funcs, at, NodesE(c))
  {
    OperandNodes(e, c);
  }

  /** The specs read from literal branches are still theirs. */
  ghost predicate BranchesRead(S: Specs, thn: Expr, els: Expr, a: Spec, b: Spec) {
    (els.Lit? ==> b == S.LitAt(els.id)) && (thn.Lit? && els.Lit? ==> a == S.LitAt(thn.id))
  }

  /** After both branches were read, one that is a local literal may move: the other is not local. */
  lemma JoinStep(funcs: Funcs, at: Places, S: Specs, thn: Expr, els: Expr, a: Spec, b: Spec)
    requires Proper(at) && AllFit(funcs, at, NodesE(thn)) && AllFit(funcs, at, NodesE(els))
    requires BranchFits(at, thn, els) && BranchFits(at, els, thn) && BranchesRead(S, thn, els, a, b)
    requires Join(S, thn, els, a, b).Ok?
    ensures Step(at, S, Join(S, thn, els, a, b).value.1)
  {
    if Retargets(S, a, els, b) == Ok(true) {
      MoveStep(funcs, at, S, els, a);
    } else if Retargets(S, b, thn, a) == Ok(true) {
      MoveStep(funcs, at, S, thn, b);
    }
  }

  // ----- arguments -----

  lemma {:induction false} AlignStep(funcs: Funcs, at: Places, S: Specs, args: seq<Expr>, req: Spec)
    requires Proper(at) && AlignArgs(S, args, req).Ok?
    requires forall a :: a in args ==> AllFit(funcs, at, NodesE(a)) && Movable(at, a)
    ensures Step(at, S, AlignArgs(S, args, req).value)
    decreases args
  {
    if args != [] {
      assert args[0] in args;
      GetSpecStep(funcs, at, S, args[0]);
      var (a, S1) := GetSpec(S, args[0]).value;
      if BothKnown(a, req) && args[0].Lit? && CanRetarget(S1.LitAt(args[0].id), req) == Ok(true) {
        MoveStep(funcs, at, S1, args[0], req);
        var S2 := SetAlloc(S1, args[0], req);
        StepTrans(at, S, S1, S2);
        AlignStep(funcs, at, S2, args[1..], req);
        StepTrans(at, S, S2, AlignArgs(S, args, req).value);
      } else {
        AlignStep(funcs, at, S1, args[1..], req);
        StepTrans(at, S, S1, AlignArgs(S, args, req).value);
      }
    }
  }

  lemma FirstStep(funcs: Funcs, at: Places, S: Specs, args: seq<Expr>, req: Spec)
    requires Proper(at) && args != [] && AllFit(funcs, at, NodesE(args[0])) && ArgsFit(at, args)
    requires AllLits(args) ==> req == S.LitAt(args[0].id)
    requires RetargetFirst(S, args[0], req).Ok?
    ensures Step(at, S, RetargetFirst(S, args[0], req).value)
  {
    if Complete(req) && args[0].Lit? && CanRetarget(S.LitAt(args[0].id), req) == Ok(true) {
      assert !AllLits(args);
      MoveStep(funcs, at, S, args[0], req);
    }
  }

  lemma SameRegionStep(funcs: Funcs, at: Places, S: Specs, args: seq<Expr>)
    requires Proper(at) && args != [] && ArgsFit(at, args) && SameRegion(S, args).Ok?
    requires forall a :: a in args ==> AllFit(funcs, at, NodesE(a))
    ensures Step(at, S, SameRegion(S, args).value.1)
    ensures Step(at, GetSpec(S, Anchor(args)).value.1, SameRegion(S, args).value.1)
  {
    GetSpecStep(funcs, at, S, Anchor(args));
    var (req, S1) := GetSpec(S, Anchor(args)).value;
    FirstStep(funcs, at, S1, args, req);
    var S2 := RetargetFirst(S1, args[0], req).value;
    StepTrans(at, S, S1, S2);
    forall a | a in args[1..]
      ensures AllFit(funcs, at, NodesE(a)) && Movable(at, a)
    {
      var i :| 1 <= i < |args| && args[i] == a;
    }
    AlignStep(funcs, at, S2, args[1..], req);
    StepTrans(at, S, S2, SameRegion(S, args).value.1);
    StepTrans(at, S1, S2, SameRegion(S, args).value.1);
  }

  lemma {:induction false} MarkStep(at: Places, S: Specs, params: seq<Param>, args: seq<Expr>)
    requires forall i :: 0 <= i < |args| && args[i].Lit? && IsForeign(params, i) ==>
      args[i].id !in at.nested && args[i].id !in at.mate && args[i].id !in at.steady
    requires Proper(at)
    ensures Step(at, S, MarkForeign(S, params, args)) && MarkForeign(S, params, args).call == S.call
    decreases args
  {
    if args != [] && params != [] {
      var a := args[0];
      var S1 := if params[0].isForeign && a.Lit? && (a.lit.VecLit? || a.lit.DictLit?)
                   && S.LitAt(a.id).kind == LocalKind && S.LitAt(a.id).src == LocalSrc
                then S.SetLit(a.id, S.LitAt(a.id).(src := CrossSrc)) else S;
      MarkedStep(at, S, a, S1);
      forall i | 0 <= i < |args[1..]| && args[1..][i].Lit? && IsForeign(params[1..], i)
        ensures args[1..][i].id !in at.nested && args[1..][i].id !in at.mate && args[1..][i].id !in at.steady
      {
        assert args[i + 1].Lit? && IsForeign(params, i + 1);
      }
      MarkStep(at, S1, params[1..], args[1..]);
      StepTrans(at, S, S1, MarkForeign(S, params, args));
    }
  }

  lemma MarkedStep(at: Places, S: Specs, a: Expr, S1: Specs)
    requires Proper(at)
    requires S1 == S || (a.Lit? && S.LitAt(a.id).src == LocalSrc && S1 == S.SetLit(a.id, S.LitAt(a.id).(src := CrossSrc))
                         && a.id !in at.nested && a.id !in at.mate && a.id !in at.steady)
    ensures Step(at, S, S1)
  {
  }

  /** A call with an injected local region has only local arguments to agree with. */
  lemma {:induction false} AlignWithLocal(S: Specs, args: seq<Expr>, req: Spec)
    requires LocalRegion in args && AlignArgs(S, args, req).Ok? && SrcKnown(req)
    ensures req.src == LocalSrc
    decreases args
  {
    if args[0] != LocalRegion {
      var (a, S1) := GetSpec(S, args[0]).value;
      if BothKnown(a, req) && args[0].Lit? && CanRetarget(S1.LitAt(args[0].id), req) == Ok(true) {
        AlignWithLocal(SetAlloc(S1, args[0], req), args[1..], req);
      } else {
        AlignWithLocal(S1, args[1..], req);
      }
    }
  }

  lemma AutoIsLocal(funcs: Funcs, S: Specs, e: Expr)
    requires e.Call? && e.auto && SameRegion(S, CallArgs(funcs, e)).Ok? && SrcKnown(SameRegion(S, CallArgs(funcs, e)).value.0)
    ensures SameRegion(S, CallArgs(funcs, e)).value.0.src == LocalSrc
  {
    var args := CallArgs(funcs, e);
    assert args[|args| - 1] == LocalRegion;
    if |args| == 1 {
      assert args == [LocalRegion];
    } else {
      assert args[1..][|args| - 2] == LocalRegion;
      var (req, S1) := GetSpec(S, Anchor(args)).value;
      AlignWithLocal(RetargetFirst(S1, args[0], req).value, args[1..], req);
    }
  }

  // ----- visits and passes -----

  lemma SetCallStep(at: Places, S: Specs, id: nat, s: Spec)
    requires id in at.own ==> LocalOrUnknown(s)
    ensures Step(at, S, S.SetCall(id, s))
  {
  }

  lemma CallArgsFit(funcs: Funcs, at: Places, e: Expr)
    requires e.Call? && AllFit(funcs, at, NodesE(e))
    ensures forall a :: a in CallArgs(funcs, e) ==> AllFit(funcs, at, NodesE(a))
  {
    AllocatedArgsFrom(if e.fn in funcs then funcs[e.fn].params else [], e.args);
    forall a | a in CallArgs(funcs, e)
      ensures AllFit(funcs, at, NodesE(a))
    {
      if a in e.args {
        PartFits(funcs, at, e, a);
      }
    }
  }

  /** The two halves of visiting an unsafe call: its arguments, then its own spec. */
  lemma CallArgsStep(funcs: Funcs, at: Places, S: Specs, e: Expr)
    requires Proper(at) && AllFit(funcs, at, NodesE(e)) && e.Call? && CallArgs(funcs, e) != []
    requires
      var S0 := MarkForeign(S, if e.fn in funcs then funcs[e.fn].params else [], e.args);
      SameRegion(S0, CallArgs(funcs, e)).Ok?
    ensures
      var S0 := MarkForeign(S, if e.fn in funcs then funcs[e.fn].params else [], e.args);
      Step(at, S, SameRegion(S0, CallArgs(funcs, e)).value.1)
  {
    assert Fits(funcs, at, ExprNode(e));
    var params := if e.fn in funcs then funcs[e.fn].params else [];
    var S0 := MarkForeign(S, params, e.args);
    MarkStep(at, S, params, e.args);
    CallArgsFit(funcs, at, e);
    SameRegionStep(funcs, at, S0, CallArgs(funcs, e));
    StepTrans(at, S, S0, SameRegion(S0, CallArgs(funcs, e)).value.1);
  }

  lemma VisitCallStep(funcs: Funcs, safe: set<Name>, at: Places, S: Specs, e: Expr)
    requires Proper(at) && AllFit(funcs, at, NodesE(e)) && e.Call? && VisitCall(funcs, safe, S, e).Ok?
    ensures Step(at, S, VisitCall(funcs, safe, S, e).value)
  {
    assert Fits(funcs, at, ExprNode(e));
    var S0 := MarkForeign(S, if e.fn in funcs then funcs[e.fn].params else [], e.args);
    if SafeCall(funcs, safe, S, e) {
      SetCallStep(at, S, e.id, LOCAL);
    } else if CallArgs(funcs, e) == [] {
      MarkStep(at, S, if e.fn in funcs then funcs[e.fn].params else [], e.args);
    } else {
      CallArgsStep(funcs, at, S, e);
      var (req, S1) := SameRegion(S0, CallArgs(funcs, e)).value;
      if Complete(req) {
        if e.auto { AutoIsLocal(funcs, S0, e); }
        SetCallStep(at, S1, e.id, req);
        StepTrans(at, S, S1, S1.SetCall(e.id, req));
      }
    }
  }

  lemma PushStep(funcs: Funcs, safe: set<Name>, at: Places, S: Specs, e: Expr)
    requires Proper(at) && AllFit(funcs, at, NodesE(e)) && e.Push? && VisitExpr(funcs, safe, S, e).Ok?
    ensures Step(at, S, VisitExpr(funcs, safe, S, e).value)
  {
    assert Fits(funcs, at, ExprNode(e));
    if !SafeCall(funcs, safe, S, e) {
      PartFits(funcs, at, e, e.vec);
      PartFits(funcs, at, e, e.item);
      SameRegionStep(funcs, at, S, [e.vec, e.item]);
    }
  }

  lemma FillStep(funcs: Funcs, safe: set<Name>, at: Places, S: Specs, e: Expr)
    requires Proper(at) && AllFit(funcs, at, NodesE(e)) && e.Lit? && VisitExpr(funcs, safe, S, e).Ok?
    ensures Step(at, S, VisitExpr(funcs, safe, S, e).value)
  {
    var own := S.LitAt(e.id);
    if (own.kind.NamedRegionKind? || own.kind.ContainerKind?) && SrcKnown(S.Named(own.region)) && !SrcKnown(own) {
      MoveStep(funcs, at, S, e, own.(src := S.Named(own.region).src));
    }
  }

  /** Pop and copy take over the spec they read. */
  lemma TakeStep(funcs: Funcs, safe: set<Name>, at: Places, S: Specs, e: Expr)
    requires Proper(at) && AllFit(funcs, at, NodesE(e)) && (e.Pop? || e.Copy?) && VisitExpr(funcs, safe, S, e).Ok?
    ensures Step(at, S, VisitExpr(funcs, safe, S, e).value)
  {
    hide Step;
    assert Fits(funcs, at, ExprNode(e));
    if e.Pop? {
      ReadWriteStep(funcs, at, S, e, e.vec, e.id);
    } else if e.dest == [] {
      OwnWriteStep(at, S, S, e.id, LOCAL);
    } else {
      ReadWriteStep(funcs, at, S, e, e.dest[0], e.id);
    }
  }

  lemma ReadWriteStep(funcs: Funcs, at: Places, S: Specs, e: Expr, c: Expr, id: nat)
    requires Proper(at) && AllFit(funcs, at, NodesE(e)) && c in OperandsE(e) && GetSpec(S, c).Ok? && id !in at.own
    ensures
      var (s, S1) := GetSpec(S, c).value;
      Step(at, S, S1) && Step(at, S, S1.SetCall(id, s))
  {
    PartFits(funcs, at, e, c);
    GetSpecStep(funcs, at, S, c);
    OwnWriteStep(at, S, GetSpec(S, c).value.1, id, GetSpec(S, c).value.0);
  }

  lemma VisitExprStep(funcs: Funcs, safe: set<Name>, at: Places, S: Specs, e: Expr)
    requires Proper(at) && AllFit(funcs, at, NodesE(e)) && VisitExpr(funcs, safe, S, e).Ok?
    ensures Step(at, S, VisitExpr(funcs, safe, S, e).value)
  {
    match e
    case Call(_, _, _, _, _) => VisitCallStep(funcs, safe, at, S, e);
    case Push(_, _) => PushStep(funcs, safe, at, S, e);
    case Pop(_, _, _) => TakeStep(funcs, safe, at, S, e);
    case Copy(_, _, _) => TakeStep(funcs, safe, at, S, e);
    case Lit(_, _, _) => FillStep(funcs, safe, at, S, e);
    case _ =>
  }

  lemma OwnWriteStep(at: Places, S: Specs, S1: Specs, id: nat, s: Spec)
    requires Step(at, S, S1) && id !in at.own
    ensures Step(at, S, S1.SetCall(id, s))
  {
    SetCallStep(at, S1, id, s);
    StepTrans(at, S, S1, S1.SetCall(id, s));
  }

  lemma SetNameStep(at: Places, S: Specs, S1: Specs, x: Name, s: Spec)
    requires Step(at, S, S1)
    ensures Step(at, S, S1.SetName(x, s))
  {
  }

  lemma StoreReadStep(funcs: Funcs, at: Places, S: Specs, lhs: Spec, rhs: Spec, e: Expr)
    requires Proper(at) && AllFit(funcs, at, NodesE(e)) && Movable(at, e) && StoreRead(S, lhs, rhs, e).Ok?
    ensures Step(at, S, StoreRead(S, lhs, rhs, e).value)
  {
    if e.Lit? && Complete(lhs) && CanRetarget(S.LitAt(e.id), lhs) == Ok(true) {
      MoveStep(funcs, at, S, e, lhs);
    }
  }

  lemma VisitStoreStep(funcs: Funcs, at: Places, S: Specs, target: Expr, e: Expr)
    requires Proper(at) && AllFit(funcs, at, NodesE(target)) && AllFit(funcs, at, NodesE(e)) && Movable(at, e)
    requires VisitStore(S, target, e).Ok?
    ensures Step(at, S, VisitStore(S, target, e).value)
  {
    GetSpecStep(funcs, at, S, target);
    var (lhs, S1) := GetSpec(S, target).value;
    if Allocated(e) {
      GetSpecStep(funcs, at, S1, e);
      var (rhs, S2) := GetSpec(S1, e).value;
      StepTrans(at, S, S1, S2);
      StoreReadStep(funcs, at, S2, lhs, rhs, e);
      StepTrans(at, S, S2, StoreRead(S2, lhs, rhs, e).value);
    }
  }

  lemma ReturnReadStep(funcs: Funcs, at: Places, S: Specs, implicit: Spec, s: Spec, e: Expr)
    requires Proper(at) && AllFit(funcs, at, NodesE(e)) && Movable(at, e) && ReturnRead(S, implicit, s, e).Ok?
    requires e.Lit? ==> s == S.LitAt(e.id)
    ensures Step(at, S, ReturnRead(S, implicit, s, e).value)
  {
    if e.Lit? && s.src == LocalSrc && Complete(implicit) && CanRetarget(s, implicit) == Ok(true) {
      MoveStep(funcs, at, S, e, implicit);
    }
  }

  lemma VisitReturnStep(funcs: Funcs, params: seq<Param>, at: Places, S: Specs, e: Expr)
    requires Proper(at) && AllFit(funcs, at, NodesE(e)) && Movable(at, e) && VisitReturn(params, S, e).Ok?
    ensures Step(at, S, VisitReturn(params, S, e).value)
  {
    if Allocated(e) {
      GetSpecStep(funcs, at, S, e);
      var (s, S1) := GetSpec(S, e).value;
      var implicit := ImplicitSpec(S1, params);
      ReturnReadStep(funcs, at, S1, implicit, s, e);
      StepTrans(at, S, S1, ReturnRead(S1, implicit, s, e).value);
    }
  }

  lemma VisitStmtStep(funcs: Funcs, params: seq<Param>, at: Places, S: Specs, st: Stmt)
    requires Proper(at) && Fits(funcs, at, StmtNode(st)) && (forall c :: c in OperandsS(st) ==> AllFit(funcs, at, NodesE(c)))
    requires VisitStmt(params, S, st).Ok?
    ensures Step(at, S, VisitStmt(params, S, st).value)
  {
    hide Step;
    StepSame(at, S);
    match st
    case Declare(x, e) =>
      if Allocated(e) {
        GetSpecStep(funcs, at, S, e);
        SetNameStep(at, S, GetSpec(S, e).value.1, x, GetSpec(S, e).value.0);
      }
    case Assign(_, e) => if Allocated(e) { GetSpecStep(funcs, at, S, e); }
    case Store(target, _, e) => VisitStoreStep(funcs, at, S, target, e);
    case Return(e) => VisitReturnStep(funcs, params, at, S, e);
    case ForIn(x, ty, e, _) =>
      if ty == CompositeTy {
        GetSpecStep(funcs, at, S, e);
        SetNameStep(at, S, GetSpec(S, e).value.1, x, GetSpec(S, e).value.0);
      }
    case _ =>
  }

  /** A node with the nodes below its operands. */
  ghost predicate Whole(funcs: Funcs, at: Places, nd: Node) {
    Fits(funcs, at, nd) && forall c :: c in Operands(nd) ==> AllFit(funcs, at, NodesE(c))
  }

  lemma WholeExpr(funcs: Funcs, at: Places, e: Expr)
    requires Whole(funcs, at, ExprNode(e))
    ensures AllFit(funcs, at, NodesE(e))
  {
    hide Fits;
    forall nd | nd in NodesE(e)
      ensures Fits(funcs, at, nd)
    {
      if nd != ExprNode(e) {
        match e
        case Lit(_, _, elems) => ElemsFit(funcs, at, elems);
        case Call(_, _, args, _, _) => ElemsFit(funcs, at, args);
        case Push(vec, item) => assert vec in OperandsE(e) && item in OperandsE(e);
        case Pop(_, vec, _) => assert vec in OperandsE(e);
        case Copy(_, of, dest) =>
          assert of in OperandsE(e) && forall d :: d in dest ==> d in OperandsE(e);
          ElemsFit(funcs, at, dest);
        case Part(base, _, _) => assert base in OperandsE(e);
        case Lookup(base, _) => assert base in OperandsE(e);
        case Slice(base) => assert base in OperandsE(e);
        case Ternary(cond, thn, els, _) => assert cond in OperandsE(e) && thn in OperandsE(e) && els in OperandsE(e);
        case _ =>
      }
    }
  }

  lemma {:induction false} ElemsFit(funcs: Funcs, at: Places, es: seq<Expr>)
    requires forall c :: c in es ==> AllFit(funcs, at, NodesE(c))
    ensures AllFit(funcs, at, NodesEs(es))
  {
    if es != [] {
      assert es[0] in es;
      ElemsFit(funcs, at, es[1..]);
    }
  }

  lemma VisitStep(funcs: Funcs, safe: set<Name>, params: seq<Param>, at: Places, S: Specs, nd: Node)
    requires Proper(at) && Whole(funcs, at, nd) && Visit(funcs, safe, params, S, nd).Ok?
    ensures Step(at, S, Visit(funcs, safe, params, S, nd).value)
  {
    match nd
    case ExprNode(e) =>
      WholeExpr(funcs, at, e);
      VisitExprStep(funcs, safe, at, S, e);
    case StmtNode(st) => VisitStmtStep(funcs, params, at, S, st);
  }

  ghost predicate AllWhole(funcs: Funcs, at: Places, nodes: seq<Node>) {
    forall nd {:trigger Whole(funcs, at, nd)} :: nd in nodes ==> Whole(funcs, at, nd)
  }

  lemma {:induction false} PassStep(funcs: Funcs, safe: set<Name>, params: seq<Param>, at: Places, S: Specs, nodes: seq<Node>)
    requires Proper(at) && AllWhole(funcs, at, nodes) && Pass(funcs, safe, params, S, nodes).Ok?
    ensures Step(at, S, Pass(funcs, safe, params, S, nodes).value)
    decreases nodes
  {
    if nodes != [] {
      VisitStep(funcs, safe, params, at, S, nodes[0]);
      var S1 := Visit(funcs, safe, params, S, nodes[0]).value;
      PassStep(funcs, safe, params, at, S1, nodes[1..]);
      StepTrans(at, S, S1, Pass(funcs, safe, params, S, nodes).value);
    }
  }

  lemma {:induction false} UnknownsStep(funcs: Funcs, at: Places, S: Specs, nodes: seq<Node>)
    requires Proper(at) && AllWhole(funcs, at, nodes) && Unknowns(S, nodes).Ok?
    ensures Step(at, S, Unknowns(S, nodes).value.1)
    decreases nodes
  {
    if nodes != [] {
      if nodes[0].ExprNode? && HasAllocSpec(nodes[0].e) {
        WholeExpr(funcs, at, nodes[0].e);
        GetSpecStep(funcs, at, S, nodes[0].e);
        var S1 := GetSpec(S, nodes[0].e).value.1;
        UnknownsStep(funcs, at, S1, nodes[1..]);
        StepTrans(at, S, S1, Unknowns(S, nodes).value.1);
      } else {
        UnknownsStep(funcs, at, S, nodes[1..]);
      }
    }
  }
}
