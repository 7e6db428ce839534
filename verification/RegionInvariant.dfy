/** Every visit of every pass keeps the invariant of `RegionHistory`. */
module RegionInvariant {
  import opened RegionSyntax
  import opened RegionCheck
  import opened RegionSemantics
  import opened RegionAccepted
  import opened RegionPasses
  import opened RegionPlaces
  import opened RegionSteps
  import opened RegionHistory
  import opened Results

  // ----- arguments -----

  ghost predicate HereAll(p: Prog, fn: Name, at: Places, args: seq<Expr>) {
    Ended(p, fn, at) && forall a :: a in args ==> Inside(p, fn, a) && TypeOf(a) != PrimTy
  }

  lemma {:induction false} AlignInv(p: Prog, fn: Name, at: Places, S: Specs, args: seq<Expr>, req: Spec)
    requires HereAll(p, fn, at, args) && HasInv(p, fn, at, S) && Good(p.info[fn], req) && AlignArgs(S, args, req).Ok?
    ensures HasInv(p, fn, at, AlignArgs(S, args, req).value)
    decreases args
  {
    if args != [] {
      assert args[0] in args && HereAll(p, fn, at, args[1..]);
      ReadInv(p, fn, at, S, args[0]);
      var (a, S1) := GetSpec(S, args[0]).value;
      if BothKnown(a, req) && args[0].Lit? && CanRetarget(S1.LitAt(args[0].id), req) == Ok(true) {
        HandDownInv(p, fn, at, S1, args[0], req);
        AlignInv(p, fn, at, SetAlloc(S1, args[0], req), args[1..], req);
      } else {
        AlignInv(p, fn, at, S1, args[1..], req);
      }
    }
  }

  lemma SameRegionInv(p: Prog, fn: Name, at: Places, S: Specs, args: seq<Expr>)
    requires args != [] && HereAll(p, fn, at, args) && HasInv(p, fn, at, S) && SameRegion(S, args).Ok?
    ensures Good(p.info[fn], SameRegion(S, args).value.0) && HasInv(p, fn, at, SameRegion(S, args).value.1)
  {
    ReadInv(p, fn, at, S, Anchor(args));
    var (req, S1) := GetSpec(S, Anchor(args)).value;
    if Complete(req) && args[0].Lit? && CanRetarget(S1.LitAt(args[0].id), req) == Ok(true) {
      HandDownInv(p, fn, at, S1, args[0], req);
    }
    AlignInv(p, fn, at, RetargetFirst(S1, args[0], req).value, args[1..], req);
  }

  lemma CallArgsHere(p: Prog, fn: Name, at: Places, e: Expr)
    requires Here(p, fn, at, e) && e.Call?
    ensures HereAll(p, fn, at, CallArgs(p.funcs, e))
  {
    hide AllWhole, Settled, OwnTags;
    HereFits(p, fn, at, e);
    AllocatedArgsFrom(if e.fn in p.funcs then p.funcs[e.fn].params else [], e.args);
    forall a | a in CallArgs(p.funcs, e)
      ensures Inside(p, fn, a) && TypeOf(a) != PrimTy
    {
      if a in e.args {
        assert a in OperandsE(e);
        assert Here(p, fn, at, a);
      }
    }
  }

  /** The anchor stands where its spec can be read. */
  lemma AnchorReadable(funcs: Funcs, at: Places, e: Expr)
    requires e.Call? && Fits(funcs, at, ExprNode(e)) && CallArgs(funcs, e) != []
    ensures Readable(at, Anchor(CallArgs(funcs, e)))
  {
    var a := Anchor(CallArgs(funcs, e));
    AllocatedArgsFrom(if e.fn in funcs then funcs[e.fn].params else [], e.args);
    assert a in e.args ==> a in Operands(ExprNode(e));
  }

  // ----- calls -----

  /** A spec that is read and kept foretells the final one. */
  lemma ReadKept(p: Prog, fn: Name, at: Places, S: Specs, e: Expr)
    requires Here(p, fn, at, e) && TypeOf(e) != PrimTy && HasInv(p, fn, at, S) && Readable(at, e) && GetSpec(S, e).Ok?
    requires Step(at, GetSpec(S, e).value.1, p.info[fn])
    ensures Foretells(GetSpec(S, e).value.0, SpecOf(p.info[fn], e)) && Good(p.info[fn], GetSpec(S, e).value.0)
    ensures HasInv(p, fn, at, GetSpec(S, e).value.1)
  {
    HereFits(p, fn, at, e);
    GetSpecStep(p.funcs, at, S, e);
    StepTrans(at, S, GetSpec(S, e).value.1, p.info[fn]);
    ReadInv(p, fn, at, S, e);
    ReadForetells(p, fn, at, S, e);
  }

  lemma SafeCallInv(p: Prog, fn: Name, at: Places, S: Specs, e: Expr)
    requires Here(p, fn, at, e) && e.Call? && e.auto && HasInv(p, fn, at, S)
    ensures HasInv(p, fn, at, S.SetCall(e.id, LOCAL))
  {
    HereFits(p, fn, at, e);
    assert ExprNode(e) in NodesE(e);
    assert Fits(p.funcs, at, ExprNode(e)) && NodeStable(p, fn, ExprNode(e));
    CallInv(p, fn, at, S, ExprNode(e), LOCAL);
  }

  /** The argument a call is anchored to foretells the call's final spec. */
  lemma AnchorForetells(p: Prog, fn: Name, at: Places, S0: Specs, e: Expr)
    requires Here(p, fn, at, e) && e.Call? && CallArgs(p.funcs, e) != [] && !SafeCall(p.funcs, p.safe, p.info[fn], e)
    requires HasInv(p, fn, at, S0) && SameRegion(S0, CallArgs(p.funcs, e)).Ok?
    requires Step(at, SameRegion(S0, CallArgs(p.funcs, e)).value.1, p.info[fn])
    ensures Foretells(SameRegion(S0, CallArgs(p.funcs, e)).value.0, p.info[fn].CallAt(e.id))
  {
    hide HasInv, Step, Foretells, InFragment, NodeStable, AllWhole;
    AnchorSteps(p, fn, at, S0, e);
    CallArgsHere(p, fn, at, e);
    ReadForetells(p, fn, at, S0, Anchor(CallArgs(p.funcs, e)));
    HereFits(p, fn, at, e);
    CallSpecIsAnchor(p, fn, e);
  }

  /** Before and after its anchor is read, a call stands in front of the final specs. */
  lemma AnchorSteps(p: Prog, fn: Name, at: Places, S0: Specs, e: Expr)
    requires Here(p, fn, at, e) && e.Call? && CallArgs(p.funcs, e) != []
    requires SameRegion(S0, CallArgs(p.funcs, e)).Ok?
    requires Step(at, SameRegion(S0, CallArgs(p.funcs, e)).value.1, p.info[fn])
    ensures var a := Anchor(CallArgs(p.funcs, e)); Readable(at, a)
    ensures var a := Anchor(CallArgs(p.funcs, e)); Step(at, S0, p.info[fn]) && Step(at, GetSpec(S0, a).value.1, p.info[fn])
  {
    HereFits(p, fn, at, e);
    assert ExprNode(e) in NodesE(e) && Fits(p.funcs, at, ExprNode(e));
    var args := CallArgs(p.funcs, e);
    CallArgsFit(p.funcs, at, e);
    SameRegionStep(p.funcs, at, S0, args);
    var T := SameRegion(S0, args).value.1;
    StepTrans(at, S0, T, p.info[fn]);
    StepTrans(at, GetSpec(S0, Anchor(args)).value.1, T, p.info[fn]);
    AnchorReadable(p.funcs, at, e);
  }

  lemma VisitCallInv(p: Prog, fn: Name, at: Places, safe: set<Name>, S: Specs, e: Expr)
    requires Here(p, fn, at, e) && e.Call? && p.safe <= safe && HasInv(p, fn, at, S)
    requires VisitCall(p.funcs, safe, S, e).Ok? && Step(at, VisitCall(p.funcs, safe, S, e).value, p.info[fn])
    ensures HasInv(p, fn, at, VisitCall(p.funcs, safe, S, e).value)
  {
    var S0 := MarkForeign(S, if e.fn in p.funcs then p.funcs[e.fn].params else [], e.args);
    var args := CallArgs(p.funcs, e);
    if SafeCall(p.funcs, safe, S, e) {
      if e.auto && S.CallAt(e.id).kind == UnknownKind { SafeCallInv(p, fn, at, S, e); }
    } else {
      MarkInv(p, fn, at, S, if e.fn in p.funcs then p.funcs[e.fn].params else [], e.args);
      if args != [] {
        CallArgsHere(p, fn, at, e);
        SameRegionInv(p, fn, at, S0, args);
        var (req, S1) := SameRegion(S0, args).value;
        if Complete(req) { CallWritten(p, fn, at, safe, S0, e); }
      }
    }
  }

  lemma CallWritten(p: Prog, fn: Name, at: Places, safe: set<Name>, S0: Specs, e: Expr)
    requires Here(p, fn, at, e) && e.Call? && CallArgs(p.funcs, e) != [] && !SafeCall(p.funcs, p.safe, p.info[fn], e)
    requires HasInv(p, fn, at, S0) && SameRegion(S0, CallArgs(p.funcs, e)).Ok?
    requires
      var (req, S1) := SameRegion(S0, CallArgs(p.funcs, e)).value;
      Complete(req) && Good(p.info[fn], req) && HasInv(p, fn, at, S1) && Step(at, S1.SetCall(e.id, req), p.info[fn])
    ensures
      var (req, S1) := SameRegion(S0, CallArgs(p.funcs, e)).value;
      HasInv(p, fn, at, S1.SetCall(e.id, req))
  {
    var (req, S1) := SameRegion(S0, CallArgs(p.funcs, e)).value;
    if e.auto { AutoIsLocal(p.funcs, S0, e); }
    HereFits(p, fn, at, e);
    assert ExprNode(e) in NodesE(e);
    assert Fits(p.funcs, at, ExprNode(e));
    SetCallStep(at, S1, e.id, req);
    StepTrans(at, S1, S1.SetCall(e.id, req), p.info[fn]);
    AnchorForetells(p, fn, at, S0, e);
    CallInv(p, fn, at, S1, ExprNode(e), req);
  }

  /** Pop and copy take over the spec they read. */
  lemma TakenOver(p: Prog, fn: Name, at: Places, S: Specs, e: Expr, c: Expr)
    requires Here(p, fn, at, e) && HasInv(p, fn, at, S) && GetSpec(S, c).Ok? && Complete(GetSpec(S, c).value.0)
    requires (e.Pop? && c == e.vec) || (e.Copy? && e.dest != [] && c == e.dest[0])
    requires Step(at, GetSpec(S, c).value.1.SetCall(e.id, GetSpec(S, c).value.0), p.info[fn])
    ensures HasInv(p, fn, at, GetSpec(S, c).value.1.SetCall(e.id, GetSpec(S, c).value.0))
  {
    hide HasInv, Step, AllWhole, Foretells, NodeStable;
    HereFits(p, fn, at, e);
    assert ExprNode(e) in NodesE(e);
    assert Fits(p.funcs, at, ExprNode(e)) && c in OperandsE(e);
    var (s, S1) := GetSpec(S, c).value;
    SetCallStep(at, S1, e.id, s);
    StepTrans(at, S1, S1.SetCall(e.id, s), p.info[fn]);
    ReadKept(p, fn, at, S, c);
    FinalTaken(p, fn, at, e, c);
    CallInv(p, fn, at, S1, ExprNode(e), s);
  }

  lemma FinalTaken(p: Prog, fn: Name, at: Places, e: Expr, c: Expr)
    requires Here(p, fn, at, e) && ((e.Pop? && c == e.vec) || (e.Copy? && e.dest != [] && c == e.dest[0]))
    ensures p.info[fn].CallAt(e.id) == SpecOf(p.info[fn], c)
  {
    hide AllWhole, AllFit;
    HereFits(p, fn, at, e);
    assert ExprNode(e) in NodesE(e) && c in OperandsE(e);
    assert NodeStable(p, fn, ExprNode(e));
    HereFits(p, fn, at, c);
    SpecSettled(p, fn, c);
    var F := p.info[fn];
    assert F.SetCall(e.id, SpecOf(F, c)) == F;
  }

  lemma CopyLocal(p: Prog, fn: Name, at: Places, S: Specs, e: Expr)
    requires Here(p, fn, at, e) && HasInv(p, fn, at, S) && e.Copy? && e.dest == []
    ensures HasInv(p, fn, at, S.SetCall(e.id, LOCAL))
  {
    HereFits(p, fn, at, e);
    assert ExprNode(e) in NodesE(e);
    assert NodeStable(p, fn, ExprNode(e));
    assert p.info[fn].SetCall(e.id, LOCAL) == p.info[fn];
    assert p.info[fn].CallAt(e.id) == LOCAL;
    CallInv(p, fn, at, S, ExprNode(e), LOCAL);
  }

  lemma TakeInv(p: Prog, fn: Name, at: Places, S: Specs, e: Expr, c: Expr)
    requires Here(p, fn, at, e) && HasInv(p, fn, at, S) && GetSpec(S, c).Ok?
    requires (e.Pop? && c == e.vec) || (e.Copy? && e.dest != [] && c == e.dest[0])
    ensures HasInv(p, fn, at, GetSpec(S, c).value.1)
  {
    HereFits(p, fn, at, e);
    assert c in OperandsE(e);
    ReadInv(p, fn, at, S, c);
  }

  lemma PushInv(p: Prog, fn: Name, at: Places, S: Specs, e: Expr)
    requires Here(p, fn, at, e) && HasInv(p, fn, at, S) && e.Push? && Allocated(e.item) && SameRegion(S, [e.vec, e.item]).Ok?
    ensures HasInv(p, fn, at, SameRegion(S, [e.vec, e.item]).value.1)
  {
    HereFits(p, fn, at, e);
    assert e.vec in OperandsE(e) && e.item in OperandsE(e);
    SameRegionInv(p, fn, at, S, [e.vec, e.item]);
  }

  lemma FillInv(p: Prog, fn: Name, at: Places, safe: set<Name>, S: Specs, e: Expr)
    requires Here(p, fn, at, e) && HasInv(p, fn, at, S) && e.Lit?
    ensures VisitExpr(p.funcs, safe, S, e).Ok? && HasInv(p, fn, at, VisitExpr(p.funcs, safe, S, e).value)
  {
    var own := S.LitAt(e.id);
    assert Good(p.info[fn], own);
    if (own.kind.NamedRegionKind? || own.kind.ContainerKind?) && SrcKnown(S.Named(own.region)) && !SrcKnown(own) {
      assert own.region in S.tab && Foretells(S.tab[own.region], p.info[fn].tab[own.region]);
      HandDownInv(p, fn, at, S, e, own.(src := S.Named(own.region).src));
    }
  }

  lemma VisitExprInv(p: Prog, fn: Name, at: Places, safe: set<Name>, S: Specs, e: Expr)
    requires Here(p, fn, at, e) && p.safe <= safe && HasInv(p, fn, at, S)
    requires VisitExpr(p.funcs, safe, S, e).Ok? && Step(at, VisitExpr(p.funcs, safe, S, e).value, p.info[fn])
    ensures HasInv(p, fn, at, VisitExpr(p.funcs, safe, S, e).value)
  {
    hide Here, HasInv, Step, GetSpec;
    match e
    case Call(_, _, _, _, _) => VisitCallInv(p, fn, at, safe, S, e);
    case Push(_, _) => if !SafeCall(p.funcs, safe, S, e) { PushInv(p, fn, at, S, e); }
    case Pop(_, vec, _) =>
      if Complete(GetSpec(S, vec).value.0) { TakenOver(p, fn, at, S, e, vec); } else { TakeInv(p, fn, at, S, e, vec); }
    case Copy(_, _, dest) =>
      if dest == [] { CopyLocal(p, fn, at, S, e); }
      else if Complete(GetSpec(S, dest[0]).value.0) { TakenOver(p, fn, at, S, e, dest[0]); }
      else { TakeInv(p, fn, at, S, e, dest[0]); }
    case Lit(_, _, _) => FillInv(p, fn, at, safe, S, e);
    case _ =>
  }

  // ----- statements -----

  lemma MovedInv(p: Prog, fn: Name, at: Places, S: Specs, e: Expr, s: Spec)
    requires Here(p, fn, at, e) && HasInv(p, fn, at, S) && Good(p.info[fn], s)
    ensures e.Lit? && Complete(s) ==> HasInv(p, fn, at, SetAlloc(S, e, s))
  {
    if e.Lit? && Complete(s) {
      HandDownInv(p, fn, at, S, e, s);
    }
  }

  lemma StoreReadInv(p: Prog, fn: Name, at: Places, S: Specs, lhs: Spec, rhs: Spec, e: Expr)
    requires Here(p, fn, at, e) && HasInv(p, fn, at, S) && Good(p.info[fn], lhs) && StoreRead(S, lhs, rhs, e).Ok?
    ensures HasInv(p, fn, at, StoreRead(S, lhs, rhs, e).value)
  {
    MovedInv(p, fn, at, S, e, lhs);
  }

  lemma StoreInv(p: Prog, fn: Name, at: Places, S: Specs, target: Expr, e: Expr)
    requires Here(p, fn, at, target) && Here(p, fn, at, e) && Allocated(target) && HasInv(p, fn, at, S)
    requires VisitStore(S, target, e).Ok?
    ensures HasInv(p, fn, at, VisitStore(S, target, e).value)
  {
    ReadInv(p, fn, at, S, target);
    var (lhs, S1) := GetSpec(S, target).value;
    if Allocated(e) {
      ReadInv(p, fn, at, S1, e);
      var (rhs, S2) := GetSpec(S1, e).value;
      StoreReadInv(p, fn, at, S2, lhs, rhs, e);
    }
  }

  lemma {:induction false} ImplicitIsNamed(S: Specs, params: seq<Param>)
    ensures ImplicitSpec(S, params) == UNKNOWN || exists x :: x in S.tab && S.tab[x] == ImplicitSpec(S, params)
  {
    if params != [] {
      ImplicitIsNamed(S, params[1..]);
    }
  }

  lemma ReturnInv(p: Prog, fn: Name, at: Places, S: Specs, e: Expr)
    requires Here(p, fn, at, e) && HasInv(p, fn, at, S) && VisitReturn(p.funcs[fn].params, S, e).Ok?
    ensures HasInv(p, fn, at, VisitReturn(p.funcs[fn].params, S, e).value)
  {
    hide AllWhole, Settled, Good, Foretells, Firm;
    if Allocated(e) {
      ReadInv(p, fn, at, S, e);
      var (s, S1) := GetSpec(S, e).value;
      ImplicitInv(p, fn, at, S1);
      MovedInv(p, fn, at, S1, e, ImplicitSpec(S1, p.funcs[fn].params));
    }
  }

  lemma ImplicitInv(p: Prog, fn: Name, at: Places, S: Specs)
    requires fn in p.funcs && fn in p.info && HasInv(p, fn, at, S)
    ensures Good(p.info[fn], ImplicitSpec(S, p.funcs[fn].params))
  {
    ImplicitIsNamed(S, p.funcs[fn].params);
    var s := ImplicitSpec(S, p.funcs[fn].params);
    if s != UNKNOWN {
      var x :| x in S.tab && S.tab[x] == s;
      assert Good(p.info[fn], S.tab[x]);
    }
  }

  /** What a bound name ends with. */
  lemma FinalBinding(p: Prog, fn: Name, at: Places, st: Stmt, x: Name, e: Expr)
    requires Here(p, fn, at, e) && Allocated(e) && NodeStable(p, fn, StmtNode(st))
    requires st == Declare(x, e) || (st.ForIn? && st.x == x && st.ty == CompositeTy && st.e == e)
    ensures x in p.info[fn].tab && p.info[fn].tab[x] == SpecOf(p.info[fn], e)
  {
    var F := p.info[fn];
    HereFits(p, fn, at, e);
    SpecSettled(p, fn, e);
    assert F.SetName(x, SpecOf(F, e)) == F;
    assert F.SetName(x, SpecOf(F, e)).tab[x] == SpecOf(F, e);
  }

  lemma StepWithoutName(at: Places, S: Specs, x: Name, s: Spec, F: Specs)
    requires Step(at, BindRead(S, x, s), F)
    ensures Step(at, S, F)
  {
    assert forall i :: S.SetName(x, s).LitAt(i) == S.LitAt(i) && S.SetName(x, s).CallAt(i) == S.CallAt(i);
  }

  /** A binding of x, in whatever state it is met, foretells what x ends with. */
  lemma BindInv(p: Prog, fn: Name, at: Places, S: Specs, st: Stmt, x: Name, e: Expr)
    requires Here(p, fn, at, e) && Allocated(e) && HasInv(p, fn, at, S) && Readable(at, e) && NodeStable(p, fn, StmtNode(st))
    requires st == Declare(x, e) || (st.ForIn? && st.x == x && st.ty == CompositeTy && st.e == e)
    requires GetSpec(S, e).Ok?
    requires var (s, S1) := GetSpec(S, e).value; Step(at, BindRead(S1, x, s), p.info[fn])
    ensures var (s, S1) := GetSpec(S, e).value; HasInv(p, fn, at, BindRead(S1, x, s))
  {
    var (s, S1) := GetSpec(S, e).value;
    StepWithoutName(at, S1, x, s, p.info[fn]);
    ReadKept(p, fn, at, S, e);
    if SrcKnown(s) {
      FinalBinding(p, fn, at, st, x, e);
      NameInv(p, fn, at, S1, x, s);
    }
  }

  lemma StmtOperandsHere(p: Prog, fn: Name, at: Places, st: Stmt)
    requires Ended(p, fn, at) && StmtNode(st) in NodesB(p.funcs[fn].body)
    ensures forall c :: c in OperandsS(st) ==> Here(p, fn, at, c)
    ensures Fits(p.funcs, at, StmtNode(st)) && NodeStable(p, fn, StmtNode(st)) && InFragment(p, fn, StmtNode(st))
  {
    forall c | c in OperandsS(st)
      ensures Here(p, fn, at, c)
    {
      OperandIn(p.funcs[fn].body, StmtNode(st), c);
    }
    assert Whole(p.funcs, at, StmtNode(st));
  }

  lemma VisitStmtInv(p: Prog, fn: Name, at: Places, S: Specs, st: Stmt)
    requires Ended(p, fn, at) && StmtNode(st) in NodesB(p.funcs[fn].body) && HasInv(p, fn, at, S)
    requires VisitStmt(p.funcs[fn].params, S, st).Ok? && Step(at, VisitStmt(p.funcs[fn].params, S, st).value, p.info[fn])
    ensures HasInv(p, fn, at, VisitStmt(p.funcs[fn].params, S, st).value)
  {
    hide Here, HasInv, Step, NodeStable, InFragment;
    StmtOperandsHere(p, fn, at, st);
    match st
    case Declare(x, e) =>
      assert e in OperandsS(st);
      if Allocated(e) { BindInv(p, fn, at, S, st, x, e); }
    case Assign(_, e) => AssignInv(p, fn, at, S, e, st);
    case Store(target, _, e) =>
      assert target in OperandsS(st) && e in OperandsS(st);
      StoreInv(p, fn, at, S, target, e);
    case Return(e) =>
      assert e in OperandsS(st);
      ReturnInv(p, fn, at, S, e);
    case ForIn(x, ty, e, _) =>
      assert e in OperandsS(st);
      if ty == CompositeTy { BindInv(p, fn, at, S, st, x, e); }
    case _ =>
  }

  lemma AssignInv(p: Prog, fn: Name, at: Places, S: Specs, e: Expr, st: Stmt)
    requires Ended(p, fn, at) && HasInv(p, fn, at, S) && st.Assign? && st.e == e && (forall c :: c in OperandsS(st) ==> Here(p, fn, at, c))
    requires VisitStmt(p.funcs[fn].params, S, st).Ok?
    ensures HasInv(p, fn, at, VisitStmt(p.funcs[fn].params, S, st).value)
  {
    assert e in OperandsS(st);
    if Allocated(e) {
      ReadInv(p, fn, at, S, e);
    }
  }

  // ----- passes -----

  lemma VisitInv(p: Prog, fn: Name, at: Places, safe: set<Name>, S: Specs, nd: Node)
    requires Ended(p, fn, at) && nd in NodesB(p.funcs[fn].body) && p.safe <= safe && HasInv(p, fn, at, S)
    requires Visit(p.funcs, safe, p.funcs[fn].params, S, nd).Ok?
    requires Step(at, Visit(p.funcs, safe, p.funcs[fn].params, S, nd).value, p.info[fn])
    ensures HasInv(p, fn, at, Visit(p.funcs, safe, p.funcs[fn].params, S, nd).value)
  {
    match nd
    case ExprNode(e) =>
      NodeHere(p, fn, at, e);
      VisitExprInv(p, fn, at, safe, S, e);
    case StmtNode(st) => VisitStmtInv(p, fn, at, S, st);
  }

  lemma NodeHere(p: Prog, fn: Name, at: Places, e: Expr)
    requires Ended(p, fn, at) && ExprNode(e) in NodesB(p.funcs[fn].body)
    ensures Here(p, fn, at, e)
  {
    WholeBody(p.funcs[fn].body, e);
  }

  /** The nodes of an expression node of the body are nodes of the body. */
  lemma WholeBody(b: seq<Stmt>, e: Expr)
    requires ExprNode(e) in NodesB(b)
    ensures forall nd :: nd in NodesE(e) ==> nd in NodesB(b)
  {
    forall nd | nd in NodesE(e)
      ensures nd in NodesB(b)
    {
      if nd != ExprNode(e) {
        var c := UnderOperand(e, nd);
        OperandIn(b, ExprNode(e), c);
      }
    }
  }

  lemma {:induction false} UnderOperand(e: Expr, nd: Node) returns (c: Expr)
    requires nd in NodesE(e) && nd != ExprNode(e)
    ensures c in OperandsE(e) && nd in NodesE(c)
  {
    match e
    case Lit(_, _, elems) => c := UnderElem(elems, nd);
    case Call(_, _, args, _, _) => c := UnderElem(args, nd);
    case Push(vec, item) => c := if nd in NodesE(vec) then vec else item;
    case Pop(_, vec, _) => c := vec;
    case Copy(_, of, dest) => if nd in NodesE(of) { c := of; } else { c := UnderElem(dest, nd); }
    case Part(base, _, _) => c := base;
    case Lookup(base, _) => c := base;
    case Slice(base) => c := base;
    case Ternary(cond, thn, els, _) => c := if nd in NodesE(cond) then cond else if nd in NodesE(thn) then thn else els;
    case _ =>
  }

  lemma {:induction false} UnderElem(es: seq<Expr>, nd: Node) returns (c: Expr)
    requires nd in NodesEs(es)
    ensures c in es && nd in NodesE(c)
  {
    if nd in NodesE(es[0]) {
      c := es[0];
    } else {
      c := UnderElem(es[1..], nd);
    }
  }

  lemma {:induction false} PassInv(p: Prog, fn: Name, at: Places, safe: set<Name>, S: Specs, nodes: seq<Node>)
    requires Ended(p, fn, at) && (forall nd :: nd in nodes ==> nd in NodesB(p.funcs[fn].body)) && p.safe <= safe
    requires HasInv(p, fn, at, S) && Pass(p.funcs, safe, p.funcs[fn].params, S, nodes).Ok?
    requires Step(at, Pass(p.funcs, safe, p.funcs[fn].params, S, nodes).value, p.info[fn])
    ensures HasInv(p, fn, at, Pass(p.funcs, safe, p.funcs[fn].params, S, nodes).value)
    decreases nodes
  {
    if nodes != [] {
      var S1 := Visit(p.funcs, safe, p.funcs[fn].params, S, nodes[0]).value;
      PassStep(p.funcs, safe, p.funcs[fn].params, at, S1, nodes[1..]);
      StepTrans(at, S1, Pass(p.funcs, safe, p.funcs[fn].params, S, nodes).value, p.info[fn]);
      VisitInv(p, fn, at, safe, S, nodes[0]);
      PassInv(p, fn, at, safe, S1, nodes[1..]);
    }
  }

  lemma {:induction false} UnknownsInv(p: Prog, fn: Name, at: Places, S: Specs, nodes: seq<Node>)
    requires Ended(p, fn, at) && (forall nd :: nd in nodes ==> nd in NodesB(p.funcs[fn].body))
    requires HasInv(p, fn, at, S) && Unknowns(S, nodes).Ok?
    ensures HasInv(p, fn, at, Unknowns(S, nodes).value.1)
    decreases nodes
  {
    if nodes != [] {
      if nodes[0].ExprNode? && HasAllocSpec(nodes[0].e) {
        NodeHere(p, fn, at, nodes[0].e);
        ReadInv(p, fn, at, S, nodes[0].e);
        UnknownsInv(p, fn, at, GetSpec(S, nodes[0].e).value.1, nodes[1..]);
      } else {
        UnknownsInv(p, fn, at, S, nodes[1..]);
      }
    }
  }
}
