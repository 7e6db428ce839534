/** What a pass learns on a function with a right siting: once the places a node depends on
    are known, the next pass knows its own and has put its literals there. */
module RegionLearning {
  import opened RegionSyntax
  import opened RegionCheck
  import opened RegionSemantics
  import opened RegionAccepted
  import opened RegionPasses
  import opened RegionPlaces
  import opened RegionSteps
  import opened RegionStart
  import opened RegionSiting
  import opened RegionAcceptance
  import opened RegionSitedPass
  import opened Results

  /** Everything the place of e is read from is known. */
  predicate Told(S: Specs, e: Expr) {
    match e
    case Prim => false
    case Push(_, _) => false
    case Ident(x, _) => SrcKnown(S.Named(x))
    case Lit(_, id, _) => SrcKnown(S.LitAt(id))
    case Call(id, _, _, _, _) => SrcKnown(S.CallAt(id))
    case Pop(id, _, _) => SrcKnown(S.CallAt(id))
    case Copy(id, _, _) => SrcKnown(S.CallAt(id))
    case LocalRegion => true
    case RegionOf(x) => SrcKnown(S.Named(x))
    case Part(base, _, _) => Told(S, base)
    case Lookup(base, _) => Told(S, base)
    case Slice(base) => Told(S, base)
    case Ternary(_, thn, els, _) => Told(S, thn) && Told(S, els)
  }

  /** A literal that has to move is where it has to be. */
  predicate Arrived(c: Case, S: Specs, x: Expr) {
    Free(c, x) && c.at.given(x.id) ==> LitThere(c, S, x.id)
  }

  /** What happens at nd can be told from S. */
  ghost predicate Informed(c: Case, S: Specs, nd: Node) {
    match nd
    case StmtNode(Declare(_, e)) => Allocated(e) ==> Told(S, e)
    case StmtNode(ForIn(_, ty, e, _)) => ty == CompositeTy ==> Told(S, e)
    case StmtNode(Store(target, _, e)) => Told(S, target)
    case ExprNode(Call(_, fn, _, _, _)) => SafeFn(c, fn) || LeaderTold(S, Compared(c, nd.e))
    case ExprNode(Push(vec, item)) => LeaderTold(S, [vec, item])
    case ExprNode(Pop(_, vec, _)) => Told(S, vec)
    case ExprNode(Copy(_, _, dest)) => dest != [] ==> Told(S, dest[0])
    case ExprNode(Lit(_, id, _)) => Suffixed(c, nd.e) ==> SrcKnown(S.Named(c.parsed.LitAt(id).region))
    case _ => true
  }

  ghost predicate LeaderTold(S: Specs, args: seq<Expr>) {
    forall i :: 0 <= i < |args| && Leads(args, i) ==> Told(S, args[i])
  }

  /** Containers for `foreign` parameters are marked. */
  predicate ForeignMarked(c: Case, S: Specs, params: seq<Param>, args: seq<Expr>) {
    forall i :: 0 <= i < |args| && i < |params| && params[i].isForeign ==> Marked(c, S, args[i])
  }

  predicate Marked(c: Case, S: Specs, a: Expr) {
    Free(c, a) && (a.lit.VecLit? || a.lit.DictLit?) ==> LitThere(c, S, a.id)
  }

  predicate AllArrived(c: Case, S: Specs, args: seq<Expr>) {
    forall i :: 0 <= i < |args| ==> Arrived(c, S, args[i])
  }

  /** What nd binds, yields or puts somewhere is known to S. */
  ghost predicate Learned(c: Case, S: Specs, nd: Node) {
    match nd
    case StmtNode(Declare(x, e)) => Allocated(e) ==> SrcKnown(S.Named(x))
    case StmtNode(ForIn(x, ty, _, _)) => ty == CompositeTy ==> SrcKnown(S.Named(x))
    case StmtNode(Store(_, _, e)) => Arrived(c, S, e)
    case StmtNode(Return(e)) => Arrived(c, S, e)
    case ExprNode(Call(id, fn, _, auto, _)) =>
      if SafeFn(c, fn) then auto ==> SrcKnown(S.CallAt(id))
      else
        && AllArrived(c, S, Compared(c, nd.e)) && ForeignMarked(c, S, ParamsOf(c, fn), nd.e.args)
        && (Compared(c, nd.e) != [] ==> SrcKnown(S.CallAt(id)))
    case ExprNode(Push(vec, item)) => Allocated(item) ==> AllArrived(c, S, [vec, item])
    case ExprNode(Pop(id, _, _)) => SrcKnown(S.CallAt(id))
    case ExprNode(Copy(id, _, _)) => SrcKnown(S.CallAt(id))
    case ExprNode(Lit(_, id, _)) => Suffixed(c, nd.e) ==> SrcKnown(S.LitAt(id))
    case _ => true
  }

  // ----- what is known stays known -----

  lemma NamedKept(c: Case, S: Specs, T: Specs, x: Name)
    requires Below(c, S, S) && Below(c, S, T) && SrcKnown(S.Named(x))
    ensures SrcKnown(T.Named(x))
  {
  }

  lemma {:induction false} ToldKept(c: Case, S: Specs, T: Specs, e: Expr)
    requires Below(c, S, S) && Below(c, S, T) && Told(S, e)
    ensures Told(T, e)
    decreases e
  {
    match e
    case Ident(x, _) => NamedKept(c, S, T, x);
    case RegionOf(x) => NamedKept(c, S, T, x);
    case Part(base, _, _) => ToldKept(c, S, T, base);
    case Lookup(base, _) => ToldKept(c, S, T, base);
    case Slice(base) => ToldKept(c, S, T, base);
    case Ternary(_, thn, els, _) => ToldKept(c, S, T, thn); ToldKept(c, S, T, els);
    case _ =>
  }

  lemma LeaderKept(c: Case, S: Specs, T: Specs, args: seq<Expr>)
    requires Below(c, S, S) && Below(c, S, T) && LeaderTold(S, args)
    ensures LeaderTold(T, args)
  {
    forall i | 0 <= i < |args| && Leads(args, i)
      ensures Told(T, args[i])
    {
      ToldKept(c, S, T, args[i]);
    }
  }

  lemma InformedKept(c: Case, S: Specs, T: Specs, nd: Node)
    requires Below(c, S, S) && Below(c, S, T) && Informed(c, S, nd)
    ensures Informed(c, T, nd)
  {
    hide Below;
    match nd
    case StmtNode(Declare(_, e)) => if Allocated(e) { ToldKept(c, S, T, e); }
    case StmtNode(ForIn(_, ty, e, _)) => if ty == CompositeTy { ToldKept(c, S, T, e); }
    case StmtNode(Store(target, _, _)) => ToldKept(c, S, T, target);
    case ExprNode(Call(_, fn, _, _, _)) => if !SafeFn(c, fn) { LeaderKept(c, S, T, Compared(c, nd.e)); }
    case ExprNode(Push(vec, item)) => LeaderKept(c, S, T, [vec, item]);
    case ExprNode(Pop(_, vec, _)) => ToldKept(c, S, T, vec);
    case ExprNode(Copy(_, _, dest)) => if dest != [] { ToldKept(c, S, T, dest[0]); }
    case ExprNode(Lit(_, id, _)) => if Suffixed(c, nd.e) { NamedKept(c, S, T, c.parsed.LitAt(id).region); }
    case _ =>
  }

  lemma ArrivedKept(c: Case, S: Specs, T: Specs, x: Expr)
    requires Below(c, S, T) && Arrived(c, S, x)
    ensures Arrived(c, T, x)
  {
  }

  lemma LearnedKept(c: Case, S: Specs, T: Specs, nd: Node)
    requires Below(c, S, S) && Below(c, S, T) && Learned(c, S, nd)
    ensures Learned(c, T, nd)
  {
    hide Spread, LitBelow, CallBelow, NameBelow, Tells;
    match nd
    case StmtNode(Declare(x, e)) => if Allocated(e) { NamedKept(c, S, T, x); }
    case StmtNode(ForIn(x, ty, _, _)) => if ty == CompositeTy { NamedKept(c, S, T, x); }
    case _ =>
  }

  // ----- reading -----

  /** A literal without suffix is local until it is there. */
  lemma FreeLocal(c: Case, R: Specs, S: Specs, x: Expr)
    requires Sited(c) && Below(c, R, S) && Free(c, x) && c.at.given(x.id)
    ensures S.LitAt(x.id) == LOCAL || LitThere(c, S, x.id)
  {
    assert LitBelow(c, x.id, S.LitAt(x.id)) && InitialLit(c.f, c.parsed.LitAt(x.id));
  }

  /** The place of a ternary whose branches are known is known, and its literals are there. */
  lemma JoinTold(c: Case, R: Specs, S: Specs, e: Expr, a: Spec, b: Spec)
    requires Sited(c) && Below(c, R, S) && e.Ternary? && BranchesReadAs(c, S, e, a, b) && SrcKnown(a) && SrcKnown(b)
    requires JoinFits(c, R, S, e, a, b)
    ensures
      var (s, T) := Join(S, e.thn, e.els, a, b).value;
      SrcKnown(s) && Arrived(c, T, e.thn) && Arrived(c, T, e.els)
  {
    hide Sited, Below;
    if Free(c, e.thn) && c.at.given(e.thn.id) {
      JoinSettlesThen(c, R, S, e, a, b);
    } else if Free(c, e.els) && c.at.given(e.els.id) {
      JoinSettlesElse(c, R, S, e, a, b);
    }
  }

  lemma JoinSettlesThen(c: Case, R: Specs, S: Specs, e: Expr, a: Spec, b: Spec)
    requires Sited(c) && Below(c, R, S) && e.Ternary? && BranchesReadAs(c, S, e, a, b) && SrcKnown(a) && SrcKnown(b)
    requires JoinFits(c, R, S, e, a, b) && Free(c, e.thn) && c.at.given(e.thn.id)
    ensures Arrived(c, Join(S, e.thn, e.els, a, b).value.1, e.thn) && !Free(c, e.els)
  {
    FreeLocal(c, R, S, e.thn);
    hide Sited, Below, Within;
    assert !Free(c, e.els) && Retargets(S, a, e.els, b) == Ok(false);
    if S.LitAt(e.thn.id) == LOCAL {
      assert Retargets(S, b, e.thn, a) == Ok(true);
      MoveBelow(c, R, S, e.thn, b);
      assert e.thn.id in LitIds(e.thn);
    }
  }

  lemma JoinSettlesElse(c: Case, R: Specs, S: Specs, e: Expr, a: Spec, b: Spec)
    requires Sited(c) && Below(c, R, S) && e.Ternary? && BranchesReadAs(c, S, e, a, b) && SrcKnown(a) && SrcKnown(b)
    requires JoinFits(c, R, S, e, a, b) && Free(c, e.els) && c.at.given(e.els.id) && !(Free(c, e.thn) && c.at.given(e.thn.id))
    ensures Arrived(c, Join(S, e.thn, e.els, a, b).value.1, e.els)
  {
    FreeLocal(c, R, S, e.els);
    hide Sited, Below, Within;
    if S.LitAt(e.els.id) == LOCAL {
      assert !Free(c, e.thn) && Retargets(S, a, e.els, b) == Ok(true);
      MoveBelow(c, R, S, e.els, a);
      assert e.els.id in LitIds(e.els);
    }
  }

  /** What is told is read as known. */
  lemma {:induction false} ReadTold(c: Case, S: Specs, e: Expr)
    requires Sited(c) && Below(c, S, S) && (Within(c, e) || e.LocalRegion?) && Placed(c, e) && Fixed(c, e) && Told(S, e)
    ensures GetSpec(S, e).Ok? && SrcKnown(GetSpec(S, e).value.0)
    ensures e.Ternary? ==> Arrived(c, GetSpec(S, e).value.1, e.thn) && Arrived(c, GetSpec(S, e).value.1, e.els)
    decreases e, 1
  {
    hide Below, Sited, Within, Placed, Fixed;
    if e.Part? || e.Lookup? || e.Slice? {
      BaseSited(c, e);
      ReadTold(c, S, e.base);
    } else if e.Ternary? {
      TernaryTold(c, S, e);
    }
  }

  lemma {:induction false} TernaryTold(c: Case, S: Specs, e: Expr)
    requires Sited(c) && Below(c, S, S) && Within(c, e) && Placed(c, e) && e.Ternary? && Told(S, e)
    ensures GetSpec(S, e).Ok? && SrcKnown(GetSpec(S, e).value.0)
    ensures Arrived(c, GetSpec(S, e).value.1, e.thn) && Arrived(c, GetSpec(S, e).value.1, e.els)
    decreases e, 0
  {
    hide Below, Sited, Within, Placed, Fixed, Arrived, Join, BranchesSited, BranchesReadAs, JoinFits, ReadAs;
    BranchesPlaced(c, e);
    ReadTold(c, S, e.thn);
    ReadSited(c, S, S, e.thn);
    var (a, S1) := GetSpec(S, e.thn).value;
    ToldKept(c, S, S1, e.els);
    NewFloor(c, S, S1);
    ReadTold(c, S1, e.els);
    ReadSited(c, S1, S1, e.els);
    var (b, S2) := GetSpec(S1, e.els).value;
    TernaryRead(c, S1, S1, S2, e, a, b);
    assert Below(c, S1, S2);
    JoinTold(c, S1, S2, e, a, b);
    JoinOk(c, S1, S2, e, a, b);
  }

  lemma JoinOk(c: Case, R: Specs, S: Specs, e: Expr, a: Spec, b: Spec)
    requires e.Ternary? && JoinFits(c, R, S, e, a, b)
    ensures Join(S, e.thn, e.els, a, b).Ok?
  {
  }

  // ----- arguments -----

  /** Putting one literal next to a known outer value moves it. */
  lemma PutSettles(c: Case, S: Specs, x: Expr, req: Spec, site: Site)
    requires Sited(c) && Below(c, S, S) && Within(c, x) && x.Lit? && PutAt(c, x, site) && Tells(req, site)
    ensures
      var can := CanRetarget(S.LitAt(x.id), req);
      && can.Ok? && (can.value ==> Arrived(c, SetAlloc(S, x, req), x) && Below(c, S, SetAlloc(S, x, req)))
      && (!can.value ==> Arrived(c, S, x))
  {
    RetargetSited(c, S, S, x, req, site);
    if CanRetarget(S.LitAt(x.id), req) == Ok(true) {
      MoveBelow(c, S, S, x, req);
      assert x.id in LitIds(x);
    } else if Free(c, x) && c.at.given(x.id) {
      FreeLocal(c, S, S, x);
    }
  }

  lemma {:induction false} AlignSettles(c: Case, S: Specs, args: seq<Expr>, req: Spec, site: Site)
    requires Sited(c) && Below(c, S, S) && AllWithin(c, args) && Tells(req, site)
    requires forall i :: 0 <= i < |args| ==> Placed(c, args[i]) && PutAt(c, args[i], site)
    ensures AlignArgs(S, args, req).Ok? && AllArrived(c, AlignArgs(S, args, req).value, args)
    decreases args
  {
    hide Sited, Below, Tells;
    AlignSited(c, S, S, args, req, site);
    if args != [] {
      ReadSited(c, S, S, args[0]);
      var (a, S1) := GetSpec(S, args[0]).value;
      var S2 := AfterAlign(c, S, args, req, site);
      AlignSettles(c, S2, args[1..], req, site);
      AlignSited(c, S2, S2, args[1..], req, site);
      var T := AlignArgs(S, args, req).value;
      ArrivedKept(c, S2, T, args[0]);
      forall i | 0 <= i < |args|
        ensures Arrived(c, T, args[i])
      {
        assert i > 0 ==> args[i] == args[1..][i - 1];
      }
    }
  }

  /** The specs after the first of the arguments has been aligned. */
  lemma AfterAlign(c: Case, S: Specs, args: seq<Expr>, req: Spec, site: Site) returns (T: Specs)
    requires Sited(c) && Below(c, S, S) && AllWithin(c, args) && args != [] && Tells(req, site)
    requires Placed(c, args[0]) && PutAt(c, args[0], site) && AlignArgs(S, args, req).Ok?
    ensures Below(c, T, T) && Arrived(c, T, args[0]) && AlignArgs(S, args, req) == AlignArgs(T, args[1..], req)
  {
    hide Sited, Below;
    ReadSited(c, S, S, args[0]);
    var (a, S1) := GetSpec(S, args[0]).value;
    T := S1;
    NewFloor(c, S, S1);
    if args[0].Lit? {
      PutSettles(c, S, args[0], req, site);
      if !SrcKnown(a) {
        UnknownUnmoved(c, S, args[0], a);
      } else if CanRetarget(S.LitAt(args[0].id), req) == Ok(true) {
        T := SetAlloc(S, args[0], req);
        NewFloor(c, S, T);
      }
    }
  }

  /** A literal that has to move has a known spec. */
  lemma UnknownUnmoved(c: Case, S: Specs, x: Expr, s: Spec)
    requires Sited(c) && Below(c, S, S) && x.Lit? && s == S.LitAt(x.id) && !SrcKnown(s)
    ensures Arrived(c, S, x)
  {
    if Free(c, x) && c.at.given(x.id) {
      FreeLocal(c, S, S, x);
    }
  }

  lemma LeaderKnown(c: Case, S: Specs, args: seq<Expr>)
    requires Sited(c) && Below(c, S, S) && AllWithin(c, args) && args != [] && LeaderTold(S, args)
    requires forall i :: 0 <= i < |args| && Leads(args, i) ==> Placed(c, args[i]) && AtRest(c, args[i])
    ensures GetSpec(S, Anchor(args)).Ok? && SrcKnown(GetSpec(S, Anchor(args)).value.0)
  {
    hide Sited, Below;
    var i := AnchorLeads(args);
    ReadTold(c, S, args[i]);
  }

  lemma FirstSettles(c: Case, S: Specs, args: seq<Expr>, req: Spec, site: Site)
    requires Sited(c) && Below(c, S, S) && AllWithin(c, args) && args != [] && ArgsSited(c, args, site) && Tells(req, site)
    ensures RetargetFirst(S, args[0], req).Ok? && Arrived(c, RetargetFirst(S, args[0], req).value, args[0])
  {
    hide Sited, Below;
    FirstSited(c, S, S, args, req, site);
    if args[0].Lit? && !Leads(args, 0) {
      PutSettles(c, S, args[0], req, site);
    }
  }

  lemma SameRegionSettles(c: Case, S: Specs, args: seq<Expr>, site: Site)
    requires Sited(c) && Below(c, S, S) && AllWithin(c, args) && args != [] && ArgsSited(c, args, site) && LeaderTold(S, args)
    ensures
      var r := SameRegion(S, args);
      r.Ok? && SrcKnown(r.value.0) && AllArrived(c, r.value.1, args)
  {
    hide Sited, Below;
    SameRegionSited(c, S, S, args, site);
    LeaderKnown(c, S, args);
    AnchorSited(c, S, S, args, site);
    var (req, S1) := GetSpec(S, Anchor(args)).value;
    NewFloor(c, S, S1);
    FirstSettles(c, S1, args, req, site);
    FirstSited(c, S1, S1, args, req, site);
    var S2 := RetargetFirst(S1, args[0], req).value;
    NewFloor(c, S1, S2);
    RestSettles(c, S2, args, req, site);
  }

  lemma RestSettles(c: Case, S: Specs, args: seq<Expr>, req: Spec, site: Site)
    requires Sited(c) && Below(c, S, S) && AllWithin(c, args) && args != [] && ArgsSited(c, args, site) && Tells(req, site)
    requires Arrived(c, S, args[0])
    ensures AlignArgs(S, args[1..], req).Ok? && AllArrived(c, AlignArgs(S, args[1..], req).value, args)
  {
    hide Sited, Below;
    forall i | 0 <= i < |args[1..]|
      ensures Placed(c, args[1..][i]) && PutAt(c, args[1..][i], site) && (Within(c, args[1..][i]) || args[1..][i].LocalRegion?)
    {
      LeaderIsPut(c, args, i + 1, site);
    }
    AlignSited(c, S, S, args[1..], req, site);
    AlignSettles(c, S, args[1..], req, site);
    var T := AlignArgs(S, args[1..], req).value;
    ArrivedKept(c, S, T, args[0]);
    forall i | 0 <= i < |args|
      ensures Arrived(c, T, args[i])
    {
      assert i > 0 ==> args[i] == args[1..][i - 1];
    }
  }

  // ----- visits -----

  lemma CallLearns(c: Case, S: Specs, e: Expr)
    requires Sited(c) && Below(c, S, S) && e.Call? && ExprNode(e) in NodesB(c.f.body) && Informed(c, S, ExprNode(e))
    ensures VisitExpr(c.funcs, c.safe, S, e).Ok? && Learned(c, VisitExpr(c.funcs, c.safe, S, e).value, ExprNode(e))
  {
    hide Below;
    assert NodeSited(c, ExprNode(e));
    CallVisitSited(c, S, c.safe, S, e);
    if SafeFn(c, e.fn) {
      if e.auto && S.CallAt(e.id).kind != UnknownKind {
        KindMeansKnown(c, S, e.id);
      }
    } else {
      MarkLearns(c, S, ParamsOf(c, e.fn), e.args);
      ComparedIsCallArgs(c, e);
      if Compared(c, e) != [] {
        UnsafeLearns(c, S, e);
      }
    }
  }

  lemma {:induction false} MarkLearns(c: Case, S: Specs, params: seq<Param>, args: seq<Expr>)
    requires Sited(c) && Below(c, S, S)
    requires forall i :: 0 <= i < |args| && i < |params| && params[i].isForeign ==> ForeignSited(c, args[i])
    ensures ForeignMarked(c, MarkForeign(S, params, args), params, args)
    decreases args
  {
    hide Sited, Below, ForeignSited, Marked;
    if args != [] && params != [] {
      var a := args[0];
      var S1 := if params[0].isForeign && a.Lit? && (a.lit.VecLit? || a.lit.DictLit?)
                   && S.LitAt(a.id).kind == LocalKind && S.LitAt(a.id).src == LocalSrc
                then S.SetLit(a.id, S.LitAt(a.id).(src := CrossSrc)) else S;
      var T := MarkForeign(S, params, args);
      FirstMarked(c, S, params, args, S1);
      forall i | 0 <= i < |args[1..]| && i < |params[1..]| && params[1..][i].isForeign
        ensures ForeignSited(c, args[1..][i])
      {
        assert ForeignSited(c, args[i + 1]);
      }
      MarkSited(c, S1, S1, params[1..], args[1..]);
      MarkLearns(c, S1, params[1..], args[1..]);
      MarkKept(c, S1, T, a);
      forall i | 0 <= i < |args| && i < |params| && params[i].isForeign
        ensures Marked(c, T, args[i])
      {
        if i > 0 {
          assert params[1..][i - 1].isForeign && Marked(c, T, args[1..][i - 1]);
        }
      }
    }
  }

  lemma MarkKept(c: Case, S: Specs, T: Specs, a: Expr)
    requires Below(c, S, T)
    ensures Marked(c, S, a) ==> Marked(c, T, a)
  {
  }

  lemma FirstMarked(c: Case, S: Specs, params: seq<Param>, args: seq<Expr>, S1: Specs)
    requires Sited(c) && Below(c, S, S) && args != [] && params != [] && (params[0].isForeign ==> ForeignSited(c, args[0]))
    requires
      var a := args[0];
      S1 == if params[0].isForeign && a.Lit? && (a.lit.VecLit? || a.lit.DictLit?)
               && S.LitAt(a.id).kind == LocalKind && S.LitAt(a.id).src == LocalSrc
            then S.SetLit(a.id, S.LitAt(a.id).(src := CrossSrc)) else S
    ensures Below(c, S1, S1) && (params[0].isForeign ==> Marked(c, S1, args[0]))
  {
    var a := args[0];
    if params[0].isForeign && Free(c, a) && (a.lit.VecLit? || a.lit.DictLit?) {
      assert LitBelow(c, a.id, S.LitAt(a.id)) && InitialLit(c.f, c.parsed.LitAt(a.id));
    }
    if S1 != S {
      MarkBelow(c, S, S, a);
      NewFloor(c, S, S1);
    }
  }

  lemma KindMeansKnown(c: Case, S: Specs, id: nat)
    requires Below(c, S, S) && S.CallAt(id).kind != UnknownKind
    ensures SrcKnown(S.CallAt(id))
  {
    assert CallBelow(c, id, S.CallAt(id));
  }

  lemma UnsafeLearns(c: Case, S: Specs, e: Expr)
    requires Sited(c) && Below(c, S, S) && e.Call? && ExprNode(e) in NodesB(c.f.body) && Informed(c, S, ExprNode(e))
    requires !SafeFn(c, e.fn) && Compared(c, e) != []
    ensures VisitExpr(c.funcs, c.safe, S, e).Ok? && Learned(c, VisitExpr(c.funcs, c.safe, S, e).value, ExprNode(e))
  {
    hide Below;
    assert NodeSited(c, ExprNode(e));
    var args := Compared(c, e);
    ComparedIsCallArgs(c, e);
    ComparedWithin(c, e);
    MarkSited(c, S, S, ParamsOf(c, e.fn), e.args);
    var S0 := MarkForeign(S, ParamsOf(c, e.fn), e.args);
    LeaderKept(c, S, S0, args);
    NewFloor(c, S, S0);
    SameRegionSited(c, S0, S0, args, c.at.call(e.id));
    SameRegionSettles(c, S0, args, c.at.call(e.id));
    var (req, S1) := SameRegion(S0, args).value;
    NewFloor(c, S0, S1);
    TakeBelow(c, S1, S1, e.id, req);
    MarkLearns(c, S, ParamsOf(c, e.fn), e.args);
    SameRegionSited(c, S0, S0, args, c.at.call(e.id));
    TakeBelow(c, S0, S1, e.id, req);
    MarkedKept(c, S0, TakeRead(S1, e.id, req), ParamsOf(c, e.fn), e.args);
    forall i | 0 <= i < |args|
      ensures Arrived(c, TakeRead(S1, e.id, req), args[i])
    {
      ArrivedKept(c, S1, TakeRead(S1, e.id, req), args[i]);
    }
  }

  lemma MarkedKept(c: Case, S: Specs, T: Specs, params: seq<Param>, args: seq<Expr>)
    requires Below(c, S, T) && ForeignMarked(c, S, params, args)
    ensures ForeignMarked(c, T, params, args)
  {
    forall i | 0 <= i < |args| && i < |params| && params[i].isForeign
      ensures Marked(c, T, args[i])
    {
      assert Marked(c, S, args[i]);
    }
  }

  lemma PushTags(e: Expr)
    requires e.Push? && OwnTags(NodesE(e))
    ensures e.item.Lit? ==> !HasTag(NodesE(e.vec), LitTag(e.item.id))
  {
    TagsOfThree([ExprNode(e)], NodesE(e.vec), NodesE(e.item));
    assert NodesE(e) == [ExprNode(e)] + (NodesE(e.vec) + NodesE(e.item));
    TagsOfParts([ExprNode(e)], NodesE(e.vec) + NodesE(e.item));
    TagsOfParts(NodesE(e.vec), NodesE(e.item));
    if e.item.Lit? {
      assert ExprNode(e.item) in NodesE(e.item) && NodeTag(ExprNode(e.item)) == LitTag(e.item.id);
    }
  }

  /** Where a push needs no check, the item already is where it has to be. */
  lemma SafePushArrived(c: Case, S: Specs, e: Expr)
    requires Sited(c) && Below(c, S, S) && e.Push? && ExprNode(e) in NodesB(c.f.body) && Informed(c, S, ExprNode(e))
    requires Allocated(e.item) && SafeOp(S, e.vec, e.item)
    ensures AllArrived(c, S, [e.vec, e.item])
  {
    assert NodeSited(c, ExprNode(e));
    OperandWithin(c, ExprNode(e), e.vec);
    OperandWithin(c, ExprNode(e), e.item);
    hide Below;
    if Free(c, e.item) && c.at.given(e.item.id) {
      assert Leads([e.vec, e.item], 0) && Told(S, e.vec) && AtRest(c, e.vec) && PutAt(c, e.item, Where(c, e.vec));
      SafeItemArrived(c, S, e);
    } else if Free(c, e.vec) && c.at.given(e.vec.id) {
      assert Leads([e.vec, e.item], 1) && Told(S, e.item) && AtRest(c, e.item) && PutAt(c, e.vec, Where(c, e.item));
      SafeVecArrived(c, S, e);
    }
  }

  lemma SafeItemArrived(c: Case, S: Specs, e: Expr)
    requires Sited(c) && Below(c, S, S) && e.Push? && ExprNode(e) in NodesB(c.f.body) && Within(c, e.vec) && SafeOp(S, e.vec, e.item)
    requires Told(S, e.vec) && Placed(c, e.vec) && AtRest(c, e.vec)
    requires Free(c, e.item) && c.at.given(e.item.id) && PutAt(c, e.item, Where(c, e.vec))
    ensures AllArrived(c, S, [e.vec, e.item])
  {
    TagsInBody(c.f.body, e);
    hide Below, Sited, Within, Placed, OwnTags, HasTag;
    PushTags(e);
    ReadSited(c, S, S, e.vec);
    ReadKeepsOthers(S, e.vec, e.item.id);
    FreeLocal(c, S, S, e.item);
    ReadTold(c, S, e.vec);
  }

  lemma SafeVecArrived(c: Case, S: Specs, e: Expr)
    requires Sited(c) && Below(c, S, S) && e.Push? && Within(c, e.vec) && Within(c, e.item) && SafeOp(S, e.vec, e.item)
    requires Told(S, e.item) && Placed(c, e.item) && AtRest(c, e.item) && Placed(c, e.vec)
    requires Free(c, e.vec) && c.at.given(e.vec.id) && PutAt(c, e.vec, Where(c, e.item))
    ensures AllArrived(c, S, [e.vec, e.item])
  {
    hide Below, Sited, Within, Placed;
    FreeLocal(c, S, S, e.vec);
    ReadSited(c, S, S, e.vec);
    ReadSited(c, S, S, e.item);
    ReadTold(c, S, e.item);
  }

  lemma PushLearns(c: Case, S: Specs, e: Expr)
    requires Sited(c) && Below(c, S, S) && e.Push? && ExprNode(e) in NodesB(c.f.body) && Informed(c, S, ExprNode(e))
    ensures VisitExpr(c.funcs, c.safe, S, e).Ok? && Learned(c, VisitExpr(c.funcs, c.safe, S, e).value, ExprNode(e))
  {
    hide Below;
    assert NodeSited(c, ExprNode(e));
    PushVisitSited(c, S, c.safe, S, e);
    if Allocated(e.item) {
      if SafeOp(S, e.vec, e.item) {
        SafePushArrived(c, S, e);
      } else {
        OperandWithin(c, ExprNode(e), e.vec);
        OperandWithin(c, ExprNode(e), e.item);
        SameRegionSettles(c, S, [e.vec, e.item], if e.vec.Lit? && !e.item.Lit? then Where(c, e.item) else Where(c, e.vec));
      }
    }
  }

  lemma TakeLearns(c: Case, S: Specs, e: Expr)
    requires Sited(c) && Below(c, S, S) && (e.Pop? || e.Copy?) && ExprNode(e) in NodesB(c.f.body) && Informed(c, S, ExprNode(e))
    ensures VisitExpr(c.funcs, c.safe, S, e).Ok? && Learned(c, VisitExpr(c.funcs, c.safe, S, e).value, ExprNode(e))
  {
    hide Below;
    assert NodeSited(c, ExprNode(e));
    if e.Copy? && e.dest == [] {
      TakeBelow(c, S, S, e.id, LOCAL);
    } else {
      var x := if e.Pop? then e.vec else e.dest[0];
      OperandWithin(c, ExprNode(e), x);
      ReadSited(c, S, S, x);
      ReadTold(c, S, x);
      TakeBelow(c, S, GetSpec(S, x).value.1, e.id, GetSpec(S, x).value.0);
    }
  }

  lemma FillLearns(c: Case, S: Specs, e: Expr)
    requires Sited(c) && Below(c, S, S) && e.Lit? && ExprNode(e) in NodesB(c.f.body) && Informed(c, S, ExprNode(e))
    ensures VisitExpr(c.funcs, c.safe, S, e).Ok? && Learned(c, VisitExpr(c.funcs, c.safe, S, e).value, ExprNode(e))
  {
    var own := S.LitAt(e.id);
    assert LitBelow(c, e.id, own) && InitialLit(c.f, c.parsed.LitAt(e.id));
    if Suffixed(c, e) && !SrcKnown(own) {
      assert own == c.parsed.LitAt(e.id);
      SetAllocExact(S, e, own.(src := S.Named(own.region).src));
      assert e.id in LitIds(e);
    }
  }

  lemma StoreLearns(c: Case, S: Specs, s: Stmt)
    requires Sited(c) && Below(c, S, S) && s.Store? && StmtNode(s) in NodesB(c.f.body) && Told(S, s.target)
    ensures VisitStore(S, s.target, s.e).Ok? && Arrived(c, VisitStore(S, s.target, s.e).value, s.e)
  {
    hide Below;
    assert NodeSited(c, StmtNode(s));
    OperandWithin(c, StmtNode(s), s.target);
    OperandWithin(c, StmtNode(s), s.e);
    StoreVisitSited(c, S, S, s);
    ReadSited(c, S, S, s.target);
    ReadTold(c, S, s.target);
    var (lhs, S1) := GetSpec(S, s.target).value;
    if s.e.Lit? {
      NewFloor(c, S, S1);
      PutSettles(c, S1, s.e, lhs, Where(c, s.target));
    }
  }

  /** A local literal stored into a known outer value takes the very spec of the target. */
  lemma StoreTakesTarget(c: Case, S: Specs, s: Stmt)
    requires Sited(c) && Below(c, S, S) && s.Store? && StmtNode(s) in NodesB(c.f.body) && Told(S, s.target)
    requires Free(c, s.e) && Where(c, s.target) == OuterSite && S.LitAt(s.e.id).src == LocalSrc
    requires !HasTag(NodesE(s.target), LitTag(s.e.id))
    ensures
      var r := VisitStore(S, s.target, s.e);
      r.Ok? && r.value.LitAt(s.e.id) == GetSpec(S, s.target).value.0 && r.value.LitAt(s.e.id).src == ForeignSrc
  {
    TargetRead(c, S, s);
    ReadKeepsOthers(S, s.target, s.e.id);
    hide Sited, Below, HasTag, Placed, Where;
    StoreReadMoves(GetSpec(S, s.target).value.1, GetSpec(S, s.target).value.0, s.e);
  }

  lemma StoreReadMoves(S: Specs, lhs: Spec, e: Expr)
    requires e.Lit? && S.LitAt(e.id).src == LocalSrc && Tells(lhs, OuterSite)
    ensures
      var r := StoreRead(S, lhs, S.LitAt(e.id), e);
      r.Ok? && r.value.LitAt(e.id) == lhs && lhs.src == ForeignSrc
  {
    SetAllocExact(S, e, lhs);
    assert e.id in LitIds(e);
  }

  lemma TargetRead(c: Case, S: Specs, s: Stmt)
    requires Sited(c) && Below(c, S, S) && s.Store? && StmtNode(s) in NodesB(c.f.body) && Told(S, s.target)
    ensures GetSpec(S, s.target).Ok? && Tells(GetSpec(S, s.target).value.0, Where(c, s.target))
  {
    assert NodeSited(c, StmtNode(s));
    OperandWithin(c, StmtNode(s), s.target);
    hide Sited, Below;
    ReadSited(c, S, S, s.target);
    ReadTold(c, S, s.target);
    if Free(c, s.target) {
      assert Where(c, s.target) == LocalSite;
    }
  }

  lemma ReturnLearns(c: Case, S: Specs, e: Expr)
    requires Sited(c) && Below(c, S, S) && Allocated(e) && Within(c, e) && ReturnSited(c, e)
    ensures VisitReturn(c.f.params, S, e).Ok? && Arrived(c, VisitReturn(c.f.params, S, e).value, e)
  {
    ReturnVisitSited(c, S, S, e);
    if e.Lit? && Free(c, e) {
      ImplicitTells(c, S, S, c.f.params);
      FreeLocal(c, S, S, e);
      hide Below;
      if S.LitAt(e.id) == LOCAL {
        MoveBelow(c, S, S, e, ImplicitSpec(S, c.f.params));
        assert e.id in LitIds(e);
      }
    }
  }

  lemma BindLearns(c: Case, S: Specs, s: Stmt)
    requires Sited(c) && Below(c, S, S) && (s.Declare? || s.ForIn?) && StmtNode(s) in NodesB(c.f.body) && Informed(c, S, StmtNode(s))
    ensures VisitStmt(c.f.params, S, s).Ok? && Learned(c, VisitStmt(c.f.params, S, s).value, StmtNode(s))
  {
    hide Below;
    assert NodeSited(c, StmtNode(s));
    OperandWithin(c, StmtNode(s), s.e);
    BindVisitSited(c, S, S, s);
    if (s.ForIn? && s.ty == CompositeTy) || (s.Declare? && Allocated(s.e)) {
      ReadTold(c, S, s.e);
    }
  }

  /** What is informed before a visit is learned after it. */
  lemma VisitLearns(c: Case, S: Specs, nd: Node)
    requires Sited(c) && Below(c, S, S) && nd in NodesB(c.f.body) && Informed(c, S, nd)
    ensures Visit(c.funcs, c.safe, c.f.params, S, nd).Ok? && Learned(c, Visit(c.funcs, c.safe, c.f.params, S, nd).value, nd)
  {
    hide Below;
    VisitSited(c, S, c.safe, S, nd);
    match nd
    case ExprNode(Call(_, _, _, _, _)) => CallLearns(c, S, nd.e);
    case ExprNode(Push(_, _)) => PushLearns(c, S, nd.e);
    case ExprNode(Pop(_, _, _)) => TakeLearns(c, S, nd.e);
    case ExprNode(Copy(_, _, _)) => TakeLearns(c, S, nd.e);
    case ExprNode(Lit(_, _, _)) => FillLearns(c, S, nd.e);
    case StmtNode(Declare(_, _)) => BindLearns(c, S, nd.s);
    case StmtNode(ForIn(_, _, _, _)) => BindLearns(c, S, nd.s);
    case StmtNode(Store(_, _, _)) => StoreLearns(c, S, nd.s);
    case StmtNode(Return(e)) =>
      assert NodeSited(c, nd);
      OperandWithin(c, nd, e);
      if Allocated(e) {
        ReturnLearns(c, S, e);
      }
    case _ =>
  }

  /** What a node depends on being known before a pass, the pass knows the node. */
  lemma {:induction false} PassLearns(c: Case, S: Specs, nodes: seq<Node>, nd: Node)
    requires Sited(c) && Below(c, S, S) && (forall m :: m in nodes ==> m in NodesB(c.f.body))
    requires nd in nodes && Informed(c, S, nd)
    ensures
      var r := Pass(c.funcs, c.safe, c.f.params, S, nodes);
      r.Ok? && Below(c, S, r.value) && Learned(c, r.value, nd)
    decreases nodes
  {
    hide Sited, Below, Informed, Learned;
    PassSited(c, S, c.safe, S, nodes);
    VisitSited(c, S, c.safe, S, nodes[0]);
    var T := Visit(c.funcs, c.safe, c.f.params, S, nodes[0]).value;
    NewFloor(c, S, T);
    PassSited(c, T, c.safe, T, nodes[1..]);
    if nd == nodes[0] {
      VisitLearns(c, S, nd);
      LearnedKept(c, T, Pass(c.funcs, c.safe, c.f.params, S, nodes).value, nd);
    } else {
      InformedKept(c, S, T, nd);
      PassLearns(c, T, nodes[1..], nd);
    }
  }
}
