/** Every pass over a function with a right siting succeeds. */
module RegionSitedPass {
  import opened RegionSyntax
  import opened RegionCheck
  import opened RegionSemantics
  import opened RegionAccepted
  import opened RegionPasses
  import opened RegionPlaces
  import opened RegionSteps
  import opened RegionStart
  import opened RegionSiting
  import opened RegionAcceptance
  import opened Collections
  import opened Results

  /** Arguments of the body, or the region added to them. */
  ghost predicate AllWithin(c: Case, es: seq<Expr>) {
    forall i :: 0 <= i < |es| ==> Within(c, es[i]) || es[i].LocalRegion?
  }

  // ----- arguments -----

  /** An argument that decides for others is put where it is. */
  lemma LeaderIsPut(c: Case, args: seq<Expr>, i: nat, site: Site)
    requires ArgsSited(c, args, site) && 0 < i < |args|
    ensures Placed(c, args[i]) && PutAt(c, args[i], site) && Fixed(c, args[i])
  {
  }

  lemma {:induction false} AlignSited(c: Case, R: Specs, S: Specs, args: seq<Expr>, req: Spec, site: Site)
    requires Sited(c) && Below(c, R, S) && AllWithin(c, args) && (SrcKnown(req) ==> Tells(req, site))
    requires forall i :: 0 <= i < |args| ==> Placed(c, args[i]) && PutAt(c, args[i], site)
    ensures AlignArgs(S, args, req).Ok? && Below(c, R, AlignArgs(S, args, req).value)
    decreases args
  {
    hide Sited, Below;
    if args != [] {
      ReadSited(c, R, S, args[0]);
      var (a, S1) := GetSpec(S, args[0]).value;
      if BothKnown(a, req) && args[0].Lit? {
        RetargetSited(c, R, S1, args[0], req, site);
        if CanRetarget(S1.LitAt(args[0].id), req) == Ok(true) {
          MoveBelow(c, R, S1, args[0], req);
          AlignSited(c, R, SetAlloc(S1, args[0], req), args[1..], req, site);
        } else {
          AlignSited(c, R, S1, args[1..], req, site);
        }
      } else {
        AlignSited(c, R, S1, args[1..], req, site);
      }
    }
  }

  lemma FirstSited(c: Case, R: Specs, S: Specs, args: seq<Expr>, req: Spec, site: Site)
    requires Sited(c) && Below(c, R, S) && AllWithin(c, args) && args != [] && ArgsSited(c, args, site)
    requires SrcKnown(req) ==> Tells(req, site)
    ensures RetargetFirst(S, args[0], req).Ok? && Below(c, R, RetargetFirst(S, args[0], req).value)
  {
    hide Sited, Below;
    if Complete(req) && args[0].Lit? {
      if Leads(args, 0) {
        assert Fixed(c, args[0]) && (Free(c, args[0]) ==> site == LocalSite);
        LitReadAs(c, R, S, args[0]);
      } else {
        RetargetSited(c, R, S, args[0], req, site);
        if CanRetarget(S.LitAt(args[0].id), req) == Ok(true) {
          MoveBelow(c, R, S, args[0], req);
        }
      }
    }
  }

  /** The argument whose region the others have to share is the one that decides. */
  lemma {:induction false} AnchorLeads(args: seq<Expr>) returns (i: nat)
    requires args != []
    ensures i < |args| && Leads(args, i) && args[i] == Anchor(args)
  {
    if forall j :: 0 <= j < |args| ==> args[j].Lit? {
      i := 0;
    } else {
      i := FirstOther(args);
    }
  }

  lemma {:induction false} FirstOther(args: seq<Expr>) returns (i: nat)
    requires exists j :: 0 <= j < |args| && !args[j].Lit?
    ensures i < |args| && !args[i].Lit? && (forall j :: 0 <= j < i ==> args[j].Lit?) && args[i] == FirstNonLiteral(args)
  {
    if !args[0].Lit? {
      i := 0;
    } else {
      var j :| 0 <= j < |args| && !args[j].Lit?;
      assert args[1..][j - 1] == args[j];
      i := FirstOther(args[1..]);
      i := i + 1;
    }
  }

  lemma AnchorSited(c: Case, R: Specs, S: Specs, args: seq<Expr>, site: Site)
    requires Sited(c) && Below(c, R, S) && AllWithin(c, args) && args != [] && ArgsSited(c, args, site)
    ensures
      var r := GetSpec(S, Anchor(args));
      r.Ok? && Below(c, R, r.value.1) && (SrcKnown(r.value.0) ==> Tells(r.value.0, site))
  {
    hide Sited, Below;
    var i := AnchorLeads(args);
    ReadSited(c, R, S, args[i]);
  }

  lemma SameRegionSited(c: Case, R: Specs, S: Specs, args: seq<Expr>, site: Site)
    requires Sited(c) && Below(c, R, S) && AllWithin(c, args) && args != [] && ArgsSited(c, args, site)
    ensures
      var r := SameRegion(S, args);
      r.Ok? && Below(c, R, r.value.1) && (SrcKnown(r.value.0) ==> Tells(r.value.0, site))
  {
    AnchorSited(c, R, S, args, site);
    var (req, S1) := GetSpec(S, Anchor(args)).value;
    FirstSited(c, R, S1, args, req, site);
    var S2 := RetargetFirst(S1, args[0], req).value;
    forall i | 0 <= i < |args[1..]|
      ensures Placed(c, args[1..][i]) && PutAt(c, args[1..][i], site) && (Within(c, args[1..][i]) || args[1..][i].LocalRegion?)
    {
      LeaderIsPut(c, args, i + 1, site);
    }
    AlignSited(c, R, S2, args[1..], req, site);
  }

  lemma {:induction false} JoinedIsAllocated(params: seq<Param>, args: seq<Expr>, i: nat)
    requires i <= |args|
    ensures Joined(params, args, i) == AllocatedArgs(if i <= |params| then params[i..] else [], args[i..])
    decreases |args| - i
  {
    if i < |args| {
      JoinedIsAllocated(params, args, i + 1);
      var rest := if i <= |params| then params[i..] else [];
      assert args[i..][1..] == args[i + 1..];
      assert (if rest == [] then [] else rest[1..]) == if i + 1 <= |params| then params[i + 1..] else [];
    }
  }

  lemma ComparedIsCallArgs(c: Case, e: Expr)
    requires e.Call?
    ensures Compared(c, e) == CallArgs(c.funcs, e)
  {
    JoinedIsAllocated(ParamsOf(c, e.fn), e.args, 0);
    assert e.args[0..] == e.args && ParamsOf(c, e.fn)[0..] == ParamsOf(c, e.fn);
  }

  lemma {:induction false} JoinedFrom(params: seq<Param>, args: seq<Expr>, i: nat)
    ensures forall a :: a in Joined(params, args, i) ==> a in args
    decreases |args| - i
  {
    if i < |args| {
      JoinedFrom(params, args, i + 1);
    }
  }

  lemma ComparedWithin(c: Case, e: Expr)
    requires e.Call? && Sited(c) && ExprNode(e) in NodesB(c.f.body)
    ensures AllWithin(c, Compared(c, e))
  {
    JoinedFrom(ParamsOf(c, e.fn), e.args, 0);
    forall i | 0 <= i < |Joined(ParamsOf(c, e.fn), e.args, 0)|
      ensures Within(c, Joined(ParamsOf(c, e.fn), e.args, 0)[i])
    {
      OperandWithin(c, ExprNode(e), Joined(ParamsOf(c, e.fn), e.args, 0)[i]);
    }
  }

  // ----- visits of calls -----

  lemma {:induction false} MarkSited(c: Case, R: Specs, S: Specs, params: seq<Param>, args: seq<Expr>)
    requires Sited(c) && Below(c, R, S)
    requires forall i :: 0 <= i < |args| && i < |params| && params[i].isForeign ==> ForeignSited(c, args[i])
    ensures Below(c, R, MarkForeign(S, params, args))
    decreases args
  {
    hide Sited;
    if args != [] && params != [] {
      var a := args[0];
      var S1 := if params[0].isForeign && a.Lit? && (a.lit.VecLit? || a.lit.DictLit?)
                   && S.LitAt(a.id).kind == LocalKind && S.LitAt(a.id).src == LocalSrc
                then S.SetLit(a.id, S.LitAt(a.id).(src := CrossSrc)) else S;
      if S1 != S {
        assert ForeignSited(c, a);
        MarkBelow(c, R, S, a);
      }
      forall i | 0 <= i < |args[1..]| && i < |params[1..]| && params[1..][i].isForeign
        ensures ForeignSited(c, args[1..][i])
      {
        assert ForeignSited(c, args[i + 1]);
      }
      MarkSited(c, R, S1, params[1..], args[1..]);
    }
  }

  /** A literal whose spec is the plain local one is one without suffix, not moved yet. */
  lemma MarkBelow(c: Case, R: Specs, S: Specs, a: Expr)
    requires Sited(c) && Below(c, R, S) && a.Lit? && (a.lit.VecLit? || a.lit.DictLit?) && ForeignSited(c, a)
    requires S.LitAt(a.id).kind == LocalKind && S.LitAt(a.id).src == LocalSrc
    ensures Below(c, R, S.SetLit(a.id, S.LitAt(a.id).(src := CrossSrc)))
  {
    var s := S.LitAt(a.id);
    assert LitBelow(c, a.id, s) && InitialLit(c.f, c.parsed.LitAt(a.id));
    assert LitBelow(c, a.id, s.(src := CrossSrc));
    assert Tells(s.(src := CrossSrc), c.at.lit(a.id)) && !c.at.given(a.id);
    LitWritten(c, R, S, a.id, s.(src := CrossSrc));
  }

  lemma LitWritten(c: Case, R: Specs, S: Specs, id: nat, s: Spec)
    requires Below(c, R, S) && LitBelow(c, id, s) && Tells(s, c.at.lit(id)) && !c.at.given(id)
    ensures Below(c, R, S.SetLit(id, s))
  {
    assert SrcKnown(s);
    hide LitBelow, Tells;
    var T := S.SetLit(id, s);
    assert forall i :: T.LitAt(i) == if i == id then s else S.LitAt(i);
    assert forall i :: T.CallAt(i) == S.CallAt(i);
    forall g | IsGiven(c, g) && T.LitAt(g.id) != c.parsed.LitAt(g.id)
      ensures AllThere(c, T, g)
    {
      assert AllThere(c, S, g);
    }
  }

  /** A call takes over what its place is told by. */
  lemma TakeBelow(c: Case, R: Specs, S: Specs, id: nat, s: Spec)
    requires Below(c, R, S) && (SrcKnown(s) ==> Tells(s, c.at.call(id)))
    ensures Below(c, R, TakeRead(S, id, s)) && (SrcKnown(s) ==> CallThere(c, TakeRead(S, id, s), id))
  {
    if Complete(s) {
      CallWritten(c, R, S, id, s);
    }
  }

  lemma CallWritten(c: Case, R: Specs, S: Specs, id: nat, s: Spec)
    requires Below(c, R, S) && CallBelow(c, id, s) && SrcKnown(s) && (Tells(s, c.at.call(id)) || !CallThere(c, S, id))
    ensures Below(c, R, S.SetCall(id, s))
  {
    hide LitBelow, Tells;
    var T := S.SetCall(id, s);
    assert forall i :: T.LitAt(i) == S.LitAt(i);
    assert forall i :: T.CallAt(i) == if i == id then s else S.CallAt(i);
    forall g | IsGiven(c, g) && T.LitAt(g.id) != c.parsed.LitAt(g.id)
      ensures AllThere(c, T, g)
    {
      assert AllThere(c, S, g);
    }
  }

  lemma BindBelow(c: Case, R: Specs, S: Specs, x: Name, s: Spec)
    requires Below(c, R, S) && x in c.at.name && (SrcKnown(s) ==> Tells(s, c.at.name[x]))
    ensures Below(c, R, BindRead(S, x, s))
  {
    if SrcKnown(s) {
      NameWritten(c, R, S, x, s);
    }
  }

  lemma NameWritten(c: Case, R: Specs, S: Specs, x: Name, s: Spec)
    requires Below(c, R, S) && x in c.at.name && Tells(s, c.at.name[x])
    ensures Below(c, R, S.SetName(x, s))
  {
    hide LitBelow;
    var T := S.SetName(x, s);
    assert forall i :: T.LitAt(i) == S.LitAt(i);
    assert forall i :: T.CallAt(i) == S.CallAt(i);
    forall g | IsGiven(c, g) && T.LitAt(g.id) != c.parsed.LitAt(g.id)
      ensures AllThere(c, T, g)
    {
      assert AllThere(c, S, g);
    }
  }

  lemma CallVisitSited(c: Case, R: Specs, safe: set<Name>, S: Specs, e: Expr)
    requires Sited(c) && Below(c, R, S) && c.safe <= safe && e.Call? && ExprNode(e) in NodesB(c.f.body)
    ensures VisitExpr(c.funcs, safe, S, e).Ok? && Below(c, R, VisitExpr(c.funcs, safe, S, e).value)
  {
    assert NodeSited(c, ExprNode(e));
    if SafeCall(c.funcs, safe, S, e) {
      if e.auto && S.CallAt(e.id).kind == UnknownKind {
        AutoSited(c, e);
        CallWritten(c, R, S, e.id, LOCAL);
      }
    } else {
      UnsafeVisitSited(c, R, safe, S, e);
    }
  }

  /** An automatic call that takes no literal's place is local. */
  lemma AutoSited(c: Case, e: Expr)
    requires Sited(c) && e.Call? && e.auto && ExprNode(e) in NodesB(c.f.body)
    ensures CallBelow(c, e.id, LOCAL)
  {
    assert NodeSited(c, ExprNode(e));
    if !c.at.handed(e.id) && !SafeFn(c, e.fn) {
      var args := Compared(c, e);
      var i := |args| - 1;
      assert args[i] == LocalRegion;
      assert if Leads(args, i) then Where(c, args[i]) == c.at.call(e.id) else PutAt(c, args[i], c.at.call(e.id));
    }
  }

  lemma UnsafeVisitSited(c: Case, R: Specs, safe: set<Name>, S: Specs, e: Expr)
    requires Sited(c) && Below(c, R, S) && c.safe <= safe && e.Call? && ExprNode(e) in NodesB(c.f.body)
    requires !SafeCall(c.funcs, safe, S, e)
    ensures VisitExpr(c.funcs, safe, S, e).Ok? && Below(c, R, VisitExpr(c.funcs, safe, S, e).value)
  {
    hide Below;
    assert NodeSited(c, ExprNode(e)) && !SafeFn(c, e.fn);
    var args := Compared(c, e);
    ComparedIsCallArgs(c, e);
    MarkSited(c, R, S, ParamsOf(c, e.fn), e.args);
    var S0 := MarkForeign(S, ParamsOf(c, e.fn), e.args);
    if args != [] {
      ComparedWithin(c, e);
      SameRegionSited(c, R, S0, args, c.at.call(e.id));
      var (req, S1) := SameRegion(S0, args).value;
      TakeBelow(c, R, S1, e.id, req);
    }
  }

  lemma PushVisitSited(c: Case, R: Specs, safe: set<Name>, S: Specs, e: Expr)
    requires Sited(c) && Below(c, R, S) && e.Push? && ExprNode(e) in NodesB(c.f.body)
    ensures VisitExpr(c.funcs, safe, S, e).Ok? && Below(c, R, VisitExpr(c.funcs, safe, S, e).value)
  {
    hide Below;
    assert NodeSited(c, ExprNode(e));
    if !SafeCall(c.funcs, safe, S, e) {
      var args := [e.vec, e.item];
      OperandWithin(c, ExprNode(e), e.vec);
      OperandWithin(c, ExprNode(e), e.item);
      SameRegionSited(c, R, S, args, if e.vec.Lit? && !e.item.Lit? then Where(c, e.item) else Where(c, e.vec));
    }
  }

  lemma TakeVisitSited(c: Case, R: Specs, safe: set<Name>, S: Specs, e: Expr)
    requires Sited(c) && Below(c, R, S) && (e.Pop? || e.Copy?) && ExprNode(e) in NodesB(c.f.body)
    ensures VisitExpr(c.funcs, safe, S, e).Ok? && Below(c, R, VisitExpr(c.funcs, safe, S, e).value)
  {
    hide Below;
    assert NodeSited(c, ExprNode(e));
    if e.Copy? && e.dest == [] {
      TakeBelow(c, R, S, e.id, LOCAL);
    } else {
      var x := if e.Pop? then e.vec else e.dest[0];
      OperandWithin(c, ExprNode(e), x);
      ReadSited(c, R, S, x);
      TakeBelow(c, R, GetSpec(S, x).value.1, e.id, GetSpec(S, x).value.0);
    }
  }

  /** A suffix takes the source of the name it gives. */
  lemma FillSited(c: Case, R: Specs, safe: set<Name>, S: Specs, e: Expr)
    requires Sited(c) && Below(c, R, S) && e.Lit? && ExprNode(e) in NodesB(c.f.body)
    ensures VisitExpr(c.funcs, safe, S, e).Ok? && Below(c, R, VisitExpr(c.funcs, safe, S, e).value)
  {
    hide Sited, Below, Tells;
    var own := S.LitAt(e.id);
    if (own.kind.NamedRegionKind? || own.kind.ContainerKind?) && SrcKnown(S.Named(own.region)) && !SrcKnown(own) {
      SuffixTells(c, R, S, e);
      WithinNode(c, e);
      MoveBelow(c, R, S, e, own.(src := S.Named(own.region).src));
    }
  }

  lemma SuffixTells(c: Case, R: Specs, S: Specs, e: Expr)
    requires Sited(c) && Below(c, R, S) && e.Lit? && ExprNode(e) in NodesB(c.f.body)
    requires var own := S.LitAt(e.id); HasSuffix(own) && SrcKnown(S.Named(own.region))
    ensures
      var own := S.LitAt(e.id);
      c.at.given(e.id) && Tells(own.(src := S.Named(own.region).src), c.at.lit(e.id))
  {
    var own := S.LitAt(e.id);
    assert NodeSited(c, ExprNode(e)) && LitBelow(c, e.id, own) && InitialLit(c.f, c.parsed.LitAt(e.id));
    assert own == c.parsed.LitAt(e.id);
    assert own.region in TableNames(c.f) && own.region in S.tab && NameBelow(c, own.region, S.tab[own.region]);
  }

  lemma WithinNode(c: Case, e: Expr)
    requires e.Lit? && ExprNode(e) in NodesB(c.f.body)
    ensures Within(c, e)
  {
    forall nd | nd in NodesEs(e.elems)
      ensures nd in NodesB(c.f.body)
    {
      var x := ElemOf(e.elems, nd);
      OperandWithin(c, ExprNode(e), x);
    }
  }

  lemma {:induction false} ElemOf(es: seq<Expr>, nd: Node) returns (x: Expr)
    requires nd in NodesEs(es)
    ensures x in es && nd in NodesE(x)
  {
    if nd in NodesE(es[0]) {
      x := es[0];
    } else {
      x := ElemOf(es[1..], nd);
    }
  }

  lemma ExprVisitSited(c: Case, R: Specs, safe: set<Name>, S: Specs, e: Expr)
    requires Sited(c) && Below(c, R, S) && c.safe <= safe && ExprNode(e) in NodesB(c.f.body)
    ensures VisitExpr(c.funcs, safe, S, e).Ok? && Below(c, R, VisitExpr(c.funcs, safe, S, e).value)
  {
    match e
    case Call(_, _, _, _, _) => CallVisitSited(c, R, safe, S, e);
    case Push(_, _) => PushVisitSited(c, R, safe, S, e);
    case Pop(_, _, _) => TakeVisitSited(c, R, safe, S, e);
    case Copy(_, _, _) => TakeVisitSited(c, R, safe, S, e);
    case Lit(_, _, _) => FillSited(c, R, safe, S, e);
    case _ =>
  }

  // ----- visits of statements -----

  lemma StoreVisitSited(c: Case, R: Specs, S: Specs, s: Stmt)
    requires Sited(c) && Below(c, R, S) && s.Store? && StmtNode(s) in NodesB(c.f.body)
    ensures VisitStore(S, s.target, s.e).Ok? && Below(c, R, VisitStore(S, s.target, s.e).value)
  {
    hide Below;
    assert NodeSited(c, StmtNode(s));
    OperandWithin(c, StmtNode(s), s.target);
    OperandWithin(c, StmtNode(s), s.e);
    ReadSited(c, R, S, s.target);
    var (lhs, S1) := GetSpec(S, s.target).value;
    if Allocated(s.e) {
      ReadSited(c, R, S1, s.e);
      var (rhs, S2) := GetSpec(S1, s.e).value;
      if s.e.Lit? && Complete(lhs) {
        RetargetSited(c, R, S2, s.e, lhs, Where(c, s.target));
        if CanRetarget(S2.LitAt(s.e.id), lhs) == Ok(true) {
          MoveBelow(c, R, S2, s.e, lhs);
        }
      }
    }
  }

  lemma ImplicitParam(c: Case, R: Specs, S: Specs, q: Param)
    requires Sited(c) && Below(c, R, S) && q in c.f.params && (q.ty == RegionTy || (q.ty == CompositeTy && !q.isForeign))
    ensures q.name in S.tab && Complete(S.tab[q.name]) && Tells(S.tab[q.name], OuterSite)
  {
    assert ParamsSited(c) && NamesBelow(c, R, S);
    assert NameBelow(c, q.name, S.tab[q.name]);
  }

  /** The implicit region is the place of the arguments. */
  lemma {:induction false} ImplicitTells(c: Case, R: Specs, S: Specs, params: seq<Param>)
    requires Sited(c) && Below(c, R, S) && forall q :: q in params ==> q in c.f.params
    ensures var s := ImplicitSpec(S, params); Complete(s) ==> Tells(s, OuterSite)
    ensures HasImplicit(params) ==> Complete(ImplicitSpec(S, params))
  {
    hide Sited, Below, Tells;
    if params != [] {
      var q := params[0];
      assert q in c.f.params;
      if q.ty == RegionTy || (q.ty == CompositeTy && !q.isForeign) {
        ImplicitParam(c, R, S, q);
      } else {
        ImplicitTells(c, R, S, params[1..]);
        if HasImplicit(params) {
          var r :| r in params && (r.ty == RegionTy || (r.ty == CompositeTy && !r.isForeign));
          assert r in params[1..];
        }
      }
    }
  }

  lemma ReturnVisitSited(c: Case, R: Specs, S: Specs, e: Expr)
    requires Sited(c) && Below(c, R, S) && Allocated(e) && Within(c, e) && ReturnSited(c, e)
    ensures VisitReturn(c.f.params, S, e).Ok? && Below(c, R, VisitReturn(c.f.params, S, e).value)
  {
    hide Below, Sited, Within;
    ReadSited(c, R, S, e);
    var (s, S1) := GetSpec(S, e).value;
    ImplicitTells(c, R, S1, c.f.params);
    ReturnReadSited(c, R, S1, e, s);
  }

  lemma ReturnReadSited(c: Case, R: Specs, S: Specs, e: Expr, s: Spec)
    requires Sited(c) && Below(c, R, S) && Within(c, e) && ReturnSited(c, e) && ReadAs(c, e, s)
    requires var implicit := ImplicitSpec(S, c.f.params); Complete(implicit) ==> Tells(implicit, OuterSite)
    requires HasImplicit(c.f.params) ==> Complete(ImplicitSpec(S, c.f.params))
    ensures var r := ReturnRead(S, ImplicitSpec(S, c.f.params), s, e); r.Ok? && Below(c, R, r.value)
  {
    hide Below, Sited, Within, Placed, ImplicitSpec, HasImplicit;
    var implicit := ImplicitSpec(S, c.f.params);
    if e.Lit? && s.src == LocalSrc && Complete(implicit) {
      assert Free(c, e);
      MoveBelow(c, R, S, e, implicit);
    }
  }

  lemma NamedTells(c: Case, R: Specs, S: Specs, x: Name)
    requires Below(c, R, S)
    ensures SrcKnown(S.Named(x)) ==> Tells(S.Named(x), NameSite(c, x))
  {
    if x in S.tab {
      assert NameBelow(c, x, S.tab[x]);
    }
  }

  lemma BindVisitSited(c: Case, R: Specs, S: Specs, s: Stmt)
    requires Sited(c) && Below(c, R, S) && (s.Declare? || s.Assign? || s.ForIn?) && StmtNode(s) in NodesB(c.f.body)
    ensures VisitStmt(c.f.params, S, s).Ok? && Below(c, R, VisitStmt(c.f.params, S, s).value)
  {
    hide Below;
    assert NodeSited(c, StmtNode(s));
    OperandWithin(c, StmtNode(s), s.e);
    if (s.ForIn? && s.ty == CompositeTy) || (!s.ForIn? && Allocated(s.e)) {
      ReadSited(c, R, S, s.e);
      var (v, S1) := GetSpec(S, s.e).value;
      if s.Assign? {
        NamedTells(c, R, S, s.x);
      } else {
        BindBelow(c, R, S1, s.x, v);
      }
    }
  }

  lemma StmtVisitSited(c: Case, R: Specs, S: Specs, s: Stmt)
    requires Sited(c) && Below(c, R, S) && StmtNode(s) in NodesB(c.f.body)
    ensures VisitStmt(c.f.params, S, s).Ok? && Below(c, R, VisitStmt(c.f.params, S, s).value)
  {
    match s
    case Declare(_, _) => BindVisitSited(c, R, S, s);
    case Assign(_, _) => BindVisitSited(c, R, S, s);
    case ForIn(_, _, _, _) => BindVisitSited(c, R, S, s);
    case Store(_, _, _) => StoreVisitSited(c, R, S, s);
    case Return(e) =>
      assert NodeSited(c, StmtNode(s));
      OperandWithin(c, StmtNode(s), e);
      if Allocated(e) {
        ReturnVisitSited(c, R, S, e);
      }
    case _ =>
  }

  // ----- passes -----

  lemma VisitSited(c: Case, R: Specs, safe: set<Name>, S: Specs, nd: Node)
    requires Sited(c) && Below(c, R, S) && c.safe <= safe && nd in NodesB(c.f.body)
    ensures Visit(c.funcs, safe, c.f.params, S, nd).Ok? && Below(c, R, Visit(c.funcs, safe, c.f.params, S, nd).value)
  {
    match nd
    case ExprNode(e) => ExprVisitSited(c, R, safe, S, e);
    case StmtNode(s) => StmtVisitSited(c, R, S, s);
  }

  lemma {:induction false} PassSited(c: Case, R: Specs, safe: set<Name>, S: Specs, nodes: seq<Node>)
    requires Sited(c) && Below(c, R, S) && c.safe <= safe && forall nd :: nd in nodes ==> nd in NodesB(c.f.body)
    ensures Pass(c.funcs, safe, c.f.params, S, nodes).Ok? && Below(c, R, Pass(c.funcs, safe, c.f.params, S, nodes).value)
    decreases nodes
  {
    hide Sited, Below;
    if nodes != [] {
      VisitSited(c, R, safe, S, nodes[0]);
      PassSited(c, R, safe, Visit(c.funcs, safe, c.f.params, S, nodes[0]).value, nodes[1..]);
    }
  }

  /** What the count reads has a place: a literal, a copy, a call, a name, or a ternary of composites. */
  lemma CountedRead(c: Case, R: Specs, S: Specs, e: Expr)
    requires Sited(c) && Below(c, R, S) && ExprNode(e) in NodesB(c.f.body) && HasAllocSpec(e)
    ensures GetSpec(S, e).Ok? && Below(c, R, GetSpec(S, e).value.1)
  {
    assert NodeSited(c, ExprNode(e));
    if e.Ternary? {
      TernaryWithin(c, e);
      ReadSited(c, R, S, e);
    }
  }

  lemma TernaryWithin(c: Case, e: Expr)
    requires e.Ternary? && ExprNode(e) in NodesB(c.f.body)
    ensures Within(c, e)
  {
    OperandWithin(c, ExprNode(e), e.cond);
    OperandWithin(c, ExprNode(e), e.thn);
    OperandWithin(c, ExprNode(e), e.els);
  }

  lemma {:induction false} CountSited(c: Case, R: Specs, S: Specs, nodes: seq<Node>)
    requires Sited(c) && Below(c, R, S) && forall nd :: nd in nodes ==> nd in NodesB(c.f.body)
    ensures Unknowns(S, nodes).Ok? && Below(c, R, Unknowns(S, nodes).value.1)
    decreases nodes
  {
    hide Sited, Below;
    if nodes != [] {
      if nodes[0].ExprNode? && HasAllocSpec(nodes[0].e) {
        CountedRead(c, R, S, nodes[0].e);
        CountSited(c, R, GetSpec(S, nodes[0].e).value.1, nodes[1..]);
      } else {
        CountSited(c, R, S, nodes[1..]);
      }
    }
  }

  /** What the parser wrote is below every right siting. */
  lemma ParsedBelow(c: Case)
    requires Sited(c)
    ensures Below(c, c.parsed, c.parsed)
  {
    ParsedNames(c);
    hide Sited;
    forall i
      ensures LitBelow(c, i, c.parsed.LitAt(i))
    {
      assert AtHome(c, Lit(NoneLit, i, []), c.parsed.LitAt(i));
    }
    assert forall i :: c.parsed.CallAt(i) == UNKNOWN;
  }

  lemma ParsedNames(c: Case)
    requires Sited(c)
    ensures NamesBelow(c, c.parsed, c.parsed) && c.parsed.call == map[]
  {
    InitialKept(c.f, c.parsed);
    forall x | x in c.parsed.tab
      ensures NameBelow(c, x, c.parsed.tab[x])
    {
      EntryIsParam(c.f.params, x);
    }
  }

  /** From any specs below the siting, what is known now can serve as the floor. */
  lemma NewFloor(c: Case, R: Specs, S: Specs)
    requires Below(c, R, S)
    ensures Below(c, S, S)
  {
  }
}
