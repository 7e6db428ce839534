/** What the passes must accept: on a function with a right siting no visit reports an error,
    and whatever a pass learns is what the siting says. */
module RegionAcceptance {
  import opened RegionSyntax
  import opened RegionCheck
  import opened RegionSemantics
  import opened RegionAccepted
  import opened RegionPasses
  import opened RegionPlaces
  import opened RegionSteps
  import opened RegionStart
  import opened RegionSiting
  import opened Collections
  import opened Results

  function SourceOf(site: Site): Source {
    match site
    case LocalSite => LocalSrc
    case OuterSite => ForeignSrc
    case GlobalSite => ForeignSrc
    case MixedSite => CrossSrc
  }

  /** The spec stands for the place. */
  predicate Tells(s: Spec, site: Site) {
    s.kind != UnknownKind && s.src == SourceOf(site) && (s.kind == GlobalKind <==> site == GlobalSite)
  }

  /** A literal that has only its parsed spec, with the source of its suffix filled in if it has one. */
  predicate AtHome(c: Case, e: Expr, s: Spec)
    requires e.Lit?
  {
    var parsed := c.parsed.LitAt(e.id);
    s == parsed || (HasSuffix(parsed) && s == parsed.(src := s.src) && Tells(s, Home(c, e)))
  }

  ghost predicate LitBelow(c: Case, i: nat, s: Spec) {
    var e := Lit(NoneLit, i, []);
    || AtHome(c, e, s)
    || (c.at.given(i) && Tells(s, c.at.lit(i)) && !(s.kind == LocalKind && s.src == LocalSrc))
    || (c.at.lit(i) == MixedSite && !c.at.given(i) && Free(c, e) && s == c.parsed.LitAt(i).(src := CrossSrc))
  }

  ghost predicate NameBelow(c: Case, x: Name, s: Spec) {
    SrcKnown(s) ==> Tells(s, NameSite(c, x))
  }

  ghost predicate CallBelow(c: Case, i: nat, s: Spec) {
    s == UNKNOWN || Tells(s, c.at.call(i)) || (c.at.handed(i) && Tells(s, LocalSite))
  }

  predicate ParamsKnown(params: seq<Param>, S: Specs) {
    forall q :: q in params && q.ty != PrimTy ==> q.name in S.tab && Complete(S.tab[q.name])
  }

  ghost predicate NamesBelow(c: Case, R: Specs, S: Specs) {
    && S.tab.Keys == c.at.name.Keys && ParamsKnown(c.f.params, S)
    && (forall x :: x in S.tab ==> NameBelow(c, x, S.tab[x]))
    && (forall x :: x in S.tab && x in R.tab && SrcKnown(R.tab[x]) ==> SrcKnown(S.tab[x]))
  }

  predicate LitThere(c: Case, S: Specs, i: nat) { Tells(S.LitAt(i), c.at.lit(i)) }

  predicate CallThere(c: Case, S: Specs, i: nat) { Tells(S.CallAt(i), c.at.call(i)) }

  ghost predicate LitsBelow(c: Case, R: Specs, S: Specs) {
    && (forall i :: LitBelow(c, i, S.LitAt(i)))
    && (forall i :: SrcKnown(R.LitAt(i)) ==> SrcKnown(S.LitAt(i)))
    && (forall i :: LitThere(c, R, i) ==> LitThere(c, S, i))
  }

  ghost predicate CallsBelow(c: Case, R: Specs, S: Specs) {
    && (forall i :: CallBelow(c, i, S.CallAt(i)))
    && (forall i :: SrcKnown(R.CallAt(i)) ==> SrcKnown(S.CallAt(i)))
    && (forall i :: CallThere(c, R, i) ==> CallThere(c, S, i))
  }

  /** Everything a spec given to g reaches is in its place. */
  ghost predicate AllThere(c: Case, S: Specs, g: Expr)
    requires g.Lit?
  {
    && (forall i :: i in LitIds(g) ==> LitThere(c, S, i))
    && (forall j :: j in ElemAutoIds(g.elems) ==> CallThere(c, S, j))
  }

  /** A literal that has been moved has taken along what it holds. */
  ghost predicate Spread(c: Case, S: Specs) {
    forall g :: IsGiven(c, g) ==> S.LitAt(g.id) == c.parsed.LitAt(g.id) || AllThere(c, S, g)
  }

  ghost predicate IsGiven(c: Case, g: Expr) {
    g.Lit? && ExprNode(g) in NodesB(c.f.body) && c.at.given(g.id)
  }

  /** What the specs S know is what the siting says; literals that have not been moved yet are
      at home; and what was known in R is known in S. */
  ghost predicate Below(c: Case, R: Specs, S: Specs) {
    NamesBelow(c, R, S) && LitsBelow(c, R, S) && CallsBelow(c, R, S) && Spread(c, S)
  }

  /** The nodes of e are nodes of the body. */
  ghost predicate Within(c: Case, e: Expr) {
    forall nd :: nd in NodesE(e) ==> nd in NodesB(c.f.body)
  }

  lemma OperandWithin(c: Case, nd: Node, e: Expr)
    requires nd in NodesB(c.f.body) && e in Operands(nd)
    ensures Within(c, e)
  {
    OperandIn(c.f.body, nd, e);
  }

  lemma PartWithin(c: Case, e: Expr, x: Expr)
    requires Within(c, e) && x in OperandsE(e)
    ensures Within(c, x)
  {
    OperandNodes(e, x);
  }

  // ----- handing down -----

  /** A given literal passes its place on to everything it reaches. */
  lemma {:induction false} GivenReaches(c: Case, e: Expr)
    requires Sited(c) && Within(c, e) && e.Lit? && c.at.given(e.id)
    ensures forall i :: i in LitIds(e) ==> c.at.given(i) && c.at.lit(i) == c.at.lit(e.id)
    ensures forall j :: j in ElemAutoIds(e.elems) ==> c.at.call(j) == c.at.lit(e.id)
    decreases e, 1
  {
    assert ExprNode(e) in NodesE(e) && NodeSited(c, ExprNode(e));
    forall x | x in e.elems
      ensures Within(c, x)
    {
      PartWithin(c, e, x);
    }
    GivenElems(c, e.elems, c.at.lit(e.id));
  }

  lemma {:induction false} GivenElems(c: Case, es: seq<Expr>, site: Site)
    requires Sited(c) && forall x :: x in es ==> Within(c, x)
    requires forall x :: x in es ==> (x.Lit? ==> c.at.given(x.id) && c.at.lit(x.id) == site) && (x.Call? && x.auto ==> c.at.call(x.id) == site)
    ensures forall i :: i in ElemLitIds(es) ==> c.at.given(i) && c.at.lit(i) == site
    ensures forall j :: j in ElemAutoIds(es) ==> c.at.call(j) == site
    decreases es, 0
  {
    if es != [] {
      assert es[0] in es;
      if es[0].Lit? {
        GivenReaches(c, es[0]);
      }
      GivenElems(c, es[1..], site);
    }
  }

  lemma {:induction false} IdsBelow(c: Case, es: seq<Expr>, g: Expr)
    requires Sited(c) && (forall x :: x in es ==> Within(c, x)) && IsGiven(c, g) && g.id in ElemLitIds(es)
    ensures LitIds(g) <= ElemLitIds(es) && ElemAutoIds(g.elems) <= ElemAutoIds(es)
    decreases es
  {
    var x := es[0];
    assert x in es;
    if x.Lit? && x.id == g.id {
      assert ExprNode(x) in NodesE(x);
      SameTagSameNode(NodesB(c.f.body), ExprNode(x), ExprNode(g));
    } else if x.Lit? && g.id in ElemLitIds(x.elems) {
      forall y | y in x.elems
        ensures Within(c, y)
      {
        PartWithin(c, x, y);
      }
      IdsBelow(c, x.elems, g);
    } else {
      IdsBelow(c, es[1..], g);
    }
  }

  /** What is reached by handing down hands down further. */
  lemma ReachedBelow(c: Case, e: Expr, g: Expr)
    requires Sited(c) && Within(c, e) && e.Lit? && IsGiven(c, g) && g.id in LitIds(e)
    ensures LitIds(g) <= LitIds(e) && ElemAutoIds(g.elems) <= ElemAutoIds(e.elems)
  {
    assert ExprNode(e) in NodesE(e);
    if g.id == e.id {
      SameTagSameNode(NodesB(c.f.body), ExprNode(e), ExprNode(g));
    } else {
      forall y | y in e.elems
        ensures Within(c, y)
      {
        PartWithin(c, e, y);
      }
      IdsBelow(c, e.elems, g);
    }
  }

  lemma MoveSpread(c: Case, S: Specs, e: Expr, s: Spec)
    requires Sited(c) && Spread(c, S) && Within(c, e) && e.Lit? && c.at.given(e.id) && Tells(s, c.at.lit(e.id))
    ensures Spread(c, SetAlloc(S, e, s))
  {
    GivenReaches(c, e);
    SetAllocExact(S, e, s);
    var T := SetAlloc(S, e, s);
    forall g | IsGiven(c, g) && T.LitAt(g.id) != c.parsed.LitAt(g.id)
      ensures AllThere(c, T, g)
    {
      hide Sited, Tells;
      if g.id in LitIds(e) {
        ReachedBelow(c, e, g);
      } else {
        assert AllThere(c, S, g);
      }
    }
  }

  /** A given literal may be moved to its place. */
  lemma MoveBelow(c: Case, R: Specs, S: Specs, e: Expr, s: Spec)
    requires Sited(c) && Below(c, R, S) && Within(c, e) && e.Lit? && c.at.given(e.id)
    requires Tells(s, c.at.lit(e.id)) && !(s.kind == LocalKind && s.src == LocalSrc)
    ensures Below(c, R, SetAlloc(S, e, s)) && AllThere(c, SetAlloc(S, e, s), e)
  {
    MoveSpread(c, S, e, s);
    GivenReaches(c, e);
    SetAllocExact(S, e, s);
    LitsWritten(c, R, S, SetAlloc(S, e, s), LitIds(e), ElemAutoIds(e.elems), s);
    CallsWritten(c, R, S, SetAlloc(S, e, s), LitIds(e), ElemAutoIds(e.elems), s);
  }

  lemma LitsWritten(c: Case, R: Specs, S: Specs, T: Specs, lits: set<nat>, calls: set<nat>, s: Spec)
    requires LitsBelow(c, R, S) && Written(S, T, lits, calls, s) && !(s.kind == LocalKind && s.src == LocalSrc)
    requires forall i :: i in lits ==> c.at.given(i) && Tells(s, c.at.lit(i))
    ensures LitsBelow(c, R, T) && forall i :: i in lits ==> LitThere(c, T, i)
  {
    hide AtHome;
  }

  lemma CallsWritten(c: Case, R: Specs, S: Specs, T: Specs, lits: set<nat>, calls: set<nat>, s: Spec)
    requires CallsBelow(c, R, S) && Written(S, T, lits, calls, s)
    requires forall j :: j in calls ==> Tells(s, c.at.call(j))
    ensures CallsBelow(c, R, T) && forall j :: j in calls ==> CallThere(c, T, j)
  {
  }

  // ----- reading -----

  /** What reading e may yield. */
  ghost predicate ReadAs(c: Case, e: Expr, s: Spec) {
    SrcKnown(s) ==> Tells(s, Where(c, e)) || (Free(c, e) && s.src == LocalSrc && Tells(s, LocalSite))
  }

  /** A literal with a suffix, where it is read, lives where the suffix says. */
  predicate Fixed(c: Case, e: Expr) {
    e.Lit? && !Free(c, e) ==> AtRest(c, e)
  }

  lemma HomeTells(c: Case, e: Expr, s: Spec)
    requires e.Lit? && InitialLit(c.f, c.parsed.LitAt(e.id)) && AtHome(c, e, s) && SrcKnown(s)
    ensures Tells(s, Home(c, e))
  {
  }

  lemma LitReadAs(c: Case, R: Specs, S: Specs, e: Expr)
    requires Sited(c) && Below(c, R, S) && e.Lit? && Fixed(c, e)
    ensures ReadAs(c, e, S.LitAt(e.id))
  {
    var s := S.LitAt(e.id);
    assert LitBelow(c, e.id, s) && InitialLit(c.f, c.parsed.LitAt(e.id));
    hide Sited, Below, Tells, InitialLit;
    if AtHome(c, Lit(NoneLit, e.id, []), s) && SrcKnown(s) {
      hide AtHome;
      HomeTells(c, Lit(NoneLit, e.id, []), s);
      TellsLocal(s);
    } else if s == c.parsed.LitAt(e.id).(src := CrossSrc) && Free(c, e) {
      MarkedTells(c, e, s);
    }
  }

  lemma TellsLocal(s: Spec)
    ensures Tells(s, LocalSite) ==> s.src == LocalSrc
  {
  }

  lemma MarkedTells(c: Case, e: Expr, s: Spec)
    requires e.Lit? && InitialLit(c.f, c.parsed.LitAt(e.id)) && Free(c, e) && s == c.parsed.LitAt(e.id).(src := CrossSrc)
    ensures Tells(s, MixedSite)
  {
  }

  ghost predicate HasTag(nodes: seq<Node>, t: Tag) {
    exists nd :: nd in nodes && NodeTag(nd) == t
  }

  lemma {:induction false} LitIdsAreTags(e: Expr)
    requires e.Lit?
    ensures forall i :: i in LitIds(e) ==> HasTag(NodesE(e), LitTag(i))
    decreases e, 1
  {
    assert NodeTag(ExprNode(e)) == LitTag(e.id);
    ElemIdsAreTags(e.elems);
    forall i | i in ElemLitIds(e.elems)
      ensures HasTag(NodesE(e), LitTag(i))
    {
      var nd :| nd in NodesEs(e.elems) && NodeTag(nd) == LitTag(i);
      assert nd in NodesE(e);
    }
  }

  lemma {:induction false} ElemIdsAreTags(es: seq<Expr>)
    ensures forall i :: i in ElemLitIds(es) ==> HasTag(NodesEs(es), LitTag(i))
    decreases es, 0
  {
    if es != [] {
      ElemIdsAreTags(es[1..]);
      forall i | i in ElemLitIds(es)
        ensures HasTag(NodesEs(es), LitTag(i))
      {
        if i in ElemLitIds(es[1..]) {
          var nd :| nd in NodesEs(es[1..]) && NodeTag(nd) == LitTag(i);
          assert nd in NodesEs(es);
        } else {
          LitIdsAreTags(es[0]);
          var nd :| nd in NodesE(es[0]) && NodeTag(nd) == LitTag(i);
          assert nd in NodesEs(es);
        }
      }
    }
  }

  /** Reading changes no literal but those of the expression. */
  lemma {:induction false} ReadKeepsOthers(S: Specs, e: Expr, i: nat)
    requires GetSpec(S, e).Ok? && !HasTag(NodesE(e), LitTag(i))
    ensures GetSpec(S, e).value.1.LitAt(i) == S.LitAt(i)
    decreases e
  {
    match e
    case Part(base, _, _) => TagOfPart(e, base, i); ReadKeepsOthers(S, base, i);
    case Lookup(base, _) => TagOfPart(e, base, i); ReadKeepsOthers(S, base, i);
    case Slice(base) => TagOfPart(e, base, i); ReadKeepsOthers(S, base, i);
    case Ternary(_, thn, els, _) =>
      TagOfPart(e, thn, i);
      TagOfPart(e, els, i);
      ReadKeepsOthers(S, thn, i);
      var (a, S1) := GetSpec(S, thn).value;
      ReadKeepsOthers(S1, els, i);
      var (b, S2) := GetSpec(S1, els).value;
      JoinKeepsOthers(S2, thn, els, a, b, i);
    case _ =>
  }

  lemma TagOfPart(e: Expr, x: Expr, i: nat)
    requires x in OperandsE(e) && !HasTag(NodesE(e), LitTag(i))
    ensures !HasTag(NodesE(x), LitTag(i))
  {
    OperandNodes(e, x);
  }

  lemma JoinKeepsOthers(S: Specs, thn: Expr, els: Expr, a: Spec, b: Spec, i: nat)
    requires Join(S, thn, els, a, b).Ok? && !HasTag(NodesE(thn), LitTag(i)) && !HasTag(NodesE(els), LitTag(i))
    ensures Join(S, thn, els, a, b).value.1.LitAt(i) == S.LitAt(i)
  {
    if Retargets(S, a, els, b) == Ok(true) {
      LitIdsAreTags(els);
      SetAllocExact(S, els, a);
    } else if Retargets(S, b, thn, a) == Ok(true) {
      LitIdsAreTags(thn);
      SetAllocExact(S, thn, b);
    }
  }

  // ----- every subtree has its own fields -----

  lemma TagsOfParts(a: seq<Node>, b: seq<Node>)
    requires OwnTags(a + b)
    ensures OwnTags(a) && OwnTags(b)
    ensures forall nd, m :: nd in a && m in b && NodeTag(nd) != NoTag ==> NodeTag(nd) != NodeTag(m)
  {
    var all := a + b;
    forall i, j | 0 <= i < j < |a| && NodeTag(a[i]) != NoTag
      ensures NodeTag(a[i]) != NodeTag(a[j])
    {
      assert all[i] == a[i] && all[j] == a[j];
    }
    forall i, j | 0 <= i < j < |b| && NodeTag(b[i]) != NoTag
      ensures NodeTag(b[i]) != NodeTag(b[j])
    {
      assert all[|a| + i] == b[i] && all[|a| + j] == b[j];
    }
    forall nd, m | nd in a && m in b && NodeTag(nd) != NoTag
      ensures NodeTag(nd) != NodeTag(m)
    {
      var i :| 0 <= i < |a| && a[i] == nd;
      var j :| 0 <= j < |b| && b[j] == m;
      assert all[i] == nd && all[|a| + j] == m;
    }
  }

  lemma {:induction false} TagsInBody(b: seq<Stmt>, e: Expr)
    requires OwnTags(NodesB(b)) && ExprNode(e) in NodesB(b)
    ensures OwnTags(NodesE(e))
    decreases b, 1
  {
    TagsOfParts(NodesS(b[0]), NodesB(b[1..]));
    if ExprNode(e) in NodesS(b[0]) {
      TagsInStmt(b[0], e);
    } else {
      TagsInBody(b[1..], e);
    }
  }

  lemma {:induction false} TagsInStmt(s: Stmt, e: Expr)
    requires OwnTags(NodesS(s)) && ExprNode(e) in NodesS(s)
    ensures OwnTags(NodesE(e))
    decreases s, 0
  {
    var head := [StmtNode(s)];
    match s
    case Declare(x, y) => TagsOfThree(head, NodesE(y), NodesE(Ident(x, TypeOf(y)))); if ExprNode(e) in NodesE(y) { TagsInExpr(y, e); }
    case Assign(x, y) => TagsOfThree(head, NodesE(y), NodesE(Ident(x, TypeOf(y)))); if ExprNode(e) in NodesE(y) { TagsInExpr(y, e); }
    case Store(target, _, y) =>
      TagsOfThree(head, NodesE(target), NodesE(y));
      if ExprNode(e) in NodesE(target) { TagsInExpr(target, e); } else { TagsInExpr(y, e); }
    case Do(y) => TagsOfParts(head, NodesE(y)); TagsInExpr(y, e);
    case Return(y) => TagsOfParts(head, NodesE(y)); TagsInExpr(y, e);
    case ReturnVoid =>
    case If(cond, thn, els) =>
      TagsOfIf(s);
      if ExprNode(e) in NodesE(cond) { TagsInExpr(cond, e); }
      else if ExprNode(e) in NodesB(thn) { TagsInBody(thn, e); }
      else { TagsInBody(els, e); }
    case While(cond, body) =>
      TagsOfThree(head, NodesE(cond), NodesB(body));
      if ExprNode(e) in NodesE(cond) { TagsInExpr(cond, e); } else { TagsInBody(body, e); }
    case ForIn(_, _, y, body) =>
      TagsOfThree(head, NodesE(y), NodesB(body));
      if ExprNode(e) in NodesE(y) { TagsInExpr(y, e); } else { TagsInBody(body, e); }
  }

  lemma TagsOfIf(s: Stmt)
    requires s.If? && OwnTags(NodesS(s))
    ensures OwnTags(NodesE(s.cond)) && OwnTags(NodesB(s.thn)) && OwnTags(NodesB(s.els))
  {
    var a, b, d := NodesE(s.cond), NodesB(s.thn), NodesB(s.els);
    assert NodesS(s) == [StmtNode(s)] + (a + (b + d));
    TagsOfParts([StmtNode(s)], a + (b + d));
    TagsOfParts(a, b + d);
    TagsOfParts(b, d);
  }

  lemma TagsOfThree(a: seq<Node>, b: seq<Node>, d: seq<Node>)
    requires OwnTags(a + (b + d)) || OwnTags(a + b + d)
    ensures OwnTags(a) && OwnTags(b) && OwnTags(d)
  {
    assert a + (b + d) == a + b + d;
    TagsOfParts(a, b + d);
    TagsOfParts(b, d);
  }

  lemma {:induction false} TagsInExpr(g: Expr, e: Expr)
    requires OwnTags(NodesE(g)) && ExprNode(e) in NodesE(g)
    ensures OwnTags(NodesE(e))
    decreases g, 1
  {
    var head := [ExprNode(g)];
    if e != g {
      match g
      case Lit(_, _, elems) => TagsOfParts(head, NodesEs(elems)); TagsInExprs(elems, e);
      case Call(_, _, args, _, _) => TagsOfParts(head, NodesEs(args)); TagsInExprs(args, e);
      case Push(vec, item) =>
        TagsOfThree(head, NodesE(vec), NodesE(item));
        if ExprNode(e) in NodesE(vec) { TagsInExpr(vec, e); } else { TagsInExpr(item, e); }
      case Pop(_, vec, _) => TagsOfParts(head, NodesE(vec)); TagsInExpr(vec, e);
      case Copy(_, of, dest) =>
        TagsOfThree(head, NodesE(of), NodesEs(dest));
        if ExprNode(e) in NodesE(of) { TagsInExpr(of, e); } else { TagsInExprs(dest, e); }
      case Part(base, _, _) => TagsOfParts(head, NodesE(base)); TagsInExpr(base, e);
      case Lookup(base, _) => TagsOfParts(head, NodesE(base)); TagsInExpr(base, e);
      case Slice(base) => TagsOfParts(head, NodesE(base)); TagsInExpr(base, e);
      case Ternary(cond, thn, els, _) =>
        TernaryTags(g);
        if ExprNode(e) in NodesE(cond) { TagsInExpr(cond, e); }
        else if ExprNode(e) in NodesE(thn) { TagsInExpr(thn, e); }
        else { TagsInExpr(els, e); }
      case _ =>
    }
  }

  lemma TernaryTags(g: Expr)
    requires g.Ternary? && OwnTags(NodesE(g))
    ensures OwnTags(NodesE(g.cond)) && OwnTags(NodesE(g.thn)) && OwnTags(NodesE(g.els))
    ensures g.thn.Lit? ==> !HasTag(NodesE(g.els), LitTag(g.thn.id))
  {
    var head, a, b, d := [ExprNode(g)], NodesE(g.cond), NodesE(g.thn), NodesE(g.els);
    assert NodesE(g) == head + (a + (b + d));
    TagsOfParts(head, a + (b + d));
    TagsOfParts(a, b + d);
    TagsOfParts(b, d);
    if g.thn.Lit? {
      assert ExprNode(g.thn) in b && NodeTag(ExprNode(g.thn)) == LitTag(g.thn.id);
    }
  }

  lemma {:induction false} TagsInExprs(es: seq<Expr>, e: Expr)
    requires OwnTags(NodesEs(es)) && ExprNode(e) in NodesEs(es)
    ensures OwnTags(NodesE(e))
    decreases es, 0
  {
    TagsOfParts(NodesE(es[0]), NodesEs(es[1..]));
    if ExprNode(e) in NodesE(es[0]) {
      TagsInExpr(es[0], e);
    } else {
      TagsInExprs(es[1..], e);
    }
  }

  // ----- reading on the way -----

  /** A local literal does not go to static storage, and moves only to the outer place. */
  lemma RetargetSited(c: Case, R: Specs, S: Specs, e: Expr, req: Spec, site: Site)
    requires Sited(c) && Below(c, R, S) && e.Lit? && Tells(req, site)
    requires PutAt(c, e, site)
    ensures CanRetarget(S.LitAt(e.id), req).Ok?
    ensures CanRetarget(S.LitAt(e.id), req) == Ok(true) ==> Free(c, e) && site == OuterSite && c.at.given(e.id)
  {
    hide Below, Sited, AtHome, LitBelow;
    LitReadAs(c, R, S, e);
  }

  /** What a ternary yields from what its branches were read as. */
  ghost predicate JoinFits(c: Case, R: Specs, S: Specs, e: Expr, a: Spec, b: Spec)
    requires e.Ternary?
  {
    var r := Join(S, e.thn, e.els, a, b);
    r.Ok? && Below(c, R, r.value.1) && (SrcKnown(r.value.0) ==> Tells(r.value.0, Where(c, e)))
  }

  ghost predicate BranchesReadAs(c: Case, S: Specs, e: Expr, a: Spec, b: Spec)
    requires e.Ternary?
  {
    && Within(c, e.thn) && Within(c, e.els) && BranchesSited(c, e.thn, e.els)
    && ReadAs(c, e.thn, a) && ReadAs(c, e.els, b)
    && (e.thn.Lit? ==> a == S.LitAt(e.thn.id)) && (e.els.Lit? ==> b == S.LitAt(e.els.id))
  }

  lemma JoinBothFree(c: Case, R: Specs, S: Specs, e: Expr, a: Spec, b: Spec)
    requires Sited(c) && Below(c, R, S) && e.Ternary? && BranchesReadAs(c, S, e, a, b) && Free(c, e.thn) && Free(c, e.els)
    ensures JoinFits(c, R, S, e, a, b)
  {
    hide Sited, Below, Within;
    assert Retargets(S, a, e.els, b) == Ok(false) && Retargets(S, b, e.thn, a) == Ok(false);
  }

  lemma JoinFreeThen(c: Case, R: Specs, S: Specs, e: Expr, a: Spec, b: Spec)
    requires Sited(c) && Below(c, R, S) && e.Ternary? && BranchesReadAs(c, S, e, a, b) && Free(c, e.thn) && !Free(c, e.els)
    ensures JoinFits(c, R, S, e, a, b)
  {
    hide Sited, Below, Within;
    var thn, els := e.thn, e.els;
    assert Retargets(S, a, els, b) == Ok(false);
    if Complete(b) && a.src == LocalSrc {
      RetargetSited(c, R, S, thn, b, Where(c, els));
      if CanRetarget(S.LitAt(thn.id), b) == Ok(true) {
        MoveBelow(c, R, S, thn, b);
      }
    }
  }

  lemma JoinFixedThen(c: Case, R: Specs, S: Specs, e: Expr, a: Spec, b: Spec)
    requires Sited(c) && Below(c, R, S) && e.Ternary? && BranchesReadAs(c, S, e, a, b) && !Free(c, e.thn)
    ensures JoinFits(c, R, S, e, a, b)
  {
    hide Sited, Below, Within;
    var thn, els := e.thn, e.els;
    if Complete(a) && els.Lit? && b.src == LocalSrc {
      RetargetSited(c, R, S, els, a, Where(c, thn));
      if CanRetarget(S.LitAt(els.id), a) == Ok(true) {
        MoveBelow(c, R, S, els, a);
      }
    }
  }

  /** What is read without looking further. */
  lemma LeafSited(c: Case, R: Specs, S: Specs, e: Expr)
    requires Sited(c) && Below(c, R, S) && Placed(c, e) && Fixed(c, e)
    requires !(e.Part? || e.Lookup? || e.Slice? || e.Ternary?)
    requires e.Pop? || e.Copy? ==> NodeSited(c, ExprNode(e))
    ensures GetSpec(S, e).Ok? && GetSpec(S, e).value.1 == S && ReadAs(c, e, GetSpec(S, e).value.0)
    ensures e.Lit? ==> GetSpec(S, e).value.0 == S.LitAt(e.id)
  {
    match e
    case Lit(_, _, _) => LitReadAs(c, R, S, e);
    case Ident(x, _) => assert x in S.tab ==> NameBelow(c, x, S.tab[x]);
    case RegionOf(x) => assert x in S.tab ==> NameBelow(c, x, S.tab[x]);
    case Call(id, _, _, _, _) => assert CallBelow(c, id, S.CallAt(id));
    case Pop(id, _, _) => assert CallBelow(c, id, S.CallAt(id));
    case Copy(id, _, _) => assert CallBelow(c, id, S.CallAt(id));
    case LocalRegion =>
  }

  /** The operand that a part, a lookup or a slice is read from. */
  lemma BaseSited(c: Case, e: Expr)
    requires Sited(c) && Within(c, e) && Placed(c, e) && (e.Part? || e.Lookup? || e.Slice?)
    ensures Within(c, e.base) && Placed(c, e.base) && Fixed(c, e.base)
  {
    assert ExprNode(e) in NodesE(e) && NodeSited(c, ExprNode(e));
    PartWithin(c, e, e.base);
  }

  lemma BranchesPlaced(c: Case, e: Expr)
    requires Sited(c) && Within(c, e) && Placed(c, e) && e.Ternary?
    ensures Within(c, e.thn) && Placed(c, e.thn) && Fixed(c, e.thn)
    ensures Within(c, e.els) && Placed(c, e.els) && Fixed(c, e.els)
    ensures BranchesSited(c, e.thn, e.els)
  {
    assert ExprNode(e) in NodesE(e) && NodeSited(c, ExprNode(e));
    PartWithin(c, e, e.thn);
    PartWithin(c, e, e.els);
  }

  lemma LeafNode(c: Case, e: Expr)
    requires Sited(c) && (Within(c, e) || e.LocalRegion?)
    ensures e.Pop? || e.Copy? ==> NodeSited(c, ExprNode(e))
  {
    assert ExprNode(e) in NodesE(e);
  }

  lemma {:induction false} ReadSited(c: Case, R: Specs, S: Specs, e: Expr)
    requires Sited(c) && Below(c, R, S) && (Within(c, e) || e.LocalRegion?) && Placed(c, e) && Fixed(c, e)
    ensures
      var r := GetSpec(S, e);
      r.Ok? && Below(c, R, r.value.1) && ReadAs(c, e, r.value.0) && (e.Lit? ==> r.value == (S.LitAt(e.id), S))
    decreases e, 1
  {
    hide Below, Sited, Within, AtRest, ReadAs, Fixed, Placed;
    if e.Part? || e.Lookup? || e.Slice? {
      BaseSited(c, e);
      ReadSited(c, R, S, e.base);
      BaseRead(c, e, GetSpec(S, e.base).value.0);
    } else if e.Ternary? {
      ReadTernary(c, R, S, e);
    } else {
      LeafNode(c, e);
      LeafSited(c, R, S, e);
    }
  }

  lemma {:induction false} ReadTernary(c: Case, R: Specs, S: Specs, e: Expr)
    requires Sited(c) && Below(c, R, S) && Within(c, e) && Placed(c, e) && e.Ternary?
    ensures GetSpec(S, e).Ok? && Below(c, R, GetSpec(S, e).value.1) && ReadAs(c, e, GetSpec(S, e).value.0)
    decreases e, 0
  {
    hide Below, Sited, Within, BranchesSited, BranchesReadAs, ReadAs, Fixed, Placed, Join;
    BranchesPlaced(c, e);
    ReadSited(c, R, S, e.thn);
    var (a, S1) := GetSpec(S, e.thn).value;
    ReadSited(c, R, S1, e.els);
    var (b, S2) := GetSpec(S1, e.els).value;
    TernaryRead(c, R, S1, S2, e, a, b);
  }

  /** A part is read as its whole: a literal in between is at rest. */
  lemma BaseRead(c: Case, e: Expr, s: Spec)
    requires Sited(c) && Within(c, e) && (e.Part? || e.Lookup? || e.Slice?) && ReadAs(c, e.base, s)
    ensures ReadAs(c, e, s)
  {
    assert ExprNode(e) in NodesE(e) && NodeSited(c, ExprNode(e));
  }

  lemma TernaryRead(c: Case, R: Specs, S1: Specs, S2: Specs, e: Expr, a: Spec, b: Spec)
    requires Sited(c) && Below(c, R, S2) && e.Ternary? && Within(c, e) && BranchesSited(c, e.thn, e.els)
    requires ReadAs(c, e.thn, a) && ReadAs(c, e.els, b) && GetSpec(S1, e.els) == Ok((b, S2))
    requires (e.thn.Lit? ==> a == S1.LitAt(e.thn.id)) && (e.els.Lit? ==> b == S2.LitAt(e.els.id))
    ensures JoinFits(c, R, S2, e, a, b) && BranchesReadAs(c, S2, e, a, b) && ReadAs(c, e, Join(S2, e.thn, e.els, a, b).value.0)
  {
    hide Below;
    PartWithin(c, e, e.thn);
    PartWithin(c, e, e.els);
    assert ExprNode(e) in NodesE(e);
    TagsInBody(c.f.body, e);
    TernaryTags(e);
    if e.thn.Lit? {
      ReadKeepsOthers(S1, e.els, e.thn.id);
    }
    if Free(c, e.thn) && Free(c, e.els) {
      JoinBothFree(c, R, S2, e, a, b);
    } else if Free(c, e.thn) {
      JoinFreeThen(c, R, S2, e, a, b);
    } else {
      JoinFixedThen(c, R, S2, e, a, b);
    }
  }
}
