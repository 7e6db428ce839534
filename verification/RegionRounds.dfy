/** The driver on programs whose functions all have a right siting: no pass reports an error,
    everything is known after as many rounds as the order of inference has steps, and what
    has settled is accepted. */
module RegionRounds {
  import opened RegionSyntax
  import opened RegionCheck
  import opened RegionSemantics
  import opened RegionAccepted
  import opened RegionPasses
  import opened RegionPlaces
  import opened RegionStart
  import opened RegionSiting
  import opened RegionAcceptance
  import opened RegionSitedPass
  import opened RegionLearning
  import opened RegionInferred
  import opened Collections
  import opened Machine
  import opened Results

  // ----- an order of inference -----

  /** When each name, literal and call can be known at the latest. */
  datatype Times = Times(name: Name -> nat, lit: nat -> nat, call: nat -> nat)

  function Later(a: nat, b: nat): nat { if a > b then a else b }

  function Time(c: Case, t: Times, e: Expr): nat {
    match e
    case Prim => 0
    case Push(_, _) => 0
    case Ident(x, _) => if x in c.at.name then t.name(x) else 0
    case Lit(_, id, _) => t.lit(id)
    case Call(id, _, _, _, _) => t.call(id)
    case Pop(id, _, _) => t.call(id)
    case Copy(id, _, _) => t.call(id)
    case LocalRegion => 0
    case RegionOf(x) => if x in c.at.name then t.name(x) else 0
    case Part(base, _, _) => Time(c, t, base)
    case Lookup(base, _) => Time(c, t, base)
    case Slice(base) => Time(c, t, base)
    case Ternary(_, thn, els, _) => Later(Time(c, t, thn), Time(c, t, els))
  }

  ghost predicate LeaderBefore(c: Case, t: Times, args: seq<Expr>, limit: nat) {
    args != [] && forall i :: 0 <= i < |args| && Leads(args, i) ==> Time(c, t, args[i]) < limit
  }

  /** What nd binds or yields depends on earlier things only, and does depend on some. */
  ghost predicate OnTime(c: Case, t: Times, nd: Node) {
    match nd
    case StmtNode(Declare(x, e)) => Allocated(e) ==> Time(c, t, e) < t.name(x)
    case StmtNode(ForIn(x, ty, e, _)) => ty == CompositeTy ==> Time(c, t, e) < t.name(x)
    case ExprNode(Call(id, fn, _, auto, ty)) =>
      ty == CompositeTy ==> if SafeFn(c, fn) then auto else LeaderBefore(c, t, Compared(c, nd.e), t.call(id))
    case ExprNode(Pop(id, vec, ty)) => ty == CompositeTy ==> Time(c, t, vec) < t.call(id)
    case ExprNode(Copy(id, _, dest)) => dest != [] ==> Time(c, t, dest[0]) < t.call(id)
    case ExprNode(Lit(_, id, _)) =>
      var parsed := c.parsed.LitAt(id);
      if Suffixed(c, nd.e) then (parsed.region in c.at.name ==> t.name(parsed.region) < t.lit(id)) else SrcKnown(parsed)
    case _ => true
  }

  ghost predicate Ordered(c: Case, t: Times) {
    forall nd :: nd in NodesB(c.f.body) ==> OnTime(c, t, nd)
  }

  /** Everything with a time below k is known. */
  ghost predicate NodeKnown(c: Case, t: Times, S: Specs, k: nat, nd: Node) {
    match nd
    case ExprNode(Call(id, _, _, _, ty)) => ty == CompositeTy && t.call(id) < k ==> SrcKnown(S.CallAt(id))
    case ExprNode(Pop(id, _, ty)) => ty == CompositeTy && t.call(id) < k ==> SrcKnown(S.CallAt(id))
    case ExprNode(Copy(id, _, _)) => t.call(id) < k ==> SrcKnown(S.CallAt(id))
    case ExprNode(Lit(_, id, _)) => t.lit(id) < k ==> SrcKnown(S.LitAt(id))
    case _ => true
  }

  ghost predicate KnownBy(c: Case, t: Times, S: Specs, k: nat) {
    && (forall x :: x in S.tab && t.name(x) < k ==> SrcKnown(S.tab[x]))
    && (forall nd :: nd in NodesB(c.f.body) ==> NodeKnown(c, t, S, k, nd))
  }

  lemma {:induction false} TimeTold(c: Case, t: Times, S: Specs, k: nat, e: Expr)
    requires Sited(c) && Below(c, S, S) && KnownBy(c, t, S, k) && (Within(c, e) || e.LocalRegion?) && Placed(c, e) && Time(c, t, e) < k
    ensures Told(S, e)
    decreases e
  {
    assert ExprNode(e) in NodesE(e) && (Within(c, e) ==> NodeKnown(c, t, S, k, ExprNode(e)));
    hide KnownBy;
    match e
    case Ident(x, _) => NamedBy(c, t, S, k, x);
    case RegionOf(x) => NamedBy(c, t, S, k, x);
    case Part(base, _, _) => PartWithin(c, e, base); TimeTold(c, t, S, k, base);
    case Lookup(base, _) => PartWithin(c, e, base); TimeTold(c, t, S, k, base);
    case Slice(base) => PartWithin(c, e, base); TimeTold(c, t, S, k, base);
    case Ternary(_, thn, els, _) =>
      PartWithin(c, e, thn);
      PartWithin(c, e, els);
      TimeTold(c, t, S, k, thn);
      TimeTold(c, t, S, k, els);
    case _ =>
  }

  lemma NamedBy(c: Case, t: Times, S: Specs, k: nat, x: Name)
    requires Below(c, S, S) && KnownBy(c, t, S, k) && (x in c.at.name ==> t.name(x) < k)
    ensures SrcKnown(S.Named(x))
  {
  }

  /** The time at which nd has to be known. */
  function Due(t: Times, nd: Node): nat {
    match nd
    case StmtNode(Declare(x, _)) => t.name(x)
    case StmtNode(ForIn(x, _, _, _)) => t.name(x)
    case ExprNode(Call(id, _, _, _, _)) => t.call(id)
    case ExprNode(Pop(id, _, _)) => t.call(id)
    case ExprNode(Copy(id, _, _)) => t.call(id)
    case ExprNode(Lit(_, id, _)) => t.lit(id)
    case _ => 0
  }

  predicate Yields(c: Case, nd: Node) {
    match nd
    case StmtNode(Declare(_, e)) => Allocated(e)
    case StmtNode(ForIn(_, ty, _, _)) => ty == CompositeTy
    case ExprNode(Call(_, _, _, _, ty)) => ty == CompositeTy
    case ExprNode(Pop(_, _, ty)) => ty == CompositeTy
    case ExprNode(Copy(_, _, _)) => true
    case ExprNode(Lit(_, _, _)) => true
    case _ => false
  }

  /** What nd binds or yields is known. */
  predicate Present(S: Specs, nd: Node) {
    match nd
    case StmtNode(Declare(x, _)) => SrcKnown(S.Named(x))
    case StmtNode(ForIn(x, _, _, _)) => SrcKnown(S.Named(x))
    case ExprNode(Call(id, _, _, _, _)) => SrcKnown(S.CallAt(id))
    case ExprNode(Pop(id, _, _)) => SrcKnown(S.CallAt(id))
    case ExprNode(Copy(id, _, _)) => SrcKnown(S.CallAt(id))
    case ExprNode(Lit(_, id, _)) => SrcKnown(S.LitAt(id))
    case _ => true
  }

  predicate Open(c: Case, S: Specs, nd: Node) { Yields(c, nd) && !Present(S, nd) }

  lemma DueInformed(c: Case, t: Times, S: Specs, k: nat, nd: Node)
    requires Sited(c) && Ordered(c, t) && Below(c, S, S) && KnownBy(c, t, S, k)
    requires nd in NodesB(c.f.body) && Yields(c, nd) && Due(t, nd) <= k
    ensures Informed(c, S, nd)
  {
    assert NodeSited(c, nd) && OnTime(c, t, nd);
    hide Sited, Ordered, Below, KnownBy;
    match nd
    case StmtNode(Declare(_, e)) => OperandWithin(c, nd, e); TimeTold(c, t, S, k, e);
    case StmtNode(ForIn(_, _, e, _)) => OperandWithin(c, nd, e); TimeTold(c, t, S, k, e);
    case ExprNode(Call(_, fn, _, _, _)) => if !SafeFn(c, fn) { DueLeader(c, t, S, k, nd.e); }
    case ExprNode(Pop(_, vec, _)) => OperandWithin(c, nd, vec); TimeTold(c, t, S, k, vec);
    case ExprNode(Copy(_, _, dest)) => if dest != [] { OperandWithin(c, nd, dest[0]); TimeTold(c, t, S, k, dest[0]); }
    case ExprNode(Lit(_, id, _)) => if Suffixed(c, nd.e) { NamedBy(c, t, S, k, c.parsed.LitAt(id).region); }
  }

  lemma DueLeader(c: Case, t: Times, S: Specs, k: nat, e: Expr)
    requires Sited(c) && Below(c, S, S) && KnownBy(c, t, S, k) && e.Call? && ExprNode(e) in NodesB(c.f.body) && CallSited(c, e)
    requires !SafeFn(c, e.fn) && LeaderBefore(c, t, Compared(c, e), t.call(e.id)) && t.call(e.id) <= k
    ensures LeaderTold(S, Compared(c, e))
  {
    var args := Compared(c, e);
    ComparedWithin(c, e);
    hide Sited, Below, KnownBy;
    forall i | 0 <= i < |args| && Leads(args, i)
      ensures Told(S, args[i])
    {
      TimeTold(c, t, S, k, args[i]);
    }
  }

  // ----- every round learns something that is counted -----

  /** Every value that is bound or yielded is counted while it is unknown: loop variables are
      mentioned, and no composite is taken from a vector. */
  ghost predicate Counted(c: Case) {
    forall nd :: nd in NodesB(c.f.body) ==> CountedNode(c, nd)
  }

  ghost predicate CountedNode(c: Case, nd: Node) {
    match nd
    case ExprNode(Pop(_, _, ty)) => ty != CompositeTy
    case StmtNode(ForIn(x, ty, _, _)) => ty == CompositeTy ==> ExprNode(Ident(x, CompositeTy)) in NodesB(c.f.body)
    case _ => true
  }

  predicate IsCounted(nd: Node) { nd.ExprNode? && HasAllocSpec(nd.e) }

  /** The counted node that is told once nd is present. */
  function Mention(nd: Node): Node {
    match nd
    case StmtNode(Declare(x, _)) => ExprNode(Ident(x, CompositeTy))
    case StmtNode(ForIn(x, _, _, _)) => ExprNode(Ident(x, CompositeTy))
    case _ => nd
  }

  lemma {:induction false} DeclareMentions(b: seq<Stmt>, s: Stmt)
    requires s.Declare? && StmtNode(s) in NodesB(b)
    ensures ExprNode(Ident(s.x, TypeOf(s.e))) in NodesB(b)
    decreases b, 1
  {
    if StmtNode(s) in NodesS(b[0]) {
      DeclareMentionsIn(b[0], s);
    } else {
      DeclareMentions(b[1..], s);
    }
  }

  lemma {:induction false} DeclareMentionsIn(st: Stmt, s: Stmt)
    requires s.Declare? && StmtNode(s) in NodesS(st)
    ensures ExprNode(Ident(s.x, TypeOf(s.e))) in NodesS(st)
    decreases st, 0
  {
    match st
    case Declare(x, e) =>
      NoStatements(e);
      NoStatements(Ident(x, TypeOf(e)));
      assert ExprNode(Ident(x, TypeOf(e))) in NodesE(Ident(x, TypeOf(e)));
    case Assign(x, e) => NoStatements(e); NoStatements(Ident(x, TypeOf(e)));
    case Store(target, _, e) => NoStatements(target); NoStatements(e);
    case Do(e) => NoStatements(e);
    case Return(e) => NoStatements(e);
    case ReturnVoid =>
    case If(cond, thn, els) =>
      NoStatements(cond);
      if StmtNode(s) in NodesB(thn) { DeclareMentions(thn, s); } else { DeclareMentions(els, s); }
    case While(cond, body) => NoStatements(cond); DeclareMentions(body, s);
    case ForIn(_, _, e, body) => NoStatements(e); DeclareMentions(body, s);
  }

  /** Unknown values are counted. */
  lemma OpenIsCounted(c: Case, S: Specs, nd: Node)
    requires Counted(c) && nd in NodesB(c.f.body) && Yields(c, nd)
    ensures Mention(nd) in NodesB(c.f.body) && IsCounted(Mention(nd)) && (Told(S, Mention(nd).e) <==> Present(S, nd))
  {
    assert CountedNode(c, nd);
    match nd
    case StmtNode(Declare(_, _)) => DeclareMentions(c.f.body, nd.s);
    case _ =>
  }

  /** What is not told depends on an unknown value. */
  lemma {:induction false} UntoldIsOpen(c: Case, S: Specs, e: Expr) returns (nd: Node)
    requires Sited(c) && Below(c, S, S) && (Within(c, e) || e.LocalRegion?) && Placed(c, e) && !Told(S, e)
    ensures nd in NodesB(c.f.body) && Open(c, S, nd)
    decreases e
  {
    assert ExprNode(e) in NodesE(e);
    hide Sited, Below;
    match e
    case Ident(x, _) => nd := NameOpen(c, S, x);
    case RegionOf(x) => nd := NameOpen(c, S, x);
    case Part(base, _, _) => PartWithin(c, e, base); nd := UntoldIsOpen(c, S, base);
    case Lookup(base, _) => PartWithin(c, e, base); nd := UntoldIsOpen(c, S, base);
    case Slice(base) => PartWithin(c, e, base); nd := UntoldIsOpen(c, S, base);
    case Ternary(_, thn, els, _) =>
      PartWithin(c, e, thn);
      PartWithin(c, e, els);
      if !Told(S, thn) { nd := UntoldIsOpen(c, S, thn); } else { nd := UntoldIsOpen(c, S, els); }
    case _ => nd := ExprNode(e);
  }

  lemma UndeclaredKnown(c: Case, S: Specs, x: Name)
    requires Sited(c) && Below(c, S, S)
    ensures x !in DeclaredB(c.f.body) ==> SrcKnown(S.Named(x))
  {
    if x in S.tab && x !in DeclaredB(c.f.body) {
      assert x in TableNames(c.f) && NamesBelow(c, S, S);
      var q :| q in c.f.params && q.ty != PrimTy && q.name == x;
      assert Complete(S.tab[x]);
    }
  }

  lemma NameOpen(c: Case, S: Specs, x: Name) returns (nd: Node)
    requires Sited(c) && Below(c, S, S) && !SrcKnown(S.Named(x))
    ensures nd in NodesB(c.f.body) && Open(c, S, nd) && Binds(nd, x)
  {
    UndeclaredKnown(c, S, x);
    DeclaredIsBound(c.f.body, x);
    nd :| nd in NodesB(c.f.body) && Binds(nd, x);
    assert NodeSited(c, nd);
  }

  /** Among the unknown values there is one that is due first. */
  lemma {:induction false} FirstDue(c: Case, t: Times, S: Specs, nodes: seq<Node>, nd: Node) returns (m: Node)
    requires nd in nodes && Open(c, S, nd)
    ensures m in nodes && Open(c, S, m) && forall n :: n in nodes && Open(c, S, n) ==> Due(t, m) <= Due(t, n)
    decreases nodes
  {
    var rest := nodes[1..];
    if exists n :: n in rest && Open(c, S, n) {
      var n :| n in rest && Open(c, S, n);
      m := FirstDue(c, t, S, rest, n);
      if Open(c, S, nodes[0]) && Due(t, nodes[0]) < Due(t, m) {
        m := nodes[0];
      }
    } else {
      m := nodes[0];
    }
  }

  lemma NameDue(c: Case, t: Times, S: Specs, x: Name, k: nat)
    requires Sited(c) && Below(c, S, S) && !SrcKnown(S.Named(x))
    requires forall n :: n in NodesB(c.f.body) && Open(c, S, n) ==> k <= Due(t, n)
    ensures k <= t.name(x)
  {
    var nd := NameOpen(c, S, x);
  }

  /** When nothing due before m is unknown, everything due before m is known. */
  lemma FirstIsInformed(c: Case, t: Times, S: Specs, m: Node)
    requires Sited(c) && Ordered(c, t) && Below(c, S, S) && m in NodesB(c.f.body) && Open(c, S, m)
    requires forall n :: n in NodesB(c.f.body) && Open(c, S, n) ==> Due(t, m) <= Due(t, n)
    ensures Informed(c, S, m)
  {
    var k := Due(t, m);
    forall nd | nd in NodesB(c.f.body)
      ensures NodeKnown(c, t, S, k, nd)
    {
      if Open(c, S, nd) {
        assert k <= Due(t, nd);
      }
    }
    forall x | x in S.tab && t.name(x) < k
      ensures SrcKnown(S.tab[x])
    {
      if !SrcKnown(S.tab[x]) {
        NameDue(c, t, S, x, k);
      }
    }
    DueInformed(c, t, S, k, m);
  }

  /** How many counted nodes are not told. */
  function Missing(S: Specs, nodes: seq<Node>): nat {
    if nodes == [] then 0
    else (if IsCounted(nodes[0]) && !Told(S, nodes[0].e) then 1 else 0) + Missing(S, nodes[1..])
  }

  lemma {:induction false} MissingFalls(c: Case, S: Specs, T: Specs, nodes: seq<Node>)
    requires Below(c, S, S) && Below(c, S, T)
    ensures Missing(T, nodes) <= Missing(S, nodes)
    ensures (exists nd :: nd in nodes && IsCounted(nd) && !Told(S, nd.e) && Told(T, nd.e)) ==> Missing(T, nodes) < Missing(S, nodes)
    decreases nodes
  {
    if nodes != [] {
      MissingFalls(c, S, T, nodes[1..]);
      if IsCounted(nodes[0]) && Told(S, nodes[0].e) {
        ToldKept(c, S, T, nodes[0].e);
      }
    }
  }

  /** What is counted has a place, unless it takes that of a literal. */
  predicate CountPlaced(c: Case, e: Expr) { Placed(c, e) || (e.Call? && Allocated(e)) }

  lemma CountedPlaced(c: Case, e: Expr)
    requires Sited(c) && ExprNode(e) in NodesB(c.f.body) && HasAllocSpec(e)
    ensures CountPlaced(c, e) && (e.Ternary? ==> Within(c, e) && Placed(c, e))
  {
    assert NodeSited(c, ExprNode(e));
    if e.Ternary? {
      TernaryWithin(c, e);
    }
  }

  /** What is read as known has been told. */
  lemma {:induction false} KnownTold(c: Case, S: Specs, e: Expr)
    requires Sited(c) && Below(c, S, S) && (Within(c, e) || e.LocalRegion?) && Placed(c, e) && Fixed(c, e)
    requires GetSpec(S, e).Ok? && SrcKnown(GetSpec(S, e).value.0)
    ensures Told(GetSpec(S, e).value.1, e)
    decreases e, 1
  {
    hide Sited, Below, Within, Placed, Fixed;
    if e.Part? || e.Lookup? || e.Slice? {
      BaseSited(c, e);
      ReadSited(c, S, S, e.base);
      KnownTold(c, S, e.base);
    } else if e.Ternary? {
      TernaryKnown(c, S, e);
    }
  }

  lemma JoinKnown(S: Specs, thn: Expr, els: Expr, a: Spec, b: Spec)
    requires Join(S, thn, els, a, b).Ok? && SrcKnown(Join(S, thn, els, a, b).value.0)
    ensures SrcKnown(a) && SrcKnown(b)
  {
  }

  lemma {:induction false} TernaryKnown(c: Case, S: Specs, e: Expr)
    requires Sited(c) && Below(c, S, S) && Within(c, e) && Placed(c, e) && e.Ternary?
    requires GetSpec(S, e).Ok? && SrcKnown(GetSpec(S, e).value.0)
    ensures Told(GetSpec(S, e).value.1, e)
    decreases e, 0
  {
    hide Sited, Below, Within, Placed, Fixed, Join, BranchesSited, BranchesReadAs, ReadAs;
    BranchesPlaced(c, e);
    ReadSited(c, S, S, e.thn);
    var (a, S1) := GetSpec(S, e.thn).value;
    NewFloor(c, S, S1);
    ReadSited(c, S1, S1, e.els);
    var (b, S2) := GetSpec(S1, e.els).value;
    NewFloor(c, S1, S2);
    TernaryRead(c, S1, S1, S2, e, a, b);
    TernaryRead(c, S2, S1, S2, e, a, b);
    var T := GetSpec(S, e).value.1;
    JoinKnown(S2, e.thn, e.els, a, b);
    KnownTold(c, S, e.thn);
    ToldKept(c, S1, T, e.thn);
    KnownTold(c, S1, e.els);
    ToldKept(c, S2, T, e.els);
  }

  /** What is told is counted as known, and what is counted as known has been told. */
  lemma CountedRight(c: Case, S: Specs, e: Expr)
    requires Sited(c) && Below(c, S, S) && ExprNode(e) in NodesB(c.f.body) && HasAllocSpec(e)
    ensures
      var r := GetSpec(S, e);
      && r.Ok? && Below(c, S, r.value.1)
      && (Told(S, e) ==> Complete(r.value.0)) && (Complete(r.value.0) ==> Told(r.value.1, e))
  {
    CountedRead(c, S, S, e);
    if e.Ternary? {
      CountedPlaced(c, e);
      hide Sited, Below;
      ReadSited(c, S, S, e);
      if Told(S, e) { ReadTold(c, S, e); }
      if SrcKnown(GetSpec(S, e).value.0) { KnownTold(c, S, e); }
    } else {
      LeafCounted(c, S, e);
    }
  }

  lemma LeafCounted(c: Case, S: Specs, e: Expr)
    requires Sited(c) && Below(c, S, S) && ExprNode(e) in NodesB(c.f.body) && HasAllocSpec(e) && !e.Ternary?
    ensures
      var r := GetSpec(S, e);
      r.Ok? && r.value.1 == S && (Told(S, e) <==> Complete(r.value.0))
  {
    match e
    case Ident(x, _) => NamedTells(c, S, S, x);
    case Lit(_, id, _) => assert LitsBelow(c, S, S) && LitBelow(c, id, S.LitAt(id)) && InitialLit(c.f, c.parsed.LitAt(id));
    case Call(id, _, _, _, _) => assert CallsBelow(c, S, S) && CallBelow(c, id, S.CallAt(id));
    case Copy(id, _, _) => assert CallsBelow(c, S, S) && CallBelow(c, id, S.CallAt(id));
  }

  /** The count lies between what is missing before it and what is missing after it. */
  lemma {:induction false} CountBounds(c: Case, S: Specs, nodes: seq<Node>)
    requires Sited(c) && Below(c, S, S) && forall nd :: nd in nodes ==> nd in NodesB(c.f.body)
    ensures Unknowns(S, nodes).Ok? && Below(c, S, Unknowns(S, nodes).value.1)
    ensures Missing(Unknowns(S, nodes).value.1, nodes) <= Unknowns(S, nodes).value.0 <= Missing(S, nodes)
    decreases nodes
  {
    hide Sited, Below;
    if nodes != [] {
      CountSited(c, S, S, nodes);
      if IsCounted(nodes[0]) {
        CountedRight(c, S, nodes[0].e);
        var S1 := GetSpec(S, nodes[0].e).value.1;
        NewFloor(c, S, S1);
        CountBounds(c, S1, nodes[1..]);
        MissingFalls(c, S, S1, nodes[1..]);
        if Told(S1, nodes[0].e) {
          ToldKept(c, S1, Unknowns(S, nodes).value.1, nodes[0].e);
        }
      } else {
        CountBounds(c, S, nodes[1..]);
      }
    }
  }

  lemma {:induction false} SomeMissing(S: Specs, nodes: seq<Node>) returns (nd: Node)
    requires Missing(S, nodes) > 0
    ensures nd in nodes && IsCounted(nd) && !Told(S, nd.e)
  {
    if IsCounted(nodes[0]) && !Told(S, nodes[0].e) {
      nd := nodes[0];
    } else {
      nd := SomeMissing(S, nodes[1..]);
    }
  }

  lemma MissingIsOpen(c: Case, S: Specs, nd: Node) returns (m: Node)
    requires Sited(c) && Below(c, S, S) && nd in NodesB(c.f.body) && IsCounted(nd) && !Told(S, nd.e)
    ensures m in NodesB(c.f.body) && Open(c, S, m)
  {
    CountedPlaced(c, nd.e);
    hide Sited, Below;
    match nd.e
    case Ident(x, _) => m := NameOpen(c, S, x);
    case Ternary(_, _, _, _) => m := UntoldIsOpen(c, S, nd.e);
    case _ => m := nd;
  }

  lemma LearnedIsPresent(c: Case, t: Times, S: Specs, T: Specs, m: Node)
    requires Sited(c) && Ordered(c, t) && Below(c, S, T) && m in NodesB(c.f.body) && Yields(c, m) && Learned(c, T, m)
    ensures Present(T, m)
  {
    assert OnTime(c, t, m);
    if IsLit(m) && !Suffixed(c, m.e) {
      assert LitsBelow(c, S, T) && LitBelow(c, m.e.id, T.LitAt(m.e.id));
    }
  }

  /** A pass leaves fewer nodes missing, if any were. */
  lemma PassFalls(c: Case, t: Times, S: Specs)
    requires Sited(c) && Ordered(c, t) && Counted(c) && Below(c, S, S)
    ensures
      var r := Pass(c.funcs, c.safe, c.f.params, S, NodesB(c.f.body));
      && r.Ok? && Below(c, S, r.value)
      && Missing(r.value, NodesB(c.f.body)) <= Missing(S, NodesB(c.f.body))
      && (Missing(S, NodesB(c.f.body)) > 0 ==> Missing(r.value, NodesB(c.f.body)) < Missing(S, NodesB(c.f.body)))
  {
    hide Sited, Ordered, Counted, Below, Informed, Learned, Pass;
    var nodes := NodesB(c.f.body);
    PassSited(c, S, c.safe, S, nodes);
    var T := Pass(c.funcs, c.safe, c.f.params, S, nodes).value;
    MissingFalls(c, S, T, nodes);
    if Missing(S, nodes) > 0 {
      var nd := SomeMissing(S, nodes);
      var o := MissingIsOpen(c, S, nd);
      var m := FirstDue(c, t, S, nodes, o);
      FirstIsInformed(c, t, S, m);
      PassLearns(c, S, nodes, m);
      LearnedIsPresent(c, t, S, T, m);
      OpenIsCounted(c, S, m);
      OpenIsCounted(c, T, m);
    }
  }

  // ----- the driver -----

  /** Every function has a right siting, with `safe` taken for region-safe. */
  ghost predicate AllSited(
      funcs: Funcs, order: seq<Name>, start: map<Name, Specs>, safe: set<Name>, cases: map<Name, Case>) {
    && Distinct(order) && safe <= Elements(order)
    && (forall fn :: fn in order ==> fn in funcs && fn in start && fn in cases)
    && forall fn :: fn in order ==>
         && cases[fn].funcs == funcs && cases[fn].f == funcs[fn] && cases[fn].parsed == start[fn] && cases[fn].safe == safe
         && Sited(cases[fn])
  }

  ghost predicate AllBelow(order: seq<Name>, cases: map<Name, Case>, info: map<Name, Specs>) {
    forall fn :: fn in order ==> fn in cases && fn in info && Below(cases[fn], info[fn], info[fn])
  }

  lemma SitedListed(
      funcs: Funcs, order: seq<Name>, start: map<Name, Specs>, safe: set<Name>, cases: map<Name, Case>,
      info: map<Name, Specs>)
    requires AllSited(funcs, order, start, safe, cases) && AllBelow(order, cases, info)
    ensures Listed(funcs, info, order)
  {
    forall i | 0 <= i < |order|
      ensures order[i] in funcs && order[i] in info
    {
      assert order[i] in order;
    }
  }

  /** A pass over all functions that takes at least `safe` for region-safe succeeds. */
  lemma PassAccepts(
      funcs: Funcs, order: seq<Name>, start: map<Name, Specs>, safe: set<Name>, cases: map<Name, Case>,
      taken: set<Name>, info: map<Name, Specs>)
    requires AllSited(funcs, order, start, safe, cases) && AllBelow(order, cases, info) && safe <= taken
    ensures Listed(funcs, info, order) && PassAll(funcs, taken, info, order).Ok?
    ensures
      var after := PassAll(funcs, taken, info, order).value;
      forall fn :: fn in order ==> fn in after && BodyPass(funcs, taken, info, fn) == Ok(after[fn]) && Below(cases[fn], info[fn], after[fn])
  {
    SitedListed(funcs, order, start, safe, cases, info);
    PassAllEach(funcs, taken, info, order);
    forall fn | fn in order
      ensures BodyPass(funcs, taken, info, fn).Ok? && Below(cases[fn], info[fn], BodyPass(funcs, taken, info, fn).value)
    {
      var c := cases[fn];
      assert Sited(c);
      PassSited(c, info[fn], taken, info[fn], NodesB(c.f.body));
    }
  }

  /** So does the count. */
  lemma CountAccepts(
      funcs: Funcs, order: seq<Name>, start: map<Name, Specs>, safe: set<Name>, cases: map<Name, Case>,
      info: map<Name, Specs>)
    requires AllSited(funcs, order, start, safe, cases) && AllBelow(order, cases, info)
    ensures Listed(funcs, info, order) && CountAll(funcs, info, order).Ok?
    ensures
      var after := CountAll(funcs, info, order).value.1;
      forall fn :: fn in order ==>
        fn in after && BodyUnknowns(funcs, info, fn).Ok? && BodyUnknowns(funcs, info, fn).value.1 == after[fn] && Below(cases[fn], info[fn], after[fn])
  {
    SitedListed(funcs, order, start, safe, cases, info);
    CountAllEach(funcs, info, order);
    forall fn | fn in order
      ensures BodyUnknowns(funcs, info, fn).Ok? && Below(cases[fn], info[fn], BodyUnknowns(funcs, info, fn).value.1)
    {
      var c := cases[fn];
      assert Sited(c);
      CountSited(c, info[fn], info[fn], NodesB(c.f.body));
    }
  }

  lemma StartBelow(funcs: Funcs, order: seq<Name>, start: map<Name, Specs>, safe: set<Name>, cases: map<Name, Case>)
    requires AllSited(funcs, order, start, safe, cases)
    ensures AllBelow(order, cases, start)
  {
    forall fn | fn in order
      ensures Below(cases[fn], start[fn], start[fn])
    {
      ParsedBelow(cases[fn]);
    }
  }

  lemma Renewed(order: seq<Name>, cases: map<Name, Case>, info: map<Name, Specs>, after: map<Name, Specs>)
    requires forall fn :: fn in order ==> fn in cases && fn in info && fn in after && Below(cases[fn], info[fn], after[fn])
    ensures AllBelow(order, cases, after)
  {
    forall fn | fn in order
      ensures Below(cases[fn], after[fn], after[fn])
    {
      NewFloor(cases[fn], info[fn], after[fn]);
    }
  }

  /** One round of the inference loop: the number of unknown specs, and the specs. */
  function Round(funcs: Funcs, safe: set<Name>, order: seq<Name>, info: map<Name, Specs>): (r: Result<(nat, map<Name, Specs>)>)
    requires Listed(funcs, info, order)
    ensures r.Ok? ==> r.value.1.Keys == info.Keys
  {
    var passed :- PassAll(funcs, safe, info, order);
    CountAll(funcs, passed, order)
  }

  lemma RoundAccepts(
      funcs: Funcs, order: seq<Name>, start: map<Name, Specs>, safe: set<Name>, cases: map<Name, Case>,
      info: map<Name, Specs>)
    requires AllSited(funcs, order, start, safe, cases) && AllBelow(order, cases, info)
    ensures Listed(funcs, info, order) && Round(funcs, safe, order, info).Ok?
    ensures AllBelow(order, cases, Round(funcs, safe, order, info).value.1)
  {
    hide AllSited, AllBelow;
    PassAccepts(funcs, order, start, safe, cases, safe, info);
    var passed := PassAll(funcs, safe, info, order).value;
    EachHas(funcs, order, start, safe, cases, info);
    Renewed(order, cases, info, passed);
    CountAccepts(funcs, order, start, safe, cases, passed);
    Renewed(order, cases, passed, CountAll(funcs, passed, order).value.1);
  }

  lemma EachHas(
      funcs: Funcs, order: seq<Name>, start: map<Name, Specs>, safe: set<Name>, cases: map<Name, Case>,
      info: map<Name, Specs>)
    requires AllSited(funcs, order, start, safe, cases) && AllBelow(order, cases, info)
    ensures forall fn :: fn in order ==> fn in funcs && fn in cases && fn in info
  {
  }

  /** The inference loop over a sited program never reports a region error: it infers
      everything or gives up. */
  lemma {:induction false} InferenceAccepts(
      funcs: Funcs, order: seq<Name>, start: map<Name, Specs>, safe: set<Name>, cases: map<Name, Case>,
      info: map<Name, Specs>, previous: nat)
    requires AllSited(funcs, order, start, safe, cases) && AllBelow(order, cases, info) && previous > 0
    ensures Listed(funcs, info, order)
    ensures
      var r := InferAll(funcs, safe, order, info, previous);
      r == Err(UNINFERRED) || (r.Ok? && AllBelow(order, cases, r.value))
    decreases previous
  {
    hide AllSited, AllBelow;
    RoundAccepts(funcs, order, start, safe, cases, info);
    var (n, counted) := Round(funcs, safe, order, info).value;
    if 0 < n < previous {
      InferenceAccepts(funcs, order, start, safe, cases, counted, n);
    }
  }

  // ----- the loop ends with everything inferred -----

  ghost predicate AllOrdered(order: seq<Name>, cases: map<Name, Case>, times: map<Name, Times>) {
    forall fn :: fn in order ==> fn in cases && fn in times && Ordered(cases[fn], times[fn]) && Counted(cases[fn])
  }

  function MissingAll(funcs: Funcs, order: seq<Name>, info: map<Name, Specs>): nat
    requires Listed(funcs, info, order)
  {
    if order == [] then 0 else Missing(info[order[0]], NodesB(funcs[order[0]].body)) + MissingAll(funcs, order[1..], info)
  }

  lemma {:induction false} MissingAllOf(funcs: Funcs, order: seq<Name>, info: map<Name, Specs>, other: map<Name, Specs>)
    requires Listed(funcs, info, order) && Listed(funcs, other, order)
    ensures
      (forall fn :: fn in order ==> Missing(info[fn], NodesB(funcs[fn].body)) <= Missing(other[fn], NodesB(funcs[fn].body))) ==>
        MissingAll(funcs, order, info) <= MissingAll(funcs, order, other)
    ensures
      (forall fn :: fn in order ==> Missing(info[fn], NodesB(funcs[fn].body)) <= Missing(other[fn], NodesB(funcs[fn].body)))
      && (exists fn :: fn in order && Missing(info[fn], NodesB(funcs[fn].body)) < Missing(other[fn], NodesB(funcs[fn].body)))
      ==> MissingAll(funcs, order, info) < MissingAll(funcs, order, other)
  {
    if order != [] {
      assert order[0] in order && forall fn :: fn in order[1..] ==> fn in order;
      MissingAllOf(funcs, order[1..], info, other);
    }
  }

  lemma {:induction false} SomeMissingIn(funcs: Funcs, order: seq<Name>, info: map<Name, Specs>) returns (fn: Name)
    requires Listed(funcs, info, order) && MissingAll(funcs, order, info) > 0
    ensures fn in order && Missing(info[fn], NodesB(funcs[fn].body)) > 0
  {
    if Missing(info[order[0]], NodesB(funcs[order[0]].body)) > 0 {
      fn := order[0];
    } else {
      fn := SomeMissingIn(funcs, order[1..], info);
    }
  }

  /** The total lies between what is missing before the count and what is missing after it. */
  lemma {:induction false} CountAllBounds(funcs: Funcs, order: seq<Name>, info: map<Name, Specs>)
    requires Listed(funcs, info, order) && Distinct(order) && CountAll(funcs, info, order).Ok?
    requires forall fn :: fn in order ==>
      var r := BodyUnknowns(funcs, info, fn);
      var nodes := NodesB(funcs[fn].body);
      r.Ok? && Missing(r.value.1, nodes) <= r.value.0 <= Missing(info[fn], nodes)
    ensures Listed(funcs, CountAll(funcs, info, order).value.1, order)
    ensures
      var (n, after) := CountAll(funcs, info, order).value;
      && (forall fn :: fn in info && fn !in order ==> after[fn] == info[fn])
      && MissingAll(funcs, order, after) <= n <= MissingAll(funcs, order, info)
  {
    if order != [] {
      var fn := order[0];
      assert fn in order;
      var info1 := info[fn := BodyUnknowns(funcs, info, fn).value.1];
      forall g | g in order[1..]
        ensures g in order && g != fn && BodyUnknowns(funcs, info1, g) == BodyUnknowns(funcs, info, g) && info1[g] == info[g]
      {
      }
      CountAllBounds(funcs, order[1..], info1);
      MissingAllOf(funcs, order[1..], info1, info);
    }
  }

  /** In each round fewer nodes are missing than before, until none is. */
  lemma RoundFalls(
      funcs: Funcs, order: seq<Name>, start: map<Name, Specs>, safe: set<Name>, cases: map<Name, Case>,
      times: map<Name, Times>, info: map<Name, Specs>)
    requires AllSited(funcs, order, start, safe, cases) && AllBelow(order, cases, info) && AllOrdered(order, cases, times)
    ensures Listed(funcs, info, order) && Round(funcs, safe, order, info).Ok?
    ensures
      var (n, counted) := Round(funcs, safe, order, info).value;
      && Listed(funcs, counted, order) && MissingAll(funcs, order, counted) <= n
      && (n < MissingAll(funcs, order, info) || n == 0)
  {
    PassAccepts(funcs, order, start, safe, cases, safe, info);
    var passed := PassAll(funcs, safe, info, order).value;
    Renewed(order, cases, info, passed);
    CountAccepts(funcs, order, start, safe, cases, passed);
    forall fn | fn in order
      ensures
        var r := BodyUnknowns(funcs, passed, fn);
        var nodes := NodesB(funcs[fn].body);
        && r.Ok? && Missing(r.value.1, nodes) <= r.value.0 <= Missing(passed[fn], nodes)
        && Missing(passed[fn], nodes) <= Missing(info[fn], nodes)
        && (Missing(info[fn], nodes) > 0 ==> Missing(passed[fn], nodes) < Missing(info[fn], nodes))
    {
      FunctionFalls(funcs, safe, cases[fn], times[fn], info[fn], passed[fn]);
    }
    CountAllBounds(funcs, order, passed);
    MissingAllOf(funcs, order, passed, info);
    if MissingAll(funcs, order, info) > 0 {
      var fn := SomeMissingIn(funcs, order, info);
    }
  }

  lemma FunctionFalls(funcs: Funcs, safe: set<Name>, c: Case, t: Times, S: Specs, T: Specs)
    requires c.funcs == funcs && c.safe == safe && Sited(c) && Ordered(c, t) && Counted(c) && Below(c, S, S)
    requires Pass(funcs, safe, c.f.params, S, NodesB(c.f.body)) == Ok(T)
    ensures
      var r := Unknowns(T, NodesB(c.f.body));
      var nodes := NodesB(c.f.body);
      && r.Ok? && Missing(r.value.1, nodes) <= r.value.0 <= Missing(T, nodes)
      && Missing(T, nodes) <= Missing(S, nodes) && (Missing(S, nodes) > 0 ==> Missing(T, nodes) < Missing(S, nodes))
  {
    PassFalls(c, t, S);
    NewFloor(c, S, T);
    CountBounds(c, T, NodesB(c.f.body));
  }

  /** Each round leaves fewer unknown specs than the one before, so the loop infers them all. */
  lemma {:induction false} LoopInfers(
      funcs: Funcs, order: seq<Name>, start: map<Name, Specs>, safe: set<Name>, cases: map<Name, Case>,
      times: map<Name, Times>, info: map<Name, Specs>, previous: nat)
    requires AllSited(funcs, order, start, safe, cases) && AllBelow(order, cases, info) && AllOrdered(order, cases, times)
    requires Listed(funcs, info, order) && 0 < previous && MissingAll(funcs, order, info) <= previous
    ensures InferAll(funcs, safe, order, info, previous).Ok?
    decreases previous
  {
    hide AllSited, AllBelow, AllOrdered, MissingAll;
    RoundFalls(funcs, order, start, safe, cases, times, info);
    RoundAccepts(funcs, order, start, safe, cases, info);
    var (n, counted) := Round(funcs, safe, order, info).value;
    if n > 0 {
      LoopInfers(funcs, order, start, safe, cases, times, counted, n);
    }
  }

  // ----- acceptance -----

  /** One more round leaves the specs of every function as they are. */
  ghost predicate AllIdle(funcs: Funcs, safe: set<Name>, order: seq<Name>, info: map<Name, Specs>) {
    forall fn :: fn in order ==>
      && fn in funcs && fn in info
      && BodyPass(funcs, safe, info, fn) == Ok(info[fn]) && BodyUnknowns(funcs, info, fn) == Ok((0, info[fn]))
  }

  /** The first pass takes every function for region-safe. */
  lemma FirstPassAccepts(
      funcs: Funcs, order: seq<Name>, start: map<Name, Specs>, safe: set<Name>, cases: map<Name, Case>)
    requires AllSited(funcs, order, start, safe, cases)
    ensures Listed(funcs, start, order) && PassAll(funcs, Elements(order), start, order).Ok?
    ensures AllBelow(order, cases, PassAll(funcs, Elements(order), start, order).value)
  {
    StartBelow(funcs, order, start, safe, cases);
    PassAccepts(funcs, order, start, safe, cases, Elements(order), start);
    Renewed(order, cases, start, PassAll(funcs, Elements(order), start, order).value);
  }

  /** What the driver must accept. Let every function have a right siting for the functions the
      classification finds region-safe. Then the first pass succeeds; the inference loop
      succeeds, unless it gives up on an unknown spec; and where one more round changes
      nothing, the program is accepted and every literal is in the place of its siting. */
  lemma SitedIsAccepted(
      funcs: Funcs, order: seq<Name>, start: map<Name, Specs>, safe: set<Name>, cases: map<Name, Case>)
    requires AllSited(funcs, order, start, safe, cases) && forall fn :: fn in funcs ==> fn in order
    ensures Listed(funcs, start, order) && PassAll(funcs, Elements(order), start, order).Ok?
    ensures
      var first := PassAll(funcs, Elements(order), start, order).value;
      Listed(funcs, first, order) &&
      var r := InferAll(funcs, safe, order, first, SIZE_MAX);
      && (r.Err? ==> r == Err(UNINFERRED))
      && (r.Ok? && Greatest(funcs, first, Elements(order), safe) && AllIdle(funcs, safe, order, r.value) ==>
            && Driven(funcs, order, start, first, safe, r.value)
            && forall fn, e: Expr :: fn in order && e.Lit? && ExprNode(e) in NodesB(funcs[fn].body) ==>
                 Tells(r.value[fn].LitAt(e.id), cases[fn].at.lit(e.id)))
  {
    hide AllSited, AllBelow;
    FirstPassAccepts(funcs, order, start, safe, cases);
    var first := PassAll(funcs, Elements(order), start, order).value;
    InferenceAccepts(funcs, order, start, safe, cases, first, SIZE_MAX);
    var r := InferAll(funcs, safe, order, first, SIZE_MAX);
    if r.Ok? && AllIdle(funcs, safe, order, r.value) {
      IdleIsDriven(funcs, order, start, safe, cases, r.value);
    }
  }

  lemma IdleIsDriven(
      funcs: Funcs, order: seq<Name>, start: map<Name, Specs>, safe: set<Name>, cases: map<Name, Case>,
      last: map<Name, Specs>)
    requires AllSited(funcs, order, start, safe, cases) && AllBelow(order, cases, last) && AllIdle(funcs, safe, order, last)
    requires forall fn :: fn in funcs ==> fn in order
    ensures PostAll(funcs, safe, last)
    ensures forall fn, e: Expr :: fn in order && e.Lit? && ExprNode(e) in NodesB(funcs[fn].body) ==>
      Tells(last[fn].LitAt(e.id), cases[fn].at.lit(e.id))
  {
    forall fn | fn in order
      ensures forall nd :: nd in NodesB(funcs[fn].body) ==> PostCheck(funcs, safe, last[fn], nd)
      ensures forall e: Expr :: e.Lit? && ExprNode(e) in NodesB(funcs[fn].body) ==> LitThere(cases[fn], last[fn], e.id)
    {
      assert Idle(cases[fn], last[fn]);
      IdleIsAccepted(cases[fn], last[fn]);
    }
  }

  function NodeCount(funcs: Funcs, order: seq<Name>): nat
    requires forall i :: 0 <= i < |order| ==> order[i] in funcs
  {
    if order == [] then 0 else |NodesB(funcs[order[0]].body)| + NodeCount(funcs, order[1..])
  }

  lemma {:induction false} MissingAtMost(S: Specs, nodes: seq<Node>)
    ensures Missing(S, nodes) <= |nodes|
  {
    if nodes != [] {
      MissingAtMost(S, nodes[1..]);
    }
  }

  lemma {:induction false} MissingAllAtMost(funcs: Funcs, order: seq<Name>, info: map<Name, Specs>)
    requires Listed(funcs, info, order)
    ensures MissingAll(funcs, order, info) <= NodeCount(funcs, order)
  {
    if order != [] {
      MissingAtMost(info[order[0]], NodesB(funcs[order[0]].body));
      MissingAllAtMost(funcs, order[1..], info);
    }
  }

  /** The loop does not give up where each place can be told from earlier ones and everything
      that is told is counted (`RegionSitedPrograms.PickIsRefused` has a program that is not). */
  lemma SitedIsInferred(
      funcs: Funcs, order: seq<Name>, start: map<Name, Specs>, safe: set<Name>, cases: map<Name, Case>,
      times: map<Name, Times>)
    requires AllSited(funcs, order, start, safe, cases) && AllOrdered(order, cases, times)
    requires Listed(funcs, start, order) && NodeCount(funcs, order) <= SIZE_MAX
    ensures PassAll(funcs, Elements(order), start, order).Ok?
    ensures
      var first := PassAll(funcs, Elements(order), start, order).value;
      Listed(funcs, first, order) && InferAll(funcs, safe, order, first, SIZE_MAX).Ok?
  {
    FirstPassAccepts(funcs, order, start, safe, cases);
    var first := PassAll(funcs, Elements(order), start, order).value;
    SitedListed(funcs, order, start, safe, cases, first);
    MissingAllAtMost(funcs, order, first);
    LoopInfers(funcs, order, start, safe, cases, times, first, SIZE_MAX);
  }
}
