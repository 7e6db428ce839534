/** What the passes start from: the specs the parser wrote and the table filled from the
    scopes of a function. The names of the table and its parameters never change. */
module RegionStart {
  import opened RegionSyntax
  import opened RegionCheck
  import opened RegionSemantics
  import opened RegionAccepted
  import opened RegionPasses
  import opened RegionFixpoint
  import opened RegionPlaces
  import opened Collections

  /** Composite and region names of a function: its parameters and its locals. */
  function TableNames(f: FuncDecl): set<Name> {
    (set q | q in f.params && q.ty != PrimTy :: q.name) + Elements(DeclaredB(f.body))
  }

  function InitialEntry(params: seq<Param>, x: Name): Spec {
    if params == [] then UNKNOWN
    else if params[0].name == x then ParamSpec(params[0])
    else InitialEntry(params[1..], x)
  }

  /** `populate_spec_tab_from_scope` over every block of the function. */
  function InitialTable(f: FuncDecl): map<Name, Spec> {
    map x | x in TableNames(f) :: InitialEntry(f.params, x)
  }

  /** `jik_parser_get_region_spec`: a literal is local, has a suffix `[r]` or `[.x]` whose
      source is still open, or was given the implicit region of `@`. */
  ghost predicate InitialLit(f: FuncDecl, s: Spec) {
    || s == UNKNOWN || s == LOCAL
    || ((s.kind == NamedRegionKind || s.kind == ContainerKind) && s.src == UnknownSrc && s.region in TableNames(f))
    || exists q :: q in f.params && (q.ty == RegionTy || (q.ty == CompositeTy && !q.isForeign)) && s == ParamSpec(q)
  }

  ghost predicate Initial(f: FuncDecl, S: Specs) {
    && S.tab == InitialTable(f)
    && (forall i :: InitialLit(f, S.LitAt(i)))
    && S.call == map[]
  }

  /** Parameters have different names, no local hides one (declarations are looked up in the
      enclosing scopes), no name is empty, and the body is a tree. */
  ghost predicate WellFormed(f: FuncDecl) {
    && (forall i, j :: 0 <= i < j < |f.params| ==> f.params[i].name != f.params[j].name)
    && (forall q :: q in f.params ==> q.name !in DeclaredB(f.body))
    && "" !in TableNames(f)
    && OwnTags(NodesB(f.body)) && OneParent(NodesB(f.body))
  }

  /** What the program was when the checker took it over: the functions in order, their specs
      as parsed, and after the first pass. */
  datatype History = History(order: seq<Name>, start: map<Name, Specs>, first: map<Name, Specs>)

  /** The driver, started on what the parser and the scopes wrote, accepts with the
      classification and the specs of p. */
  ghost predicate DrivenTo(p: Prog, r: History) {
    && Distinct(r.order) && (forall fn :: fn in p.funcs <==> fn in r.order)
    && (forall fn :: fn in p.funcs ==> fn in r.start && Initial(p.funcs[fn], r.start[fn]))
    && Driven(p.funcs, r.order, r.start, r.first, p.safe, p.info)
  }

  ghost predicate ParamsKept(f: FuncDecl, S: Specs) {
    && S.tab.Keys == TableNames(f)
    && forall q :: q in f.params && q.ty != PrimTy ==> q.name in S.tab && S.tab[q.name] == ParamSpec(q)
  }

  lemma {:induction false} EntryOfParam(params: seq<Param>, i: nat)
    requires i < |params| && forall i, j :: 0 <= i < j < |params| ==> params[i].name != params[j].name
    ensures InitialEntry(params, params[i].name) == ParamSpec(params[i])
  {
    if i > 0 {
      assert params[0].name != params[i].name;
      EntryOfParam(params[1..], i - 1);
    }
  }

  lemma {:induction false} EntryIsParam(params: seq<Param>, x: Name)
    ensures InitialEntry(params, x) == UNKNOWN
         || exists q :: q in params && q.name == x && InitialEntry(params, x) == ParamSpec(q)
  {
    if params != [] && params[0].name != x {
      EntryIsParam(params[1..], x);
    }
  }

  lemma InitialKept(f: FuncDecl, S: Specs)
    requires WellFormed(f) && Initial(f, S)
    ensures ParamsKept(f, S)
  {
    forall q | q in f.params && q.ty != PrimTy
      ensures q.name in S.tab && S.tab[q.name] == ParamSpec(q)
    {
      var i :| 0 <= i < |f.params| && f.params[i] == q;
      EntryOfParam(f.params, i);
    }
  }

  // ----- bindings -----

  predicate Binds(nd: Node, x: Name) {
    match nd
    case StmtNode(Declare(y, e)) => y == x && TypeOf(e) != PrimTy
    case StmtNode(ForIn(y, ty, _, _)) => y == x && ty != PrimTy
    case _ => false
  }

  lemma {:induction false} NoStatements(e: Expr)
    ensures forall nd :: nd in NodesE(e) ==> nd.ExprNode?
    decreases e
  {
    match e
    case Lit(_, _, elems) => NoStatementsIn(elems);
    case Call(_, _, args, _, _) => NoStatementsIn(args);
    case Push(vec, item) => NoStatements(vec); NoStatements(item);
    case Pop(_, vec, _) => NoStatements(vec);
    case Copy(_, of, dest) => NoStatements(of); NoStatementsIn(dest);
    case Part(base, _, _) => NoStatements(base);
    case Lookup(base, _) => NoStatements(base);
    case Slice(base) => NoStatements(base);
    case Ternary(cond, thn, els, _) => NoStatements(cond); NoStatements(thn); NoStatements(els);
    case _ =>
  }

  lemma {:induction false} NoStatementsIn(es: seq<Expr>)
    ensures forall nd :: nd in NodesEs(es) ==> nd.ExprNode?
    decreases es
  {
    if es != [] {
      NoStatements(es[0]);
      NoStatementsIn(es[1..]);
    }
  }

  /** The declared names are the names some node of the body binds. */
  lemma {:induction false} DeclaredIsBound(b: seq<Stmt>, x: Name)
    ensures x in DeclaredB(b) <==> exists nd :: nd in NodesB(b) && Binds(nd, x)
    decreases b, 1
  {
    if b != [] {
      DeclaredIsBoundS(b[0], x);
      DeclaredIsBound(b[1..], x);
      assert forall nd :: nd in NodesB(b) <==> nd in NodesS(b[0]) || nd in NodesB(b[1..]);
    }
  }

  lemma {:induction false} DeclaredIsBoundS(s: Stmt, x: Name)
    ensures x in DeclaredS(s) <==> exists nd :: nd in NodesS(s) && Binds(nd, x)
    decreases s, 0
  {
    assert StmtNode(s) in NodesS(s) && (Binds(StmtNode(s), x) ==> x in DeclaredS(s));
    match s
    case Declare(y, e) => NoStatements(e); NoStatements(Ident(y, TypeOf(e)));
    case Assign(y, e) => NoStatements(e); NoStatements(Ident(y, TypeOf(e)));
    case Store(target, _, e) => NoStatements(target); NoStatements(e);
    case Do(e) => NoStatements(e);
    case Return(e) => NoStatements(e);
    case ReturnVoid =>
    case If(cond, thn, els) => NoStatements(cond); DeclaredIsBound(thn, x); DeclaredIsBound(els, x);
    case While(cond, body) => NoStatements(cond); DeclaredIsBound(body, x);
    case ForIn(_, _, e, body) => NoStatements(e); DeclaredIsBound(body, x);
  }

  lemma {:induction false} AllNamesBound(nodes: seq<Node>, x: Name)
    requires x in AllNames(nodes)
    ensures exists nd :: nd in nodes && Binds(nd, x)
  {
    if x in OwnNames(nodes[0]) {
      assert Binds(nodes[0], x);
    } else {
      AllNamesBound(nodes[1..], x);
      var nd :| nd in nodes[1..] && Binds(nd, x);
      assert nd in nodes;
    }
  }

  // ----- the passes keep the names -----

  lemma PassKeepsParams(funcs: Funcs, safe: set<Name>, f: FuncDecl, S: Specs)
    requires WellFormed(f) && ParamsKept(f, S) && Pass(funcs, safe, f.params, S, NodesB(f.body)).Ok?
    ensures ParamsKept(f, Pass(funcs, safe, f.params, S, NodesB(f.body)).value)
  {
    var T := Pass(funcs, safe, f.params, S, NodesB(f.body)).value;
    PassEffect(funcs, safe, f.params, S, NodesB(f.body));
    forall x | x in AllNames(NodesB(f.body))
      ensures x in DeclaredB(f.body)
    {
      AllNamesBound(NodesB(f.body), x);
      DeclaredIsBound(f.body, x);
    }
    assert T.tab.Keys == S.tab.Keys;
  }

  lemma CountKeepsParams(f: FuncDecl, S: Specs)
    requires ParamsKept(f, S) && Unknowns(S, NodesB(f.body)).Ok?
    ensures ParamsKept(f, Unknowns(S, NodesB(f.body)).value.1)
  {
    UnknownsMild(S, NodesB(f.body));
  }
}
