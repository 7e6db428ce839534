/** Following the driver and a run over a given small program. */
module RegionTraces {
  import opened RegionSyntax
  import opened RegionCheck
  import opened RegionSemantics
  import opened RegionAccepted
  import opened RegionPasses
  import opened RegionStart
  import opened Collections
  import opened Machine
  import opened Results

  // ----- notation for programs -----

  function Of(x: Name): Spec { Spec(ContainerKind, ForeignSrc, x) }

  function Var(x: Name): Expr { Ident(x, CompositeTy) }

  function Obj0(id: nat): Expr { Lit(StructLit, id, []) }

  const NONE: map<nat, Spec> := map[]

  const IN_R := Spec(NamedRegionKind, ForeignSrc, "r")

  /** The specs of literals with a suffix `[r]` or `[.x]`, as the parser leaves them. */
  const SUFFIX_R := Spec(NamedRegionKind, UnknownSrc, "r")

  function SuffixOf(x: Name): Spec { Spec(ContainerKind, UnknownSrc, x) }

  // ----- lists of nodes -----

  lemma NodesCons(s: Stmt, b: seq<Stmt>)
    ensures NodesB([s] + b) == NodesS(s) + NodesB(b)
  {
    assert ([s] + b)[1..] == b;
  }

  lemma DeclaredTwo(s: Stmt, t: Stmt)
    ensures DeclaredB([s, t]) == DeclaredS(s) + DeclaredS(t)
  {
    assert [s, t][1..] == [t] && [t][1..] == [];
    assert DeclaredB([t]) == DeclaredS(t) + DeclaredB([]);
  }

  lemma NodesOne(s: Stmt)
    ensures NodesB([s]) == NodesS(s)
  {
    assert [s] + [] == [s];
    NodesCons(s, []);
  }

  lemma NodesTwo(s: Stmt, t: Stmt)
    ensures NodesB([s, t]) == NodesS(s) + NodesS(t)
  {
    assert [s] + [t] == [s, t];
    NodesCons(s, [t]);
    NodesOne(t);
  }

  lemma NodesPair(a: Expr, b: Expr)
    ensures NodesEs([a, b]) == NodesE(a) + NodesE(b)
  {
    assert [a, b][1..] == [b] && [b][1..] == [];
    assert NodesEs([b]) == NodesE(b) + NodesEs([]);
  }

  // ----- specs -----

  lemma SetSame(S: Specs, x: Name)
    requires x in S.tab
    ensures S.SetName(x, S.tab[x]) == S
  {
    assert S.tab[x := S.tab[x]] == S.tab;
  }

  lemma SetCallSame(S: Specs, id: nat)
    requires id in S.call
    ensures S.SetCall(id, S.call[id]) == S
  {
    assert S.call[id := S.call[id]] == S.call;
  }

  // ----- passes -----

  /** No visit of these nodes changes S. */
  ghost predicate Unmoved(funcs: Funcs, safe: set<Name>, params: seq<Param>, S: Specs, nodes: seq<Node>) {
    forall nd {:trigger Visit(funcs, safe, params, S, nd)} :: nd in nodes ==> Visit(funcs, safe, params, S, nd) == Ok(S)
  }

  /** Nodes that no visit looks at. */
  predicate Quiet(nd: Node) {
    match nd
    case ExprNode(e) => !(e.Call? || e.Push? || e.Pop? || e.Copy? || e.Lit?)
    case StmtNode(s) => s.Do? || s.If? || s.While? || s.ReturnVoid?
  }

  lemma QuietUnmoved(funcs: Funcs, safe: set<Name>, params: seq<Param>, S: Specs, nodes: seq<Node>)
    requires forall nd :: nd in nodes ==> Quiet(nd)
    ensures Unmoved(funcs, safe, params, S, nodes)
  {
    forall nd | nd in nodes
      ensures Visit(funcs, safe, params, S, nd) == Ok(S)
    {
      assert Quiet(nd);
    }
  }

  /** The quiet nodes and one other that changes nothing. */
  lemma QuietAround(funcs: Funcs, safe: set<Name>, params: seq<Param>, S: Specs, nodes: seq<Node>, other: Node)
    requires forall nd :: nd in nodes ==> Quiet(nd) || nd == other
    requires Visit(funcs, safe, params, S, other) == Ok(S)
    ensures Unmoved(funcs, safe, params, S, nodes)
  {
    forall nd | nd in nodes
      ensures Visit(funcs, safe, params, S, nd) == Ok(S)
    {
      assert Quiet(nd) || nd == other;
    }
  }

  /** ... or two. */
  lemma QuietAroundTwo(funcs: Funcs, safe: set<Name>, params: seq<Param>, S: Specs, nodes: seq<Node>, one: Node, two: Node)
    requires forall nd :: nd in nodes ==> Quiet(nd) || nd == one || nd == two
    requires Visit(funcs, safe, params, S, one) == Ok(S) && Visit(funcs, safe, params, S, two) == Ok(S)
    ensures Unmoved(funcs, safe, params, S, nodes)
  {
    forall nd | nd in nodes
      ensures Visit(funcs, safe, params, S, nd) == Ok(S)
    {
      assert Quiet(nd) || nd == one || nd == two;
    }
  }

  lemma {:induction false} PassUnmoved(funcs: Funcs, safe: set<Name>, params: seq<Param>, S: Specs, nodes: seq<Node>)
    requires Unmoved(funcs, safe, params, S, nodes)
    ensures Pass(funcs, safe, params, S, nodes) == Ok(S)
    decreases nodes
  {
    if nodes != [] {
      assert nodes[0] in nodes && Visit(funcs, safe, params, S, nodes[0]) == Ok(S);
      PassUnmoved(funcs, safe, params, S, nodes[1..]);
    }
  }

  /** The first node that changes the specs. */
  lemma {:induction false} PassVia(funcs: Funcs, safe: set<Name>, params: seq<Param>, S: Specs, a: seq<Node>, nd: Node, b: seq<Node>, T: Specs)
    requires Unmoved(funcs, safe, params, S, a) && Visit(funcs, safe, params, S, nd) == Ok(T)
    ensures Pass(funcs, safe, params, S, a + [nd] + b) == Pass(funcs, safe, params, T, b)
    decreases a
  {
    var nodes := a + [nd] + b;
    if a == [] {
      assert nodes[0] == nd && nodes[1..] == b;
    } else {
      assert nodes[0] == a[0] && nodes[1..] == a[1..] + [nd] + b;
      assert a[0] in a && Visit(funcs, safe, params, S, a[0]) == Ok(S);
      PassVia(funcs, safe, params, S, a[1..], nd, b, T);
    }
  }

  lemma {:induction false} PassOver(funcs: Funcs, safe: set<Name>, params: seq<Param>, S: Specs, a: seq<Node>, b: seq<Node>)
    requires Unmoved(funcs, safe, params, S, a)
    ensures Pass(funcs, safe, params, S, a + b) == Pass(funcs, safe, params, S, b)
    decreases a
  {
    if a == [] {
      assert a + b == b;
    } else {
      assert (a + b)[0] == a[0] && (a + b)[1..] == a[1..] + b;
      assert a[0] in a && Visit(funcs, safe, params, S, a[0]) == Ok(S);
      PassOver(funcs, safe, params, S, a[1..], b);
    }
  }

  /** Nodes that change nothing, one that does, and nodes that change nothing again. */
  lemma PassOnce(funcs: Funcs, safe: set<Name>, params: seq<Param>, S: Specs, a: seq<Node>, nd: Node, b: seq<Node>, T: Specs)
    requires Unmoved(funcs, safe, params, S, a) && Visit(funcs, safe, params, S, nd) == Ok(T) && Unmoved(funcs, safe, params, T, b)
    ensures Pass(funcs, safe, params, S, a + [nd] + b) == Ok(T)
  {
    PassVia(funcs, safe, params, S, a, nd, b, T);
    PassUnmoved(funcs, safe, params, T, b);
  }

  // ----- the specs the driver starts from -----

  /** All locals are unknown, the literals as parsed, and no call has a spec. */
  ghost predicate Unvisited(f: FuncDecl, S: Specs) {
    && S.call == map[] && (forall i :: InitialLit(f, S.LitAt(i)))
    && forall x :: x in DeclaredB(f.body) ==> x in S.tab && S.tab[x] == UNKNOWN
  }

  lemma InitialIs(f: FuncDecl, S: Specs)
    requires S.tab.Keys == TableNames(f) && Unvisited(f, S)
    requires forall x :: x in S.tab ==> S.tab[x] == InitialEntry(f.params, x)
    ensures Initial(f, S)
  {
    assert S.tab == InitialTable(f);
  }

  lemma InitialNone(f: FuncDecl, S: Specs)
    requires f.params == [] && S.tab.Keys == Elements(DeclaredB(f.body)) && Unvisited(f, S)
    ensures TableNames(f) == S.tab.Keys && Initial(f, S)
  {
    forall x | x in S.tab
      ensures S.tab[x] == InitialEntry(f.params, x)
    {
      assert x in DeclaredB(f.body);
    }
    InitialIs(f, S);
  }

  lemma InitialOne(f: FuncDecl, q: Param, S: Specs)
    requires f.params == [q] && q.ty != PrimTy && q.name !in DeclaredB(f.body)
    requires S.tab.Keys == {q.name} + Elements(DeclaredB(f.body)) && S.tab[q.name] == ParamSpec(q) && Unvisited(f, S)
    ensures TableNames(f) == S.tab.Keys && Initial(f, S)
  {
    assert f.params[0] in f.params && f.params[1..] == [];
    forall x | x in S.tab
      ensures S.tab[x] == InitialEntry(f.params, x)
    {
      assert x == q.name || x in DeclaredB(f.body);
    }
    InitialIs(f, S);
  }

  lemma InitialTwo(f: FuncDecl, q: Param, r: Param, S: Specs)
    requires f.params == [q, r] && q.ty != PrimTy && r.ty != PrimTy && q.name != r.name
    requires q.name !in DeclaredB(f.body) && r.name !in DeclaredB(f.body)
    requires S.tab.Keys == {q.name, r.name} + Elements(DeclaredB(f.body))
    requires S.tab[q.name] == ParamSpec(q) && S.tab[r.name] == ParamSpec(r) && Unvisited(f, S)
    ensures TableNames(f) == S.tab.Keys && Initial(f, S)
  {
    assert f.params[0] in f.params && f.params[1] in f.params;
    assert f.params[1..] == [r] && [r][1..] == [];
    forall x | x in S.tab
      ensures S.tab[x] == InitialEntry(f.params, x)
    {
      assert x == q.name || x == r.name || x in DeclaredB(f.body);
      assert InitialEntry([r], x) == if x == r.name then ParamSpec(r) else UNKNOWN;
    }
    InitialIs(f, S);
  }

  // ----- one round -----

  /** The specs of all needed nodes are complete, and reading them changes nothing. */
  ghost predicate NeedsMet(S: Specs, nodes: seq<Node>) {
    forall nd :: nd in nodes && nd.ExprNode? && HasAllocSpec(nd.e) ==>
      GetSpec(S, nd.e) == Ok((SpecOf(S, nd.e), S)) && Complete(SpecOf(S, nd.e))
  }

  lemma {:induction false} NoneUnknown(S: Specs, nodes: seq<Node>)
    requires NeedsMet(S, nodes)
    ensures Unknowns(S, nodes) == Ok((0, S))
    decreases nodes
  {
    if nodes != [] {
      assert nodes[0] in nodes;
      NoneUnknown(S, nodes[1..]);
    }
  }

  /** The part of a one-round history that concerns fn. */
  ghost predicate FunctionDriven(p: Prog, r: History, fn: Name) {
    && fn in p.funcs && fn in r.start && fn in r.first && fn in p.info
    && Initial(p.funcs[fn], r.start[fn])
    && BodyPass(p.funcs, Elements(r.order), r.start, fn) == Ok(r.first[fn])
    && BodyPass(p.funcs, p.safe, r.first, fn) == Ok(p.info[fn])
    && NeedsMet(p.info[fn], NodesB(p.funcs[fn].body))
    && forall nd :: nd in NodesB(p.funcs[fn].body) ==> PostCheck(p.funcs, p.safe, p.info[fn], nd)
  }

  /** A pass over all functions, put together from the passes over each. */
  lemma PassAllIs(funcs: Funcs, safe: set<Name>, order: seq<Name>, before: map<Name, Specs>, after: map<Name, Specs>)
    requires Distinct(order) && Listed(funcs, before, order) && before.Keys == after.Keys && (forall fn :: fn in before <==> fn in order)
    requires forall fn {:trigger BodyPass(funcs, safe, before, fn)} :: fn in order ==> BodyPass(funcs, safe, before, fn) == Ok(after[fn])
    ensures PassAll(funcs, safe, before, order) == Ok(after)
  {
    PassAllEach(funcs, safe, before, order);
    assert PassAll(funcs, safe, before, order).value == after;
  }

  lemma CountAllIs(funcs: Funcs, order: seq<Name>, info: map<Name, Specs>)
    requires Distinct(order) && Listed(funcs, info, order) && (forall fn :: fn in info <==> fn in order)
    requires forall fn {:trigger BodyUnknowns(funcs, info, fn)} :: fn in order ==> BodyUnknowns(funcs, info, fn) == Ok((0, info[fn]))
    ensures CountAll(funcs, info, order) == Ok((0, info))
  {
    CountAllEach(funcs, info, order);
    assert CountAll(funcs, info, order).value.1 == info;
  }

  ghost predicate AllDriven(p: Prog, r: History) {
    && Distinct(r.order) && (forall fn :: fn in p.funcs <==> fn in r.order)
    && r.start.Keys == r.first.Keys == p.info.Keys == p.funcs.Keys
    && forall fn {:trigger FunctionDriven(p, r, fn)} :: fn in r.order ==> FunctionDriven(p, r, fn)
  }

  lemma FirstPassEnds(p: Prog, r: History)
    requires AllDriven(p, r)
    ensures Listed(p.funcs, r.start, r.order) && PassAll(p.funcs, Elements(r.order), r.start, r.order) == Ok(r.first)
  {
    forall fn | fn in r.order
      ensures BodyPass(p.funcs, Elements(r.order), r.start, fn) == Ok(r.first[fn])
    {
      assert FunctionDriven(p, r, fn);
    }
    PassAllIs(p.funcs, Elements(r.order), r.order, r.start, r.first);
  }

  lemma RoundEnds(p: Prog, r: History)
    requires AllDriven(p, r)
    ensures Listed(p.funcs, r.first, r.order) && InferAll(p.funcs, p.safe, r.order, r.first, SIZE_MAX) == Ok(p.info)
  {
    forall fn | fn in r.order
      ensures BodyPass(p.funcs, p.safe, r.first, fn) == Ok(p.info[fn]) && BodyUnknowns(p.funcs, p.info, fn) == Ok((0, p.info[fn]))
    {
      assert FunctionDriven(p, r, fn);
      NoneUnknown(p.info[fn], NodesB(p.funcs[fn].body));
    }
    PassAllIs(p.funcs, p.safe, r.order, r.first, p.info);
    CountAllIs(p.funcs, r.order, p.info);
  }

  /** A history of one round after the first pass is one of the driver. */
  lemma OneRound(p: Prog, r: History)
    requires AllDriven(p, r) && Greatest(p.funcs, r.first, Elements(r.order), p.safe)
    ensures DrivenTo(p, r)
  {
    hide PassAll, InferAll, Greatest;
    FirstPassEnds(p, r);
    RoundEnds(p, r);
    forall fn | fn in p.funcs
      ensures Initial(p.funcs[fn], r.start[fn]) && forall nd :: nd in NodesB(p.funcs[fn].body) ==> PostCheck(p.funcs, p.safe, p.info[fn], nd)
    {
      assert FunctionDriven(p, r, fn);
    }
  }

  // ----- the classification -----

  /** A node that no assumption about other functions makes region-safe. */
  ghost predicate NeverSafe(funcs: Funcs, S: Specs, body: seq<Stmt>) {
    exists nd :: nd in NodesB(body) && forall safe :: !SafeNode(funcs, safe, S, nd)
  }

  lemma NeverSafeBody(funcs: Funcs, safe: set<Name>, S: Specs, body: seq<Stmt>)
    requires NeverSafe(funcs, S, body)
    ensures !SafeBody(funcs, safe, S, body)
  {
    var nd :| nd in NodesB(body) && forall safe :: !SafeNode(funcs, safe, S, nd);
    assert !SafeNode(funcs, safe, S, nd);
  }

  /** A function outside `safe` is unsafe by itself or calls one that is. */
  lemma UnsafeIsOut(funcs: Funcs, info: map<Name, Specs>, other: set<Name>, fn: Name)
    requires fn in funcs && fn in info && SelfSafe(funcs, info, other) && NeverSafe(funcs, info[fn], funcs[fn].body)
    ensures fn !in other
  {
    NeverSafeBody(funcs, other, info[fn], funcs[fn].body);
  }

  lemma CallerIsOut(funcs: Funcs, info: map<Name, Specs>, other: set<Name>, fn: Name, e: Expr)
    requires fn in funcs && fn in info && SelfSafe(funcs, info, other)
    requires e.Call? && ExprNode(e) in NodesB(funcs[fn].body) && e.fn !in other
    ensures fn !in other
  {
    assert !SafeNode(funcs, other, info[fn], ExprNode(e));
  }

  // ----- one more round -----

  ghost predicate FunctionChecked(p: Prog, fn: Name)
    requires fn in p.funcs
  {
    fn in p.info && forall nd {:trigger NodeChecked(p, fn, nd)} :: nd in NodesB(p.funcs[fn].body) ==> NodeChecked(p, fn, nd)
  }

  /** Another visit of any node would leave the final specs alone, and the classification
      still holds of them. */
  ghost predicate CheckedEverywhere(p: Prog) {
    forall fn :: fn in p.funcs ==> FunctionChecked(p, fn)
  }

  lemma CheckedEnds(p: Prog, fn: Name)
    requires fn in p.funcs && FunctionChecked(p, fn)
    ensures
      var S, nodes := p.info[fn], NodesB(p.funcs[fn].body);
      && Pass(p.funcs, p.safe, p.funcs[fn].params, S, nodes) == Ok(S)
      && NeedsMet(S, nodes) && (forall nd :: nd in nodes ==> PostCheck(p.funcs, p.safe, S, nd))
  {
    var S, nodes := p.info[fn], NodesB(p.funcs[fn].body);
    forall nd | nd in nodes
      ensures NodeStable(p, fn, nd)
    {
      assert NodeChecked(p, fn, nd);
    }
    PassUnmoved(p.funcs, p.safe, p.funcs[fn].params, S, nodes);
  }

  /** A function that ends with specs no visit would change. */
  lemma DrivenBy(p: Prog, r: History, fn: Name)
    requires fn in p.funcs && FunctionChecked(p, fn) && fn in r.start && fn in r.first && Initial(p.funcs[fn], r.start[fn])
    requires BodyPass(p.funcs, Elements(r.order), r.start, fn) == Ok(r.first[fn])
    requires r.first[fn] == p.info[fn] || BodyPass(p.funcs, p.safe, r.first, fn) == Ok(p.info[fn])
    ensures FunctionDriven(p, r, fn)
  {
    CheckedEnds(p, fn);
  }

  // ----- runs -----

  lemma ExecCons(p: Prog, o: nat -> nat, fuel: nat, fr: Frame, st: State, s: Stmt, b: seq<Stmt>, env: map<Name, Value>, st': State)
    requires Exec(p, o, fuel, fr, st, s) == Done(Next(env), st')
    ensures ExecAll(p, o, fuel, fr, st, [s] + b) == ExecAll(p, o, fuel, fr.(env := env), st', b)
  {
    assert ([s] + b)[1..] == b;
  }

  lemma ExecLast(p: Prog, o: nat -> nat, fuel: nat, fr: Frame, st: State, s: Stmt, env: map<Name, Value>, st': State)
    requires Exec(p, o, fuel, fr, st, s) == Done(Next(env), st')
    ensures ExecAll(p, o, fuel, fr, st, [s]) == Done(Next(env), st')
  {
    assert [s] + [] == [s];
    ExecCons(p, o, fuel, fr, st, s, [], env, st');
  }

  lemma EvalCons(p: Prog, o: nat -> nat, fuel: nat, fr: Frame, st: State, e: Expr, es: seq<Expr>, v: Value, st': State)
    requires Eval(p, o, fuel, fr, st, e) == Done(v, st') && EvalAll(p, o, fuel, fr, st', es).Done?
    ensures
      var rest := EvalAll(p, o, fuel, fr, st', es);
      EvalAll(p, o, fuel, fr, st, [e] + es) == Done([v] + rest.v, rest.st)
  {
    assert ([e] + es)[1..] == es;
  }

  lemma EvalLast(p: Prog, o: nat -> nat, fuel: nat, fr: Frame, st: State, e: Expr, v: Value, st': State)
    requires Eval(p, o, fuel, fr, st, e) == Done(v, st')
    ensures EvalAll(p, o, fuel, fr, st, [e]) == Done([v], st')
  {
    assert [e] + [] == [e] && [v] + [] == [v];
    EvalCons(p, o, fuel, fr, st, e, [], v, st');
  }

  /** A call whose body is known to end. */
  lemma RunOf(p: Prog, o: nat -> nat, fuel: nat, fn: Name, vs: seq<Value>, st: State, env: map<Name, Value>, flow: Flow, end: State)
    requires fn in p.funcs && ArgsTyped(p.funcs[fn].params, vs) && Bind(p.funcs[fn].params, vs) == env
    requires
      ExecAll(p, o, fuel, Frame(fn, env, st.nextRegion),
              st.(live := st.live + {st.nextRegion}, nextRegion := st.nextRegion + 1), p.funcs[fn].body) == Done(flow, end)
    ensures
      Run(p, o, fuel, fn, vs, st)
      == Done(if flow.Returned? then flow.result else NoVal, end.(live := end.live - {st.nextRegion}))
  {
  }
}
