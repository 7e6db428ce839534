/** From the driver to the run: what `RegionPasses.Checker.CheckRegions` accepts, starting
    from the parser's specs, is sound once one more round leaves the specs as they are. */
module RegionDriver {
  import opened RegionSyntax
  import opened RegionCheck
  import opened RegionSemantics
  import opened RegionAccepted
  import opened RegionPasses
  import opened RegionFixpoint
  import opened RegionSoundness
  import opened RegionPlaces
  import opened RegionSteps
  import opened RegionHistory
  import opened RegionInvariant
  import opened RegionClassified
  import opened RegionStillSafe
  import opened RegionStart
  import opened Collections
  import opened Machine
  import opened Results

  // ----- rounds of all functions, seen from one -----

  /** What one round of the inference loop does to the specs of fn. */
  lemma RoundOf(funcs: Funcs, safe: set<Name>, order: seq<Name>, info: map<Name, Specs>, fn: Name)
    requires Listed(funcs, info, order) && Distinct(order) && fn in order && PassAll(funcs, safe, info, order).Ok?
    requires var passed := PassAll(funcs, safe, info, order).value; CountAll(funcs, passed, order).Ok?
    ensures
      var passed := PassAll(funcs, safe, info, order).value;
      var counted := CountAll(funcs, passed, order).value.1;
      && BodyPass(funcs, safe, info, fn) == Ok(passed[fn])
      && BodyUnknowns(funcs, passed, fn).Ok? && BodyUnknowns(funcs, passed, fn).value.1 == counted[fn]
  {
    PassAllEach(funcs, safe, info, order);
    CountAllEach(funcs, PassAll(funcs, safe, info, order).value, order);
  }

  lemma {:induction false} InferKeepsParams(funcs: Funcs, safe: set<Name>, order: seq<Name>, info: map<Name, Specs>, previous: nat, fn: Name)
    requires Listed(funcs, info, order) && Distinct(order) && fn in order && previous > 0
    requires WellFormed(funcs[fn]) && ParamsKept(funcs[fn], info[fn])
    requires InferAll(funcs, safe, order, info, previous).Ok?
    ensures
      var last := InferAll(funcs, safe, order, info, previous).value;
      fn in last && ParamsKept(funcs[fn], last[fn])
    decreases previous
  {
    var passed := PassAll(funcs, safe, info, order).value;
    var (n, counted) := CountAll(funcs, passed, order).value;
    RoundOf(funcs, safe, order, info, fn);
    PassKeepsParams(funcs, safe, funcs[fn], info[fn]);
    CountKeepsParams(funcs[fn], passed[fn]);
    if n != 0 {
      InferKeepsParams(funcs, safe, order, counted, n, fn);
    }
  }

  lemma {:induction false} InferStep(funcs: Funcs, safe: set<Name>, order: seq<Name>, info: map<Name, Specs>, previous: nat, fn: Name, at: Places)
    requires Listed(funcs, info, order) && Distinct(order) && fn in order && previous > 0
    requires Proper(at) && AllWhole(funcs, at, NodesB(funcs[fn].body))
    requires InferAll(funcs, safe, order, info, previous).Ok?
    ensures
      var last := InferAll(funcs, safe, order, info, previous).value;
      fn in last && Step(at, info[fn], last[fn])
    decreases previous
  {
    var passed := PassAll(funcs, safe, info, order).value;
    var (n, counted) := CountAll(funcs, passed, order).value;
    RoundOf(funcs, safe, order, info, fn);
    PassStep(funcs, safe, funcs[fn].params, at, info[fn], NodesB(funcs[fn].body));
    UnknownsStep(funcs, at, passed[fn], NodesB(funcs[fn].body));
    StepTrans(at, info[fn], passed[fn], counted[fn]);
    if n != 0 {
      InferStep(funcs, safe, order, counted, n, fn, at);
      StepTrans(at, info[fn], counted[fn], InferAll(funcs, safe, order, info, previous).value[fn]);
    }
  }

  /** From any specs that keep the invariant, the loop leads to the final ones, which keep it too. */
  lemma {:induction false} InferInv(p: Prog, order: seq<Name>, info: map<Name, Specs>, previous: nat, fn: Name, at: Places)
    requires Listed(p.funcs, info, order) && Distinct(order) && fn in order && previous > 0
    requires Ended(p, fn, at) && HasInv(p, fn, at, info[fn])
    requires InferAll(p.funcs, p.safe, order, info, previous) == Ok(p.info)
    ensures HasInv(p, fn, at, p.info[fn])
    ensures Calm(p, fn, at) ==> TiesKept(NodesB(p.funcs[fn].body), info[fn], p.info[fn])
    decreases previous
  {
    var nodes := NodesB(p.funcs[fn].body);
    var passed := PassAll(p.funcs, p.safe, info, order).value;
    var (n, counted) := CountAll(p.funcs, passed, order).value;
    RoundOf(p.funcs, p.safe, order, info, fn);
    UnknownsStep(p.funcs, at, passed[fn], nodes);
    if n != 0 {
      InferStep(p.funcs, p.safe, order, counted, n, fn, at);
      StepTrans(at, passed[fn], counted[fn], p.info[fn]);
    }
    PassInv(p, fn, at, p.safe, info[fn], nodes);
    UnknownsInv(p, fn, at, passed[fn], nodes);
    if n != 0 {
      InferInv(p, order, counted, n, fn, at);
    }
    if Calm(p, fn, at) {
      PassTies(p, fn, at, info[fn], nodes);
      CountTies(p, fn, at, passed[fn], nodes);
      TiesTrans(nodes, info[fn], passed[fn], counted[fn]);
      TiesTrans(nodes, info[fn], counted[fn], p.info[fn]);
    }
  }

  // ----- the whole history of one function -----

  /** An accepted run of the driver over parse trees, and one more round that changes nothing. */
  ghost predicate DrivenIdle(p: Prog, r: History) {
    && DrivenTo(p, r)
    && (forall fn :: fn in p.funcs ==> WellFormed(p.funcs[fn]))
    && forall fn :: fn in p.funcs ==> fn in p.info && Verdict(p, fn)
  }

  /** The programs the promise is made for: no composite globals, no `foreign Region`
      parameter, the fragment, and one spec for all bindings of a name. */
  ghost predicate InScope(p: Prog) {
    p.globals == map[] && forall fn :: fn in p.funcs ==> FunctionInScope(p, fn)
  }

  ghost predicate FunctionInScope(p: Prog, fn: Name)
    requires fn in p.funcs
  {
    && fn in p.info
    && (forall q :: q in p.funcs[fn].params && q.ty == RegionTy ==> !q.isForeign)
    && BindingsAgree(p.info[fn], NodesB(p.funcs[fn].body))
    && forall nd :: nd in NodesB(p.funcs[fn].body) ==> InFragment(p, fn, nd)
  }

  lemma FirstPassOf(p: Prog, r: History, fn: Name)
    requires DrivenIdle(p, r) && fn in p.funcs
    ensures fn in r.first && BodyPass(p.funcs, Elements(r.order), r.start, fn) == Ok(r.first[fn])
    ensures Listed(p.funcs, r.first, r.order)
  {
    PassAllEach(p.funcs, Elements(r.order), r.start, r.order);
  }

  lemma {:induction false} CallsAreOwn(nodes: seq<Node>)
    requires OwnTags(nodes)
    ensures OwnFields(nodes)
  {
    if nodes != [] {
      CallsAreOwn(nodes[1..]);
      forall i | i in AllCalls(nodes[1..])
        ensures i !in OwnCalls(nodes[0])
      {
        var k := CallNodeOf(nodes[1..], i);
        assert NodeTag(nodes[k + 1]) == CallTag(i);
      }
    }
  }

  lemma {:induction false} CallNodeOf(nodes: seq<Node>, i: nat) returns (k: nat)
    requires i in AllCalls(nodes)
    ensures k < |nodes| && NodeTag(nodes[k]) == CallTag(i)
  {
    if i in OwnCalls(nodes[0]) {
      k := 0;
    } else {
      k := CallNodeOf(nodes[1..], i);
      k := k + 1;
    }
  }

  lemma NodesSettled(p: Prog, r: History, fn: Name)
    requires DrivenIdle(p, r) && InScope(p) && fn in p.funcs
    ensures Settled(p, fn, NodesB(p.funcs[fn].body))
  {
    var S, nodes := p.info[fn], NodesB(p.funcs[fn].body);
    CallsAreOwn(nodes);
    IdlePassIsStable(p.funcs, p.safe, p.funcs[fn].params, S, nodes);
    IdleCountIsComplete(S, nodes);
  }

  /** Every name of the table ends with a complete spec. */
  lemma TableComplete(p: Prog, fn: Name)
    requires fn in p.funcs && fn in p.info && ParamsKept(p.funcs[fn], p.info[fn]) && Settled(p, fn, NodesB(p.funcs[fn].body))
    ensures NamesComplete(p.info[fn])
  {
    var F, f := p.info[fn], p.funcs[fn];
    forall x | x in F.tab
      ensures Complete(F.tab[x])
    {
      if x in DeclaredB(f.body) {
        DeclaredIsBound(f.body, x);
        var nd :| nd in NodesB(f.body) && Binds(nd, x);
        BoundComplete(p, fn, nd, x);
      }
    }
  }

  lemma BoundComplete(p: Prog, fn: Name, nd: Node, x: Name)
    requires fn in p.funcs && fn in p.info && Settled(p, fn, NodesB(p.funcs[fn].body))
    requires nd in NodesB(p.funcs[fn].body) && Binds(nd, x)
    ensures x in p.info[fn].tab && Complete(p.info[fn].tab[x])
  {
    var F, e := p.info[fn], nd.s.e;
    assert NodeStable(p, fn, nd) && InFragment(p, fn, nd) && e in Operands(nd);
    OperandIn(p.funcs[fn].body, nd, e);
    SpecSettled(p, fn, e);
    assert F.SetName(x, SpecOf(F, e)) == F;
    assert F.SetName(x, SpecOf(F, e)).tab[x] == SpecOf(F, e);
  }

  lemma PlacesWhole(p: Prog, fn: Name, at: Places)
    requires fn in p.funcs && AllFit(p.funcs, at, NodesB(p.funcs[fn].body))
    ensures AllWhole(p.funcs, at, NodesB(p.funcs[fn].body))
  {
    forall nd, c | nd in NodesB(p.funcs[fn].body) && c in Operands(nd)
      ensures AllFit(p.funcs, at, NodesE(c))
    {
      OperandIn(p.funcs[fn].body, nd, c);
    }
  }

  lemma HistoryParams(p: Prog, r: History, fn: Name)
    requires DrivenIdle(p, r) && fn in p.funcs
    ensures ParamsKept(p.funcs[fn], p.info[fn]) && fn in r.first
  {
    var f := p.funcs[fn];
    FirstPassOf(p, r, fn);
    InitialKept(f, r.start[fn]);
    PassKeepsParams(p.funcs, Elements(r.order), f, r.start[fn]);
    InferKeepsParams(p.funcs, p.safe, r.order, r.first, SIZE_MAX, fn);
  }

  lemma HistorySteps(p: Prog, r: History, fn: Name, at: Places)
    requires DrivenIdle(p, r) && fn in p.funcs && Proper(at) && AllWhole(p.funcs, at, NodesB(p.funcs[fn].body))
    ensures fn in r.first && Step(at, r.first[fn], p.info[fn])
    ensures forall i :: i in at.own ==> LocalOrUnknown(p.info[fn].CallAt(i))
  {
    hide WellFormed, Verdict, Greatest, PostAll;
    FirstPassOf(p, r, fn);
    PassStep(p.funcs, Elements(r.order), p.funcs[fn].params, at, r.start[fn], NodesB(p.funcs[fn].body));
    InferStep(p.funcs, p.safe, r.order, r.first, SIZE_MAX, fn, at);
    StepTrans(at, r.start[fn], r.first[fn], p.info[fn]);
    assert forall i :: r.start[fn].CallAt(i) == UNKNOWN;
  }

  /** The final specs of an accepted function, with the colours of its places. */
  lemma HistoryEnds(p: Prog, r: History, fn: Name) returns (at: Places)
    requires DrivenIdle(p, r) && InScope(p) && fn in p.funcs
    ensures Ended(p, fn, at) && fn in r.first && Step(at, r.first[fn], p.info[fn])
    ensures ParamsKept(p.funcs[fn], p.info[fn])
  {
    at := PlacesOf(p.funcs, NodesB(p.funcs[fn].body));
    PlacesFit(p.funcs, p.funcs[fn].body);
    PlacesWhole(p, fn, at);
    HistoryParams(p, r, fn);
    HistorySteps(p, r, fn, at);
    NodesSettled(p, r, fn);
    TableComplete(p, fn);
  }

  lemma StartNames(p: Prog, fn: Name, at: Places, S: Specs, x: Name)
    requires Ended(p, fn, at) && WellFormed(p.funcs[fn]) && Initial(p.funcs[fn], S)
    requires ParamsKept(p.funcs[fn], S) && ParamsKept(p.funcs[fn], p.info[fn]) && x in S.tab
    ensures Good(p.info[fn], S.tab[x]) && Firm(S.tab[x]) && Foretells(S.tab[x], p.info[fn].tab[x])
  {
    EntryIsParam(p.funcs[fn].params, x);
  }

  lemma StartLits(p: Prog, fn: Name, S: Specs, i: nat)
    requires fn in p.funcs && fn in p.info && Initial(p.funcs[fn], S) && ParamsKept(p.funcs[fn], p.info[fn])
    ensures Good(p.info[fn], S.LitAt(i))
  {
    assert InitialLit(p.funcs[fn], S.LitAt(i));
  }

  /** The parser's specs belie nothing. */
  lemma StartInv(p: Prog, fn: Name, at: Places, S: Specs)
    requires Ended(p, fn, at) && WellFormed(p.funcs[fn]) && Initial(p.funcs[fn], S) && ParamsKept(p.funcs[fn], p.info[fn])
    ensures HasInv(p, fn, at, S)
  {
    InitialKept(p.funcs[fn], S);
    forall x | x in S.tab
      ensures Good(p.info[fn], S.tab[x]) && Firm(S.tab[x]) && Foretells(S.tab[x], p.info[fn].tab[x])
    {
      StartNames(p, fn, at, S, x);
    }
    forall i
      ensures Good(p.info[fn], S.LitAt(i))
    {
      StartLits(p, fn, S, i);
    }
    assert forall i :: S.CallAt(i) == UNKNOWN;
  }

  // ----- what the passes establish -----

  lemma SpecConsistent(F: Specs, s: Spec)
    requires Good(F, s) && NamesComplete(F) && (Firm(s) || Complete(s))
    ensures Consistent(F, s)
  {
  }

  /** The final specs keep the invariant, and a safe classification still holds of them. */
  lemma HistoryKeeps(p: Prog, r: History, fn: Name) returns (at: Places)
    requires DrivenIdle(p, r) && InScope(p) && fn in p.funcs
    ensures Ended(p, fn, at) && HasInv(p, fn, at, p.info[fn]) && ParamsKept(p.funcs[fn], p.info[fn])
    ensures fn in p.safe ==> SafeBody(p.funcs, p.safe, p.info[fn], p.funcs[fn].body)
  {
    hide InScope, Step, Settled, TiesKept, SafeNode;
    at := HistoryEnds(p, r, fn);
    FirstPassOf(p, r, fn);
    StartInv(p, fn, at, r.start[fn]);
    PassInv(p, fn, at, Elements(r.order), r.start[fn], NodesB(p.funcs[fn].body));
    InferInv(p, r.order, r.first, SIZE_MAX, fn, at);
    if fn in p.safe {
      assert SafeBody(p.funcs, p.safe, r.first[fn], p.funcs[fn].body);
      SafeCallsOnly(p, fn, r.first[fn]);
      assert Calm(p, fn, at);
      BodyStillSafe(p, fn, at, r.first[fn]);
    }
  }

  lemma SafeCallsOnly(p: Prog, fn: Name, S: Specs)
    requires fn in p.funcs && SafeBody(p.funcs, p.safe, S, p.funcs[fn].body)
    ensures forall nd :: nd in NodesB(p.funcs[fn].body) && nd.ExprNode? && nd.e.Call? ==> nd.e.fn in p.funcs && nd.e.fn in p.safe
  {
    forall nd | nd in NodesB(p.funcs[fn].body) && nd.ExprNode? && nd.e.Call?
      ensures nd.e.fn in p.funcs && nd.e.fn in p.safe
    {
      assert SafeNode(p.funcs, p.safe, S, nd);
    }
  }

  lemma FunctionAccepted(p: Prog, r: History, fn: Name)
    requires DrivenIdle(p, r) && InScope(p) && fn in p.funcs
    ensures FunctionOk(p, fn)
  {
    var at := HistoryKeeps(p, r, fn);
    var F := p.info[fn];
    forall x | x in F.tab
      ensures Consistent(F, F.tab[x])
    {
      SpecConsistent(F, F.tab[x]);
    }
    forall nd | nd in NodesB(p.funcs[fn].body)
      ensures NodeOk(p, fn, nd)
    {
      NodeAccepted(p, fn, at, nd);
    }
  }

  lemma NodeAccepted(p: Prog, fn: Name, at: Places, nd: Node)
    requires Ended(p, fn, at) && HasInv(p, fn, at, p.info[fn]) && nd in NodesB(p.funcs[fn].body)
    requires fn in p.safe ==> SafeBody(p.funcs, p.safe, p.info[fn], p.funcs[fn].body)
    ensures NodeOk(p, fn, nd)
  {
    var F := p.info[fn];
    assert NodeStable(p, fn, nd) && InFragment(p, fn, nd);
    if nd.ExprNode? {
      forall s | s in NodeSpecs(F, nd.e)
        ensures Consistent(F, s)
      {
        SpecConsistent(F, s);
      }
    }
  }

  /** Region soundness. Let the driver accept a program of the fragment, starting from what
      the parser wrote, and let one more round leave the specs as they are. Then every run,
      however it is cut off, reads no freed region; every pointer of a live object leads to
      a live object of the same region (but for temporary mixed containers, whose pointers
      may lead into older regions); and a completed run has freed every region it made. */
  lemma CheckedProgramSound(p: Prog, r: History, o: nat -> nat, fuel: nat)
    requires "main" in p.funcs && DrivenIdle(p, r) && InScope(p)
    ensures
      var out := Run(p, o, fuel, "main", [], INITIAL);
      && Sheltered(out.Final()) && (!Mixing(p) ==> Confined(out.Final()))
      && (out.Halt? ==> out.why != Dangling)
      && (out.Done? ==> out.st.live == {GLOBAL_REGION})
  {
    forall fn | fn in p.funcs
      ensures FunctionOk(p, fn)
    {
      FunctionAccepted(p, r, fn);
    }
    ProgramSound(p, o, fuel);
  }
}
