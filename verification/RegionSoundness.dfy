/** Soundness of the region checker: on every run of an accepted program each object
    points only into its own region, a temporary mixed container only into regions that
    outlive it, and no freed object is ever read. */
module RegionSoundness {
  import opened RegionSyntax
  import opened RegionCheck
  import opened RegionSemantics
  import opened RegionAccepted
  import opened Results

  // ----- invariants -----

  /** Confinement: a live object's pointers stay in the object's own region. */
  ghost predicate Confined(st: State) {
    forall l, f :: LiveLoc(st, l) && f in st.heap[l].fields ==>
      && st.heap[l].fields[f] in st.heap
      && st.heap[st.heap[l].fields[f]].region == st.heap[l].region
  }

  /** The same, except that a mixed container may point into regions at least as old as its
      own (a region is freed before every older one), and nothing else leads to it. */
  ghost predicate Sheltered(st: State) {
    forall l, f {:trigger PointerOk(st.heap, st.live, st.heap[l], st.heap[l].fields[f])} ::
      LiveLoc(st, l) && f in st.heap[l].fields ==> PointerOk(st.heap, st.live, st.heap[l], st.heap[l].fields[f])
  }

  ghost predicate PointerOk(heap: map<nat, Obj>, live: set<nat>, ob: Obj, to: nat) {
    && to in heap
    && if ob.mixed then heap[to].region in live && heap[to].region <= ob.region
       else heap[to].region == ob.region && !heap[to].mixed
  }

  /** Only programs with a mixing literal ever have a mixed container. */
  ghost predicate HeapOk(p: Prog, st: State) {
    Sheltered(st) && (Mixing(p) || forall l :: l in st.heap ==> !st.heap[l].mixed)
  }

  ghost predicate StateOk(p: Prog, st: State) {
    && HeapOk(p, st)
    && (forall l :: l in st.heap ==> l < st.nextLoc && st.heap[l].region < st.nextRegion)
    && (forall r :: r in st.live ==> r < st.nextRegion)
  }

  lemma UnmixedConfined(p: Prog, st: State)
    requires HeapOk(p, st) && !Mixing(p)
    ensures Confined(st)
  {
    forall l, f | LiveLoc(st, l) && f in st.heap[l].fields
      ensures st.heap[l].fields[f] in st.heap && st.heap[st.heap[l].fields[f]].region == st.heap[l].region
    {
      assert PointerOk(st.heap, st.live, st.heap[l], st.heap[l].fields[f]);
    }
  }

  /** What evaluation may do to the state of a running frame. */
  ghost predicate Extends(st: State, st': State) {
    && st'.live == st.live
    && st'.nextRegion >= st.nextRegion
    && (forall l :: l in st.heap ==> l in st'.heap && st'.heap[l].region == st.heap[l].region && st'.heap[l].mixed == st.heap[l].mixed)
  }

  predicate Alive(v: Value, st: State) {
    match v
    case NoVal => false
    case Ref(l) => LiveLoc(st, l)
    case Reg(r) => r in st.live
  }

  function RegionOfValue(v: Value, st: State): nat
    requires Alive(v, st)
  {
    if v.Ref? then st.heap[v.loc].region else v.rid
  }

  predicate Plain(v: Value, st: State) {
    v.Ref? && v.loc in st.heap ==> !st.heap[v.loc].mixed
  }

  /** A function under the same-region rule has one argument region; a region-safe
      function may have many. */
  datatype Mode = OneRegion(rho: nat) | ManyRegions

  /** The meaning of a spec for a run-time value. */
  ghost predicate Meets(m: Mode, fr: Frame, st: State, s: Spec, v: Value) {
    && Alive(v, st)
    && (s.src != CrossSrc ==> Plain(v, st))
    && (s.src == LocalSrc ==> RegionOfValue(v, st) == fr.local)
    && (s.src == ForeignSrc ==>
          match m
          case OneRegion(rho) => RegionOfValue(v, st) == rho
          case ManyRegions =>
            && s.region in fr.env
            && Alive(fr.env[s.region], st)
            && RegionOfValue(fr.env[s.region], st) == RegionOfValue(v, st))
  }

  ghost predicate FrameOk(p: Prog, m: Mode, fr: Frame, st: State) {
    && fr.fn in p.funcs && fr.fn in p.info && FunctionOk(p, fr.fn)
    && (fr.fn in p.safe <==> m.ManyRegions?)
    && fr.local in st.live && (forall r :: r in st.live ==> r <= fr.local)
    && (m.OneRegion? ==> m.rho in st.live)
    && fr.env.Keys <= p.info[fr.fn].tab.Keys
    && forall x {:trigger VarMeets(p, m, fr, st, x)} :: x in fr.env ==> VarMeets(p, m, fr, st, x)
  }

  /** A variable holds what its spec says. */
  ghost predicate VarMeets(p: Prog, m: Mode, fr: Frame, st: State, x: Name)
    requires fr.fn in p.info && x in fr.env && x in p.info[fr.fn].tab
  {
    Meets(m, fr, st, p.info[fr.fn].tab[x], fr.env[x])
  }

  lemma FrameExtends(p: Prog, m: Mode, fr: Frame, st: State, st': State)
    requires FrameOk(p, m, fr, st) && Extends(st, st')
    ensures FrameOk(p, m, fr, st')
  {
    forall x | x in fr.env
      ensures VarMeets(p, m, fr, st', x)
    {
      assert VarMeets(p, m, fr, st, x);
    }
  }

  // ----- primitive state changes -----

  lemma AllocKeeps(p: Prog, r: nat, fields: map<nat, nat>, st: State, mixed: bool)
    requires StateOk(p, st) && r in st.live && (mixed ==> Mixing(p))
    requires forall f :: f in fields ==> PointerOk(st.heap, st.live, Obj(r, fields, mixed), fields[f])
    ensures
      var out := Alloc(r, fields, st, mixed);
      && out.Done? && StateOk(p, out.st) && Extends(st, out.st)
      && Alive(out.v, out.st) && out.v.Ref? && RegionOfValue(out.v, out.st) == r
      && (!mixed ==> Plain(out.v, out.st))
  {
    var st' := Alloc(r, fields, st, mixed).st;
    forall l, f | LiveLoc(st', l) && f in st'.heap[l].fields
      ensures PointerOk(st'.heap, st'.live, st'.heap[l], st'.heap[l].fields[f])
    {
      if l != st.nextLoc {
        assert LiveLoc(st, l);
        assert PointerOk(st.heap, st.live, st.heap[l], st.heap[l].fields[f]);
      }
    }
  }

  lemma WriteKeeps(p: Prog, l: nat, at: nat, v: Value, st: State)
    requires StateOk(p, st) && LiveLoc(st, l)
    requires v.Ref? ==> Share(st, Ref(l), v)
    ensures StateOk(p, Write(l, at, v, st)) && Extends(st, Write(l, at, v, st))
  {
    var st' := Write(l, at, v, st);
    forall k, f | LiveLoc(st', k) && f in st'.heap[k].fields
      ensures PointerOk(st'.heap, st'.live, st'.heap[k], st'.heap[k].fields[f])
    {
      assert LiveLoc(st, k);
      assert f in st.heap[k].fields ==> PointerOk(st.heap, st.live, st.heap[k], st.heap[k].fields[f]);
    }
  }

  /** The destination of an allocation has the region its spec promises. */
  lemma DestMeets(p: Prog, m: Mode, fr: Frame, st: State, s: Spec)
    requires FrameOk(p, m, fr, st) && Consistent(p.info[fr.fn], s)
    ensures
      match Dest(s, fr, st)
      case Halt(w, st') => w == Panic && st' == st
      case Done(r, st') => st' == st && Meets(m, fr, st, s, Reg(r))
  {
    if s.region in fr.env {
      assert VarMeets(p, m, fr, st, s.region);
    }
  }

  lemma MeetsExtends(m: Mode, fr: Frame, st: State, st': State, s: Spec, v: Value)
    requires Meets(m, fr, st, s, v) && Extends(st, st')
    ensures Meets(m, fr, st', s, v)
  {
  }

  // ----- what the theorem says of each interpreter function -----

  ghost predicate HaltOk<T>(p: Prog, out: Outcome<T>) {
    out.Halt? ==> out.why != Dangling && HeapOk(p, out.st)
  }

  ghost predicate ValueOk(p: Prog, m: Mode, fr: Frame, st: State, e: Expr, v: Value)
    requires fr.fn in p.info
  {
    Typed(v, TypeOf(e)) && (TypeOf(e) != PrimTy ==> Meets(m, fr, st, SpecOf(p.info[fr.fn], e), v))
  }

  ghost predicate EvalOk(p: Prog, m: Mode, fr: Frame, st: State, e: Expr, out: Outcome<Value>)
    requires fr.fn in p.info
  {
    && HaltOk(p, out)
    && (out.Done? ==> StateOk(p, out.st) && Extends(st, out.st) && ValueOk(p, m, fr, out.st, e, out.v))
  }

  ghost predicate EvalAllOk(p: Prog, m: Mode, fr: Frame, st: State, es: seq<Expr>, out: Outcome<seq<Value>>)
    requires fr.fn in p.info
  {
    && HaltOk(p, out)
    && (out.Done? ==>
          && StateOk(p, out.st) && Extends(st, out.st) && |out.v| == |es|
          && forall i :: 0 <= i < |es| ==> ValueOk(p, m, fr, out.st, es[i], out.v[i]))
  }

  /** A call never hands back a reference into its own, freed, region: the result is
      alive and in the argument region. */
  ghost predicate RunOk(p: Prog, m: Mode, st: State, out: Outcome<Value>) {
    && HaltOk(p, out)
    && (out.Done? ==>
          && StateOk(p, out.st) && Extends(st, out.st)
          && (out.v != NoVal ==> m.OneRegion? && Alive(out.v, out.st) && Plain(out.v, out.st) && RegionOfValue(out.v, out.st) == m.rho))
  }

  ghost predicate SamePlace(v: Value, st: State, v': Value, st': State) {
    Alive(v, st) && Alive(v', st') && RegionOfValue(v', st') == RegionOfValue(v, st)
  }

  /** Every name that denotes an argument region keeps denoting it. */
  ghost predicate Steady(tab: map<Name, Spec>, env: map<Name, Value>, st: State, env': map<Name, Value>, st': State) {
    forall x :: x in env && x in tab && tab[x].src == ForeignSrc ==> x in env' && SamePlace(env[x], st, env'[x], st')
  }

  /** The frame after some statements of the body. */
  ghost predicate Moves(p: Prog, m: Mode, fr: Frame, st: State, env: map<Name, Value>, st': State) {
    && Extends(st, st')
    && FrameOk(p, m, fr.(env := env), st')
    && Steady(p.info[fr.fn].tab, fr.env, st, env, st')
  }

  lemma MovesSame(p: Prog, m: Mode, fr: Frame, st: State, st': State)
    requires FrameOk(p, m, fr, st) && Extends(st, st')
    ensures Moves(p, m, fr, st, fr.env, st')
  {
    assert fr.(env := fr.env) == fr;
    FrameExtends(p, m, fr, st, st');
    forall x | x in fr.env
      ensures SamePlace(fr.env[x], st, fr.env[x], st')
    {
      assert VarMeets(p, m, fr, st, x);
    }
  }

  lemma MovesOn(p: Prog, m: Mode, fr: Frame, st: State, env: map<Name, Value>, st': State, env': map<Name, Value>, st'': State)
    requires FrameOk(p, m, fr, st) && Moves(p, m, fr, st, env, st')
    requires Moves(p, m, fr.(env := env), st', env', st'')
    ensures Moves(p, m, fr, st, env', st'')
  {
    assert fr.(env := env).(env := env') == fr.(env := env');
  }

  ghost predicate FlowOk(p: Prog, m: Mode, fr: Frame, st: State, out: Outcome<Flow>) {
    && HaltOk(p, out)
    && (out.Done? ==>
          && StateOk(p, out.st) && Extends(st, out.st)
          && match out.v
             case Next(env) => Moves(p, m, fr, st, env, out.st)
             case Returned(v) =>
               v != NoVal ==> m.OneRegion? && Alive(v, out.st) && Plain(v, out.st) && RegionOfValue(v, out.st) == m.rho)
  }

  ghost predicate ArgsOk(p: Prog, m: Mode, fn: Name, vs: seq<Value>, st: State)
    requires fn in p.funcs
  {
    && (fn in p.safe <==> m.ManyRegions?)
    && (m.OneRegion? ==> m.rho in st.live)
    && forall i :: 0 <= i < |vs| && vs[i] != NoVal ==>
         && Alive(vs[i], st)
         && (i < |p.funcs[fn].params| && !p.funcs[fn].params[i].isForeign ==>
               Plain(vs[i], st) && (m.OneRegion? ==> RegionOfValue(vs[i], st) == m.rho))
  }

  // ----- region-safe operations and compared specs share a region -----

  /** One may point to the other. */
  ghost predicate Share(st: State, a: Value, b: Value) {
    && Alive(a, st) && Alive(b, st) && RegionOfValue(a, st) == RegionOfValue(b, st)
    && Plain(a, st) && Plain(b, st)
  }

  lemma SafeOpShares(p: Prog, m: Mode, fr: Frame, st: State, lhs: Expr, rhs: Expr, a: Value, b: Value)
    requires FrameOk(p, m, fr, st)
    requires TypeOf(lhs) != PrimTy && NodesOk(p, fr.fn, NodesE(lhs))
    requires TypeOf(rhs) != PrimTy && NodesOk(p, fr.fn, NodesE(rhs))
    requires Meets(m, fr, st, SpecOf(p.info[fr.fn], lhs), a) && Meets(m, fr, st, SpecOf(p.info[fr.fn], rhs), b)
    requires SafeOp(p.info[fr.fn], lhs, rhs)
    ensures Share(st, a, b)
  {
    SpecStable(p, fr.fn, lhs);
    SpecStable(p, fr.fn, rhs);
  }

  lemma SameSourceShares(m: Mode, fr: Frame, st: State, s: Spec, t: Spec, a: Value, b: Value)
    requires Meets(m, fr, st, s, a) && Meets(m, fr, st, t, b)
    requires m.OneRegion? && s.src == t.src && (s.src == LocalSrc || s.src == ForeignSrc)
    ensures Share(st, a, b)
  {
  }

  /** Under the same-region rule all arguments have the source of the anchor. */
  lemma ArgsAgree(p: Prog, fn: Name, args: seq<Expr>)
    requires fn in p.funcs && fn in p.info && FunctionOk(p, fn) && args != []
    requires forall a :: a in args ==> TypeOf(a) != PrimTy && NodesOk(p, fn, NodesE(a))
    requires ArgsInRegion(p.info[fn], args) && FirstAgrees(p.info[fn], args)
    ensures forall i :: 0 <= i < |args| ==> SpecOf(p.info[fn], args[i]).src == SpecOf(p.info[fn], Anchor(args)).src
    ensures |args| > 1 ==> SpecOf(p.info[fn], Anchor(args)).src != CrossSrc
  {
    hide TableOk, NodesOk, Consistent;
    var S := p.info[fn];
    SpecStable(p, fn, Anchor(args));
    forall i | 0 <= i < |args|
      ensures GetSpec(S, args[i]) == Ok((SpecOf(S, args[i]), S))
    {
      SpecStable(p, fn, args[i]);
    }
    if !args[0].Lit? {
      AnchorOfNonLiteral(args);
    }
    forall i | 1 <= i < |args|
      ensures SpecOf(S, args[i]).src == SpecOf(S, Anchor(args)).src != CrossSrc
    {
    }
    assert |args| > 1 ==> SpecOf(S, args[1]).src == SpecOf(S, Anchor(args)).src != CrossSrc;
  }

  lemma AnchorOfNonLiteral(args: seq<Expr>)
    requires args != [] && !args[0].Lit?
    ensures Anchor(args) == args[0]
  {
  }

  lemma {:induction false} AllocatedArgsHas(params: seq<Param>, args: seq<Expr>, i: nat)
    requires i < |args| && (i < |params| ==> !params[i].isForeign) && TypeOf(args[i]) != PrimTy
    ensures args[i] in AllocatedArgs(params, args)
  {
    if i > 0 {
      AllocatedArgsHas(if params == [] then [] else params[1..], args[1..], i - 1);
    }
  }

  lemma {:induction false} AllocatedArgsTwo(params: seq<Param>, args: seq<Expr>, i: nat, j: nat)
    requires i < j < |args| && (i < |params| ==> !params[i].isForeign) && TypeOf(args[i]) != PrimTy
    requires (j < |params| ==> !params[j].isForeign) && TypeOf(args[j]) != PrimTy
    ensures |AllocatedArgs(params, args)| > 1
  {
    var rest := if params == [] then [] else params[1..];
    if i > 0 {
      AllocatedArgsTwo(rest, args[1..], i - 1, j - 1);
    } else {
      AllocatedArgsHas(rest, args[1..], j - 1);
    }
  }

  // ----- the region a call's arguments share -----

  lemma CallArgsNodes(p: Prog, fn: Name, e: Expr, a: Expr)
    requires fn in p.funcs && fn in p.info && FunctionOk(p, fn) && e.Call? && NodesOk(p, fn, NodesE(e))
    requires a in CallArgs(p.funcs, e)
    ensures TypeOf(a) != PrimTy && NodesOk(p, fn, NodesE(a))
  {
    AllocatedArgsFrom(if e.fn in p.funcs then p.funcs[e.fn].params else [], e.args);
    if a in e.args {
      NodesOfPart(e, a);
    }
  }

  ghost predicate ArgValuesOk(p: Prog, m: Mode, fr: Frame, st: State, e: Expr, vs: seq<Value>)
    requires fr.fn in p.info && e.Call?
  {
    if e.auto then
      && |vs| == |e.args| + 1
      && Meets(m, fr, st, p.info[fr.fn].CallAt(e.id), vs[|e.args|])
      && vs[|e.args|].Reg?
      && forall i :: 0 <= i < |e.args| ==> ValueOk(p, m, fr, st, e.args[i], vs[i])
    else
      |vs| == |e.args| && forall i :: 0 <= i < |e.args| ==> ValueOk(p, m, fr, st, e.args[i], vs[i])
  }

  /** Nothing mixed is handed to an ordinary parameter. */
  lemma OrdinaryIsPlain(p: Prog, m: Mode, fr: Frame, st: State, e: Expr, vs: seq<Value>, i: nat)
    requires FrameOk(p, m, fr, st) && HeapOk(p, st) && e.Call? && NodesOk(p, fr.fn, NodesE(e)) && e.fn in p.funcs
    requires ArgValuesOk(p, m, fr, st, e, vs) && i < |vs| && vs[i] != NoVal
    requires i < |p.funcs[e.fn].params| ==> !p.funcs[e.fn].params[i].isForeign
    ensures Plain(vs[i], st)
  {
    hide NodeChecked, Sheltered, VarMeets;
    assert NodeOk(p, fr.fn, ExprNode(e));
    if vs[i].Ref? && Mixing(p) {
      assert i < |e.args| && Allocated(e.args[i]);
      assert NoCrossArgs(p.info[fr.fn], p.funcs[e.fn].params, e.args);
    }
  }

  /** The argument region of the callee, and where its result will be. */
  lemma CalleeMode(p: Prog, m: Mode, fr: Frame, st: State, e: Expr, vs: seq<Value>) returns (m': Mode)
    requires HeapOk(p, st)
    requires FrameOk(p, m, fr, st) && e.Call? && NodesOk(p, fr.fn, NodesE(e)) && e.fn in p.funcs
    requires ArgValuesOk(p, m, fr, st, e, vs)
    ensures ArgsOk(p, m', e.fn, vs, st)
    ensures e.ty == CompositeTy && m'.OneRegion? ==> Meets(m, fr, st, p.info[fr.fn].CallAt(e.id), Reg(m'.rho))
  {
    var S := p.info[fr.fn];
    assert NodeOk(p, fr.fn, ExprNode(e));
    var params := p.funcs[e.fn].params;
    forall i | 0 <= i < |vs| && vs[i] != NoVal && (i < |params| ==> !params[i].isForeign)
      ensures Plain(vs[i], st)
    {
      OrdinaryIsPlain(p, m, fr, st, e, vs, i);
    }
    if e.fn in p.safe {
      return ManyRegions;
    }
    assert m.OneRegion?;
    var args := CallArgs(p.funcs, e);
    if args == [] {
      m' := OneRegion(if S.CallAt(e.id).src == ForeignSrc then m.rho else fr.local);
      forall i | 0 <= i < |vs| && vs[i] != NoVal
        ensures Alive(vs[i], st) && (i < |params| ==> params[i].isForeign)
      {
        if !(i < |params| && params[i].isForeign) {
          AllocatedArgsHas(params, e.args, i);
        }
      }
      return;
    }
    forall a | a in args
      ensures TypeOf(a) != PrimTy && NodesOk(p, fr.fn, NodesE(a))
    {
      CallArgsNodes(p, fr.fn, e, a);
    }
    ArgsAgree(p, fr.fn, args);
    OkIsSettled(p, fr.fn, NodesE(e));
    CallSpecIsAnchor(p, fr.fn, e);
    SpecStable(p, fr.fn, Anchor(args));
    var rho := SharedRegion(p, m, fr, st, e, vs);
    m' := OneRegion(rho);
  }

  ghost predicate Counts(params: seq<Param>, args: seq<Expr>, i: nat) {
    i < |args| && (i < |params| ==> !params[i].isForeign) && TypeOf(args[i]) != PrimTy
  }

  lemma SharedRegion(p: Prog, m: Mode, fr: Frame, st: State, e: Expr, vs: seq<Value>) returns (rho: nat)
    requires FrameOk(p, m, fr, st) && m.OneRegion? && e.Call? && e.fn in p.funcs && NodesOk(p, fr.fn, NodesE(e))
    requires ArgValuesOk(p, m, fr, st, e, vs)
    requires CallArgs(p.funcs, e) != []
    requires var args := CallArgs(p.funcs, e); var a := SpecOf(p.info[fr.fn], Anchor(args));
             && (forall i :: 0 <= i < |args| ==> SpecOf(p.info[fr.fn], args[i]).src == a.src)
             && (|args| > 1 ==> a.src != CrossSrc)
             && p.info[fr.fn].CallAt(e.id) == a && Complete(a)
    ensures Meets(m, fr, st, p.info[fr.fn].CallAt(e.id), Reg(rho))
    ensures forall i :: 0 <= i < |vs| && vs[i] != NoVal ==>
      Alive(vs[i], st) && (i < |p.funcs[e.fn].params| && !p.funcs[e.fn].params[i].isForeign ==> RegionOfValue(vs[i], st) == rho)
  {
    var S := p.info[fr.fn];
    var params := p.funcs[e.fn].params;
    var args := CallArgs(p.funcs, e);
    var src := SpecOf(S, Anchor(args)).src;
    assert e.auto ==> SpecOf(S, args[|args| - 1]).src == LocalSrc;
    if src == LocalSrc {
      rho := fr.local;
    } else if src == ForeignSrc {
      rho := m.rho;
    } else {
      assert !e.auto;
      if k :| 0 <= k < |e.args| && Counts(params, e.args, k) {
        rho := RegionOfValue(vs[k], st);
        forall i | 0 <= i < |vs| && Counts(params, e.args, i)
          ensures i == k
        {
          if i < k { AllocatedArgsTwo(params, e.args, i, k); }
          if k < i { AllocatedArgsTwo(params, e.args, k, i); }
        }
      } else {
        rho := fr.local;
      }
    }
    forall i | 0 <= i < |vs| && vs[i] != NoVal
      ensures Alive(vs[i], st)
      ensures i < |params| && !params[i].isForeign ==> RegionOfValue(vs[i], st) == rho
    {
      if i < |e.args| && i < |params| && !params[i].isForeign {
        assert Counts(params, e.args, i);
        AllocatedArgsHas(params, e.args, i);
        assert e.args[i] in args;
        var j :| 0 <= j < |args| && args[j] == e.args[i];
        assert SpecOf(S, args[j]).src == src;
      }
      if i == |e.args| {
        assert SpecOf(S, args[|args| - 1]).src == LocalSrc;
      }
    }
  }

  // ----- the simultaneous induction over the interpreter -----

  ghost predicate Ready(p: Prog, m: Mode, fr: Frame, st: State) {
    Accepted(p) && FrameOk(p, m, fr, st) && StateOk(p, st)
  }

  lemma {:induction false} EvalSound(p: Prog, o: nat -> nat, fuel: nat, m: Mode, fr: Frame, st: State, e: Expr)
    requires Ready(p, m, fr, st) && NodesOk(p, fr.fn, NodesE(e))
    ensures EvalOk(p, m, fr, st, e, Eval(p, o, fuel, fr, st, e))
    decreases fuel, 0, e, 2
  {
    match e
    case Prim =>
    case Ident(_, _) => LeafSound(p, o, fuel, m, fr, st, e);
    case LocalRegion => LeafSound(p, o, fuel, m, fr, st, e);
    case RegionOf(_) => LeafSound(p, o, fuel, m, fr, st, e);
    case Lit(_, _, _) => LitSound(p, o, fuel, m, fr, st, e);
    case Call(_, _, _, _, _) => CallSound(p, o, fuel, m, fr, st, e);
    case Push(_, _) => PushSound(p, o, fuel, m, fr, st, e);
    case Pop(_, _, _) => PopSound(p, o, fuel, m, fr, st, e);
    case Copy(_, _, _) => CopySound(p, o, fuel, m, fr, st, e);
    case Part(_, _, _) => PartSound(p, o, fuel, m, fr, st, e);
    case Lookup(_, _) => LookupSound(p, o, fuel, m, fr, st, e);
    case Slice(_) => SliceSound(p, o, fuel, m, fr, st, e);
    case Ternary(_, _, _, _) => TernarySound(p, o, fuel, m, fr, st, e);
  }

  lemma LeafSound(p: Prog, o: nat -> nat, fuel: nat, m: Mode, fr: Frame, st: State, e: Expr)
    requires Ready(p, m, fr, st) && NodesOk(p, fr.fn, NodesE(e)) && (e.Ident? || e.LocalRegion? || e.RegionOf?)
    ensures EvalOk(p, m, fr, st, e, Eval(p, o, fuel, fr, st, e))
  {
    assert NodeOk(p, fr.fn, ExprNode(e));
    if e.Ident? && e.name in fr.env {
      assert VarMeets(p, m, fr, st, e.name);
    } else if e.RegionOf? && e.name in fr.env {
      assert VarMeets(p, m, fr, st, e.name);
    }
  }

  lemma {:induction false} EvalAllSound(p: Prog, o: nat -> nat, fuel: nat, m: Mode, fr: Frame, st: State, es: seq<Expr>)
    requires Ready(p, m, fr, st) && NodesOk(p, fr.fn, NodesEs(es))
    ensures EvalAllOk(p, m, fr, st, es, EvalAll(p, o, fuel, fr, st, es))
    decreases fuel, 0, es
  {
    hide StateOk, Meets, NodeOk, VarMeets;
    if es != [] {
      EvalSound(p, o, fuel, m, fr, st, es[0]);
      var head := Eval(p, o, fuel, fr, st, es[0]);
      if head.Done? {
        EvalOkReady(p, m, fr, st, es[0], head);
        EvalAllSound(p, o, fuel, m, fr, head.st, es[1..]);
        var tail := EvalAll(p, o, fuel, fr, head.st, es[1..]);
        if tail.Done? {
          ValueExtends(p, m, fr, head.st, tail.st, es[0], head.v);
        }
      }
    }
  }

  lemma ValueExtends(p: Prog, m: Mode, fr: Frame, st: State, st': State, e: Expr, v: Value)
    requires fr.fn in p.info && ValueOk(p, m, fr, st, e, v) && Extends(st, st')
    ensures ValueOk(p, m, fr, st', e, v)
  {
    if TypeOf(e) != PrimTy {
      MeetsExtends(m, fr, st, st', SpecOf(p.info[fr.fn], e), v);
    }
  }

  lemma {:induction false} LitSound(p: Prog, o: nat -> nat, fuel: nat, m: Mode, fr: Frame, st: State, e: Expr)
    requires Ready(p, m, fr, st) && NodesOk(p, fr.fn, NodesE(e)) && e.Lit?
    ensures EvalOk(p, m, fr, st, e, Eval(p, o, fuel, fr, st, e))
    decreases fuel, 0, e, 0
  {
    assert NodeOk(p, fr.fn, ExprNode(e));
    EvalAllSound(p, o, fuel, m, fr, st, e.elems);
    LitMade(p, o, fuel, m, fr, st, e);
  }

  /** A literal is made where its spec says, over elements of that same region. */
  lemma LitMade(p: Prog, o: nat -> nat, fuel: nat, m: Mode, fr: Frame, st: State, e: Expr)
    requires Ready(p, m, fr, st) && NodesOk(p, fr.fn, NodesE(e)) && e.Lit?
    requires EvalAllOk(p, m, fr, st, e.elems, EvalAll(p, o, fuel, fr, st, e.elems))
    ensures EvalOk(p, m, fr, st, e, Eval(p, o, fuel, fr, st, e))
  {
    var s := p.info[fr.fn].LitAt(e.id);
    assert NodeOk(p, fr.fn, ExprNode(e));
    var out := EvalAll(p, o, fuel, fr, st, e.elems);
    if out.Done? {
      var vs, st1 := out.v, out.st;
      FrameExtends(p, m, fr, st, st1);
      DestMeets(p, m, fr, st1, s);
      var dest := Dest(s, fr, st1);
      if dest.Done? {
        LitAllocated(p, m, fr, st1, e, vs, dest.v);
      }
    }
  }

  lemma LitAllocated(p: Prog, m: Mode, fr: Frame, st: State, e: Expr, vs: seq<Value>, r: nat)
    requires FrameOk(p, m, fr, st) && StateOk(p, st) && NodesOk(p, fr.fn, NodesE(e)) && e.Lit? && |vs| == |e.elems|
    requires forall i :: 0 <= i < |vs| ==> ValueOk(p, m, fr, st, e.elems[i], vs[i])
    requires Dest(p.info[fr.fn].LitAt(e.id), fr, st) == Done(r, st) && Meets(m, fr, st, p.info[fr.fn].LitAt(e.id), Reg(r))
    ensures
      var out := Alloc(r, Pointers(vs), st, Mixes(p.info[fr.fn].LitAt(e.id), e.elems));
      out.Done? && StateOk(p, out.st) && Extends(st, out.st) && ValueOk(p, m, fr, out.st, e, out.v)
  {
    var s := p.info[fr.fn].LitAt(e.id);
    var mixed := Mixes(s, e.elems);
    assert NodeOk(p, fr.fn, ExprNode(e));
    ElemsInRegion(p, m, fr, st, e, vs, r);
    AllocKeeps(p, r, Pointers(vs), st, mixed);
    var out := Alloc(r, Pointers(vs), st, mixed);
    MeetsExtends(m, fr, st, out.st, s, Reg(r));
    MeetsLike(m, fr, out.st, s, Reg(r), out.v);
  }

  lemma ElemInRegion(p: Prog, m: Mode, fr: Frame, st: State, e: Expr, i: nat, v: Value, r: nat)
    requires FrameOk(p, m, fr, st) && NodesOk(p, fr.fn, NodesE(e)) && e.Lit?
    requires i < |e.elems| && ValueOk(p, m, fr, st, e.elems[i], v) && v.Ref?
    requires Dest(p.info[fr.fn].LitAt(e.id), fr, st) == Done(r, st) && Meets(m, fr, st, p.info[fr.fn].LitAt(e.id), Reg(r))
    ensures PointerOk(st.heap, st.live, Obj(r, map[], Mixes(p.info[fr.fn].LitAt(e.id), e.elems)), v.loc)
  {
    var S := p.info[fr.fn];
    var c := e.elems[i];
    assert c in e.elems && Allocated(c);
    NodesOfPart(e, c);
    assert NodeOk(p, fr.fn, ExprNode(e));
    SpecStable(p, fr.fn, c);
    if S.LitAt(e.id).src == CrossSrc {
      assert Mixes(S.LitAt(e.id), e.elems);
    } else if fr.fn in p.safe {
      SafeOpShares(p, m, fr, st, e, c, Reg(r), v);
    } else {
      assert ChildInRegion(S, e, c);
      SameSourceShares(m, fr, st, S.LitAt(e.id), SpecOf(S, c), Reg(r), v);
    }
  }

  lemma ElemsInRegion(p: Prog, m: Mode, fr: Frame, st: State, e: Expr, vs: seq<Value>, r: nat)
    requires FrameOk(p, m, fr, st) && NodesOk(p, fr.fn, NodesE(e)) && e.Lit? && |vs| == |e.elems|
    requires forall i :: 0 <= i < |vs| ==> ValueOk(p, m, fr, st, e.elems[i], vs[i])
    requires Dest(p.info[fr.fn].LitAt(e.id), fr, st) == Done(r, st) && Meets(m, fr, st, p.info[fr.fn].LitAt(e.id), Reg(r))
    ensures forall i :: i in Pointers(vs) ==>
      PointerOk(st.heap, st.live, Obj(r, Pointers(vs), Mixes(p.info[fr.fn].LitAt(e.id), e.elems)), Pointers(vs)[i])
  {
    forall i | i in Pointers(vs)
      ensures PointerOk(st.heap, st.live, Obj(r, Pointers(vs), Mixes(p.info[fr.fn].LitAt(e.id), e.elems)), Pointers(vs)[i])
    {
      ElemInRegion(p, m, fr, st, e, i, vs[i], r);
    }
  }

  // ----- specs given once more by the code generator -----

  /** d is an element of e, or of one of its literal elements, and so on. */
  ghost predicate LitBelow(e: Expr, d: Expr)
    decreases e
  {
    e.Lit? && exists c :: c in e.elems && c.Lit? && (d == c || LitBelow(c, d))
  }

  /** Two specs that denote one region in every frame of the function. */
  ghost predicate SameDest(safe: bool, s: Spec, t: Spec) {
    && s.src == t.src && (s.src == LocalSrc || s.src == ForeignSrc)
    && (safe && s.src == ForeignSrc ==> s.kind == t.kind && s.region == t.region)
  }

  lemma ElemSameDest(p: Prog, fn: Name, e: Expr, c: Expr)
    requires fn in p.funcs && fn in p.info && NodesOk(p, fn, NodesE(e)) && e.Lit? && c in e.elems && c.Lit?
    requires e.lit.StructLit? || p.info[fn].LitAt(e.id).src != CrossSrc
    ensures SameDest(fn in p.safe, p.info[fn].LitAt(e.id), p.info[fn].LitAt(c.id)) && NodesOk(p, fn, NodesE(c))
  {
    NodesOfPart(e, c);
    assert NodeOk(p, fn, ExprNode(e));
    assert ChildInRegion(p.info[fn], e, c);
    if fn in p.safe {
      assert SafeOp(p.info[fn], e, c);
    } else {
      assert NodeOk(p, fn, ExprNode(c)) && HasAllocSpec(c);
    }
  }

  lemma {:induction false} BelowSameDest(p: Prog, fn: Name, e: Expr, d: Expr)
    requires fn in p.funcs && fn in p.info && NodesOk(p, fn, NodesE(e)) && LitBelow(e, d)
    requires e.lit.StructLit? || p.info[fn].LitAt(e.id).src != CrossSrc
    ensures d.Lit? && SameDest(fn in p.safe, p.info[fn].LitAt(e.id), p.info[fn].LitAt(d.id))
    decreases e
  {
    var c :| c in e.elems && c.Lit? && (d == c || LitBelow(c, d));
    ElemSameDest(p, fn, e, c);
    if d != c {
      BelowSameDest(p, fn, c, d);
    }
  }

  /** A struct literal hands its spec down once more when its code is generated. In an
      accepted program no literal below it moves to another region by that. */
  lemma ResettingKeepsRegion(p: Prog, m: Mode, fr: Frame, st: State, e: Expr, d: Expr)
    requires FrameOk(p, m, fr, st) && NodesOk(p, fr.fn, NodesE(e)) && e.Lit? && e.lit.StructLit? && LitBelow(e, d)
    ensures d.Lit?
    ensures
      var above, own := Dest(p.info[fr.fn].LitAt(e.id), fr, st), Dest(p.info[fr.fn].LitAt(d.id), fr, st);
      above.Done? && own.Done? ==> above == own
  {
    BelowSameDest(p, fr.fn, e, d);
    var s, t := p.info[fr.fn].LitAt(e.id), p.info[fr.fn].LitAt(d.id);
    if fr.fn !in p.safe || s.src == LocalSrc {
      LitConsistent(p, fr.fn, e);
      BelowOk(p, fr.fn, e, d);
      LitConsistent(p, fr.fn, d);
      DestMeets(p, m, fr, st, s);
      DestMeets(p, m, fr, st, t);
    }
  }

  lemma LitConsistent(p: Prog, fn: Name, e: Expr)
    requires fn in p.funcs && fn in p.info && NodesOk(p, fn, NodesE(e)) && e.Lit?
    ensures Consistent(p.info[fn], p.info[fn].LitAt(e.id))
  {
    assert NodeOk(p, fn, ExprNode(e));
    assert p.info[fn].LitAt(e.id) in NodeSpecs(p.info[fn], e);
  }

  lemma {:induction false} BelowOk(p: Prog, fn: Name, e: Expr, d: Expr)
    requires fn in p.funcs && fn in p.info && NodesOk(p, fn, NodesE(e)) && LitBelow(e, d)
    ensures NodesOk(p, fn, NodesE(d))
    decreases e
  {
    var c :| c in e.elems && c.Lit? && (d == c || LitBelow(c, d));
    NodesOfPart(e, c);
    assert NodesOk(p, fn, NodesE(c));
    if d != c {
      BelowOk(p, fn, c, d);
    }
  }

  lemma {:induction false} CallSound(p: Prog, o: nat -> nat, fuel: nat, m: Mode, fr: Frame, st: State, e: Expr)
    requires Ready(p, m, fr, st) && NodesOk(p, fr.fn, NodesE(e)) && e.Call?
    ensures EvalOk(p, m, fr, st, e, Eval(p, o, fuel, fr, st, e))
    decreases fuel, 0, e, 1
  {
    assert NodeOk(p, fr.fn, ExprNode(e));
    EvalAllSound(p, o, fuel, m, fr, st, e.args);
    var out := EvalAll(p, o, fuel, fr, st, e.args);
    if out.Halt? || fuel == 0 || e.fn !in p.funcs {
      CallStops(p, o, fuel, m, fr, st, e);
      return;
    }
    if e.auto && Dest(p.info[fr.fn].CallAt(e.id), fr, out.st).Halt? {
      CallWithoutRegion(p, o, fuel, m, fr, st, e);
      return;
    }
    CallRuns(p, o, fuel, m, fr, st, e);
  }

  lemma {:induction false} CallRuns(p: Prog, o: nat -> nat, fuel: nat, m: Mode, fr: Frame, st: State, e: Expr)
    requires Ready(p, m, fr, st) && NodesOk(p, fr.fn, NodesE(e)) && e.Call? && fuel > 0 && e.fn in p.funcs
    requires EvalAllOk(p, m, fr, st, e.args, EvalAll(p, o, fuel, fr, st, e.args)) && EvalAll(p, o, fuel, fr, st, e.args).Done?
    requires e.auto ==> Dest(p.info[fr.fn].CallAt(e.id), fr, EvalAll(p, o, fuel, fr, st, e.args).st).Done?
    ensures EvalOk(p, m, fr, st, e, Eval(p, o, fuel, fr, st, e))
    decreases fuel, 0, e, 0
  {
    assert NodeOk(p, fr.fn, ExprNode(e));
    var st1 := EvalAll(p, o, fuel, fr, st, e.args).st;
    var vs := ArgsPassed(p, o, fuel, m, fr, st, e);
    var m' := CalleeMode(p, m, fr, st1, e, vs);
    RunSound(p, o, fuel - 1, m', e.fn, vs, st1);
    CallReturned(p, o, fuel, m, fr, st, e, m', vs, st1);
  }

  /** The values a call hands over: the arguments, and the region of an automatic one. */
  ghost predicate Passed(p: Prog, o: nat -> nat, fuel: nat, fr: Frame, st: State, e: Expr, vs: seq<Value>, st1: State)
    requires e.Call?
  {
    var out := EvalAll(p, o, fuel, fr, st, e.args);
    && out.Done? && out.st == st1
    && if e.auto then
         var dest := Dest(SpecsOf(p, fr).CallAt(e.id), fr, st1);
         dest.Done? && dest.st == st1 && vs == out.v + [Reg(dest.v)]
       else vs == out.v
  }

  lemma ArgsPassed(p: Prog, o: nat -> nat, fuel: nat, m: Mode, fr: Frame, st: State, e: Expr) returns (vs: seq<Value>)
    requires Ready(p, m, fr, st) && NodesOk(p, fr.fn, NodesE(e)) && e.Call?
    requires EvalAllOk(p, m, fr, st, e.args, EvalAll(p, o, fuel, fr, st, e.args)) && EvalAll(p, o, fuel, fr, st, e.args).Done?
    requires e.auto ==> Dest(p.info[fr.fn].CallAt(e.id), fr, EvalAll(p, o, fuel, fr, st, e.args).st).Done?
    ensures
      var st1 := EvalAll(p, o, fuel, fr, st, e.args).st;
      Passed(p, o, fuel, fr, st, e, vs, st1) && FrameOk(p, m, fr, st1) && ArgValuesOk(p, m, fr, st1, e, vs)
  {
    var out := EvalAll(p, o, fuel, fr, st, e.args);
    assert NodeOk(p, fr.fn, ExprNode(e));
    FrameExtends(p, m, fr, st, out.st);
    vs := out.v;
    if e.auto {
      var s := p.info[fr.fn].CallAt(e.id);
      DestMeets(p, m, fr, out.st, s);
      vs := vs + [Reg(Dest(s, fr, out.st).v)];
    }
  }

  /** A call that stops before its callee runs. */
  lemma CallStops(p: Prog, o: nat -> nat, fuel: nat, m: Mode, fr: Frame, st: State, e: Expr)
    requires Ready(p, m, fr, st) && NodesOk(p, fr.fn, NodesE(e)) && e.Call?
    requires EvalAllOk(p, m, fr, st, e.args, EvalAll(p, o, fuel, fr, st, e.args))
    requires EvalAll(p, o, fuel, fr, st, e.args).Halt? || fuel == 0 || e.fn !in p.funcs
    ensures EvalOk(p, m, fr, st, e, Eval(p, o, fuel, fr, st, e))
  {
    var out := EvalAll(p, o, fuel, fr, st, e.args);
    if out.Done? {
      assert NodeOk(p, fr.fn, ExprNode(e));
      FrameExtends(p, m, fr, st, out.st);
      if e.auto {
        DestMeets(p, m, fr, out.st, p.info[fr.fn].CallAt(e.id));
      }
    }
  }

  lemma CallWithoutRegion(p: Prog, o: nat -> nat, fuel: nat, m: Mode, fr: Frame, st: State, e: Expr)
    requires Ready(p, m, fr, st) && NodesOk(p, fr.fn, NodesE(e)) && e.Call? && e.auto
    requires EvalAllOk(p, m, fr, st, e.args, EvalAll(p, o, fuel, fr, st, e.args)) && EvalAll(p, o, fuel, fr, st, e.args).Done?
    requires Dest(p.info[fr.fn].CallAt(e.id), fr, EvalAll(p, o, fuel, fr, st, e.args).st).Halt?
    ensures EvalOk(p, m, fr, st, e, Eval(p, o, fuel, fr, st, e))
  {
    var out := EvalAll(p, o, fuel, fr, st, e.args);
    assert NodeOk(p, fr.fn, ExprNode(e));
    FrameExtends(p, m, fr, st, out.st);
    DestMeets(p, m, fr, out.st, p.info[fr.fn].CallAt(e.id));
  }

  /** What the callee hands back meets the spec of the call. */
  lemma CallReturned(p: Prog, o: nat -> nat, fuel: nat, m: Mode, fr: Frame, st: State, e: Expr, m': Mode, vs: seq<Value>, st1: State)
    requires fr.fn in p.info && e.Call? && fuel > 0 && TypeOf(e) != RegionTy && Extends(st, st1)
    requires Passed(p, o, fuel, fr, st, e, vs, st1)
    requires RunOk(p, m', st1, Run(p, o, fuel - 1, e.fn, vs, st1))
    requires e.ty == CompositeTy && m'.OneRegion? ==> Meets(m, fr, st1, p.info[fr.fn].CallAt(e.id), Reg(m'.rho))
    ensures EvalOk(p, m, fr, st, e, Eval(p, o, fuel, fr, st, e))
  {
    hide HeapOk, Meets;
    var out := Run(p, o, fuel - 1, e.fn, vs, st1);
    if out.Done? && e.ty == CompositeTy && out.v.Ref? {
      ReturnedMeets(m, fr, st1, out.st, p.info[fr.fn].CallAt(e.id), m'.rho, out.v);
    }
  }

  lemma ReturnedMeets(m: Mode, fr: Frame, st: State, st': State, s: Spec, rho: nat, v: Value)
    requires Meets(m, fr, st, s, Reg(rho)) && Extends(st, st')
    requires Alive(v, st') && Plain(v, st') && RegionOfValue(v, st') == rho
    ensures Meets(m, fr, st', s, v)
  {
    MeetsExtends(m, fr, st, st', s, Reg(rho));
  }

  lemma {:induction false} PushSound(p: Prog, o: nat -> nat, fuel: nat, m: Mode, fr: Frame, st: State, e: Expr)
    requires Ready(p, m, fr, st) && NodesOk(p, fr.fn, NodesE(e)) && e.Push?
    ensures EvalOk(p, m, fr, st, e, Eval(p, o, fuel, fr, st, e))
    decreases fuel, 0, e, 0
  {
    assert NodeOk(p, fr.fn, ExprNode(e));
    NodesOfPart(e, e.vec);
    NodesOfPart(e, e.item);
    EvalSound(p, o, fuel, m, fr, st, e.vec);
    var c := Eval(p, o, fuel, fr, st, e.vec);
    if c.Done? {
      FrameExtends(p, m, fr, st, c.st);
      EvalSound(p, o, fuel, m, fr, c.st, e.item);
      var v := Eval(p, o, fuel, fr, c.st, e.item);
      if v.Done? {
        PushMade(p, o, m, fr, c.st, e, c.v, v.v, v.st);
      }
    }
  }

  /** The write of a push keeps the heap sheltered. */
  lemma PushMade(p: Prog, o: nat -> nat, m: Mode, fr: Frame, st: State, e: Expr, c: Value, v: Value, st': State)
    requires FrameOk(p, m, fr, st) && NodesOk(p, fr.fn, NodesE(e)) && e.Push? && Allocated(e.vec)
    requires ValueOk(p, m, fr, st, e.vec, c) && Extends(st, st') && StateOk(p, st') && ValueOk(p, m, fr, st', e.item, v)
    ensures
      var (at, st'') := Ask(o, st');
      c.Ref? && LiveLoc(st', c.loc) && StateOk(p, Write(c.loc, at, v, st'')) && Extends(st', Write(c.loc, at, v, st''))
  {
    FrameExtends(p, m, fr, st, st');
    MeetsExtends(m, fr, st, st', SpecOf(p.info[fr.fn], e.vec), c);
    if v.Ref? {
      PushShares(p, m, fr, st', e, c, v);
    }
    var (at, st'') := Ask(o, st');
    WriteKeeps(p, c.loc, at, v, st'');
  }

  lemma PushShares(p: Prog, m: Mode, fr: Frame, st: State, e: Expr, c: Value, v: Value)
    requires FrameOk(p, m, fr, st) && NodesOk(p, fr.fn, NodesE(e)) && e.Push? && v.Ref?
    requires ValueOk(p, m, fr, st, e.vec, c) && ValueOk(p, m, fr, st, e.item, v) && Allocated(e.vec)
    ensures Share(st, c, v)
  {
    var S := p.info[fr.fn];
    assert NodeOk(p, fr.fn, ExprNode(e));
    NodesOfPart(e, e.vec);
    NodesOfPart(e, e.item);
    if SafeCall(p.funcs, p.safe, S, e) {
      SafeOpShares(p, m, fr, st, e.vec, e.item, c, v);
    } else {
      var args := [e.vec, e.item];
      ArgsAgree(p, fr.fn, args);
      assert SpecOf(S, args[0]).src == SpecOf(S, args[1]).src;
      SpecStable(p, fr.fn, e.vec);
      SpecStable(p, fr.fn, e.item);
      SameSourceShares(m, fr, st, SpecOf(S, e.vec), SpecOf(S, e.item), c, v);
    }
  }

  lemma {:induction false} PopSound(p: Prog, o: nat -> nat, fuel: nat, m: Mode, fr: Frame, st: State, e: Expr)
    requires Ready(p, m, fr, st) && NodesOk(p, fr.fn, NodesE(e)) && e.Pop?
    ensures EvalOk(p, m, fr, st, e, Eval(p, o, fuel, fr, st, e))
    decreases fuel, 0, e, 0
  {
    BaseSpec(p, fr.fn, e, e.vec);
    EvalSound(p, o, fuel, m, fr, st, e.vec);
    PopTaken(p, o, fuel, m, fr, st, e);
  }

  /** Taking an element out of a container leaves it in the container's region. */
  lemma PopTaken(p: Prog, o: nat -> nat, fuel: nat, m: Mode, fr: Frame, st: State, e: Expr)
    requires fr.fn in p.info && e.Pop? && TypeOf(e) != RegionTy && Allocated(e.vec)
    requires SpecOf(p.info[fr.fn], e) == SpecOf(p.info[fr.fn], e.vec)
    requires EvalOk(p, m, fr, st, e.vec, Eval(p, o, fuel, fr, st, e.vec))
    ensures EvalOk(p, m, fr, st, e, Eval(p, o, fuel, fr, st, e))
  {
    var c := Eval(p, o, fuel, fr, st, e.vec);
    if c.Done? && e.ty == CompositeTy {
      PopMade(p, o, m, fr, c.st, SpecOf(p.info[fr.fn], e.vec), c.v);
    }
  }

  lemma PopMade(p: Prog, o: nat -> nat, m: Mode, fr: Frame, st: State, s: Spec, c: Value)
    requires StateOk(p, st) && c.Ref? && Meets(m, fr, st, s, c)
    ensures
      var (at, st3) := Ask(o, st);
      at in st3.heap[c.loc].fields ==>
        var st' := st3.(heap := st3.heap[c.loc := st3.heap[c.loc].(fields := st3.heap[c.loc].fields - {at})]);
        StateOk(p, st') && Extends(st, st') && Meets(m, fr, st', s, Ref(st3.heap[c.loc].fields[at]))
  {
    var (at, st3) := Ask(o, st);
    if at in st3.heap[c.loc].fields {
      RemovedMeets(p, m, fr, st3, s, c.loc, at);
    }
  }

  /** Reading through a base keeps the base's spec. */
  lemma BaseSpec(p: Prog, fn: Name, e: Expr, base: Expr)
    requires fn in p.funcs && fn in p.info && TableOk(p, fn) && NodesOk(p, fn, NodesE(e))
    requires (e.Pop? && e.vec == base) || ((e.Part? || e.Lookup? || e.Slice?) && e.base == base)
    ensures Allocated(base) && NodesOk(p, fn, NodesE(base)) && TypeOf(e) != RegionTy
    ensures SpecOf(p.info[fn], e) == SpecOf(p.info[fn], base)
  {
    assert NodeOk(p, fn, ExprNode(e));
    NodesOfPart(e, base);
    SpecStable(p, fn, base);
    if e.Pop? {
      assert p.info[fn].CallAt(e.id) == SpecOf(p.info[fn], base);
    }
  }

  lemma RemoveKeeps(p: Prog, l: nat, at: nat, st: State)
    requires StateOk(p, st) && LiveLoc(st, l) && at in st.heap[l].fields
    ensures
      var st' := st.(heap := st.heap[l := st.heap[l].(fields := st.heap[l].fields - {at})]);
      StateOk(p, st') && Extends(st, st') && PointerOk(st'.heap, st'.live, st'.heap[l], st.heap[l].fields[at])
  {
    var st' := st.(heap := st.heap[l := st.heap[l].(fields := st.heap[l].fields - {at})]);
    assert PointerOk(st.heap, st.live, st.heap[l], st.heap[l].fields[at]);
    forall k, f | LiveLoc(st', k) && f in st'.heap[k].fields
      ensures PointerOk(st'.heap, st'.live, st'.heap[k], st'.heap[k].fields[f])
    {
      assert LiveLoc(st, k) && f in st.heap[k].fields;
      assert PointerOk(st.heap, st.live, st.heap[k], st.heap[k].fields[f]);
    }
  }

  /** What a live object points to meets the object's spec. */
  lemma FieldMeets(m: Mode, fr: Frame, st: State, s: Spec, l: nat, to: nat)
    requires Meets(m, fr, st, s, Ref(l)) && PointerOk(st.heap, st.live, st.heap[l], to)
    ensures Meets(m, fr, st, s, Ref(to))
  {
  }

  /** What is taken out of a live object meets the object's spec. */
  lemma RemovedMeets(p: Prog, m: Mode, fr: Frame, st: State, s: Spec, l: nat, at: nat)
    requires StateOk(p, st) && Meets(m, fr, st, s, Ref(l)) && at in st.heap[l].fields
    ensures
      var st' := st.(heap := st.heap[l := st.heap[l].(fields := st.heap[l].fields - {at})]);
      StateOk(p, st') && Extends(st, st') && Meets(m, fr, st', s, Ref(st.heap[l].fields[at]))
  {
    RemoveKeeps(p, l, at, st);
    var st' := st.(heap := st.heap[l := st.heap[l].(fields := st.heap[l].fields - {at})]);
    MeetsExtends(m, fr, st, st', s, Ref(l));
    FieldMeets(m, fr, st', s, l, st.heap[l].fields[at]);
  }

  lemma {:induction false} CopySound(p: Prog, o: nat -> nat, fuel: nat, m: Mode, fr: Frame, st: State, e: Expr)
    requires Ready(p, m, fr, st) && NodesOk(p, fr.fn, NodesE(e)) && e.Copy?
    ensures EvalOk(p, m, fr, st, e, Eval(p, o, fuel, fr, st, e))
    decreases fuel, 0, e, 0
  {
    hide EvalOk, Eval, NodeOk, VarMeets, StateOk;
    NodesOfPart(e, e.of);
    NodesOkPart(p, fr, e, e.of);
    EvalSound(p, o, fuel, m, fr, st, e.of);
    if e.dest == [] {
      CopyHereSound(p, o, fuel, m, fr, st, e);
    } else {
      var c := Eval(p, o, fuel, fr, st, e.of);
      if c.Done? {
        EvalOkReady(p, m, fr, st, e.of, c);
        NodesOfPart(e, e.dest[0]);
        NodesOkPart(p, fr, e, e.dest[0]);
        EvalSound(p, o, fuel, m, fr, c.st, e.dest[0]);
      }
      CopyThereSound(p, o, fuel, m, fr, st, e);
    }
  }

  lemma NodesOkPart(p: Prog, fr: Frame, e: Expr, c: Expr)
    requires fr.fn in p.funcs && fr.fn in p.info && NodesOk(p, fr.fn, NodesE(e))
    requires forall nd :: nd in NodesE(c) ==> nd in NodesE(e)
    ensures NodesOk(p, fr.fn, NodesE(c))
  {
    hide NodeOk;
  }

  /** A frame is as ready for the next operand as it was for the last one. */
  lemma EvalOkReady(p: Prog, m: Mode, fr: Frame, st: State, e: Expr, out: Outcome<Value>)
    requires Ready(p, m, fr, st) && EvalOk(p, m, fr, st, e, out) && out.Done?
    ensures Ready(p, m, fr, out.st)
  {
    hide StateOk, FrameOk, ValueOk;
    FrameExtends(p, m, fr, st, out.st);
  }

  lemma LiveRef(p: Prog, m: Mode, fr: Frame, st: State, e: Expr, v: Value)
    requires fr.fn in p.info && Allocated(e) && ValueOk(p, m, fr, st, e, v)
    ensures v.Ref? && Deref(v, st) == Done(v.loc, st)
  {
  }

  lemma CopyHereSound(p: Prog, o: nat -> nat, fuel: nat, m: Mode, fr: Frame, st: State, e: Expr)
    requires Ready(p, m, fr, st) && NodesOk(p, fr.fn, NodesE(e)) && e.Copy? && e.dest == []
    requires EvalOk(p, m, fr, st, e.of, Eval(p, o, fuel, fr, st, e.of))
    ensures EvalOk(p, m, fr, st, e, Eval(p, o, fuel, fr, st, e))
  {
    hide Sheltered, VarMeets, NodeChecked;
    assert NodeOk(p, fr.fn, ExprNode(e));
    var c := Eval(p, o, fuel, fr, st, e.of);
    if c.Done? {
      FrameExtends(p, m, fr, st, c.st);
      CopyHere(p, m, fr, c.st, e);
    }
  }

  lemma CopyThereSound(p: Prog, o: nat -> nat, fuel: nat, m: Mode, fr: Frame, st: State, e: Expr)
    requires fr.fn in p.funcs && fr.fn in p.info && TableOk(p, fr.fn) && NodesOk(p, fr.fn, NodesE(e)) && e.Copy? && e.dest != []
    requires EvalOk(p, m, fr, st, e.of, Eval(p, o, fuel, fr, st, e.of))
    requires
      var c := Eval(p, o, fuel, fr, st, e.of);
      c.Done? ==> EvalOk(p, m, fr, c.st, e.dest[0], Eval(p, o, fuel, fr, c.st, e.dest[0]))
    ensures EvalOk(p, m, fr, st, e, Eval(p, o, fuel, fr, st, e))
  {
    hide Sheltered, NodeChecked, TableOk, ValueOk, Deref;
    assert NodeOk(p, fr.fn, ExprNode(e));
    var c := Eval(p, o, fuel, fr, st, e.of);
    if c.Done? {
      LiveRef(p, m, fr, c.st, e.of, c.v);
      var r := Eval(p, o, fuel, fr, c.st, e.dest[0]);
      if r.Done? {
        CopyThere(p, m, fr, r.st, e, r.v);
      }
    }
  }

  lemma CopyHere(p: Prog, m: Mode, fr: Frame, st: State, e: Expr)
    requires FrameOk(p, m, fr, st) && StateOk(p, st) && NodesOk(p, fr.fn, NodesE(e)) && e.Copy? && e.dest == []
    ensures
      var out := Alloc(fr.local, map[], st);
      out.Done? && StateOk(p, out.st) && Extends(st, out.st) && ValueOk(p, m, fr, out.st, e, out.v)
  {
    hide StateOk, VarMeets, NodesOk;
    CopySpec(p, fr.fn, e);
    CopyMade(p, m, fr, st, e, fr.local);
  }

  lemma CopyThere(p: Prog, m: Mode, fr: Frame, st: State, e: Expr, r: Value)
    requires fr.fn in p.funcs && fr.fn in p.info && TableOk(p, fr.fn) && StateOk(p, st) && NodesOk(p, fr.fn, NodesE(e))
    requires e.Copy? && e.dest != [] && ValueOk(p, m, fr, st, e.dest[0], r)
    ensures r.Reg?
    ensures
      var out := Alloc(r.rid, map[], st);
      out.Done? && StateOk(p, out.st) && Extends(st, out.st) && ValueOk(p, m, fr, out.st, e, out.v)
  {
    hide StateOk, NodesOk, TableOk;
    CopySpec(p, fr.fn, e);
    CopyMade(p, m, fr, st, e, r.rid);
  }

  /** A copy has the spec of the region it is made in. */
  lemma CopySpec(p: Prog, fn: Name, e: Expr)
    requires fn in p.funcs && fn in p.info && TableOk(p, fn) && NodesOk(p, fn, NodesE(e)) && e.Copy?
    ensures e.dest == [] ==> SpecOf(p.info[fn], e) == LOCAL
    ensures e.dest != [] ==> TypeOf(e.dest[0]) == RegionTy && SpecOf(p.info[fn], e) == SpecOf(p.info[fn], e.dest[0])
  {
    assert NodeOk(p, fn, ExprNode(e));
    if e.dest == [] {
      assert p.info[fn].SetCall(e.id, LOCAL) == p.info[fn];
    } else {
      NodesOfPart(e, e.dest[0]);
      SpecStable(p, fn, e.dest[0]);
      assert p.info[fn].SetCall(e.id, SpecOf(p.info[fn], e.dest[0])) == p.info[fn];
    }
  }

  lemma CopyMade(p: Prog, m: Mode, fr: Frame, st: State, e: Expr, r: nat)
    requires fr.fn in p.info && StateOk(p, st) && e.Copy? && Meets(m, fr, st, SpecOf(p.info[fr.fn], e), Reg(r))
    ensures
      var out := Alloc(r, map[], st);
      out.Done? && StateOk(p, out.st) && Extends(st, out.st) && ValueOk(p, m, fr, out.st, e, out.v)
  {
    AllocKeeps(p, r, map[], st, false);
    var out := Alloc(r, map[], st);
    MeetsExtends(m, fr, st, out.st, SpecOf(p.info[fr.fn], e), Reg(r));
    MeetsLike(m, fr, out.st, SpecOf(p.info[fr.fn], e), Reg(r), out.v);
  }

  lemma {:induction false} PartSound(p: Prog, o: nat -> nat, fuel: nat, m: Mode, fr: Frame, st: State, e: Expr)
    requires Ready(p, m, fr, st) && NodesOk(p, fr.fn, NodesE(e)) && e.Part?
    ensures EvalOk(p, m, fr, st, e, Eval(p, o, fuel, fr, st, e))
    decreases fuel, 0, e, 0
  {
    BaseSpec(p, fr.fn, e, e.base);
    EvalSound(p, o, fuel, m, fr, st, e.base);
    var c := Eval(p, o, fuel, fr, st, e.base);
    if c.Done? && e.ty == CompositeTy && e.at in c.st.heap[c.v.loc].fields {
      assert LiveLoc(c.st, c.v.loc);
      assert PointerOk(c.st.heap, c.st.live, c.st.heap[c.v.loc], c.st.heap[c.v.loc].fields[e.at]);
      FieldMeets(m, fr, c.st, SpecOf(p.info[fr.fn], e.base), c.v.loc, c.st.heap[c.v.loc].fields[e.at]);
    }
  }

  lemma {:induction false} LookupSound(p: Prog, o: nat -> nat, fuel: nat, m: Mode, fr: Frame, st: State, e: Expr)
    requires Ready(p, m, fr, st) && NodesOk(p, fr.fn, NodesE(e)) && e.Lookup?
    ensures EvalOk(p, m, fr, st, e, Eval(p, o, fuel, fr, st, e))
    decreases fuel, 0, e, 0
  {
    BaseSpec(p, fr.fn, e, e.base);
    EvalSound(p, o, fuel, m, fr, st, e.base);
    LookupMade(p, o, fuel, m, fr, st, e);
  }

  /** A lookup makes its result in the region of the container it reads. */
  lemma LookupMade(p: Prog, o: nat -> nat, fuel: nat, m: Mode, fr: Frame, st: State, e: Expr)
    requires fr.fn in p.info && e.Lookup? && TypeOf(e) != RegionTy && Allocated(e.base)
    requires SpecOf(p.info[fr.fn], e) == SpecOf(p.info[fr.fn], e.base)
    requires EvalOk(p, m, fr, st, e.base, Eval(p, o, fuel, fr, st, e.base))
    ensures EvalOk(p, m, fr, st, e, Eval(p, o, fuel, fr, st, e))
  {
    var c := Eval(p, o, fuel, fr, st, e.base);
    if c.Done? {
      var ob := c.st.heap[c.v.loc];
      CopiedPointers(p, m, fr, c.st, SpecOf(p.info[fr.fn], e.base), c.v.loc,
                     if e.at in ob.fields then map[0 := ob.fields[e.at]] else map[]);
    }
  }

  /** A new object over pointers of a live one, in its region, meets its spec. */
  lemma CopiedPointers(p: Prog, m: Mode, fr: Frame, st: State, s: Spec, l: nat, fields: map<nat, nat>)
    requires StateOk(p, st) && Meets(m, fr, st, s, Ref(l))
    requires forall f :: f in fields ==> exists g :: g in st.heap[l].fields && st.heap[l].fields[g] == fields[f]
    ensures
      var out := Alloc(st.heap[l].region, fields, st, st.heap[l].mixed);
      out.Done? && out.v.Ref? && StateOk(p, out.st) && Extends(st, out.st) && Meets(m, fr, out.st, s, out.v)
  {
    var ob := st.heap[l];
    forall f | f in fields
      ensures PointerOk(st.heap, st.live, Obj(ob.region, fields, ob.mixed), fields[f])
    {
      var g :| g in ob.fields && ob.fields[g] == fields[f];
      assert PointerOk(st.heap, st.live, ob, ob.fields[g]);
    }
    AllocKeeps(p, ob.region, fields, st, ob.mixed);
    var out := Alloc(ob.region, fields, st, ob.mixed);
    MeetsExtends(m, fr, st, out.st, s, Ref(l));
    MeetsLike(m, fr, out.st, s, Ref(l), out.v);
  }

  lemma MeetsLike(m: Mode, fr: Frame, st: State, s: Spec, a: Value, b: Value)
    requires Meets(m, fr, st, s, a) && SamePlace(a, st, b, st) && (s.src != CrossSrc ==> Plain(b, st))
    ensures Meets(m, fr, st, s, b)
  {
  }

  lemma {:induction false} SliceSound(p: Prog, o: nat -> nat, fuel: nat, m: Mode, fr: Frame, st: State, e: Expr)
    requires Ready(p, m, fr, st) && NodesOk(p, fr.fn, NodesE(e)) && e.Slice?
    ensures EvalOk(p, m, fr, st, e, Eval(p, o, fuel, fr, st, e))
    decreases fuel, 0, e, 0
  {
    BaseSpec(p, fr.fn, e, e.base);
    EvalSound(p, o, fuel, m, fr, st, e.base);
    var c := Eval(p, o, fuel, fr, st, e.base);
    if c.Done? {
      CopiedPointers(p, m, fr, c.st, SpecOf(p.info[fr.fn], e.base), c.v.loc, c.st.heap[c.v.loc].fields);
    }
  }

  lemma {:induction false} TernarySound(p: Prog, o: nat -> nat, fuel: nat, m: Mode, fr: Frame, st: State, e: Expr)
    requires Ready(p, m, fr, st) && NodesOk(p, fr.fn, NodesE(e)) && e.Ternary?
    ensures EvalOk(p, m, fr, st, e, Eval(p, o, fuel, fr, st, e))
    decreases fuel, 0, e, 0
  {
    hide EvalOk, Eval, NodeOk, VarMeets, StateOk;
    NodesOfPart(e, e.cond);
    NodesOkPart(p, fr, e, e.cond);
    EvalSound(p, o, fuel, m, fr, st, e.cond);
    var c := Eval(p, o, fuel, fr, st, e.cond);
    if c.Done? {
      EvalOkReady(p, m, fr, st, e.cond, c);
      AskReady(p, o, m, fr, c.st);
      var branch := Branch(o, c.st, e);
      NodesOfPart(e, branch);
      NodesOkPart(p, fr, e, branch);
      EvalSound(p, o, fuel, m, fr, Ask(o, c.st).1, branch);
    }
    TernaryEnds(p, o, fuel, m, fr, st, e);
  }

  /** The branch a ternary takes. */
  function Branch(o: nat -> nat, st: State, e: Expr): (b: Expr)
    requires e.Ternary?
    ensures b == e.thn || b == e.els
  {
    if o(st.pos) == 0 then e.thn else e.els
  }

  lemma AskReady(p: Prog, o: nat -> nat, m: Mode, fr: Frame, st: State)
    requires Ready(p, m, fr, st)
    ensures Ready(p, m, fr, Ask(o, st).1)
  {
    AskKeeps(p, o, st);
    FrameExtends(p, m, fr, st, Ask(o, st).1);
  }

  lemma TernaryEnds(p: Prog, o: nat -> nat, fuel: nat, m: Mode, fr: Frame, st: State, e: Expr)
    requires Ready(p, m, fr, st) && NodesOk(p, fr.fn, NodesE(e)) && e.Ternary?
    requires EvalOk(p, m, fr, st, e.cond, Eval(p, o, fuel, fr, st, e.cond))
    requires
      var c := Eval(p, o, fuel, fr, st, e.cond);
      c.Done? ==>
        var st2 := Ask(o, c.st).1;
        EvalOk(p, m, fr, st2, Branch(o, c.st, e), Eval(p, o, fuel, fr, st2, Branch(o, c.st, e)))
    ensures EvalOk(p, m, fr, st, e, Eval(p, o, fuel, fr, st, e))
  {
    hide HeapOk, NodesOk, TableOk, VarMeets, ValueOk, Accepted;
    var c := Eval(p, o, fuel, fr, st, e.cond);
    if c.Done? {
      var v := Eval(p, o, fuel, fr, Ask(o, c.st).1, Branch(o, c.st, e));
      if v.Done? {
        BranchValue(p, m, fr, v.st, e, Branch(o, c.st, e), v.v);
      }
    }
  }

  lemma AskKeeps(p: Prog, o: nat -> nat, st: State)
    requires StateOk(p, st)
    ensures StateOk(p, Ask(o, st).1) && Extends(st, Ask(o, st).1)
  {
  }

  /** Either branch yields what the spec of the ternary says. */
  lemma BranchValue(p: Prog, m: Mode, fr: Frame, st: State, e: Expr, branch: Expr, v: Value)
    requires fr.fn in p.funcs && fr.fn in p.info && TableOk(p, fr.fn) && (fr.fn in p.safe <==> m.ManyRegions?)
    requires NodesOk(p, fr.fn, NodesE(e)) && e.Ternary? && (branch == e.thn || branch == e.els)
    requires ValueOk(p, m, fr, st, branch, v)
    ensures ValueOk(p, m, fr, st, e, v) && Typed(v, e.ty)
  {
    hide VarMeets, NodeChecked;
    assert NodeOk(p, fr.fn, ExprNode(e)) && InFragment(p, fr.fn, ExprNode(e));
    if e.ty == CompositeTy {
      OkIsSettled(p, fr.fn, NodesE(e));
      TernarySettled(p, fr.fn, e);
    }
  }

  lemma {:induction false} BindHas(params: seq<Param>, vs: seq<Value>, x: Name) returns (i: nat)
    requires |params| == |vs| && x in Bind(params, vs)
    ensures i < |vs| && params[i].name == x && vs[i] != NoVal && Bind(params, vs)[x] == vs[i]
  {
    if vs[0] != NoVal && params[0].name == x {
      i := 0;
    } else {
      var j := BindHas(params[1..], vs[1..], x);
      i := j + 1;
    }
  }

  /** A call starts with a new, empty, newest region. */
  lemma EnterKeeps(p: Prog, st: State)
    requires StateOk(p, st)
    ensures StateOk(p, st.(live := st.live + {st.nextRegion}, nextRegion := st.nextRegion + 1))
  {
    var st1 := st.(live := st.live + {st.nextRegion}, nextRegion := st.nextRegion + 1);
    forall l, f | LiveLoc(st1, l) && f in st1.heap[l].fields
      ensures PointerOk(st1.heap, st1.live, st1.heap[l], st1.heap[l].fields[f])
    {
      assert LiveLoc(st, l);
      assert PointerOk(st.heap, st.live, st.heap[l], st.heap[l].fields[f]);
    }
  }

  /** Freeing the newest region leaves no live pointer into it. */
  lemma LeaveKeeps(p: Prog, st: State, st2: State, local: nat)
    requires StateOk(p, st) && local == st.nextRegion && StateOk(p, st2)
    requires Extends(st.(live := st.live + {local}, nextRegion := local + 1), st2)
    ensures StateOk(p, st2.(live := st2.live - {local})) && Extends(st, st2.(live := st2.live - {local}))
  {
    var st3 := st2.(live := st2.live - {local});
    assert st3.live == st.live;
    forall l, f | LiveLoc(st3, l) && f in st3.heap[l].fields
      ensures PointerOk(st3.heap, st3.live, st3.heap[l], st3.heap[l].fields[f])
    {
      assert LiveLoc(st2, l);
      assert PointerOk(st2.heap, st2.live, st2.heap[l], st2.heap[l].fields[f]);
    }
  }

  lemma {:induction false} RunSound(p: Prog, o: nat -> nat, fuel: nat, m: Mode, fn: Name, vs: seq<Value>, st: State)
    requires Accepted(p) && StateOk(p, st) && fn in p.funcs && ArgsOk(p, m, fn, vs, st)
    ensures RunOk(p, m, st, Run(p, o, fuel, fn, vs, st))
    decreases fuel, 1
  {
    hide Sheltered, VarMeets;
    var params := p.funcs[fn].params;
    if ArgsTyped(params, vs) {
      var local := st.nextRegion;
      var st1 := st.(live := st.live + {local}, nextRegion := local + 1);
      var fr := Frame(fn, Bind(params, vs), local);
      EnterFrame(p, m, fn, vs, st);
      EnterKeeps(p, st);
      ExecAllSound(p, o, fuel, m, fr, st1, p.funcs[fn].body);
      var out := ExecAll(p, o, fuel, fr, st1, p.funcs[fn].body);
      if out.Done? {
        LeaveKeeps(p, st, out.st, local);
      }
    }
  }

  /** The arguments a call binds meet the specs of its parameters. */
  lemma EnterFrame(p: Prog, m: Mode, fn: Name, vs: seq<Value>, st: State)
    requires Accepted(p) && StateOk(p, st) && fn in p.funcs && ArgsOk(p, m, fn, vs, st) && ArgsTyped(p.funcs[fn].params, vs)
    ensures
      FrameOk(p, m, Frame(fn, Bind(p.funcs[fn].params, vs), st.nextRegion),
              st.(live := st.live + {st.nextRegion}, nextRegion := st.nextRegion + 1))
  {
    var params := p.funcs[fn].params;
    var st1 := st.(live := st.live + {st.nextRegion}, nextRegion := st.nextRegion + 1);
    var fr := Frame(fn, Bind(params, vs), st.nextRegion);
    assert FunctionOk(p, fn);
    forall x | x in fr.env
      ensures x in p.info[fn].tab && VarMeets(p, m, fr, st1, x)
    {
      var i := BindHas(params, vs, x);
      EnterVar(p, m, fn, vs, st, fr, i);
    }
  }

  /** One of them does. */
  lemma EnterVar(p: Prog, m: Mode, fn: Name, vs: seq<Value>, st: State, fr: Frame, i: nat)
    requires StateOk(p, st) && fn in p.funcs && fn in p.info && TableOk(p, fn) && ArgsOk(p, m, fn, vs, st)
    requires ArgsTyped(p.funcs[fn].params, vs) && i < |vs| && vs[i] != NoVal
    requires fr.fn == fn && p.funcs[fn].params[i].name in fr.env && fr.env[p.funcs[fn].params[i].name] == vs[i]
    ensures
      var q := p.funcs[fn].params[i];
      var st1 := st.(live := st.live + {st.nextRegion}, nextRegion := st.nextRegion + 1);
      q.name in p.info[fn].tab && Meets(m, fr, st1, p.info[fn].tab[q.name], vs[i])
  {
    var q, st1 := p.funcs[fn].params[i], st.(live := st.live + {st.nextRegion}, nextRegion := st.nextRegion + 1);
    assert q in p.funcs[fn].params && q.ty != PrimTy;
    assert p.info[fn].tab[q.name] == ParamSpec(q);
    assert Alive(vs[i], st1) && RegionOfValue(vs[i], st1) == RegionOfValue(vs[i], st);
    assert Plain(vs[i], st) ==> Plain(vs[i], st1);
  }

  lemma {:induction false} ExecAllSound(p: Prog, o: nat -> nat, fuel: nat, m: Mode, fr: Frame, st: State, b: seq<Stmt>)
    requires Ready(p, m, fr, st) && NodesOk(p, fr.fn, NodesB(b))
    ensures FlowOk(p, m, fr, st, ExecAll(p, o, fuel, fr, st, b))
    decreases fuel, 0, b, 0
  {
    if b == [] {
      MovesSame(p, m, fr, st, st);
    } else {
      ExecSound(p, o, fuel, m, fr, st, b[0]);
      var out := Exec(p, o, fuel, fr, st, b[0]);
      if out.Done? && out.v.Next? {
        var fr1 := fr.(env := out.v.env);
        ExecAllSound(p, o, fuel, m, fr1, out.st, b[1..]);
        FlowThen(p, m, fr, st, out.v.env, out.st, ExecAll(p, o, fuel, fr1, out.st, b[1..]));
      }
    }
  }

  lemma FlowThen(p: Prog, m: Mode, fr: Frame, st: State, env: map<Name, Value>, st': State, out: Outcome<Flow>)
    requires FrameOk(p, m, fr, st) && Moves(p, m, fr, st, env, st') && FlowOk(p, m, fr.(env := env), st', out)
    ensures FlowOk(p, m, fr, st, out)
  {
    if out.Done? && out.v.Next? {
      MovesOn(p, m, fr, st, env, st', out.v.env, out.st);
    }
  }

  lemma {:induction false} ExecSound(p: Prog, o: nat -> nat, fuel: nat, m: Mode, fr: Frame, st: State, s: Stmt)
    requires Ready(p, m, fr, st) && NodesOk(p, fr.fn, NodesS(s))
    ensures FlowOk(p, m, fr, st, Exec(p, o, fuel, fr, st, s))
    decreases fuel, 0, s, 2
  {
    match s
    case Declare(x, e) => BindSound(p, o, fuel, m, fr, st, s, x, e);
    case Assign(x, e) => BindSound(p, o, fuel, m, fr, st, s, x, e);
    case Store(_, _, _) => StoreSound(p, o, fuel, m, fr, st, s);
    case Do(e) =>
      EvalSound(p, o, fuel, m, fr, st, e);
      var c := Eval(p, o, fuel, fr, st, e);
      if c.Done? { MovesSame(p, m, fr, st, c.st); }
    case Return(_) => ReturnSound(p, o, fuel, m, fr, st, s);
    case ReturnVoid =>
    case If(cond, thn, els) => IfSound(p, o, fuel, m, fr, st, s);
    case While(cond, body) => WhileSound(p, o, fuel, m, fr, st, s);
    case ForIn(x, ty, e, body) => ForInSound(p, o, fuel, m, fr, st, s);
  }

  lemma {:induction false} IfSound(p: Prog, o: nat -> nat, fuel: nat, m: Mode, fr: Frame, st: State, s: Stmt)
    requires Ready(p, m, fr, st) && NodesOk(p, fr.fn, NodesS(s)) && s.If?
    ensures FlowOk(p, m, fr, st, Exec(p, o, fuel, fr, st, s))
    decreases fuel, 0, s, 0
  {
    EvalSound(p, o, fuel, m, fr, st, s.cond);
    var c := Eval(p, o, fuel, fr, st, s.cond);
    if c.Done? {
      var (pick, st2) := Ask(o, c.st);
      MovesSame(p, m, fr, st, st2);
      var branch := if pick == 0 then s.thn else s.els;
      ExecAllSound(p, o, fuel, m, fr, st2, branch);
      FlowThen(p, m, fr, st, fr.env, st2, ExecAll(p, o, fuel, fr, st2, branch));
    }
  }

  lemma {:induction false} WhileSound(p: Prog, o: nat -> nat, fuel: nat, m: Mode, fr: Frame, st: State, s: Stmt)
    requires Ready(p, m, fr, st) && NodesOk(p, fr.fn, NodesS(s)) && s.While?
    ensures FlowOk(p, m, fr, st, Exec(p, o, fuel, fr, st, s))
    decreases fuel, 0, s, 1
  {
    EvalSound(p, o, fuel, m, fr, st, s.cond);
    var c := Eval(p, o, fuel, fr, st, s.cond);
    if c.Done? {
      var (pick, st2) := Ask(o, c.st);
      MovesSame(p, m, fr, st, st2);
      if pick != 0 {
        WhileRest(p, o, fuel, m, fr, st, s, st2);
      }
    }
  }

  /** The body of a loop, and the loop again. */
  lemma {:induction false} WhileRest(p: Prog, o: nat -> nat, fuel: nat, m: Mode, fr: Frame, st: State, s: Stmt, st2: State)
    requires Ready(p, m, fr, st) && NodesOk(p, fr.fn, NodesS(s)) && s.While?
    requires Eval(p, o, fuel, fr, st, s.cond).Done? && Ask(o, Eval(p, o, fuel, fr, st, s.cond).st).1 == st2
    requires Ask(o, Eval(p, o, fuel, fr, st, s.cond).st).0 != 0 && StateOk(p, st2) && Moves(p, m, fr, st, fr.env, st2)
    ensures FlowOk(p, m, fr, st, Exec(p, o, fuel, fr, st, s))
    decreases fuel, 0, s, 0
  {
    hide NodeOk, VarMeets, Sheltered, Ask;
    assert fr.(env := fr.env) == fr;
    ExecAllSound(p, o, fuel, m, fr, st2, s.body);
    var out := ExecAll(p, o, fuel, fr, st2, s.body);
    FlowThen(p, m, fr, st, fr.env, st2, out);
    if out.Done? && out.v.Next? && fuel > 0 {
      var fr1 := fr.(env := out.v.env);
      ExecSound(p, o, fuel - 1, m, fr1, out.st, s);
      FlowThen(p, m, fr, st, out.v.env, out.st, Exec(p, o, fuel - 1, fr1, out.st, s));
    }
    WhileOnce(p, o, fuel, fr, st, s, st2);
  }

  lemma WhileOnce(p: Prog, o: nat -> nat, fuel: nat, fr: Frame, st: State, s: Stmt, st2: State)
    requires s.While? && Eval(p, o, fuel, fr, st, s.cond).Done? && Ask(o, Eval(p, o, fuel, fr, st, s.cond).st).1 == st2
    requires Ask(o, Eval(p, o, fuel, fr, st, s.cond).st).0 != 0
    ensures
      var out := ExecAll(p, o, fuel, fr, st2, s.body);
      Exec(p, o, fuel, fr, st, s) ==
        if out.Halt? || out.v.Returned? then out
        else if fuel == 0 then Halt(OutOfFuel, out.st)
        else Exec(p, o, fuel - 1, fr.(env := out.v.env), out.st, s)
  {
  }

  lemma {:induction false} ForInSound(p: Prog, o: nat -> nat, fuel: nat, m: Mode, fr: Frame, st: State, s: Stmt)
    requires Ready(p, m, fr, st) && NodesOk(p, fr.fn, NodesS(s)) && s.ForIn?
    ensures FlowOk(p, m, fr, st, Exec(p, o, fuel, fr, st, s))
    decreases fuel, 0, s, 0
  {
    assert NodeOk(p, fr.fn, StmtNode(s));
    EvalSound(p, o, fuel, m, fr, st, s.e);
    var c := Eval(p, o, fuel, fr, st, s.e);
    if c.Done? {
      MovesSame(p, m, fr, st, c.st);
      SpecStable(p, fr.fn, s.e);
      IterateSound(p, o, fuel, m, fr, c.st, c.v, s.x, s.ty, s.body, SpecOf(p.info[fr.fn], s.e));
      FlowThen(p, m, fr, st, fr.env, c.st, Iterate(p, o, fuel, fr, c.st, c.v, s.x, s.ty, s.body));
    }
  }

  /** Rebinding a variable to a value of the same spec keeps every name's region. */
  lemma SetVarKeeps(p: Prog, m: Mode, fr: Frame, st: State, x: Name, s: Spec, v: Value)
    requires FrameOk(p, m, fr, st) && x in p.info[fr.fn].tab && v != NoVal
    requires Meets(m, fr, st, s, v) && s.src == p.info[fr.fn].tab[x].src
    requires m.ManyRegions? ==> SameOrLocal(p.info[fr.fn].tab[x], s)
    ensures Moves(p, m, fr, st, fr.env[x := v], st)
  {
    var fr' := fr.(env := fr.env[x := v]);
    forall y | y in fr'.env
      ensures y in p.info[fr.fn].tab && VarMeets(p, m, fr', st, y)
    {
      SetVarMeets(p, m, fr, st, x, s, v, y);
    }
    SetVarSteady(p, m, fr, st, x, s, v);
  }

  lemma SetVarSteady(p: Prog, m: Mode, fr: Frame, st: State, x: Name, s: Spec, v: Value)
    requires FrameOk(p, m, fr, st) && x in p.info[fr.fn].tab && v != NoVal
    requires Meets(m, fr, st, s, v) && s.src == p.info[fr.fn].tab[x].src
    requires m.ManyRegions? ==> SameOrLocal(p.info[fr.fn].tab[x], s)
    ensures Steady(p.info[fr.fn].tab, fr.env, st, fr.env[x := v], st)
  {
    forall y | y in fr.env && p.info[fr.fn].tab[y].src == ForeignSrc
      ensures SamePlace(fr.env[y], st, fr.env[x := v][y], st)
    {
      assert VarMeets(p, m, fr, st, y);
    }
  }

  /** Every variable still meets its spec: one that names x was in the same region. */
  lemma SetVarMeets(p: Prog, m: Mode, fr: Frame, st: State, x: Name, s: Spec, v: Value, y: Name)
    requires FrameOk(p, m, fr, st) && x in p.info[fr.fn].tab && v != NoVal
    requires Meets(m, fr, st, s, v) && s.src == p.info[fr.fn].tab[x].src
    requires m.ManyRegions? ==> SameOrLocal(p.info[fr.fn].tab[x], s)
    requires y in fr.env || y == x
    ensures
      var fr' := fr.(env := fr.env[x := v]);
      y in p.info[fr.fn].tab && Meets(m, fr', st, p.info[fr.fn].tab[y], fr'.env[y])
  {
    var t := p.info[fr.fn].tab[y];
    if y != x {
      assert VarMeets(p, m, fr, st, y);
    }
    if x in fr.env {
      assert VarMeets(p, m, fr, st, x);
    }
    if m.ManyRegions? && t.src == ForeignSrc && t.region == x && x in fr.env {
      assert Consistent(p.info[fr.fn], t);
      assert RegionOfValue(fr.env[x], st) == RegionOfValue(v, st);
    }
  }

  lemma {:induction false} BindSound(p: Prog, o: nat -> nat, fuel: nat, m: Mode, fr: Frame, st: State, s: Stmt, x: Name, e: Expr)
    requires Ready(p, m, fr, st) && NodesOk(p, fr.fn, NodesS(s)) && (s == Declare(x, e) || s == Assign(x, e))
    ensures FlowOk(p, m, fr, st, Exec(p, o, fuel, fr, st, s))
    decreases fuel, 0, s, 0
  {
    EvalSound(p, o, fuel, m, fr, st, e);
    var c := Eval(p, o, fuel, fr, st, e);
    if c.Done? {
      MovesSame(p, m, fr, st, c.st);
      BindSpec(p, fr.fn, s, x, e);
      if c.v != NoVal {
        SetVarKeeps(p, m, fr, c.st, x, SpecOf(p.info[fr.fn], e), c.v);
        MovesOn(p, m, fr, st, fr.env, c.st, fr.env[x := c.v], c.st);
      }
    }
  }

  lemma BindSpec(p: Prog, fn: Name, s: Stmt, x: Name, e: Expr)
    requires fn in p.funcs && fn in p.info && TableOk(p, fn) && NodesOk(p, fn, NodesS(s))
    requires s == Declare(x, e) || s == Assign(x, e)
    ensures TypeOf(e) != RegionTy
    ensures Allocated(e) ==>
      var S := p.info[fn];
      x in S.tab && S.tab[x].src == SpecOf(S, e).src && (fn in p.safe ==> SameOrLocal(S.tab[x], SpecOf(S, e)))
  {
    assert NodeOk(p, fn, StmtNode(s));
    if Allocated(e) {
      SpecStable(p, fn, e);
      if s.Assign? {
        assert Complete(p.info[fn].tab[x]);
      }
    }
  }

  lemma {:induction false} StoreSound(p: Prog, o: nat -> nat, fuel: nat, m: Mode, fr: Frame, st: State, s: Stmt)
    requires Ready(p, m, fr, st) && NodesOk(p, fr.fn, NodesS(s)) && s.Store?
    ensures FlowOk(p, m, fr, st, Exec(p, o, fuel, fr, st, s))
    decreases fuel, 0, s, 0
  {
    EvalSound(p, o, fuel, m, fr, st, s.target);
    var c := Eval(p, o, fuel, fr, st, s.target);
    if c.Done? {
      FrameExtends(p, m, fr, st, c.st);
      EvalSound(p, o, fuel, m, fr, c.st, s.e);
      var v := Eval(p, o, fuel, fr, c.st, s.e);
      if v.Done? && c.v.Ref? {
        StoreMade(p, m, fr, c.st, s, c.v, v.v, v.st);
        MovesSame(p, m, fr, st, Write(c.v.loc, s.at, v.v, v.st));
      }
    }
  }

  lemma StoreMade(p: Prog, m: Mode, fr: Frame, st: State, s: Stmt, c: Value, v: Value, st': State)
    requires FrameOk(p, m, fr, st) && NodesOk(p, fr.fn, NodesS(s)) && s.Store? && c.Ref?
    requires ValueOk(p, m, fr, st, s.target, c) && Extends(st, st') && StateOk(p, st') && ValueOk(p, m, fr, st', s.e, v)
    ensures LiveLoc(st', c.loc) && StateOk(p, Write(c.loc, s.at, v, st')) && Extends(st', Write(c.loc, s.at, v, st'))
  {
    FrameExtends(p, m, fr, st, st');
    MeetsExtends(m, fr, st, st', SpecOf(p.info[fr.fn], s.target), c);
    if v.Ref? {
      StoreShares(p, m, fr, st', s, c, v);
    }
    WriteKeeps(p, c.loc, s.at, v, st');
  }

  lemma StoreShares(p: Prog, m: Mode, fr: Frame, st: State, s: Stmt, c: Value, v: Value)
    requires FrameOk(p, m, fr, st) && NodesOk(p, fr.fn, NodesS(s)) && s.Store? && c.Ref? && v.Ref?
    requires ValueOk(p, m, fr, st, s.target, c) && ValueOk(p, m, fr, st, s.e, v)
    ensures Share(st, c, v)
  {
    var S := p.info[fr.fn];
    assert NodeOk(p, fr.fn, StmtNode(s));
    SpecStable(p, fr.fn, s.target);
    SpecStable(p, fr.fn, s.e);
    if fr.fn in p.safe {
      SafeOpShares(p, m, fr, st, s.target, s.e, c, v);
    } else {
      var lhs, rhs := SpecOf(S, s.target), SpecOf(S, s.e);
      if s.e.Lit? && CanRetarget(S.LitAt(s.e.id), lhs) == Ok(true) {
        SetAllocForeign(S, s.e, lhs);
        assert false;
      } else {
        SameSourceShares(m, fr, st, lhs, rhs, c, v);
      }
    }
  }

  lemma {:induction false} ReturnSound(p: Prog, o: nat -> nat, fuel: nat, m: Mode, fr: Frame, st: State, s: Stmt)
    requires Ready(p, m, fr, st) && NodesOk(p, fr.fn, NodesS(s)) && s.Return?
    ensures FlowOk(p, m, fr, st, Exec(p, o, fuel, fr, st, s))
    decreases fuel, 0, s, 0
  {
    var e := s.e;
    ReturnSpec(p, fr.fn, s);
    EvalSound(p, o, fuel, m, fr, st, e);
  }

  /** An accepted composite result comes from the argument region. */
  lemma ReturnSpec(p: Prog, fn: Name, s: Stmt)
    requires fn in p.funcs && fn in p.info && TableOk(p, fn) && NodesOk(p, fn, NodesS(s))
    requires s.Return?
    ensures NodesOk(p, fn, NodesE(s.e)) && TypeOf(s.e) != RegionTy
    ensures Allocated(s.e) ==> fn !in p.safe && SpecOf(p.info[fn], s.e).src == ForeignSrc
  {
    var S := p.info[fn];
    var e := s.e;
    assert NodeOk(p, fn, StmtNode(s));
    if Allocated(e) {
      SpecStable(p, fn, e);
      var sp := SpecOf(S, e);
      var implicit := ImplicitSpec(S, p.funcs[fn].params);
      if e.Lit? && sp.src == LocalSrc && Complete(implicit) && CanRetarget(sp, implicit) == Ok(true) {
        SetAllocForeign(S, e, implicit);
        assert false;
      }
    }
  }

  lemma {:induction false} IterateSound(
      p: Prog, o: nat -> nat, fuel: nat, m: Mode, fr: Frame, st: State, c: Value, x: Name, ty: Ty, body: seq<Stmt>, s: Spec)
    requires Ready(p, m, fr, st) && NodesOk(p, fr.fn, NodesB(body))
    requires c.Ref? && Meets(m, fr, st, s, c) && Consistent(p.info[fr.fn], s) && Complete(s)
    requires ty != RegionTy && (ty == CompositeTy ==> x in p.info[fr.fn].tab && p.info[fr.fn].tab[x] == s)
    ensures FlowOk(p, m, fr, st, Iterate(p, o, fuel, fr, st, c, x, ty, body))
    decreases fuel, 0, body, 1
  {
    hide Meets, Consistent, StateOk, FrameOk, Extends;
    LoopVar(p, o, m, fr, st, c, x, ty, s);
    var next := NextElement(o, st, c, ty);
    if next.Done? && !next.v.0 {
      MovesSame(p, m, fr, st, next.st);
    } else if next.Done? && fuel > 0 {
      var env1 := SetVar(fr.env, x, next.v.1);
      var fr1 := fr.(env := env1);
      ExecAllSound(p, o, fuel - 1, m, fr1, next.st, body);
      var out := ExecAll(p, o, fuel - 1, fr1, next.st, body);
      FlowThen(p, m, fr, st, env1, next.st, out);
      if out.Done? && out.v.Next? {
        IterateRest(p, o, fuel, m, fr, st, c, x, ty, body, s, out);
      }
      IterateOnce(p, o, fuel, fr, st, c, x, ty, body);
    }
  }

  lemma IterateOnce(p: Prog, o: nat -> nat, fuel: nat, fr: Frame, st: State, c: Value, x: Name, ty: Ty, body: seq<Stmt>)
    requires NextElement(o, st, c, ty).Done? && NextElement(o, st, c, ty).v.0 && fuel > 0
    ensures
      var next := NextElement(o, st, c, ty);
      var out := ExecAll(p, o, fuel - 1, fr.(env := SetVar(fr.env, x, next.v.1)), next.st, body);
      Iterate(p, o, fuel, fr, st, c, x, ty, body) ==
        if out.Done? && out.v.Next? then Iterate(p, o, fuel - 1, fr.(env := out.v.env), out.st, c, x, ty, body) else out
  {
  }

  lemma {:induction false} IterateRest(
      p: Prog, o: nat -> nat, fuel: nat, m: Mode, fr: Frame, st: State, c: Value, x: Name, ty: Ty, body: seq<Stmt>, s: Spec, out: Outcome<Flow>)
    requires Ready(p, m, fr, st) && NodesOk(p, fr.fn, NodesB(body)) && fuel > 0
    requires c.Ref? && Meets(m, fr, st, s, c) && Consistent(p.info[fr.fn], s) && Complete(s)
    requires ty != RegionTy && (ty == CompositeTy ==> x in p.info[fr.fn].tab && p.info[fr.fn].tab[x] == s)
    requires FlowOk(p, m, fr, st, out) && out.Done? && out.v.Next?
    ensures FlowOk(p, m, fr, st, Iterate(p, o, fuel - 1, fr.(env := out.v.env), out.st, c, x, ty, body))
    decreases fuel, 0, body, 0
  {
    var fr2 := fr.(env := out.v.env);
    MeetsMoves(p, m, fr, st, out.v.env, out.st, s, c);
    IterateSound(p, o, fuel - 1, m, fr2, out.st, c, x, ty, body, s);
    FlowThen(p, m, fr, st, out.v.env, out.st, Iterate(p, o, fuel - 1, fr2, out.st, c, x, ty, body));
  }

  /** What a loop takes from its container meets the container's spec. */
  lemma NextMeets(p: Prog, o: nat -> nat, m: Mode, fr: Frame, st: State, c: Value, ty: Ty, s: Spec)
    requires StateOk(p, st) && c.Ref? && Meets(m, fr, st, s, c) && ty != RegionTy
    ensures
      var next := NextElement(o, st, c, ty);
      && (next.Halt? ==> next.why == Panic && HeapOk(p, next.st))
      && (next.Done? ==> StateOk(p, next.st) && Extends(st, next.st))
      && (next.Done? && next.v.1 != NoVal ==> ty == CompositeTy && Meets(m, fr, next.st, s, next.v.1))
  {
    var next := NextElement(o, st, c, ty);
    if next.Done? && next.v.1 != NoVal {
      assert PointerOk(next.st.heap, next.st.live, next.st.heap[c.loc], next.v.1.loc);
      FieldMeets(m, fr, next.st, s, c.loc, next.v.1.loc);
    }
  }

  lemma LoopVar(p: Prog, o: nat -> nat, m: Mode, fr: Frame, st: State, c: Value, x: Name, ty: Ty, s: Spec)
    requires FrameOk(p, m, fr, st) && StateOk(p, st)
    requires c.Ref? && Meets(m, fr, st, s, c)
    requires ty != RegionTy && (ty == CompositeTy ==> x in p.info[fr.fn].tab && p.info[fr.fn].tab[x] == s)
    ensures
      var next := NextElement(o, st, c, ty);
      && HaltOk(p, next)
      && (next.Done? ==> StateOk(p, next.st) && Moves(p, m, fr, st, SetVar(fr.env, x, next.v.1), next.st))
  {
    NextMeets(p, o, m, fr, st, c, ty, s);
    var next := NextElement(o, st, c, ty);
    if next.Done? {
      MovesSame(p, m, fr, st, next.st);
      if next.v.1 != NoVal {
        SetVarKeeps(p, m, fr, next.st, x, s, next.v.1);
        MovesOn(p, m, fr, st, fr.env, next.st, fr.env[x := next.v.1], next.st);
      }
    }
  }

  lemma MeetsMoves(p: Prog, m: Mode, fr: Frame, st: State, env: map<Name, Value>, st': State, s: Spec, v: Value)
    requires FrameOk(p, m, fr, st) && Moves(p, m, fr, st, env, st')
    requires Meets(m, fr, st, s, v) && Consistent(p.info[fr.fn], s) && Complete(s)
    ensures Meets(m, fr.(env := env), st', s, v)
  {
  }

  // ----- whole programs -----

  const INITIAL := State(map[], {GLOBAL_REGION}, 1, 0, 0)

  /** Every run of an accepted program, however it is cut off by the fuel, is free of
      dangling reads, and a completed run has freed every region it made. Every pointer of
      a live object leads to a live one: into the object's own region, unless the program
      has temporary mixed containers, whose pointers then lead into no younger region. */
  lemma ProgramSound(p: Prog, o: nat -> nat, fuel: nat)
    requires Accepted(p) && "main" in p.funcs
    ensures
      var out := Run(p, o, fuel, "main", [], INITIAL);
      && Sheltered(out.Final()) && (!Mixing(p) ==> Confined(out.Final()))
      && (out.Halt? ==> out.why != Dangling)
      && (out.Done? ==> out.st.live == {GLOBAL_REGION})
  {
    var m := if "main" in p.safe then ManyRegions else OneRegion(GLOBAL_REGION);
    RunSound(p, o, fuel, m, "main", [], INITIAL);
    if !Mixing(p) {
      UnmixedConfined(p, Run(p, o, fuel, "main", [], INITIAL).Final());
    }
  }
}
