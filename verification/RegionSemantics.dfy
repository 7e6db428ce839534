/** Run-time meaning of the core language: objects live in regions, every function
    call makes a local region and frees it when the call ends. A run is a fuelled
    interpreter driven by an oracle for the data the model abstracts from. */
module RegionSemantics {
  import opened RegionSyntax
  import opened RegionCheck

  datatype Value = NoVal | Ref(loc: nat) | Reg(rid: nat)

  /** Only pointers are kept: `fields` maps a field or element number to a location.
      No step reads `mixed`: it marks containers whose elements may lie in other regions. */
  datatype Obj = Obj(region: nat, fields: map<nat, nat>, mixed: bool := false)

  datatype State = State(heap: map<nat, Obj>, live: set<nat>, nextRegion: nat, nextLoc: nat, pos: nat)

  /** Region 0 is the global region. */
  const GLOBAL_REGION: nat := 0

  /** `Panic` stands for every defined stop: run-time checks, ill-typed programs. */
  datatype Why = OutOfFuel | Panic | Dangling

  datatype Outcome<T> = Done(v: T, st: State) | Halt(why: Why, st: State) {
    predicate IsFailure() { Halt? }

    function PropagateFailure<U>(): Outcome<U>
      requires Halt?
    {
      Halt(why, st)
    }

    function Extract(): (T, State)
      requires Done?
    {
      (v, st)
    }

    function Final(): State { st }
  }

  datatype Flow = Next(env: map<Name, Value>) | Returned(result: Value)

  datatype Prog = Prog(funcs: Funcs, info: map<Name, Specs>, safe: set<Name>, globals: map<Name, nat>)

  datatype Frame = Frame(fn: Name, env: map<Name, Value>, local: nat)

  function SpecsOf(p: Prog, fr: Frame): Specs {
    if fr.fn in p.info then p.info[fr.fn] else Specs(map[], map[], map[])
  }

  predicate Typed(v: Value, ty: Ty) {
    match ty
    case PrimTy => v.NoVal?
    case CompositeTy => v.Ref?
    case RegionTy => v.Reg?
  }

  function Expect(v: Value, ty: Ty, st: State): Outcome<Value> {
    if Typed(v, ty) then Done(v, st) else Halt(Panic, st)
  }

  predicate LiveLoc(st: State, l: nat) {
    l in st.heap && st.heap[l].region in st.live
  }

  /** Reading through a reference: a freed object is the fault the checker must exclude. */
  function Deref(v: Value, st: State): Outcome<nat> {
    if !v.Ref? then Halt(Panic, st)
    else if !LiveLoc(st, v.loc) then Halt(Dangling, st)
    else Done(v.loc, st)
  }

  /** `get_alloc_dest`: the region a spec denotes in the running frame. */
  function Dest(s: Spec, fr: Frame, st: State): Outcome<nat> {
    match s.kind
    case LocalKind => Done(fr.local, st)
    case GlobalKind => Done(GLOBAL_REGION, st)
    case ContainerKind =>
      if s.region !in fr.env then Halt(Panic, st)
      else
        var (l, _) :- Deref(fr.env[s.region], st);
        Done(st.heap[l].region, st)
    case NamedRegionKind =>
      if s.region in fr.env && fr.env[s.region].Reg? then Done(fr.env[s.region].rid, st) else Halt(Panic, st)
    case UnknownKind => Halt(Panic, st)
  }

  /** A new object; allocating in a freed region is a fault as well. */
  function Alloc(r: nat, fields: map<nat, nat>, st: State, mixed: bool := false): Outcome<Value> {
    if r !in st.live then Halt(Dangling, st)
    else Done(Ref(st.nextLoc), st.(heap := st.heap[st.nextLoc := Obj(r, fields, mixed)], nextLoc := st.nextLoc + 1))
  }

  /** A temporary container for a `foreign` parameter: its elements are not compared with it. */
  predicate Mixes(s: Spec, elems: seq<Expr>) {
    s.src == CrossSrc && exists c :: c in elems && Allocated(c)
  }

  function Write(l: nat, at: nat, v: Value, st: State): State
    requires l in st.heap
  {
    if v.Ref? then st.(heap := st.heap[l := st.heap[l].(fields := st.heap[l].fields[at := v.loc])]) else st
  }

  /** Pointers among the values, at their positions. */
  function Pointers(vs: seq<Value>): map<nat, nat> {
    map i: nat | i < |vs| && vs[i].Ref? :: vs[i].loc
  }

  function Ask(o: nat -> nat, st: State): (nat, State) {
    (o(st.pos), st.(pos := st.pos + 1))
  }

  function Eval(p: Prog, o: nat -> nat, fuel: nat, fr: Frame, st: State, e: Expr): Outcome<Value>
    decreases fuel, 0, e
  {
    match e
    case Prim => Done(NoVal, st)
    case Ident(x, ty) =>
      if ty == PrimTy then Done(NoVal, st)
      else if x in fr.env then Expect(fr.env[x], ty, st)
      else if x in p.globals then Expect(Ref(p.globals[x]), ty, st)
      else Halt(Panic, st)
    case Lit(_, id, elems) =>
      var (vs, st1) :- EvalAll(p, o, fuel, fr, st, elems);
      var (r, st2) :- Dest(SpecsOf(p, fr).LitAt(id), fr, st1);
      Alloc(r, Pointers(vs), st2, Mixes(SpecsOf(p, fr).LitAt(id), elems))
    case Call(id, fn, args, auto, ty) =>
      var (vs, st1) :- EvalAll(p, o, fuel, fr, st, args);
      if auto then
        var (r, st2) :- Dest(SpecsOf(p, fr).CallAt(id), fr, st1);
        if fuel == 0 then Halt(OutOfFuel, st2)
        else
          var (v, st3) :- Run(p, o, fuel - 1, fn, vs + [Reg(r)], st2);
          Expect(v, ty, st3)
      else if fuel == 0 then Halt(OutOfFuel, st1)
      else
        var (v, st3) :- Run(p, o, fuel - 1, fn, vs, st1);
        Expect(v, ty, st3)
    case Push(vec, item) =>
      var (c, st1) :- Eval(p, o, fuel, fr, st, vec);
      var (v, st2) :- Eval(p, o, fuel, fr, st1, item);
      var (l, st3) :- Deref(c, st2);
      var (at, st4) := Ask(o, st3);
      Done(NoVal, Write(l, at, v, st4))
    case Pop(_, vec, ty) =>
      var (c, st1) :- Eval(p, o, fuel, fr, st, vec);
      var (l, st2) :- Deref(c, st1);
      var (at, st3) := Ask(o, st2);
      if ty != CompositeTy then Expect(NoVal, ty, st3)
      else if at !in st3.heap[l].fields then Halt(Panic, st3)
      else
        Done(Ref(st3.heap[l].fields[at]),
             st3.(heap := st3.heap[l := st3.heap[l].(fields := st3.heap[l].fields - {at})]))
    case Copy(_, of, dest) =>
      var (c, st1) :- Eval(p, o, fuel, fr, st, of);
      var (_, st2) :- Deref(c, st1);
      if dest == [] then Alloc(fr.local, map[], st2)
      else
        var (r, st3) :- Eval(p, o, fuel, fr, st2, dest[0]);
        if r.Reg? then Alloc(r.rid, map[], st3) else Halt(Panic, st3)
    case LocalRegion => Done(Reg(fr.local), st)
    case RegionOf(x) =>
      if x !in fr.env then Halt(Panic, st)
      else
        var (l, st1) :- Deref(fr.env[x], st);
        Done(Reg(st1.heap[l].region), st1)
    case Part(base, at, ty) =>
      var (c, st1) :- Eval(p, o, fuel, fr, st, base);
      var (l, st2) :- Deref(c, st1);
      if ty != CompositeTy then Expect(NoVal, ty, st2)
      else if at in st2.heap[l].fields then Done(Ref(st2.heap[l].fields[at]), st2)
      else Halt(Panic, st2)
    case Lookup(base, at) =>
      var (c, st1) :- Eval(p, o, fuel, fr, st, base);
      var (l, st2) :- Deref(c, st1);
      var ob := st2.heap[l];
      Alloc(ob.region, if at in ob.fields then map[0 := ob.fields[at]] else map[], st2, ob.mixed)
    case Slice(base) =>
      var (c, st1) :- Eval(p, o, fuel, fr, st, base);
      var (l, st2) :- Deref(c, st1);
      Alloc(st2.heap[l].region, st2.heap[l].fields, st2, st2.heap[l].mixed)
    case Ternary(cond, thn, els, ty) =>
      var (_, st1) :- Eval(p, o, fuel, fr, st, cond);
      var (pick, st2) := Ask(o, st1);
      var (v, st3) :- Eval(p, o, fuel, fr, st2, if pick == 0 then thn else els);
      Expect(v, ty, st3)
  }

  function EvalAll(p: Prog, o: nat -> nat, fuel: nat, fr: Frame, st: State, es: seq<Expr>): Outcome<seq<Value>>
    decreases fuel, 0, es
  {
    if es == [] then Done([], st)
    else
      var (v, st1) :- Eval(p, o, fuel, fr, st, es[0]);
      var (vs, st2) :- EvalAll(p, o, fuel, fr, st1, es[1..]);
      Done([v] + vs, st2)
  }

  function Bind(params: seq<Param>, vs: seq<Value>): (env: map<Name, Value>)
    requires |params| == |vs|
  {
    if params == [] then map[]
    else if vs[0].NoVal? then Bind(params[1..], vs[1..])
    else Bind(params[1..], vs[1..])[params[0].name := vs[0]]
  }

  predicate ArgsTyped(params: seq<Param>, vs: seq<Value>) {
    |params| == |vs| && forall i :: 0 <= i < |vs| ==> Typed(vs[i], params[i].ty)
  }

  /** One call: prologue `jik_region_new`, body, cleanup `jik_region_free`. */
  function Run(p: Prog, o: nat -> nat, fuel: nat, fn: Name, vs: seq<Value>, st: State): Outcome<Value>
    decreases fuel, 1
  {
    if fn !in p.funcs || !ArgsTyped(p.funcs[fn].params, vs) then Halt(Panic, st)
    else
      var local := st.nextRegion;
      var st1 := st.(live := st.live + {local}, nextRegion := local + 1);
      var fr := Frame(fn, Bind(p.funcs[fn].params, vs), local);
      var (flow, st2) :- ExecAll(p, o, fuel, fr, st1, p.funcs[fn].body);
      Done(if flow.Returned? then flow.result else NoVal, st2.(live := st2.live - {local}))
  }

  function SetVar(env: map<Name, Value>, x: Name, v: Value): map<Name, Value> {
    if v.NoVal? then env else env[x := v]
  }

  function Exec(p: Prog, o: nat -> nat, fuel: nat, fr: Frame, st: State, s: Stmt): Outcome<Flow>
    decreases fuel, 0, s
  {
    match s
    case Declare(x, e) =>
      var (v, st1) :- Eval(p, o, fuel, fr, st, e);
      Done(Next(SetVar(fr.env, x, v)), st1)
    case Assign(x, e) =>
      var (v, st1) :- Eval(p, o, fuel, fr, st, e);
      Done(Next(SetVar(fr.env, x, v)), st1)
    case Store(target, at, e) =>
      var (c, st1) :- Eval(p, o, fuel, fr, st, target);
      var (v, st2) :- Eval(p, o, fuel, fr, st1, e);
      var (l, st3) :- Deref(c, st2);
      Done(Next(fr.env), Write(l, at, v, st3))
    case Do(e) =>
      var (_, st1) :- Eval(p, o, fuel, fr, st, e);
      Done(Next(fr.env), st1)
    case Return(e) =>
      var (v, st1) :- Eval(p, o, fuel, fr, st, e);
      Done(Returned(v), st1)
    case ReturnVoid => Done(Returned(NoVal), st)
    case If(cond, thn, els) =>
      var (_, st1) :- Eval(p, o, fuel, fr, st, cond);
      var (pick, st2) := Ask(o, st1);
      if pick == 0 then ExecAll(p, o, fuel, fr, st2, thn) else ExecAll(p, o, fuel, fr, st2, els)
    case While(cond, body) =>
      var (_, st1) :- Eval(p, o, fuel, fr, st, cond);
      var (pick, st2) := Ask(o, st1);
      if pick == 0 then Done(Next(fr.env), st2)
      else
        var (flow, st3) :- ExecAll(p, o, fuel, fr, st2, body);
        if flow.Returned? then Done(flow, st3)
        else if fuel == 0 then Halt(OutOfFuel, st3)
        else Exec(p, o, fuel - 1, fr.(env := flow.env), st3, s)
    case ForIn(x, ty, e, body) =>
      var (c, st1) :- Eval(p, o, fuel, fr, st, e);
      Iterate(p, o, fuel, fr, st1, c, x, ty, body)
  }

  /** The next element of a loop over c, if there is one. */
  function NextElement(o: nat -> nat, st: State, c: Value, ty: Ty): Outcome<(bool, Value)> {
    var (l, st1) :- Deref(c, st);
    var (pick, st2) := Ask(o, st1);
    if pick == 0 then Done((false, NoVal), st2)
    else if ty != CompositeTy then Done((true, NoVal), st2)
    else if pick - 1 in st2.heap[l].fields then Done((true, Ref(st2.heap[l].fields[pick - 1])), st2)
    else Halt(Panic, st2)
  }

  /** The iterations of `for x in c`: each binds x to some element of c. */
  function Iterate(p: Prog, o: nat -> nat, fuel: nat, fr: Frame, st: State, c: Value, x: Name, ty: Ty, body: seq<Stmt>): Outcome<Flow>
    decreases fuel, 0, body
  {
    var (next, st1) :- NextElement(o, st, c, ty);
    if !next.0 then Done(Next(fr.env), st1)
    else if fuel == 0 then Halt(OutOfFuel, st1)
    else
      var (flow, st2) :- ExecAll(p, o, fuel - 1, fr.(env := SetVar(fr.env, x, next.1)), st1, body);
      if flow.Returned? then Done(flow, st2)
      else Iterate(p, o, fuel - 1, fr.(env := flow.env), st2, c, x, ty, body)
  }

  function ExecAll(p: Prog, o: nat -> nat, fuel: nat, fr: Frame, st: State, b: seq<Stmt>): Outcome<Flow>
    decreases fuel, 0, b
  {
    if b == [] then Done(Next(fr.env), st)
    else
      var (flow, st1) :- Exec(p, o, fuel, fr, st, b[0]);
      if flow.Returned? then Done(flow, st1)
      else ExecAll(p, o, fuel, fr.(env := flow.env), st1, b[1..])
  }
}
