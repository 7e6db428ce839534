/** Error handling in Jik: statements with `fail`, propagating `try`, `try/except` and
    `must`, and their meaning as exceptions. */
module ErrorSyntax {
  type Name = string

  /** Pure integer expressions; `CaughtCode` is `error_code()`. */
  datatype Exp = Num(n: int) | Var(x: Name) | Plus(l: Exp, r: Exp) | Minus(l: Exp, r: Exp) | Less(l: Exp, r: Exp) | CaughtCode

  /** The message operand of `fail` and `print`; `CaughtText` is `error_msg()`, of which at
      most 255 bytes reach the handler. */
  datatype Text = NoText | Lit(s: string) | CaughtText

  datatype How = Plain | Propagate | Must

  datatype Dest = NoDest | Declares(x: Name) | Assigns(x: Name)

  datatype Stmt =
    | Assign(x: Name, e: Exp)
    | Print(m: Text)
    | Call(dest: Dest, fn: Name, args: seq<Exp>, how: How)
    | Try(dest: Dest, fn: Name, args: seq<Exp>, pass: seq<Stmt>, err: seq<Stmt>)
    | If(c: Exp, thn: seq<Stmt>, els: seq<Stmt>)
    | While(c: Exp, body: seq<Stmt>)
    | Return(e: Exp)
    | Fail(m: Text, code: Exp)
    | Break
    | Continue

  datatype Func = Func(params: seq<Name>, throws: bool, body: seq<Stmt>)

  type Prog = map<Name, Func>

  // ----- error values -----

  datatype Error = Error(code: int, msg: string)

  const NO_ERROR := Error(0, "")

  // ----- expressions -----

  function Eval(e: Exp, env: map<Name, int>, caught: Error): int {
    match e
    case Num(n) => n
    case Var(x) => if x in env then env[x] else 0
    case Plus(l, r) => Eval(l, env, caught) + Eval(r, env, caught)
    case Minus(l, r) => Eval(l, env, caught) - Eval(r, env, caught)
    case Less(l, r) => if Eval(l, env, caught) < Eval(r, env, caught) then 1 else 0
    case CaughtCode => caught.code
  }

  function EvalAll(es: seq<Exp>, env: map<Name, int>, caught: Error): (vs: seq<int>)
    ensures |vs| == |es|
  {
    seq(|es|, i requires 0 <= i < |es| => Eval(es[i], env, caught))
  }

  function TextValue(m: Text, caught: Error): string {
    match m
    case NoText => ""
    case Lit(s) => s
    case CaughtText => if |caught.msg| < 256 then caught.msg else caught.msg[..255]
  }

  function BindParams(params: seq<Name>, vs: seq<int>): map<Name, int> {
    if params == [] || vs == [] then map[] else BindParams(params[1..], vs[1..])[params[0] := vs[0]]
  }

  // ----- exception semantics -----

  datatype State = State(env: map<Name, int>, out: seq<string>)

  datatype Flow = Go | Brk | Cont | Ret(v: int) | Throw(error: Error) | Panicked | NoFuel

  datatype Answer = Value(v: int) | Raises(error: Error) | Panics | Unfinished

  function Store(dest: Dest, v: int, st: State): State {
    if dest.NoDest? then st else st.(env := st.env[dest.x := v])
  }

  /** The variable of `try x := ...` is valid only in the try body. */
  function Leave(dest: Dest, st: State): State {
    if dest.NoDest? then st else st.(env := st.env - {dest.x})
  }

  /** Which error the call and the body of a nested try/except see: the one caught around
      them, or, where the nested one already counts as the current try, no error. */
  datatype Scoping = Lexical | Innermost

  function Current(scoping: Scoping, caught: Error): Error {
    if scoping == Lexical then caught else NO_ERROR
  }

  function Exec(p: Prog, scoping: Scoping, fuel: nat, caught: Error, st: State, s: Stmt): (Flow, State)
    decreases fuel, 0, s
  {
    match s
    case Assign(x, e) => (Go, st.(env := st.env[x := Eval(e, st.env, caught)]))
    case Print(m) => (Go, st.(out := st.out + [TextValue(m, caught)]))
    case Call(dest, fn, args, how) =>
      if fuel == 0 then (NoFuel, st)
      else
        var (a, out) := Invoke(p, scoping, fuel - 1, fn, EvalAll(args, st.env, caught), st.out);
        var st1 := st.(out := out);
        (match a
         case Value(v) => (Go, Store(dest, v, st1))
         case Raises(e) => (if how == Must then Panicked else Throw(e), st1)
         case Panics => (Panicked, st1)
         case Unfinished => (NoFuel, st1))
    case Try(dest, fn, args, pass, err) =>
      if fuel == 0 then (NoFuel, st)
      else
        var inner := Current(scoping, caught);
        var (a, out) := Invoke(p, scoping, fuel - 1, fn, EvalAll(args, st.env, inner), st.out);
        var st1 := st.(out := out);
        (match a
         case Value(v) =>
           var (f, st2) := ExecAll(p, scoping, fuel, inner, Store(dest, v, st1), pass);
           (f, Leave(dest, st2))
         case Raises(e) =>
           var (f, st2) := ExecAll(p, scoping, fuel, e, st1, err);
           (f, Leave(dest, st2))
         case Panics => (Panicked, st1)
         case Unfinished => (NoFuel, st1))
    case If(c, thn, els) =>
      if Eval(c, st.env, caught) != 0 then ExecAll(p, scoping, fuel, caught, st, thn) else ExecAll(p, scoping, fuel, caught, st, els)
    case While(c, body) =>
      if Eval(c, st.env, caught) == 0 then (Go, st)
      else
        var (f, st1) := ExecAll(p, scoping, fuel, caught, st, body);
        if f.Brk? then (Go, st1)
        else if !f.Go? && !f.Cont? then (f, st1)
        else if fuel == 0 then (NoFuel, st1)
        else Exec(p, scoping, fuel - 1, caught, st1, s)
    case Return(e) => (Ret(Eval(e, st.env, caught)), st)
    case Fail(m, code) => (Throw(Error(Eval(code, st.env, caught), TextValue(m, caught))), st)
    case Break => (Brk, st)
    case Continue => (Cont, st)
  }

  function ExecAll(p: Prog, scoping: Scoping, fuel: nat, caught: Error, st: State, b: seq<Stmt>): (Flow, State)
    decreases fuel, 0, b
  {
    if b == [] then (Go, st)
    else
      var (f, st1) := Exec(p, scoping, fuel, caught, st, b[0]);
      if f.Go? then ExecAll(p, scoping, fuel, caught, st1, b[1..]) else (f, st1)
  }

  function Invoke(p: Prog, scoping: Scoping, fuel: nat, fn: Name, vs: seq<int>, out: seq<string>): (Answer, seq<string>)
    decreases fuel, 1
  {
    if fn !in p then (Panics, out)
    else
      var (f, st) := ExecAll(p, scoping, fuel, NO_ERROR, State(BindParams(p[fn].params, vs), out), p[fn].body);
      (match f
       case Go => Value(0)
       case Brk => Value(0)
       case Cont => Value(0)
       case Ret(v) => Value(v)
       case Throw(e) => Raises(e)
       case Panicked => Panics
       case NoFuel => Unfinished, st.out)
  }

  // ----- static checks -----

  predicate MentionsCaught(e: Exp) {
    match e
    case CaughtCode => true
    case Plus(l, r) => MentionsCaught(l) || MentionsCaught(r)
    case Minus(l, r) => MentionsCaught(l) || MentionsCaught(r)
    case Less(l, r) => MentionsCaught(l) || MentionsCaught(r)
    case _ => false
  }

  function VarsE(e: Exp): set<Name> {
    match e
    case Var(x) => {x}
    case Plus(l, r) => VarsE(l) + VarsE(r)
    case Minus(l, r) => VarsE(l) + VarsE(r)
    case Less(l, r) => VarsE(l) + VarsE(r)
    case _ => {}
  }

  function VarsEs(es: seq<Exp>): set<Name> {
    if es == [] then {} else VarsE(es[0]) + VarsEs(es[1..])
  }

  function VarsD(d: Dest): set<Name> { if d.NoDest? then {} else {d.x} }

  function Vars(s: Stmt): set<Name> {
    match s
    case Assign(x, e) => {x} + VarsE(e)
    case Print(_) => {}
    case Call(dest, _, args, _) => VarsD(dest) + VarsEs(args)
    case Try(dest, _, args, pass, err) => VarsD(dest) + VarsEs(args) + VarsAll(pass) + VarsAll(err)
    case If(c, thn, els) => VarsE(c) + VarsAll(thn) + VarsAll(els)
    case While(c, body) => VarsE(c) + VarsAll(body)
    case Return(e) => VarsE(e)
    case Fail(_, code) => VarsE(code)
    case Break => {}
    case Continue => {}
  }

  function VarsAll(b: seq<Stmt>): set<Name> {
    if b == [] then {} else Vars(b[0]) + VarsAll(b[1..])
  }

  predicate CalleeThrows(p: Prog, fn: Name) { fn in p && p[fn].throws }

  /** `jik_check_error_handling`, with names resolved: a function may not fail or
      propagate unless it throws, and a throwing call must be handled. */
  predicate Handled(p: Prog, throws: bool, s: Stmt)
    decreases s
  {
    match s
    case Call(_, fn, _, how) =>
      && fn in p
      && (p[fn].throws <==> how != Plain)
      && (how == Propagate ==> throws)
    case Try(dest, fn, _, pass, err) =>
      && fn in p && p[fn].throws && !dest.Assigns?
      && HandledAll(p, throws, pass) && HandledAll(p, throws, err)
      && VarsD(dest) !! VarsAll(err)
    case If(_, thn, els) => HandledAll(p, throws, thn) && HandledAll(p, throws, els)
    case While(_, body) => HandledAll(p, throws, body)
    case Fail(_, _) => throws
    case _ => true
  }

  predicate HandledAll(p: Prog, throws: bool, b: seq<Stmt>)
    decreases b
  {
    b == [] || (Handled(p, throws, b[0]) && HandledAll(p, throws, b[1..]))
  }

  predicate AllHandled(p: Prog) {
    forall fn :: fn in p ==> HandledAll(p, p[fn].throws, p[fn].body)
  }

  predicate NoneMention(es: seq<Exp>) {
    forall e :: e in es ==> !MentionsCaught(e)
  }

  /** Expressions of s itself may read the caught error only if `may` holds. */
  predicate OwnReads(may: bool, s: Stmt) {
    may ||
    match s
    case Assign(_, e) => !MentionsCaught(e)
    case Print(m) => !m.CaughtText?
    case Call(_, _, args, _) => NoneMention(args)
    case If(c, _, _) => !MentionsCaught(c)
    case While(c, _) => !MentionsCaught(c)
    case Return(e) => !MentionsCaught(e)
    case Fail(m, code) => !m.CaughtText? && !MentionsCaught(code)
    case _ => true
  }

  /** Every `error_code()` and `error_msg()` lies somewhere inside a `try/except`. The
      compiler does not check this. */
  predicate Covered(inTry: bool, s: Stmt)
    decreases s
  {
    && OwnReads(inTry, s)
    && match s
       case Try(_, _, _, pass, err) => CoveredAll(true, pass) && CoveredAll(true, err)
       case If(_, thn, els) => CoveredAll(inTry, thn) && CoveredAll(inTry, els)
       case While(_, body) => CoveredAll(inTry, body)
       case _ => true
  }

  predicate CoveredAll(inTry: bool, b: seq<Stmt>)
    decreases b
  {
    b == [] || (Covered(inTry, b[0]) && CoveredAll(inTry, b[1..]))
  }

  predicate AllCovered(p: Prog) {
    forall fn :: fn in p ==> CoveredAll(false, p[fn].body)
  }

  /** Outside every `except` body, directly inside one, or inside one but in the call or
      the try body of a nested `try/except`. */
  datatype Place = Outside | InExcept | Nested

  function PassPlace(at: Place): Place { if at == Outside then Outside else Nested }

  /** No statement reads a caught error from the call or the try body of a nested
      `try/except`, where its own try shadows the enclosing one. */
  predicate Unshadowed(at: Place, s: Stmt)
    decreases s
  {
    && OwnReads(at != Nested, s)
    && match s
       case Try(_, _, args, pass, err) =>
         (at != Outside ==> NoneMention(args)) && UnshadowedAll(PassPlace(at), pass) && UnshadowedAll(InExcept, err)
       case If(_, thn, els) => UnshadowedAll(at, thn) && UnshadowedAll(at, els)
       case While(_, body) => UnshadowedAll(at, body)
       case _ => true
  }

  predicate UnshadowedAll(at: Place, b: seq<Stmt>)
    decreases b
  {
    b == [] || (Unshadowed(at, b[0]) && UnshadowedAll(at, b[1..]))
  }

  predicate AllUnshadowed(p: Prog) {
    forall fn :: fn in p ==> UnshadowedAll(Outside, p[fn].body)
  }

  // ----- the local region (`jik_classify_functions`) -----

  /** Statements whose generated code mentions the function's local region. */
  predicate NeedsRegion(s: Stmt)
    decreases s
  {
    match s
    case Print(_) => true
    case Fail(m, _) => !m.NoText?
    case Try(_, _, _, pass, err) => NeedsRegionAny(pass) || NeedsRegionAny(err)
    case If(_, thn, els) => NeedsRegionAny(thn) || NeedsRegionAny(els)
    case While(_, body) => NeedsRegionAny(body)
    case _ => false
  }

  predicate NeedsRegionAny(b: seq<Stmt>)
    decreases b
  {
    b != [] && (NeedsRegion(b[0]) || NeedsRegionAny(b[1..]))
  }
}
