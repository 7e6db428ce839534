/** The C the code generator emits for error handling: error cells, a flag test after
    each throwing call, `goto jik_cleanup`, and one local region per function. */
module ErrorTarget {
  import opened Results
  import opened ErrorSyntax

  const MAX_ERR_MSG: nat := 256

  /** What an error buffer of MAX_ERR_MSG bytes keeps of a message. */
  function Kept(s: string): string {
    if |s| >= MAX_ERR_MSG then s[..MAX_ERR_MSG - 1] else s
  }

  /** `JikError`. */
  datatype Cell = Cell(failed: bool, code: int, msg: string)

  const CLEAR := Cell(false, 0, "")

  /** `jik_error_set` on the values of a cell (`ErrorRuntime.ErrorCell` has the buffer itself). */
  function SetCell(code: int, msg: string): Cell { Cell(true, code, Kept(msg)) }

  datatype Which = ErrArg | CatchErr

  datatype CDest = ToNone | ToVar(x: Name) | ToTemp(n: nat)

  datatype CStmt =
    | CSet(x: Name, e: Exp)
    | CSetTemp(x: Name, n: nat)                            // x = jik_try_value_n
    | CPrint(m: Text)
    | CCall(dest: CDest, fn: Name, args: seq<Exp>, target: Option<Which>)
    | CMust(dest: CDest, fn: Name, args: seq<Exp>)
    | CFail(m: Text, code: Exp)                            // jik_error_set(jik_err_arg, ...)
    | CSetResult(e: Exp)
    | CGoto                                                // goto jik_cleanup
    | CIfFailed(which: Which, thn: seq<CStmt>, els: seq<CStmt>)
    | CClearCatch
    | CCatchBlock(scoped: Dest, body: seq<CStmt>)          // { JikError jik_catch_err = {0}; ... }
    | CIf(c: Exp, thn: seq<CStmt>, els: seq<CStmt>)
    | CWhile(c: Exp, body: seq<CStmt>)
    | CBreak
    | CContinue

  /** `hasRegion`: prologue and cleanup create and free the local region. */
  datatype CFunc = CFunc(params: seq<Name>, throws: bool, hasRegion: bool, body: seq<CStmt>)

  type CProg = map<Name, CFunc>

  datatype Frame = Frame(
    env: map<Name, int>, temps: map<nat, int>, result: int,
    err: Option<Cell>, catches: seq<Cell>, region: bool)

  /** `made` and `freed` count local regions over the whole run. */
  datatype World = World(out: seq<string>, made: nat, freed: nat)

  /** `Stuck`: the C text would not compile or breaks a rule of the runtime: an
      undeclared region or error cell, or a throwing call that starts with its flag set. */
  datatype CFlow = CGo | CJump | CBrk | CCont | CPanicked | CNoFuel | Stuck

  datatype CAnswer = Back(v: int, err: Option<Cell>) | CPanics | CUnfinished | CStuck

  function Caught(fr: Frame): Error {
    if fr.catches == [] then NO_ERROR else Error(fr.catches[|fr.catches| - 1].code, fr.catches[|fr.catches| - 1].msg)
  }

  predicate ReadsCell(fr: Frame, mentions: bool) { mentions ==> fr.catches != [] }

  function GetCell(fr: Frame, w: Which): Option<Cell> {
    match w
    case ErrArg => fr.err
    case CatchErr => if fr.catches == [] then None else Some(fr.catches[|fr.catches| - 1])
  }

  function PutCell(fr: Frame, w: Which, c: Cell): Frame {
    match w
    case ErrArg => fr.(err := Some(c))
    case CatchErr => if fr.catches == [] then fr else fr.(catches := fr.catches[|fr.catches| - 1 := c])
  }

  function CStore(d: CDest, v: int, fr: Frame): Frame {
    match d
    case ToNone => fr
    case ToVar(x) => fr.(env := fr.env[x := v])
    case ToTemp(n) => fr.(temps := fr.temps[n := v])
  }

  function LeaveBlock(scoped: Dest, fr: Frame, outer: seq<Cell>): Frame {
    var fr1 := fr.(catches := outer);
    if scoped.NoDest? then fr1 else fr1.(env := fr1.env - {scoped.x})
  }

  /** The region a message operand allocates in must be declared. */
  predicate TextOk(m: Text, fr: Frame) {
    (m.NoText? || fr.region) && ReadsCell(fr, m.CaughtText?)
  }

  function CExec(p: CProg, fuel: nat, fr: Frame, w: World, s: CStmt): (CFlow, Frame, World)
    decreases fuel, 0, s
  {
    match s
    case CSet(x, e) =>
      if !ReadsCell(fr, MentionsCaught(e)) then (Stuck, fr, w)
      else (CGo, fr.(env := fr.env[x := Eval(e, fr.env, Caught(fr))]), w)
    case CSetTemp(x, n) => if n in fr.temps then (CGo, fr.(env := fr.env[x := fr.temps[n]]), w) else (Stuck, fr, w)
    case CPrint(m) =>
      if fr.region && TextOk(m, fr) then (CGo, fr, w.(out := w.out + [TextValue(m, Caught(fr))])) else (Stuck, fr, w)
    case CCall(dest, fn, args, target) =>
      if fuel == 0 then (CNoFuel, fr, w)
      else if exists e :: e in args && !ReadsCell(fr, MentionsCaught(e)) then (Stuck, fr, w)
      else if target.Some? && GetCell(fr, target.value).None? then (Stuck, fr, w)
      else
        var cell := if target.Some? then GetCell(fr, target.value) else None;
        var (a, w1) := CInvoke(p, fuel - 1, fn, EvalAll(args, fr.env, Caught(fr)), cell, w);
        (match a
         case Back(v, err) =>
           var fr1 := CStore(dest, v, fr);
           (CGo, if target.Some? && err.Some? then PutCell(fr1, target.value, err.value) else fr1, w1)
         case CPanics => (CPanicked, fr, w1)
         case CUnfinished => (CNoFuel, fr, w1)
         case CStuck => (Stuck, fr, w1))
    case CMust(dest, fn, args) =>
      // the `_must` helper: JikError jik_local_err = {0}; call; jik_panic_on_error
      if fuel == 0 then (CNoFuel, fr, w)
      else if exists e :: e in args && !ReadsCell(fr, MentionsCaught(e)) then (Stuck, fr, w)
      else
        var (a, w1) := CInvoke(p, fuel - 1, fn, EvalAll(args, fr.env, Caught(fr)), Some(CLEAR), w);
        (match a
         case Back(v, err) =>
           if err.None? then (Stuck, fr, w1)
           else if err.value.failed then (CPanicked, fr, w1)
           else (CGo, CStore(dest, v, fr), w1)
         case CPanics => (CPanicked, fr, w1)
         case CUnfinished => (CNoFuel, fr, w1)
         case CStuck => (Stuck, fr, w1))
    case CFail(m, code) =>
      if fr.err.None? || !TextOk(m, fr) || !ReadsCell(fr, MentionsCaught(code)) then (Stuck, fr, w)
      else (CGo, fr.(err := Some(SetCell(Eval(code, fr.env, Caught(fr)), TextValue(m, Caught(fr))))), w)
    case CSetResult(e) =>
      if !ReadsCell(fr, MentionsCaught(e)) then (Stuck, fr, w) else (CGo, fr.(result := Eval(e, fr.env, Caught(fr))), w)
    case CGoto => (CJump, fr, w)
    case CIfFailed(which, thn, els) =>
      var c := GetCell(fr, which);
      if c.None? then (Stuck, fr, w)
      else if c.value.failed then CExecAll(p, fuel, fr, w, thn) else CExecAll(p, fuel, fr, w, els)
    case CClearCatch => if fr.catches == [] then (Stuck, fr, w) else (CGo, PutCell(fr, CatchErr, CLEAR), w)
    case CCatchBlock(scoped, body) =>
      var (f, fr1, w1) := CExecAll(p, fuel, fr.(catches := fr.catches + [CLEAR]), w, body);
      (f, LeaveBlock(scoped, fr1, fr.catches), w1)
    case CIf(c, thn, els) =>
      if !ReadsCell(fr, MentionsCaught(c)) then (Stuck, fr, w)
      else if Eval(c, fr.env, Caught(fr)) != 0 then CExecAll(p, fuel, fr, w, thn) else CExecAll(p, fuel, fr, w, els)
    case CWhile(c, body) =>
      if !ReadsCell(fr, MentionsCaught(c)) then (Stuck, fr, w)
      else if Eval(c, fr.env, Caught(fr)) == 0 then (CGo, fr, w)
      else
        var (f, fr1, w1) := CExecAll(p, fuel, fr, w, body);
        if f.CBrk? then (CGo, fr1, w1)
        else if !f.CGo? && !f.CCont? then (f, fr1, w1)
        else if fuel == 0 then (CNoFuel, fr1, w1)
        else CExec(p, fuel - 1, fr1, w1, s)
    case CBreak => (CBrk, fr, w)
    case CContinue => (CCont, fr, w)
  }

  function CExecAll(p: CProg, fuel: nat, fr: Frame, w: World, b: seq<CStmt>): (CFlow, Frame, World)
    decreases fuel, 0, b
  {
    if b == [] then (CGo, fr, w)
    else
      var (f, fr1, w1) := CExec(p, fuel, fr, w, b[0]);
      if f.CGo? then CExecAll(p, fuel, fr1, w1, b[1..]) else (f, fr1, w1)
  }

  /** Prologue, body, and the single cleanup label that every exit reaches. */
  function CInvoke(p: CProg, fuel: nat, fn: Name, vs: seq<int>, cell: Option<Cell>, w: World): (CAnswer, World)
    decreases fuel, 1
  {
    if fn !in p then (CPanics, w)
    else if p[fn].throws != cell.Some? || (cell.Some? && cell.value.failed) then (CStuck, w)
    else
      var f := p[fn];
      var w1 := if f.hasRegion then w.(made := w.made + 1) else w;
      var (flow, fr, w2) := CExecAll(p, fuel, Frame(BindParams(f.params, vs), map[], 0, cell, [], f.hasRegion), w1, f.body);
      match flow
      case CPanicked => (CPanics, w2)
      case CNoFuel => (CUnfinished, w2)
      case Stuck => (CStuck, w2)
      case _ =>
        var w3 := if f.hasRegion then w2.(freed := w2.freed + 1) else w2;
        (Back(fr.result, fr.err), w3)
  }
}
