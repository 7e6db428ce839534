/** Lowering of error handling, and the proof that it preserves meaning: the
    flag-and-goto code behaves exactly like the exceptions. */
module ErrorLowering {
  import opened Results
  import opened ErrorSyntax
  import opened ErrorTarget

  function LowerDest(d: Dest): CDest { if d.NoDest? then ToNone else ToVar(d.x) }

  const PROPAGATE: CStmt := CIfFailed(ErrArg, [CGoto], [])

  /** `jik_codegen_emit_statement`; n is the counter of `jik_try_value_` names. */
  function Lower(p: Prog, s: Stmt, n: nat): (seq<CStmt>, nat)
    decreases s
  {
    match s
    case Assign(x, e) => ([CSet(x, e)], n)
    case Print(m) => ([CPrint(m)], n)
    case Call(dest, fn, args, how) =>
      (match how
       case Plain => ([CCall(LowerDest(dest), fn, args, if CalleeThrows(p, fn) then Some(CatchErr) else None)], n)
       case Must => ([CMust(LowerDest(dest), fn, args)], n)
       case Propagate =>
         if dest.Assigns? then ([CCall(ToTemp(n), fn, args, Some(ErrArg)), PROPAGATE, CSetTemp(dest.x, n)], n + 1)
         else ([CCall(LowerDest(dest), fn, args, Some(ErrArg)), PROPAGATE], n))
    case Try(dest, fn, args, pass, err) =>
      var (e, n1) := LowerAll(p, err, n);
      var (q, n2) := LowerAll(p, pass, n1);
      ([CCatchBlock(dest, [CCall(LowerDest(dest), fn, args, if CalleeThrows(p, fn) then Some(CatchErr) else None),
                           CIfFailed(CatchErr, e + [CClearCatch], q)])], n2)
    case If(c, thn, els) =>
      var (t, n1) := LowerAll(p, thn, n);
      var (e, n2) := LowerAll(p, els, n1);
      ([CIf(c, t, e)], n2)
    case While(c, body) =>
      var (b, n1) := LowerAll(p, body, n);
      ([CWhile(c, b)], n1)
    case Return(e) => ([CSetResult(e), CGoto], n)
    case Fail(m, code) => ([CFail(m, code), CGoto], n)
    case Break => ([CBreak], n)
    case Continue => ([CContinue], n)
  }

  function LowerAll(p: Prog, b: seq<Stmt>, n: nat): (seq<CStmt>, nat)
    decreases b
  {
    if b == [] then ([], n)
    else
      var (h, n1) := Lower(p, b[0], n);
      var (t, n2) := LowerAll(p, b[1..], n1);
      (h + t, n2)
  }

  function LowerFunc(p: Prog, f: Func, n: nat): CFunc {
    CFunc(f.params, f.throws, NeedsRegionAny(f.body), LowerAll(p, f.body, n).0)
  }

  // ----- the simulation relation -----

  /** q is the translation of p, whatever the counter was at each function. */
  ghost predicate Lowered(p: Prog, q: CProg) {
    && q.Keys == p.Keys
    && forall fn :: fn in p ==> exists n :: q[fn] == LowerFunc(p, p[fn], n)
  }

  ghost predicate AgreeExcept(dead: set<Name>, a: map<Name, int>, b: map<Name, int>) {
    forall x :: x !in dead ==> (x in a <==> x in b) && (x in a ==> a[x] == b[x])
  }

  function Carrying(e: Error): Cell { Cell(true, e.code, Kept(e.msg)) }

  /** Fixed facts of a running function: its error cell on entry, the catch cells of the
      enclosing blocks, and the variables no statement in reach mentions. */
  datatype Ctx = Ctx(err: Option<Cell>, catches: seq<Cell>, region: bool, inTry: bool, caught: Error, dead: set<Name>)

  /** The cell reads as the error: a clear cell as no error. */
  ghost predicate Shows(cell: Cell, e: Error) { cell.code == e.code && cell.msg == Kept(e.msg) }

  ghost predicate CtxOk(c: Ctx) {
    && (c.err.Some? ==> !c.err.value.failed)
    && (c.inTry ==> c.catches != [] && Shows(c.catches[|c.catches| - 1], c.caught))
  }

  /** Source state and C frame between two statements. */
  ghost predicate Match(c: Ctx, st: State, fr: Frame, w: World) {
    && AgreeExcept(c.dead, st.env, fr.env)
    && w.out == st.out
    && fr.err == c.err && fr.catches == c.catches && fr.region == c.region
    && fr.result == 0
  }

  function Balance(w: World): int { w.made - w.freed }

  /** The C outcome that stands for a source outcome. */
  ghost predicate Simulates(c: Ctx, r: (Flow, State), cr: (CFlow, Frame, World), before: World) {
    var (f, st) := r;
    var (g, fr, w) := cr;
    && w.out == st.out
    && match f
       case Go => g == CGo && Match(c, st, fr, w) && Balance(w) == Balance(before)
       case Brk => g == CBrk && Match(c, st, fr, w) && Balance(w) == Balance(before)
       case Cont => g == CCont && Match(c, st, fr, w) && Balance(w) == Balance(before)
       case Ret(v) => g == CJump && fr.result == v && fr.err == c.err && Balance(w) == Balance(before)
       case Throw(e) => g == CJump && c.err.Some? && fr.err == Some(Carrying(e)) && Balance(w) == Balance(before)
       case Panicked => g == CPanicked
       case NoFuel => g == CNoFuel
  }

  ghost predicate AnswerSimulates(err: Option<Cell>, r: (Answer, seq<string>), cr: (CAnswer, World), before: World) {
    var (a, out) := r;
    var (b, w) := cr;
    && w.out == out
    && match a
       case Value(v) => b == Back(v, err) && Balance(w) == Balance(before)
       case Raises(e) => err.Some? && b.Back? && b.err == Some(Carrying(e)) && Balance(w) == Balance(before)
       case Panics => b == CPanics
       case Unfinished => b == CUnfinished
  }

  // ----- expressions -----

  lemma {:induction false} EvalAgrees(e: Exp, dead: set<Name>, a: map<Name, int>, b: map<Name, int>, s: Error, t: Error)
    requires AgreeExcept(dead, a, b) && VarsE(e) !! dead && (MentionsCaught(e) ==> s.code == t.code)
    ensures Eval(e, a, s) == Eval(e, b, t)
  {
    match e
    case Plus(l, r) => EvalAgrees(l, dead, a, b, s, t); EvalAgrees(r, dead, a, b, s, t);
    case Minus(l, r) => EvalAgrees(l, dead, a, b, s, t); EvalAgrees(r, dead, a, b, s, t);
    case Less(l, r) => EvalAgrees(l, dead, a, b, s, t); EvalAgrees(r, dead, a, b, s, t);
    case _ =>
  }

  lemma {:induction false} VarsOfArg(es: seq<Exp>, i: nat)
    requires i < |es|
    ensures VarsE(es[i]) <= VarsEs(es)
  {
    if i > 0 {
      VarsOfArg(es[1..], i - 1);
    }
  }

  lemma CtxEval(c: Ctx, st: State, fr: Frame, w: World, e: Exp)
    requires CtxOk(c) && Match(c, st, fr, w) && VarsE(e) !! c.dead && (c.inTry || !MentionsCaught(e))
    ensures ReadsCell(fr, MentionsCaught(e))
    ensures Eval(e, fr.env, Caught(fr)) == Eval(e, st.env, c.caught)
  {
    EvalAgrees(e, c.dead, st.env, fr.env, c.caught, Caught(fr));
  }

  lemma CtxEvalAll(c: Ctx, st: State, fr: Frame, w: World, es: seq<Exp>)
    requires CtxOk(c) && Match(c, st, fr, w) && VarsEs(es) !! c.dead && (c.inTry || NoneMention(es))
    ensures forall e :: e in es ==> ReadsCell(fr, MentionsCaught(e))
    ensures EvalAll(es, fr.env, Caught(fr)) == EvalAll(es, st.env, c.caught)
  {
    forall i | 0 <= i < |es|
      ensures ReadsCell(fr, MentionsCaught(es[i])) && Eval(es[i], fr.env, Caught(fr)) == Eval(es[i], st.env, c.caught)
    {
      VarsOfArg(es, i);
      CtxEval(c, st, fr, w, es[i]);
    }
  }

  lemma CtxText(c: Ctx, st: State, fr: Frame, w: World, m: Text)
    requires CtxOk(c) && Match(c, st, fr, w) && (c.inTry || !m.CaughtText?) && (!m.NoText? ==> c.region)
    ensures TextOk(m, fr) && TextValue(m, Caught(fr)) == TextValue(m, c.caught)
  {
  }

  lemma {:induction false} ExecConcat(q: CProg, fuel: nat, fr: Frame, w: World, a: seq<CStmt>, b: seq<CStmt>)
    ensures
      CExecAll(q, fuel, fr, w, a + b) ==
        var (f, fr1, w1) := CExecAll(q, fuel, fr, w, a);
        if f.CGo? then CExecAll(q, fuel, fr1, w1, b) else (f, fr1, w1)
    decreases a
  {
    if a == [] {
      assert a + b == b;
    } else {
      assert (a + b)[1..] == a[1..] + b;
      var (f, fr1, w1) := CExec(q, fuel, fr, w, a[0]);
      if f.CGo? {
        ExecConcat(q, fuel, fr1, w1, a[1..], b);
      }
    }
  }

  lemma ExecOne(q: CProg, fuel: nat, fr: Frame, w: World, s: CStmt)
    ensures CExecAll(q, fuel, fr, w, [s]) == CExec(q, fuel, fr, w, s)
  {
  }

  lemma ExecTwo(q: CProg, fuel: nat, fr: Frame, w: World, s: CStmt, t: CStmt)
    ensures
      CExecAll(q, fuel, fr, w, [s, t]) ==
        var (f, fr1, w1) := CExec(q, fuel, fr, w, s);
        if f.CGo? then CExec(q, fuel, fr1, w1, t) else (f, fr1, w1)
  {
    assert [s, t] == [s] + [t];
    ExecConcat(q, fuel, fr, w, [s], [t]);
  }

  // ----- the simulation -----

  ghost predicate Fits(p: Prog, c: Ctx, s: Stmt) {
    && Handled(p, c.err.Some?, s) && Covered(c.inTry, s) && Vars(s) !! c.dead
    && (NeedsRegion(s) ==> c.region)
  }

  ghost predicate FitsAll(p: Prog, c: Ctx, b: seq<Stmt>) {
    && HandledAll(p, c.err.Some?, b) && CoveredAll(c.inTry, b) && VarsAll(b) !! c.dead
    && (NeedsRegionAny(b) ==> c.region)
  }

  ghost predicate Start(p: Prog, q: CProg, c: Ctx, st: State, fr: Frame, w: World) {
    AllHandled(p) && AllCovered(p) && Lowered(p, q) && CtxOk(c) && Match(c, st, fr, w)
  }

  lemma {:induction false} SimAll(p: Prog, q: CProg, fuel: nat, c: Ctx, st: State, fr: Frame, w: World, b: seq<Stmt>, n: nat)
    requires Start(p, q, c, st, fr, w) && FitsAll(p, c, b)
    ensures Simulates(c, ExecAll(p, Innermost, fuel, c.caught, st, b), CExecAll(q, fuel, fr, w, LowerAll(p, b, n).0), w)
    decreases fuel, 0, b, 0
  {
    if b != [] {
      var (h, n1) := Lower(p, b[0], n);
      SimStmt(p, q, fuel, c, st, fr, w, b[0], n);
      var (f, st1) := Exec(p, Innermost, fuel, c.caught, st, b[0]);
      var (g, fr1, w1) := CExecAll(q, fuel, fr, w, h);
      ExecConcat(q, fuel, fr, w, h, LowerAll(p, b[1..], n1).0);
      if f.Go? {
        SimAll(p, q, fuel, c, st1, fr1, w1, b[1..], n1);
      }
    }
  }

  lemma {:induction false} SimStmt(p: Prog, q: CProg, fuel: nat, c: Ctx, st: State, fr: Frame, w: World, s: Stmt, n: nat)
    requires Start(p, q, c, st, fr, w) && Fits(p, c, s)
    ensures Simulates(c, Exec(p, Innermost, fuel, c.caught, st, s), CExecAll(q, fuel, fr, w, Lower(p, s, n).0), w)
    decreases fuel, 0, s, 1
  {
    match s
    case Call(_, _, _, _) => SimCall(p, q, fuel, c, st, fr, w, s, n);
    case Try(_, _, _, _, _) => SimTry(p, q, fuel, c, st, fr, w, s, n);
    case If(_, _, _) => SimIf(p, q, fuel, c, st, fr, w, s, n);
    case While(_, _) => SimWhile(p, q, fuel, c, st, fr, w, s, n);
    case Return(_) => SimExit(p, q, fuel, c, st, fr, w, s, n);
    case Fail(_, _) => SimExit(p, q, fuel, c, st, fr, w, s, n);
    case _ => SimSimple(p, q, fuel, c, st, fr, w, s, n);
  }

  /** Statements that emit one C statement and neither call nor nest. */
  lemma SimSimple(p: Prog, q: CProg, fuel: nat, c: Ctx, st: State, fr: Frame, w: World, s: Stmt, n: nat)
    requires Start(p, q, c, st, fr, w) && Fits(p, c, s) && (s.Assign? || s.Print? || s.Break? || s.Continue?)
    ensures Simulates(c, Exec(p, Innermost, fuel, c.caught, st, s), CExecAll(q, fuel, fr, w, Lower(p, s, n).0), w)
  {
    ExecOne(q, fuel, fr, w, Lower(p, s, n).0[0]);
    match s
    case Assign(x, e) => CtxEval(c, st, fr, w, e);
    case Print(m) => CtxText(c, st, fr, w, m);
    case _ =>
  }

  /** `return` and `fail`: record the outcome, then jump to the cleanup label. */
  lemma SimExit(p: Prog, q: CProg, fuel: nat, c: Ctx, st: State, fr: Frame, w: World, s: Stmt, n: nat)
    requires Start(p, q, c, st, fr, w) && Fits(p, c, s) && (s.Return? || s.Fail?)
    ensures Simulates(c, Exec(p, Innermost, fuel, c.caught, st, s), CExecAll(q, fuel, fr, w, Lower(p, s, n).0), w)
  {
    match s
    case Return(e) =>
      CtxEval(c, st, fr, w, e);
      ExecTwo(q, fuel, fr, w, CSetResult(e), CGoto);
    case Fail(m, code) =>
      CtxEval(c, st, fr, w, code);
      CtxText(c, st, fr, w, m);
      ExecTwo(q, fuel, fr, w, CFail(m, code), CGoto);
  }

  lemma {:induction false} SimIf(p: Prog, q: CProg, fuel: nat, c: Ctx, st: State, fr: Frame, w: World, s: Stmt, n: nat)
    requires Start(p, q, c, st, fr, w) && Fits(p, c, s) && s.If?
    ensures Simulates(c, Exec(p, Innermost, fuel, c.caught, st, s), CExecAll(q, fuel, fr, w, Lower(p, s, n).0), w)
    decreases fuel, 0, s, 0
  {
    CtxEval(c, st, fr, w, s.c);
    var (t, n1) := LowerAll(p, s.thn, n);
    var (e, n2) := LowerAll(p, s.els, n1);
    ExecOne(q, fuel, fr, w, CIf(s.c, t, e));
    if Eval(s.c, st.env, c.caught) != 0 {
      SimAll(p, q, fuel, c, st, fr, w, s.thn, n);
    } else {
      SimAll(p, q, fuel, c, st, fr, w, s.els, n1);
    }
  }

  lemma LoopFits(p: Prog, c: Ctx, s: Stmt)
    requires Fits(p, c, s) && s.While?
    ensures FitsAll(p, c, s.body) && VarsE(s.c) !! c.dead && (c.inTry || !MentionsCaught(s.c))
  {
  }

  lemma {:induction false} SimWhile(p: Prog, q: CProg, fuel: nat, c: Ctx, st: State, fr: Frame, w: World, s: Stmt, n: nat)
    requires Start(p, q, c, st, fr, w) && Fits(p, c, s) && s.While?
    ensures Simulates(c, Exec(p, Innermost, fuel, c.caught, st, s), CExecAll(q, fuel, fr, w, Lower(p, s, n).0), w)
    decreases fuel, 0, s, 0
  {
    hide Fits, FitsAll, AllHandled, AllCovered, Lowered, AgreeExcept;
    var (b, _) := LowerAll(p, s.body, n);
    LoopFits(p, c, s);
    ExecOne(q, fuel, fr, w, CWhile(s.c, b));
    CtxEval(c, st, fr, w, s.c);
    if Eval(s.c, st.env, c.caught) != 0 {
      SimAll(p, q, fuel, c, st, fr, w, s.body, n);
      var (f, st1) := ExecAll(p, Innermost, fuel, c.caught, st, s.body);
      var (g, fr1, w1) := CExecAll(q, fuel, fr, w, b);
      if (f.Go? || f.Cont?) && fuel > 0 {
        SimStmt(p, q, fuel - 1, c, st1, fr1, w1, s, n);
        ExecOne(q, fuel - 1, fr1, w1, CWhile(s.c, b));
      }
    }
  }

  lemma {:induction false} SimCall(p: Prog, q: CProg, fuel: nat, c: Ctx, st: State, fr: Frame, w: World, s: Stmt, n: nat)
    requires Start(p, q, c, st, fr, w) && Fits(p, c, s) && s.Call?
    ensures Simulates(c, Exec(p, Innermost, fuel, c.caught, st, s), CExecAll(q, fuel, fr, w, Lower(p, s, n).0), w)
    decreases fuel, 0, s, 0
  {
    CtxEvalAll(c, st, fr, w, s.args);
    if fuel > 0 {
      SimInvoke(p, q, fuel - 1, s.fn, EvalAll(s.args, st.env, c.caught), CellOf(c, s.how), w);
    }
    match s.how
    case Plain => SimPlain(p, q, fuel, c, st, fr, w, s, n);
    case Must => SimMust(p, q, fuel, c, st, fr, w, s, n);
    case Propagate =>
      if s.dest.Assigns? {
        SimPropagate(p, q, fuel, c, st, fr, w, s, ToTemp(n), [CSetTemp(s.dest.x, n)]);
        assert [CCall(ToTemp(n), s.fn, s.args, Some(ErrArg)), PROPAGATE] + [CSetTemp(s.dest.x, n)] == Lower(p, s, n).0;
      } else {
        SimPropagate(p, q, fuel, c, st, fr, w, s, LowerDest(s.dest), []);
        assert [CCall(LowerDest(s.dest), s.fn, s.args, Some(ErrArg)), PROPAGATE] + [] == Lower(p, s, n).0;
      }
  }

  /** The error cell a call hands to its callee. */
  function CellOf(c: Ctx, how: How): Option<Cell> {
    match how
    case Plain => None
    case Must => Some(CLEAR)
    case Propagate => c.err
  }

  /** The call's arguments agree, and its callee already simulates. */
  ghost predicate CallReady(p: Prog, q: CProg, fuel: nat, c: Ctx, st: State, fr: Frame, w: World, s: Stmt)
    requires s.Call?
  {
    var vs := EvalAll(s.args, st.env, c.caught);
    && (forall e :: e in s.args ==> ReadsCell(fr, MentionsCaught(e)))
    && EvalAll(s.args, fr.env, Caught(fr)) == vs
    && (fuel > 0 ==>
          AnswerSimulates(CellOf(c, s.how), Invoke(p, Innermost, fuel - 1, s.fn, vs, st.out),
                          CInvoke(q, fuel - 1, s.fn, vs, CellOf(c, s.how), w), w))
  }

  lemma SimPlain(p: Prog, q: CProg, fuel: nat, c: Ctx, st: State, fr: Frame, w: World, s: Stmt, n: nat)
    requires Start(p, q, c, st, fr, w) && Fits(p, c, s) && s.Call? && s.how == Plain && CallReady(p, q, fuel, c, st, fr, w, s)
    ensures Simulates(c, Exec(p, Innermost, fuel, c.caught, st, s), CExecAll(q, fuel, fr, w, Lower(p, s, n).0), w)
  {
    hide AllHandled, AllCovered, Lowered;
    ExecOne(q, fuel, fr, w, CCall(LowerDest(s.dest), s.fn, s.args, None));
  }

  lemma SimMust(p: Prog, q: CProg, fuel: nat, c: Ctx, st: State, fr: Frame, w: World, s: Stmt, n: nat)
    requires Start(p, q, c, st, fr, w) && Fits(p, c, s) && s.Call? && s.how == Must && CallReady(p, q, fuel, c, st, fr, w, s)
    ensures Simulates(c, Exec(p, Innermost, fuel, c.caught, st, s), CExecAll(q, fuel, fr, w, Lower(p, s, n).0), w)
  {
    hide AllHandled, AllCovered, Lowered;
    ExecOne(q, fuel, fr, w, CMust(LowerDest(s.dest), s.fn, s.args));
  }

  /** A propagating call: the flag test after it jumps exactly when the callee threw. */
  lemma SimPropagate(p: Prog, q: CProg, fuel: nat, c: Ctx, st: State, fr: Frame, w: World, s: Stmt, d: CDest, after: seq<CStmt>)
    requires Start(p, q, c, st, fr, w) && Fits(p, c, s) && s.Call? && s.how == Propagate && CallReady(p, q, fuel, c, st, fr, w, s)
    requires (d == LowerDest(s.dest) && after == [] && !s.dest.Assigns?)
          || (s.dest.Assigns? && d.ToTemp? && after == [CSetTemp(s.dest.x, d.n)])
    ensures
      Simulates(c, Exec(p, Innermost, fuel, c.caught, st, s),
                CExecAll(q, fuel, fr, w, [CCall(d, s.fn, s.args, Some(ErrArg)), PROPAGATE] + after), w)
  {
    hide AllHandled, AllCovered, Lowered, CallReady, EvalAll;
    PropagateShape(q, fuel, fr, w, CCall(d, s.fn, s.args, Some(ErrArg)), after);
    if fuel > 0 {
      PropagateCall(p, q, fuel, c, st, fr, w, s, d);
      var (g, fr1, w1) := CExec(q, fuel, fr, w, CCall(d, s.fn, s.args, Some(ErrArg)));
      if after != [] {
        ExecOne(q, fuel, fr1, w1, after[0]);
      }
    }
  }

  lemma PropagateShape(q: CProg, fuel: nat, fr: Frame, w: World, call: CStmt, after: seq<CStmt>)
    ensures
      CExecAll(q, fuel, fr, w, [call, PROPAGATE] + after) ==
        var (g, fr1, w1) := CExec(q, fuel, fr, w, call);
        if !g.CGo? then (g, fr1, w1)
        else if fr1.err.None? then (Stuck, fr1, w1)
        else if fr1.err.value.failed then (CJump, fr1, w1)
        else CExecAll(q, fuel, fr1, w1, after)
  {
    var (g, fr1, w1) := CExec(q, fuel, fr, w, call);
    ExecConcat(q, fuel, fr, w, [call, PROPAGATE], after);
    ExecTwo(q, fuel, fr, w, call, PROPAGATE);
    if g.CGo? {
      ExecOne(q, fuel, fr1, w1, CGoto);
    }
  }

  /** The propagating call itself: this function's own cell now says whether the callee threw. */
  lemma PropagateCall(p: Prog, q: CProg, fuel: nat, c: Ctx, st: State, fr: Frame, w: World, s: Stmt, d: CDest)
    requires CtxOk(c) && Match(c, st, fr, w) && s.Call? && s.how == Propagate && CallReady(p, q, fuel, c, st, fr, w, s)
    requires fuel > 0 && c.err.Some?
    ensures
      var (a, out) := Invoke(p, Innermost, fuel - 1, s.fn, EvalAll(s.args, st.env, c.caught), st.out);
      var (g, fr1, w1) := CExec(q, fuel, fr, w, CCall(d, s.fn, s.args, Some(ErrArg)));
      && w1.out == out
      && match a
         case Value(v) => g == CGo && fr1 == CStore(d, v, fr) && Balance(w1) == Balance(w)
         case Raises(e) => g == CGo && fr1.err == Some(Carrying(e)) && Balance(w1) == Balance(w)
         case Panics => g == CPanicked
         case Unfinished => g == CNoFuel
  {
  }

  /** Leaving a catch block ends the scope of its cell and of its variable. */
  lemma LeaveSim(c: Ctx, inner: Ctx, dest: Dest, f: Flow, st: State, g: CFlow, fr: Frame, fr': Frame, w: World, before: World)
    requires inner.err == c.err && inner.region == c.region && inner.dead <= c.dead + VarsD(dest)
    requires Simulates(inner, (f, st), (g, fr, w), before)
    requires fr'.(catches := fr.catches) == fr
    ensures Simulates(c, (f, Leave(dest, st)), (g, LeaveBlock(dest, fr', c.catches), w), before)
  {
  }

  lemma {:induction false} SimTry(p: Prog, q: CProg, fuel: nat, c: Ctx, st: State, fr: Frame, w: World, s: Stmt, n: nat)
    requires Start(p, q, c, st, fr, w) && Fits(p, c, s) && s.Try?
    ensures Simulates(c, Exec(p, Innermost, fuel, c.caught, st, s), CExecAll(q, fuel, fr, w, Lower(p, s, n).0), w)
    decreases fuel, 0, s, 0
  {
    var n1 := LowerAll(p, s.err, n).1;
    var fr0 := fr.(catches := fr.catches + [CLEAR]);
    TryArgs(p, c, st, fr, w, s);
    TryShape(p, q, fuel, fr, w, s, n);
    if fuel > 0 {
      var vs := EvalAll(s.args, st.env, NO_ERROR);
      SimInvoke(p, q, fuel - 1, s.fn, vs, Some(CLEAR), w);
      TryCall(p, q, fuel, c, st, fr, w, s);
      var (a, out) := Invoke(p, Innermost, fuel - 1, s.fn, vs, st.out);
      var (g, fr1, w1) := CExec(q, fuel, fr0, w, CCall(LowerDest(s.dest), s.fn, s.args, Some(CatchErr)));
      if a.Value? {
        SimPass(p, q, fuel, c, Store(s.dest, a.v, st.(out := out)), fr1, w1, s, n1, w);
      } else if a.Raises? {
        SimExcept(p, q, fuel, c, st.(out := out), fr1, w1, s, n, a.error, w);
      }
    }
  }

  /** What the code of a try/except does: call under a new cell, then test that cell. */
  lemma TryShape(p: Prog, q: CProg, fuel: nat, fr: Frame, w: World, s: Stmt, n: nat)
    requires s.Try? && CalleeThrows(p, s.fn)
    ensures
      var (e, n1) := LowerAll(p, s.err, n);
      var (f, fr1, w1) := CExec(q, fuel, fr.(catches := fr.catches + [CLEAR]), w, CCall(LowerDest(s.dest), s.fn, s.args, Some(CatchErr)));
      var (g, fr2, w2) :=
        if !f.CGo? then (f, fr1, w1)
        else if GetCell(fr1, CatchErr).None? then (Stuck, fr1, w1)
        else if GetCell(fr1, CatchErr).value.failed then CExecAll(q, fuel, fr1, w1, e + [CClearCatch])
        else CExecAll(q, fuel, fr1, w1, LowerAll(p, s.pass, n1).0);
      CExecAll(q, fuel, fr, w, Lower(p, s, n).0) == (g, LeaveBlock(s.dest, fr2, fr.catches), w2)
  {
    var (e, n1) := LowerAll(p, s.err, n);
    var call := CCall(LowerDest(s.dest), s.fn, s.args, Some(CatchErr));
    var test := CIfFailed(CatchErr, e + [CClearCatch], LowerAll(p, s.pass, n1).0);
    ExecOne(q, fuel, fr, w, CCatchBlock(s.dest, [call, test]));
    ExecTwo(q, fuel, fr.(catches := fr.catches + [CLEAR]), w, call, test);
  }

  /** The guarded call: the innermost cell says exactly whether the callee threw. */
  lemma TryCall(p: Prog, q: CProg, fuel: nat, c: Ctx, st: State, fr: Frame, w: World, s: Stmt)
    requires Match(c, st, fr, w) && s.Try? && fuel > 0
    requires
      var fr0 := fr.(catches := fr.catches + [CLEAR]);
      && EvalAll(s.args, fr0.env, Caught(fr0)) == EvalAll(s.args, st.env, NO_ERROR)
      && forall e :: e in s.args ==> ReadsCell(fr0, MentionsCaught(e))
    requires
      var vs := EvalAll(s.args, st.env, NO_ERROR);
      AnswerSimulates(Some(CLEAR), Invoke(p, Innermost, fuel - 1, s.fn, vs, st.out), CInvoke(q, fuel - 1, s.fn, vs, Some(CLEAR), w), w)
    ensures
      var (a, out) := Invoke(p, Innermost, fuel - 1, s.fn, EvalAll(s.args, st.env, NO_ERROR), st.out);
      var (g, fr1, w1) := CExec(q, fuel, fr.(catches := fr.catches + [CLEAR]), w, CCall(LowerDest(s.dest), s.fn, s.args, Some(CatchErr)));
      && w1.out == out && fr1.err == c.err && fr1.region == c.region && fr1.result == 0
      && match a
         case Value(v) =>
           && g == CGo && fr1.catches == c.catches + [CLEAR] && Balance(w1) == Balance(w)
           && AgreeExcept(c.dead, Store(s.dest, v, st.(out := out)).env, fr1.env)
         case Raises(e) =>
           && g == CGo && fr1.catches == c.catches + [Carrying(e)] && Balance(w1) == Balance(w)
           && AgreeExcept(c.dead + VarsD(s.dest), st.env, fr1.env)
         case Panics => g == CPanicked
         case Unfinished => g == CNoFuel
  {
  }

  /** The arguments are evaluated under the new, still clear, catch cell. */
  lemma TryArgs(p: Prog, c: Ctx, st: State, fr: Frame, w: World, s: Stmt)
    requires CtxOk(c) && Match(c, st, fr, w) && Fits(p, c, s) && s.Try?
    ensures
      var fr0 := fr.(catches := fr.catches + [CLEAR]);
      && EvalAll(s.args, fr0.env, Caught(fr0)) == EvalAll(s.args, st.env, NO_ERROR)
      && forall e :: e in s.args ==> ReadsCell(fr0, MentionsCaught(e))
  {
    var fr0 := fr.(catches := fr.catches + [CLEAR]);
    CtxEvalAll(c.(catches := fr0.catches, inTry := true, caught := NO_ERROR), st, fr0, w, s.args);
  }

  /** The try body runs under the clear cell. */
  lemma {:induction false} SimPass(p: Prog, q: CProg, fuel: nat, c: Ctx, st: State, fr: Frame, w: World, s: Stmt, n: nat, before: World)
    requires AllHandled(p) && AllCovered(p) && Lowered(p, q) && CtxOk(c) && Fits(p, c, s) && s.Try?
    requires AgreeExcept(c.dead, st.env, fr.env) && w.out == st.out && Balance(w) == Balance(before)
    requires fr.err == c.err && fr.region == c.region && fr.result == 0 && fr.catches == c.catches + [CLEAR]
    ensures
      var (f, st1) := ExecAll(p, Innermost, fuel, NO_ERROR, st, s.pass);
      var (g, fr1, w1) := CExecAll(q, fuel, fr, w, LowerAll(p, s.pass, n).0);
      Simulates(c, (f, Leave(s.dest, st1)), (g, LeaveBlock(s.dest, fr1, c.catches), w1), before)
    decreases fuel, 0, s.pass, 1
  {
    var c0 := c.(catches := fr.catches, inTry := true, caught := NO_ERROR);
    SimAll(p, q, fuel, c0, st, fr, w, s.pass, n);
    var (f, st1) := ExecAll(p, Innermost, fuel, NO_ERROR, st, s.pass);
    var (g, fr1, w1) := CExecAll(q, fuel, fr, w, LowerAll(p, s.pass, n).0);
    LeaveSim(c, c0, s.dest, f, st1, g, fr1, fr1, w1, before);
  }

  /** The except branch: the error body, then the cell is cleared. */
  lemma {:induction false} SimExcept(p: Prog, q: CProg, fuel: nat, c: Ctx, st: State, fr: Frame, w: World, s: Stmt, n: nat, err: Error, before: World)
    requires AllHandled(p) && AllCovered(p) && Lowered(p, q) && CtxOk(c) && Fits(p, c, s) && s.Try?
    requires AgreeExcept(c.dead + VarsD(s.dest), st.env, fr.env) && w.out == st.out && Balance(w) == Balance(before)
    requires fr.err == c.err && fr.region == c.region && fr.result == 0 && fr.catches == c.catches + [Carrying(err)]
    ensures
      var (f, st1) := ExecAll(p, Innermost, fuel, err, st, s.err);
      var (g, fr1, w1) := CExecAll(q, fuel, fr, w, LowerAll(p, s.err, n).0 + [CClearCatch]);
      Simulates(c, (f, Leave(s.dest, st1)), (g, LeaveBlock(s.dest, fr1, c.catches), w1), before)
    decreases fuel, 0, s.err, 1
  {
    var e := LowerAll(p, s.err, n).0;
    var c1 := c.(catches := fr.catches, inTry := true, caught := err, dead := c.dead + VarsD(s.dest));
    SimAll(p, q, fuel, c1, st, fr, w, s.err, n);
    var (f, st1) := ExecAll(p, Innermost, fuel, err, st, s.err);
    var (g, fr1, w1) := CExecAll(q, fuel, fr, w, e);
    ExecConcat(q, fuel, fr, w, e, [CClearCatch]);
    ExecOne(q, fuel, fr1, w1, CClearCatch);
    var fr2 := CExecAll(q, fuel, fr, w, e + [CClearCatch]).1;
    LeaveSim(c, c1, s.dest, f, st1, g, fr1, fr2, w1, before);
  }

  /** The states a call starts from match. */
  lemma Entered(p: Prog, q: CProg, fn: Name, vs: seq<int>, cell: Option<Cell>, w: World, n: nat)
    requires AllHandled(p) && AllCovered(p) && Lowered(p, q) && fn in p && q[fn] == LowerFunc(p, p[fn], n)
    requires p[fn].throws == cell.Some? && (cell.Some? ==> !cell.value.failed)
    ensures
      var f := q[fn];
      var c := Ctx(cell, [], f.hasRegion, false, NO_ERROR, {});
      var w1 := if f.hasRegion then w.(made := w.made + 1) else w;
      && Start(p, q, c, State(BindParams(p[fn].params, vs), w.out),
               Frame(BindParams(f.params, vs), map[], 0, cell, [], f.hasRegion), w1)
      && FitsAll(p, c, p[fn].body)
  {
    hide LowerAll;
  }

  lemma {:induction false} SimInvoke(p: Prog, q: CProg, fuel: nat, fn: Name, vs: seq<int>, cell: Option<Cell>, w: World)
    requires AllHandled(p) && AllCovered(p) && Lowered(p, q) && fn in p
    requires p[fn].throws == cell.Some? && (cell.Some? ==> !cell.value.failed)
    ensures AnswerSimulates(cell, Invoke(p, Innermost, fuel, fn, vs, w.out), CInvoke(q, fuel, fn, vs, cell, w), w)
    decreases fuel, 1
  {
    hide Start, FitsAll, AllHandled, AllCovered;
    var f := q[fn];
    var n :| f == LowerFunc(p, p[fn], n);
    var c := Ctx(cell, [], f.hasRegion, false, NO_ERROR, {});
    var w1 := if f.hasRegion then w.(made := w.made + 1) else w;
    var st := State(BindParams(p[fn].params, vs), w.out);
    var fr := Frame(BindParams(f.params, vs), map[], 0, cell, [], f.hasRegion);
    Entered(p, q, fn, vs, cell, w, n);
    SimAll(p, q, fuel, c, st, fr, w1, p[fn].body, n);
    var (flow, st1) := ExecAll(p, Innermost, fuel, NO_ERROR, st, p[fn].body);
    var (g, fr1, w2) := CExecAll(q, fuel, fr, w1, f.body);
    assert Simulates(c, (flow, st1), (g, fr1, w2), w1);
  }
}
