/** The expression grammar of `parser.c` as a function from tokens to trees, and the proof
    that it reads exactly the yields of the trees `JikAt` describes. */
module JikGrammar {
  import opened PrecedenceTrees
  import opened Results

  datatype JTok =
    | Word(s: string) | Open | Close | CommaTok | Dot | NotTok | OpTok(op: Op)
    | IfTok | ElseTok | IsTok | SomeTok | NoneTok

  // ----- the tokens of a tree -----

  function Yield(e: Expr): (ts: seq<JTok>)
    ensures ts != []
    decreases e
  {
    match e
    case Atom(x) => [Word(x)]
    case Call(f, args) => [Word(f), Open] + YieldArgs(args) + [Close]
    case Member(base, f) => Yield(base) + [Dot, Word(f)]
    case Group(inner) => [Open] + Yield(inner) + [Close]
    case Not(x) => [NotTok] + Yield(x)
    case Neg(x) => [OpTok(Sub)] + Yield(x)
    case Bin(op, l, r) => Yield(l) + [OpTok(op)] + Yield(r)
    case IsOption(x, some) => Yield(x) + [IsTok, if some then SomeTok else NoneTok]
    case IsTag(x, tag) => Yield(x) + [IsTok, Word(tag)]
    case Ternary(c, a, b) => Yield(a) + [IfTok] + Yield(c) + [ElseTok] + Yield(b)
  }

  function YieldArgs(es: seq<Expr>): seq<JTok>
    decreases es
  {
    if es == [] then []
    else if |es| == 1 then Yield(es[0])
    else Yield(es[0]) + [CommaTok] + YieldArgs(es[1..])
  }

  predicate AllArgs(args: seq<Expr>) {
    forall a :: a in args ==> JikAt(TERNARY, a)
  }

  // ----- the grammar -----

  type Parsed = Option<(Expr, seq<JTok>)>

  predicate Starts(ts: seq<JTok>, t: JTok) { ts != [] && ts[0] == t }

  /** `jik_parser_parse_expr`. */
  function ParseExpr(ts: seq<JTok>): (r: Parsed)
    ensures r.Some? ==> |r.value.1| < |ts|
    decreases |ts|, 20
  {
    var a := ParseLevel(OR, ts);
    if a.None? || !Starts(a.value.1, IfTok) then a
    else
      var c := ParseExpr(a.value.1[1..]);
      if c.None? || !Starts(c.value.1, ElseTok) then None
      else
        var b := ParseExpr(c.value.1[1..]);
        if b.None? then None else Some((Ternary(c.value.0, a.value.0, b.value.0), b.value.1))
  }

  /** The levels from `or` down to primary expressions. */
  function ParseLevel(k: nat, ts: seq<JTok>): (r: Parsed)
    requires OR <= k <= PRIMARY
    ensures r.Some? ==> |r.value.1| < |ts|
    decreases |ts|, 19 - k
  {
    if k == PRIMARY then
      var a := ParseAtom(ts);
      if a.None? then None else Members(a.value.0, a.value.1)
    else if k == UNARY then
      if Starts(ts, NotTok) || Starts(ts, OpTok(Sub)) then
        var x := ParseLevel(UNARY, ts[1..]);
        if x.None? then None else Some((if ts[0] == NotTok then Not(x.value.0) else Neg(x.value.0), x.value.1))
      else ParseLevel(PRIMARY, ts)
    else
      var l := ParseLevel(k + 1, ts);
      if l.None? then None
      else if k == IS then IsTail(l.value.0, l.value.1)
      else Tail(k, l.value.0, l.value.1)
  }

  /** The loop of a binary level. */
  function Tail(k: nat, acc: Expr, ts: seq<JTok>): (r: Parsed)
    requires OR <= k <= FACTOR && k != IS
    ensures r.Some? ==> |r.value.1| <= |ts|
    decreases |ts|, 0
  {
    if ts != [] && ts[0].OpTok? && JikLevel(ts[0].op) == k then
      var r := ParseLevel(k + 1, ts[1..]);
      if r.None? then None else Tail(k, Bin(ts[0].op, acc, r.value.0), r.value.1)
    else Some((acc, ts))
  }

  /** `is` does not chain. */
  function IsTail(x: Expr, ts: seq<JTok>): (r: Parsed)
    ensures r.Some? ==> |r.value.1| <= |ts|
  {
    if !Starts(ts, IsTok) then Some((x, ts))
    else if |ts| == 1 then None
    else if ts[1] == SomeTok || ts[1] == NoneTok then Some((IsOption(x, ts[1] == SomeTok), ts[2..]))
    else if ts[1].Word? then Some((IsTag(x, ts[1].s), ts[2..]))
    else None
  }

  function Members(acc: Expr, ts: seq<JTok>): (r: Parsed)
    ensures r.Some? ==> |r.value.1| <= |ts|
    decreases |ts|
  {
    if !Starts(ts, Dot) then Some((acc, ts))
    else if |ts| == 1 || !ts[1].Word? then None
    else Members(Member(acc, ts[1].s), ts[2..])
  }

  function ParseAtom(ts: seq<JTok>): (r: Parsed)
    ensures r.Some? ==> |r.value.1| < |ts|
    decreases |ts|, 0
  {
    if ts != [] && ts[0].Word? then
      if !Starts(ts[1..], Open) then Some((Atom(ts[0].s), ts[1..]))
      else
        var args := ParseArgs(ts[2..]);
        if args.None? || !Starts(args.value.1, Close) then None
        else Some((Call(ts[0].s, args.value.0), args.value.1[1..]))
    else if Starts(ts, Open) then
      var inner := ParseExpr(ts[1..]);
      if inner.None? || !Starts(inner.value.1, Close) then None
      else Some((Group(inner.value.0), inner.value.1[1..]))
    else None
  }

  /** Arguments, up to the closing parenthesis. */
  function ParseArgs(ts: seq<JTok>): (r: Option<(seq<Expr>, seq<JTok>)>)
    ensures r.Some? ==> |r.value.1| <= |ts|
    decreases |ts|, 22
  {
    if Starts(ts, Close) then Some(([], ts))
    else
      var e := ParseExpr(ts);
      if e.None? then None else MoreArgs([e.value.0], e.value.1)
  }

  function MoreArgs(acc: seq<Expr>, ts: seq<JTok>): (r: Option<(seq<Expr>, seq<JTok>)>)
    ensures r.Some? ==> |r.value.1| <= |ts|
    decreases |ts|, 21
  {
    if !Starts(ts, CommaTok) then Some((acc, ts))
    else
      var e := ParseExpr(ts[1..]);
      if e.None? then None else MoreArgs(acc + [e.value.0], e.value.1)
  }

  // ----- what is read is the yield of a tree of the level -----

  predicate Reads(k: nat, ts: seq<JTok>, r: Parsed) {
    r.Some? ==> JikAt(k, r.value.0) && ts == Yield(r.value.0) + r.value.1
  }

  lemma {:induction false} ExprSound(ts: seq<JTok>)
    ensures Reads(TERNARY, ts, ParseExpr(ts))
    decreases |ts|, 20
  {
    LevelSound(OR, ts);
    var a := ParseLevel(OR, ts);
    if a.Some? && Starts(a.value.1, IfTok) {
      var afterIf := a.value.1[1..];
      ExprSound(afterIf);
      var c := ParseExpr(afterIf);
      if c.Some? && Starts(c.value.1, ElseTok) {
        var afterElse := c.value.1[1..];
        ExprSound(afterElse);
        var b := ParseExpr(afterElse);
        if b.Some? {
          TernaryYield(ts, a.value.0, c.value.0, b.value.0, a.value.1, c.value.1, b.value.1);
        }
      }
    }
  }

  lemma TernaryYield(ts: seq<JTok>, a: Expr, c: Expr, b: Expr, afterA: seq<JTok>, afterC: seq<JTok>, rest: seq<JTok>)
    requires ts == Yield(a) + afterA && Starts(afterA, IfTok) && afterA[1..] == Yield(c) + afterC
    requires Starts(afterC, ElseTok) && afterC[1..] == Yield(b) + rest
    ensures ts == Yield(Ternary(c, a, b)) + rest
  {
    assert afterC == [ElseTok] + (Yield(b) + rest);
    assert afterA == [IfTok] + (Yield(c) + afterC);
    Regroup(Yield(a) + [IfTok] + Yield(c), [ElseTok], Yield(b), rest);
    Regroup(Yield(a), [IfTok], Yield(c), afterC);
  }

  lemma {:induction false} LevelSound(k: nat, ts: seq<JTok>)
    requires OR <= k <= PRIMARY
    ensures Reads(k, ts, ParseLevel(k, ts))
    decreases |ts|, 19 - k
  {
    if k == PRIMARY {
      AtomSound(ts);
      var a := ParseAtom(ts);
      if a.Some? {
        MembersSound(ts, a.value.0, a.value.1);
      }
    } else if k == UNARY {
      if Starts(ts, NotTok) || Starts(ts, OpTok(Sub)) {
        LevelSound(UNARY, ts[1..]);
        assert ts == [ts[0]] + ts[1..];
      } else {
        LevelSound(PRIMARY, ts);
      }
    } else {
      LevelSound(k + 1, ts);
      var l := ParseLevel(k + 1, ts);
      if l.Some? {
        if k == IS {
          IsSound(ts, l.value.0, l.value.1);
        } else {
          TailSound(k, ts, l.value.0, l.value.1);
        }
      }
    }
  }

  lemma BinAt(k: nat, op: Op, l: Expr, r: Expr)
    requires JikLevel(op) == k && JikAt(k, l) && JikAt(k + 1, r)
    ensures JikAt(k, Bin(op, l, r))
  {
  }

  lemma {:induction false} TailSound(k: nat, ts: seq<JTok>, acc: Expr, rest: seq<JTok>)
    requires OR <= k <= FACTOR && k != IS && JikAt(k, acc) && ts == Yield(acc) + rest
    ensures Reads(k, ts, Tail(k, acc, rest))
    decreases |rest|, 0
  {
    hide JikAt, JikLevel;
    if rest != [] && rest[0].OpTok? && JikLevel(rest[0].op) == k {
      LevelSound(k + 1, rest[1..]);
      var r := ParseLevel(k + 1, rest[1..]);
      if r.Some? {
        var next := Bin(rest[0].op, acc, r.value.0);
        assert rest == [rest[0]] + rest[1..];
        assert ts == Yield(next) + r.value.1;
        BinAt(k, rest[0].op, acc, r.value.0);
        TailSound(k, ts, next, r.value.1);
      }
    }
  }

  lemma IsSound(ts: seq<JTok>, x: Expr, rest: seq<JTok>)
    requires JikAt(COMPARISON, x) && ts == Yield(x) + rest
    ensures Reads(IS, ts, IsTail(x, rest))
  {
    if Starts(rest, IsTok) && |rest| > 1 {
      assert rest == [IsTok, rest[1]] + rest[2..];
    }
  }

  lemma {:induction false} MembersSound(ts: seq<JTok>, acc: Expr, rest: seq<JTok>)
    requires JikAt(PRIMARY, acc) && ts == Yield(acc) + rest
    ensures Reads(PRIMARY, ts, Members(acc, rest))
    decreases |rest|
  {
    if Starts(rest, Dot) && |rest| > 1 && rest[1].Word? {
      assert rest == [Dot, rest[1]] + rest[2..];
      var next := Member(acc, rest[1].s);
      assert ts == Yield(next) + rest[2..];
      MembersSound(ts, next, rest[2..]);
    }
  }

  lemma {:induction false} AtomSound(ts: seq<JTok>)
    ensures Reads(PRIMARY, ts, ParseAtom(ts))
    decreases |ts|, 0
  {
    if ts != [] && ts[0].Word? {
      assert ts == [ts[0]] + ts[1..];
      if Starts(ts[1..], Open) {
        CallSound(ts);
      }
    } else if Starts(ts, Open) {
      ExprSound(ts[1..]);
      var inner := ParseExpr(ts[1..]);
      if inner.Some? && Starts(inner.value.1, Close) {
        assert ts == [Open] + ts[1..] && inner.value.1 == [Close] + inner.value.1[1..];
      }
    }
  }

  lemma {:induction false} CallSound(ts: seq<JTok>)
    requires ts != [] && ts[0].Word? && Starts(ts[1..], Open)
    ensures Reads(PRIMARY, ts, ParseAtom(ts))
    decreases |ts| - 1, 23
  {
    ArgsSound(ts[2..]);
    assert ts == [ts[0], Open] + ts[2..];
    var args := ParseArgs(ts[2..]);
    if args.Some? && Starts(args.value.1, Close) {
      assert args.value.1 == [Close] + args.value.1[1..];
    }
  }

  lemma {:induction false} ArgsSound(ts: seq<JTok>)
    ensures
      var r := ParseArgs(ts);
      r.Some? ==> AllArgs(r.value.0) && ts == YieldArgs(r.value.0) + r.value.1
    decreases |ts|, 22
  {
    if !Starts(ts, Close) {
      ExprSound(ts);
      var e := ParseExpr(ts);
      if e.Some? {
        MoreSound(ts, [e.value.0], e.value.1);
      }
    }
  }

  lemma {:induction false} MoreSound(ts: seq<JTok>, acc: seq<Expr>, rest: seq<JTok>)
    requires acc != [] && AllArgs(acc) && ts == YieldArgs(acc) + rest
    ensures
      var r := MoreArgs(acc, rest);
      r.Some? ==> AllArgs(r.value.0) && ts == YieldArgs(r.value.0) + r.value.1
    decreases |rest|, 21
  {
    if Starts(rest, CommaTok) {
      ExprSound(rest[1..]);
      var e := ParseExpr(rest[1..]);
      if e.Some? {
        YieldArgsPush(acc, e.value.0);
        assert rest == [CommaTok] + (Yield(e.value.0) + e.value.1);
        Regroup(YieldArgs(acc), [CommaTok], Yield(e.value.0), e.value.1);
        MoreSound(ts, acc + [e.value.0], e.value.1);
      }
    }
  }

  lemma {:induction false} YieldArgsPush(es: seq<Expr>, e: Expr)
    requires es != []
    ensures YieldArgs(es + [e]) == YieldArgs(es) + [CommaTok] + Yield(e)
  {
    if |es| == 1 {
      assert (es + [e])[1..] == [e];
    } else {
      YieldArgsPush(es[1..], e);
      assert (es + [e])[1..] == es[1..] + [e];
    }
  }

  // ----- the yield of every tree is read -----

  /** No token of `rest` extends an expression of level k or tighter. */
  predicate Stop(k: nat, rest: seq<JTok>) {
    rest == [] ||
    match rest[0]
    case OpTok(op) => JikLevel(op) < k
    case IsTok => k > IS
    case IfTok => k > TERNARY
    case Dot => k > PRIMARY
    case Open => false
    case _ => true
  }

  /** What a level does after an operand. */
  function Continue(k: nat, acc: Expr, rest: seq<JTok>): Parsed
    requires OR <= k <= PRIMARY
  {
    if k == PRIMARY then Members(acc, rest)
    else if k == UNARY then Some((acc, rest))
    else if k == IS then IsTail(acc, rest)
    else Tail(k, acc, rest)
  }

  lemma ContinueStops(k: nat, acc: Expr, rest: seq<JTok>)
    requires OR <= k <= PRIMARY && Stop(k, rest)
    ensures Continue(k, acc, rest) == Some((acc, rest))
  {
  }

  lemma {:induction false} PrimaryStart(e: Expr)
    requires JikAt(PRIMARY, e)
    ensures Yield(e)[0].Word? || Yield(e)[0] == Open
  {
    match e
    case Member(base, _) => PrimaryStart(base);
    case _ =>
  }

  /** Level k reads the yield of e as e, whatever follows that it cannot take. */
  lemma {:induction false} LevelReads(k: nat, e: Expr, rest: seq<JTok>)
    requires OR <= k <= PRIMARY && JikAt(k, e) && Stop(if k == IS then IS else k + 1, rest)
    ensures ParseLevel(k, Yield(e) + rest) == Continue(k, e, rest)
    decreases e, 2 + PRIMARY - k
  {
    if k < PRIMARY && JikAt(k + 1, e) {
      LevelReads(k + 1, e, rest);
      ContinueStops(k + 1, e, rest);
      if k == UNARY {
        PrimaryStart(e);
      }
      LevelDown(k, Yield(e) + rest, e, rest);
    } else if k == PRIMARY {
      PrimaryReads(e, rest);
    } else {
      OwnLevelReads(k, e, rest);
    }
  }

  /** A level that only passes on what the next one read. */
  lemma LevelDown(k: nat, ts: seq<JTok>, e: Expr, rest: seq<JTok>)
    requires OR <= k < PRIMARY && ParseLevel(k + 1, ts) == Some((e, rest))
    requires k == UNARY ==> !Starts(ts, NotTok) && !Starts(ts, OpTok(Sub))
    ensures ParseLevel(k, ts) == Continue(k, e, rest)
  {
  }

  lemma OwnLevel(k: nat, e: Expr)
    requires k < PRIMARY && JikAt(k, e) && !JikAt(k + 1, e)
    ensures k == UNARY ==> e.Not? || e.Neg?
    ensures k == IS ==> e.IsOption? || e.IsTag?
    ensures OR <= k <= FACTOR && k != IS ==> e.Bin? && JikLevel(e.op) == k
  {
  }

  /** A tree of exactly level k. */
  lemma {:induction false} OwnLevelReads(k: nat, e: Expr, rest: seq<JTok>)
    requires OR <= k < PRIMARY && JikAt(k, e) && !JikAt(k + 1, e) && Stop(if k == IS then IS else k + 1, rest)
    ensures ParseLevel(k, Yield(e) + rest) == Continue(k, e, rest)
    decreases e, 1
  {
    OwnLevel(k, e);
    if k == UNARY {
      UnaryReads(e, rest);
    } else if k == IS {
      IsReads(e, rest);
    } else {
      BinReads(k, e, rest);
    }
  }

  lemma {:induction false} UnaryReads(e: Expr, rest: seq<JTok>)
    requires (e.Not? || e.Neg?) && JikAt(UNARY, e) && Stop(PRIMARY, rest)
    ensures ParseLevel(UNARY, Yield(e) + rest) == Some((e, rest))
    decreases e, 0
  {
    LevelReads(UNARY, e.e, rest);
    assert (Yield(e) + rest)[1..] == Yield(e.e) + rest;
  }

  lemma {:induction false} IsReads(e: Expr, rest: seq<JTok>)
    requires (e.IsOption? || e.IsTag?) && JikAt(IS, e) && Stop(IS, rest)
    ensures ParseLevel(IS, Yield(e) + rest) == Some((e, rest))
    decreases e, 0
  {
    var t := if e.IsTag? then Word(e.tag) else if e.some then SomeTok else NoneTok;
    LevelReads(COMPARISON, e.e, [IsTok, t] + rest);
    ContinueStops(COMPARISON, e.e, [IsTok, t] + rest);
    assert Yield(e) + rest == Yield(e.e) + ([IsTok, t] + rest);
    assert ([IsTok, t] + rest)[2..] == rest;
  }

  lemma {:induction false} BinReads(k: nat, e: Expr, rest: seq<JTok>)
    requires e.Bin? && k == JikLevel(e.op) && JikAt(k, e) && Stop(k + 1, rest)
    ensures ParseLevel(k, Yield(e) + rest) == Continue(k, e, rest)
    decreases e, 0
  {
    var right := Yield(e.r) + rest;
    var after := [OpTok(e.op)] + right;
    LevelReads(k, e.l, after);
    LevelReads(k + 1, e.r, rest);
    ContinueStops(k + 1, e.r, rest);
    Regroup(Yield(e.l), [OpTok(e.op)], Yield(e.r), rest);
    assert after[1..] == right && after[0] == OpTok(e.op);
    TailOnce(k, e.l, after, e.r, rest);
  }

  lemma Regroup(a: seq<JTok>, b: seq<JTok>, c: seq<JTok>, d: seq<JTok>)
    ensures (a + b + c) + d == a + (b + (c + d))
  {
  }

  lemma TailOnce(k: nat, acc: Expr, after: seq<JTok>, r: Expr, rest: seq<JTok>)
    requires OR <= k <= FACTOR && k != IS && after != [] && after[0].OpTok? && JikLevel(after[0].op) == k
    requires ParseLevel(k + 1, after[1..]) == Some((r, rest))
    ensures Continue(k, acc, after) == Continue(k, Bin(after[0].op, acc, r), rest)
  {
  }

  lemma {:induction false} PrimaryReads(e: Expr, rest: seq<JTok>)
    requires JikAt(PRIMARY, e) && (rest == [] || rest[0] != Open)
    ensures ParseLevel(PRIMARY, Yield(e) + rest) == Members(e, rest)
    decreases e, 0
  {
    var ts := Yield(e) + rest;
    match e
    case Atom(x) => assert ts[1..] == rest;
    case Member(base, f) =>
      LevelReads(PRIMARY, base, [Dot, Word(f)] + rest);
      assert ts == Yield(base) + ([Dot, Word(f)] + rest);
      assert ([Dot, Word(f)] + rest)[2..] == rest;
    case Call(f, args) => CallReads(f, args, rest);
    case Group(inner) => GroupReads(inner, rest);
  }

  lemma {:induction false} GroupReads(inner: Expr, rest: seq<JTok>)
    requires JikAt(TERNARY, inner)
    ensures ParseLevel(PRIMARY, Yield(Group(inner)) + rest) == Members(Group(inner), rest)
    decreases inner, 4 + PRIMARY
  {
    ExprReads(inner, [Close] + rest);
    assert (Yield(Group(inner)) + rest)[1..] == Yield(inner) + ([Close] + rest);
    assert ([Close] + rest)[1..] == rest;
  }

  lemma {:induction false} CallReads(f: string, args: seq<Expr>, rest: seq<JTok>)
    requires AllArgs(args)
    ensures ParseLevel(PRIMARY, Yield(Call(f, args)) + rest) == Members(Call(f, args), rest)
    decreases args, 2
  {
    var ts := Yield(Call(f, args)) + rest;
    assert ts[1..][0] == Open && ts[2..] == YieldArgs(args) + ([Close] + rest);
    ArgsRead(args, [Close] + rest);
    assert ([Close] + rest)[1..] == rest;
  }

  /** What follows an argument: the others, each after a comma, then the rest. */
  function ArgTail(args: seq<Expr>, rest: seq<JTok>): seq<JTok> {
    if args == [] then rest else [CommaTok] + YieldArgs(args) + rest
  }

  lemma ArgsCons(args: seq<Expr>, rest: seq<JTok>)
    requires args != []
    ensures YieldArgs(args) + rest == Yield(args[0]) + ArgTail(args[1..], rest)
  {
    if |args| > 1 {
      var (first, others) := (Yield(args[0]), YieldArgs(args[1..]));
      Regroup(first, [CommaTok], others, rest);
      ArgTailStart(args[1..], rest);
    }
  }

  lemma ArgTailStart(args: seq<Expr>, rest: seq<JTok>)
    requires args != []
    ensures ArgTail(args, rest) == [CommaTok] + (YieldArgs(args) + rest)
    ensures Starts(ArgTail(args, rest), CommaTok) && ArgTail(args, rest)[1..] == YieldArgs(args) + rest
  {
    var others := YieldArgs(args);
    assert [CommaTok] + others + rest == [CommaTok] + (others + rest);
  }

  lemma {:induction false} ArgsRead(args: seq<Expr>, rest: seq<JTok>)
    requires AllArgs(args) && Starts(rest, Close)
    ensures ParseArgs(YieldArgs(args) + rest) == Some((args, rest))
    decreases args, 1
  {
    if args == [] {
      assert YieldArgs(args) + rest == rest;
    } else {
      ArgsCons(args, rest);
      ExprReads(args[0], ArgTail(args[1..], rest));
      NotClose(args[0]);
      assert (YieldArgs(args) + rest)[0] == Yield(args[0])[0];
      MoreRead([args[0]], args[1..], rest);
      assert [args[0]] + args[1..] == args;
    }
  }

  lemma {:induction false} NotClose(e: Expr)
    ensures Yield(e)[0] != Close
  {
    match e
    case Member(base, _) => NotClose(base);
    case Bin(_, l, _) => NotClose(l);
    case IsOption(x, _) => NotClose(x);
    case IsTag(x, _) => NotClose(x);
    case Ternary(_, a, _) => NotClose(a);
    case _ =>
  }

  lemma {:induction false} MoreRead(acc: seq<Expr>, args: seq<Expr>, rest: seq<JTok>)
    requires AllArgs(args) && Starts(rest, Close)
    ensures MoreArgs(acc, ArgTail(args, rest)) == Some((acc + args, rest))
    decreases args, 0
  {
    if args == [] {
      assert acc + args == acc;
    } else {
      ArgsCons(args, rest);
      ArgTailStart(args, rest);
      ExprReads(args[0], ArgTail(args[1..], rest));
      MoreOnce(acc, ArgTail(args, rest), args, ArgTail(args[1..], rest));
      MoreRead(acc + [args[0]], args[1..], rest);
    }
  }

  lemma MoreOnce(acc: seq<Expr>, ts: seq<JTok>, args: seq<Expr>, tail: seq<JTok>)
    requires args != [] && Starts(ts, CommaTok) && ParseExpr(ts[1..]) == Some((args[0], tail))
    ensures MoreArgs(acc, ts) == MoreArgs(acc + [args[0]], tail)
    ensures acc + [args[0]] + args[1..] == acc + args
  {
  }

  lemma {:induction false} ExprReads(e: Expr, rest: seq<JTok>)
    requires JikAt(TERNARY, e) && Stop(TERNARY, rest)
    ensures ParseExpr(Yield(e) + rest) == Some((e, rest))
    decreases e, 3 + PRIMARY
  {
    if e.Ternary? {
      var afterC := [ElseTok] + (Yield(e.els) + rest);
      var afterA := [IfTok] + (Yield(e.cond) + afterC);
      Regroup(Yield(e.thn) + [IfTok] + Yield(e.cond), [ElseTok], Yield(e.els), rest);
      Regroup(Yield(e.thn), [IfTok], Yield(e.cond), afterC);
      LevelReads(OR, e.thn, afterA);
      ContinueStops(OR, e.thn, afterA);
      ExprReads(e.cond, afterC);
      ExprReads(e.els, rest);
      assert afterA[1..] == Yield(e.cond) + afterC && afterC[1..] == Yield(e.els) + rest;
    } else {
      LevelReads(OR, e, rest);
      ContinueStops(OR, e, rest);
    }
  }

  /** Sound and complete: level k reads e and leaves `rest` if the tokens are the yield of
      e, a tree of the level, followed by a `rest` that does not extend it; and all it reads
      is of this form. */
  lemma LevelExact(k: nat, ts: seq<JTok>, e: Expr, rest: seq<JTok>)
    requires OR <= k <= PRIMARY && Stop(k, rest)
    ensures ParseLevel(k, ts) == Some((e, rest)) <==> JikAt(k, e) && ts == Yield(e) + rest
  {
    LevelSound(k, ts);
    if JikAt(k, e) && ts == Yield(e) + rest {
      LevelReads(k, e, rest);
      ContinueStops(k, e, rest);
    }
  }

  lemma ExprExact(ts: seq<JTok>, e: Expr, rest: seq<JTok>)
    requires Stop(TERNARY, rest)
    ensures ParseExpr(ts) == Some((e, rest)) <==> JikAt(TERNARY, e) && ts == Yield(e) + rest
  {
    ExprSound(ts);
    if JikAt(TERNARY, e) && ts == Yield(e) + rest {
      ExprReads(e, rest);
    }
  }
}
