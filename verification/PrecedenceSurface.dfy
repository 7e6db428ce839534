/** C expressions with their parentheses, between the printed text and the tree a C
    parser reads from it. */
module PrecedenceSurface {
  import opened Results
  import opened PrecedenceTrees
  import opened CGrammar

  datatype Surface =
    | SName(s: string)
    | SCall(f: string, args: seq<Surface>)
    | SArrow(base: Surface, field: string)
    | SParen(inner: Surface)
    | SNot(e: Surface)
    | SNeg(e: Surface)
    | SBin(op: Op, l: Surface, r: Surface)
    | SCond(c: Surface, a: Surface, b: Surface)

  /** The tree with parentheses dropped. */
  function Tree(s: Surface): CExpr
    decreases s
  {
    match s
    case SName(x) => CName(x)
    case SCall(f, args) => CCall(CName(f), Trees(args))
    case SArrow(b, f) => CArrow(Tree(b), f)
    case SParen(x) => Tree(x)
    case SNot(x) => CNot(Tree(x))
    case SNeg(x) => CNeg(Tree(x))
    case SBin(op, l, r) => CBin(op, Tree(l), Tree(r))
    case SCond(c, a, b) => CCond(Tree(c), Tree(a), Tree(b))
  }

  function Trees(ss: seq<Surface>): seq<CExpr>
    decreases ss
  {
    if ss == [] then [] else [Tree(ss[0])] + Trees(ss[1..])
  }

  function Text(s: Surface): (g: seq<Tok>)
    ensures g != []
    decreases s
  {
    match s
    case SName(x) => [Name(x)]
    case SCall(f, args) => [Name(f), LParen] + ArgsText(args) + [RParen]
    case SArrow(b, f) => Text(b) + [Arrow, Name(f)]
    case SParen(x) => [LParen] + Text(x) + [RParen]
    case SNot(x) => [Bang] + Text(x)
    case SNeg(x) => [BinTok(Sub)] + Text(x)
    case SBin(op, l, r) => Text(l) + [BinTok(op)] + Text(r)
    case SCond(c, a, b) => Text(c) + [Question] + Text(a) + [Colon] + Text(b)
  }

  function ArgsText(ss: seq<Surface>): seq<Tok>
    decreases ss
  {
    if ss == [] then []
    else if |ss| == 1 then Text(ss[0])
    else Text(ss[0]) + [Comma] + ArgsText(ss[1..])
  }

  /** s is a C expression of level k as it stands. */
  predicate SAt(k: nat, s: Surface)
    decreases s
  {
    match s
    case SName(_) => k <= C_POSTFIX
    case SCall(_, args) => k <= C_POSTFIX && forall a :: a in args ==> SAt(C_OR, a)
    case SArrow(b, _) => k <= C_POSTFIX && SAt(C_POSTFIX, b)
    case SParen(SCond(c, a, b)) => k <= C_POSTFIX && SAt(C_OR, c) && SAt(C_OR, a) && SAt(C_OR, b)
    case SParen(x) => k <= C_POSTFIX && SAt(C_OR, x)
    case SNot(x) => k <= C_UNARY && SAt(C_UNARY, x)
    case SNeg(x) => k <= C_UNARY && SAt(C_UNARY, x)
    case SBin(op, l, r) => k <= CLevel(op) && SAt(CLevel(op), l) && SAt(CLevel(op) + 1, r)
    case SCond(_, _, _) => false
  }

  lemma SAtLower(k: nat, j: nat, s: Surface)
    requires SAt(k, s) && j <= k
    ensures SAt(j, s)
  {
  }

  /** No token of `rest` extends an expression of level k or tighter. */
  predicate Stop(k: nat, rest: seq<Tok>) {
    rest == [] ||
    match rest[0]
    case BinTok(op) => CLevel(op) < k
    case LParen => k > C_POSTFIX
    case Arrow => k > C_POSTFIX
    case _ => true
  }

  /** What the C parser does after an operand of level k. */
  function Continue(k: nat, acc: CExpr, rest: seq<Tok>): Option<(CExpr, seq<Tok>)> {
    if k <= C_MULTIPLICATIVE then Tail(k, acc, rest)
    else if k == C_UNARY then Some((acc, rest))
    else PostfixTail(acc, rest)
  }

  lemma ContinueStops(k: nat, acc: CExpr, rest: seq<Tok>)
    requires k <= C_POSTFIX && Stop(k, rest)
    ensures Continue(k, acc, rest) == Some((acc, rest))
  {
  }

  lemma {:induction false} PostfixStart(s: Surface)
    requires SAt(C_POSTFIX, s)
    ensures Text(s)[0].Name? || Text(s)[0] == LParen
  {
    match s
    case SArrow(b, _) => PostfixStart(b);
    case _ =>
  }

  /** The C parser at level k reads the text of s as the tree of s. */
  lemma {:induction false} Reads(k: nat, s: Surface, rest: seq<Tok>)
    requires k <= C_POSTFIX && SAt(k, s) && Stop(k + 1, rest)
    ensures ParseLevel(k, Text(s) + rest) == Continue(k, Tree(s), rest)
    decreases s, 1 + C_POSTFIX - k
  {
    if k < C_POSTFIX && SAt(k + 1, s) {
      Reads(k + 1, s, rest);
      ContinueStops(k + 1, Tree(s), rest);
      if k == C_UNARY {
        PostfixStart(s);
        assert (Text(s) + rest)[0] == Text(s)[0];
      }
    } else if k == C_POSTFIX {
      ReadsPostfix(s, rest);
    } else if k == C_UNARY {
      ReadsUnary(s, rest);
    } else {
      ReadsBin(k, s, rest);
    }
  }

  lemma {:induction false} ReadsUnary(s: Surface, rest: seq<Tok>)
    requires (s.SNot? || s.SNeg?) && SAt(C_UNARY, s) && Stop(C_POSTFIX, rest)
    ensures ParseLevel(C_UNARY, Text(s) + rest) == Some((Tree(s), rest))
    decreases s, 0
  {
    var x := s.e;
    Reads(C_UNARY, x, rest);
    assert (Text(s) + rest)[1..] == Text(x) + rest;
  }

  lemma {:induction false} ReadsPostfix(s: Surface, rest: seq<Tok>)
    requires SAt(C_POSTFIX, s)
    ensures ParseLevel(C_POSTFIX, Text(s) + rest) == PostfixTail(Tree(s), rest)
    decreases s, 0
  {
    match s
    case SName(x) => assert (Text(s) + rest)[1..] == rest;
    case SArrow(b, f) =>
      Reads(C_POSTFIX, b, [Arrow, Name(f)] + rest);
      ReadsArrow(b, f, rest);
    case SCall(f, args) => ReadsCall(f, args, rest);
    case SParen(x) =>
      ReadsInner(x, [RParen] + rest);
      ReadsParen(x, rest);
  }

  lemma ReadsArrow(b: Surface, f: string, rest: seq<Tok>)
    requires ParseLevel(C_POSTFIX, Text(b) + ([Arrow, Name(f)] + rest)) == PostfixTail(Tree(b), [Arrow, Name(f)] + rest)
    ensures ParseLevel(C_POSTFIX, Text(SArrow(b, f)) + rest) == PostfixTail(Tree(SArrow(b, f)), rest)
  {
    assert Text(SArrow(b, f)) + rest == Text(b) + ([Arrow, Name(f)] + rest);
    assert ([Arrow, Name(f)] + rest)[2..] == rest;
  }

  lemma ReadsParen(x: Surface, rest: seq<Tok>)
    requires ParseExpr(Text(x) + ([RParen] + rest)) == Some((Tree(x), [RParen] + rest))
    ensures ParseLevel(C_POSTFIX, Text(SParen(x)) + rest) == PostfixTail(Tree(SParen(x)), rest)
  {
    var ts := Text(SParen(x)) + rest;
    assert ts[1..] == Text(x) + ([RParen] + rest);
    assert ([RParen] + rest)[1..] == rest;
  }

  lemma {:induction false} ReadsCall(f: string, args: seq<Surface>, rest: seq<Tok>)
    requires forall a :: a in args ==> SAt(C_OR, a)
    ensures ParseLevel(C_POSTFIX, Text(SCall(f, args)) + rest) == PostfixTail(Tree(SCall(f, args)), rest)
    decreases args, 2
  {
    var ts := Text(SCall(f, args)) + rest;
    var inside := ArgsText(args) + [RParen] + rest;
    assert ts[1..] == [LParen] + inside;
    assert ([LParen] + inside)[1..] == inside;
    ReadsArgs(args, rest);
    assert ParsePrimary(ts) == Some((CName(f), [LParen] + inside));
  }

  lemma Regroup(a: seq<Tok>, b: seq<Tok>, c: seq<Tok>, d: seq<Tok>)
    ensures (a + b + c) + d == a + (b + (c + d))
  {
  }

  lemma {:induction false} ReadsBin(k: nat, s: Surface, rest: seq<Tok>)
    requires s.SBin? && k == CLevel(s.op) && SAt(k, s) && Stop(k + 1, rest)
    ensures ParseLevel(k, Text(s) + rest) == Continue(k, Tree(s), rest)
    decreases s, 0
  {
    var right := Text(s.r) + rest;
    var after := [BinTok(s.op)] + right;
    Reads(k, s.l, after);
    Reads(k + 1, s.r, rest);
    ContinueStops(k + 1, Tree(s.r), rest);
    Regroup(Text(s.l), [BinTok(s.op)], Text(s.r), rest);
    assert after[1..] == right && after[0] == BinTok(s.op);
    assert Continue(k, Tree(s.l), after) == Tail(k, Tree(s.l), after) == Tail(k, Tree(s), rest);
  }

  /** A parenthesised expression or an argument. */
  lemma {:induction false} ReadsInner(s: Surface, rest: seq<Tok>)
    requires SAt(C_OR, s) || (s.SCond? && SAt(C_OR, s.c) && SAt(C_OR, s.a) && SAt(C_OR, s.b))
    requires rest != [] && (rest[0] == RParen || rest[0] == Comma || rest[0] == Question || rest[0] == Colon)
    requires s.SCond? ==> rest[0] == RParen
    ensures !s.SCond? ==> ParseLevel(C_OR, Text(s) + rest) == Some((Tree(s), rest))
    ensures rest[0] != Question ==> ParseExpr(Text(s) + rest) == Some((Tree(s), rest))
    decreases s, C_POSTFIX + 2
  {
    if s.SCond? {
      var afterA := [Colon] + (Text(s.b) + rest);
      var afterC := [Question] + (Text(s.a) + afterA);
      ReadsInner(s.c, afterC);
      ReadsInner(s.a, afterA);
      ReadsInner(s.b, rest);
      Regroup(Text(s.c) + [Question] + Text(s.a), [Colon], Text(s.b), rest);
      Regroup(Text(s.c), [Question], Text(s.a), afterA);
      assert Text(s) + rest == Text(s.c) + afterC;
      assert afterC[1..] == Text(s.a) + afterA && afterA[1..] == Text(s.b) + rest;
    } else {
      Reads(C_OR, s, rest);
      ContinueStops(C_OR, Tree(s), rest);
    }
  }

  lemma {:induction false} ReadsArgs(ss: seq<Surface>, rest: seq<Tok>)
    requires forall a :: a in ss ==> SAt(C_OR, a)
    ensures ParseArgs(ArgsText(ss) + [RParen] + rest) == Some((Trees(ss), rest))
    decreases ss, 1
  {
    if ss == [] {
      assert ([RParen] + rest)[1..] == rest;
    } else {
      ReadsSomeArgs(ss, rest);
      ArgStart(ss, [RParen] + rest);
      assert ArgsText(ss) + [RParen] + rest == ArgsText(ss) + ([RParen] + rest);
    }
  }

  lemma ArgStart(ss: seq<Surface>, rest: seq<Tok>)
    requires ss != [] && SAt(C_OR, ss[0])
    ensures (ArgsText(ss) + rest)[0] != RParen
  {
    NotParen(ss[0]);
  }

  lemma {:induction false} NotParen(s: Surface)
    ensures Text(s)[0] != RParen
  {
    match s
    case SArrow(b, _) => NotParen(b);
    case SBin(_, l, _) => NotParen(l);
    case SCond(c, _, _) => NotParen(c);
    case _ =>
  }

  lemma {:induction false} ReadsSomeArgs(ss: seq<Surface>, rest: seq<Tok>)
    requires ss != [] && forall a :: a in ss ==> SAt(C_OR, a)
    ensures ParseSomeArgs(ArgsText(ss) + [RParen] + rest) == Some((Trees(ss), rest))
    decreases ss, 0
  {
    if |ss| == 1 {
      ReadsInner(ss[0], [RParen] + rest);
      assert ArgsText(ss) + [RParen] + rest == Text(ss[0]) + ([RParen] + rest);
      assert ([RParen] + rest)[1..] == rest;
      assert Trees(ss) == [Tree(ss[0])];
    } else {
      var tail := ArgsText(ss[1..]) + [RParen] + rest;
      ReadsInner(ss[0], [Comma] + tail);
      assert ArgsText(ss) + [RParen] + rest == Text(ss[0]) + ([Comma] + tail);
      assert ([Comma] + tail)[1..] == tail;
      ReadsSomeArgs(ss[1..], rest);
    }
  }

  /** The C reading of the text of an expression is its tree. */
  lemma ReadsBack(s: Surface)
    requires SAt(C_OR, s)
    ensures ReadC(Text(s)) == Some(Tree(s))
  {
    Reads(C_OR, s, []);
    assert Text(s) + [] == Text(s);
    ContinueStops(C_OR, Tree(s), []);
  }

  // ----- a decrement token always shows in the tree -----

  function PreDecs(c: CExpr): nat
    decreases c
  {
    match c
    case CName(_) => 0
    case CCall(f, args) => PreDecs(f) + PreDecsAll(args)
    case CArrow(b, _) => PreDecs(b)
    case CNot(x) => PreDecs(x)
    case CNeg(x) => PreDecs(x)
    case CPreDec(x) => 1 + PreDecs(x)
    case CBin(_, l, r) => PreDecs(l) + PreDecs(r)
    case CCond(x, a, b) => PreDecs(x) + PreDecs(a) + PreDecs(b)
  }

  function PreDecsAll(cs: seq<CExpr>): nat
    decreases cs
  {
    if cs == [] then 0 else PreDecs(cs[0]) + PreDecsAll(cs[1..])
  }

  lemma {:induction false} TreeHasNoPreDec(s: Surface)
    ensures PreDecs(Tree(s)) == 0
    decreases s
  {
    match s
    case SName(_) =>
    case SCall(_, args) => TreesHaveNoPreDec(args);
    case SArrow(b, _) => TreeHasNoPreDec(b);
    case SParen(x) => TreeHasNoPreDec(x);
    case SNot(x) => TreeHasNoPreDec(x);
    case SNeg(x) => TreeHasNoPreDec(x);
    case SBin(_, l, r) => TreeHasNoPreDec(l); TreeHasNoPreDec(r);
    case SCond(c, a, b) => TreeHasNoPreDec(c); TreeHasNoPreDec(a); TreeHasNoPreDec(b);
  }

  lemma {:induction false} TreesHaveNoPreDec(ss: seq<Surface>)
    ensures PreDecsAll(Trees(ss)) == 0
    decreases ss
  {
    if ss != [] {
      TreeHasNoPreDec(ss[0]);
      TreesHaveNoPreDec(ss[1..]);
    }
  }

  function Decrements(ts: seq<Tok>): nat {
    if ts == [] then 0 else (if ts[0] == Decrement then 1 else 0) + Decrements(ts[1..])
  }

  /** Decrement tokens are neither lost nor invented by the C parser. */
  lemma {:induction false} LevelCounts(k: nat, ts: seq<Tok>)
    requires k <= C_POSTFIX && ParseLevel(k, ts).Some?
    ensures
      var (c, rest) := ParseLevel(k, ts).value;
      PreDecs(c) + Decrements(rest) == Decrements(ts)
    decreases |ts|, 19 - k
  {
    if k == C_POSTFIX {
      PrimaryCounts(ts);
      var (c, rest) := ParsePrimary(ts).value;
      PostfixCounts(c, rest);
    } else if k == C_UNARY {
      if ts[0] == Bang || ts[0] == BinTok(Sub) || ts[0] == Decrement {
        LevelCounts(C_UNARY, ts[1..]);
      } else {
        LevelCounts(C_POSTFIX, ts);
      }
    } else {
      LevelCounts(k + 1, ts);
      var (c, rest) := ParseLevel(k + 1, ts).value;
      TailCounts(k, c, rest);
    }
  }

  lemma {:induction false} TailCounts(k: nat, acc: CExpr, ts: seq<Tok>)
    requires k <= C_MULTIPLICATIVE && Tail(k, acc, ts).Some?
    ensures
      var (c, rest) := Tail(k, acc, ts).value;
      PreDecs(c) + Decrements(rest) == PreDecs(acc) + Decrements(ts)
    decreases |ts|, 0
  {
    if ts != [] && ts[0].BinTok? && CLevel(ts[0].op) == k {
      LevelCounts(k + 1, ts[1..]);
      var (r, rest) := ParseLevel(k + 1, ts[1..]).value;
      TailCounts(k, CBin(ts[0].op, acc, r), rest);
    }
  }

  lemma {:induction false} PostfixCounts(acc: CExpr, ts: seq<Tok>)
    requires PostfixTail(acc, ts).Some?
    ensures
      var (c, rest) := PostfixTail(acc, ts).value;
      PreDecs(c) + Decrements(rest) == PreDecs(acc) + Decrements(ts)
    decreases |ts|, 0
  {
    if |ts| > 1 && ts[0] == Arrow && ts[1].Name? {
      assert Decrements(ts) == Decrements(ts[1..]) == Decrements(ts[2..]) by {
        assert ts[1..][1..] == ts[2..];
      }
      PostfixCounts(CArrow(acc, ts[1].s), ts[2..]);
    } else if ts != [] && ts[0] == LParen {
      ArgsCount(ts[1..]);
      var (args, rest) := ParseArgs(ts[1..]).value;
      PostfixCounts(CCall(acc, args), rest);
    }
  }

  lemma {:induction false} ArgsCount(ts: seq<Tok>)
    requires ParseArgs(ts).Some?
    ensures
      var (cs, rest) := ParseArgs(ts).value;
      PreDecsAll(cs) + Decrements(rest) == Decrements(ts)
    decreases |ts|, 22
  {
    if !(ts != [] && ts[0] == RParen) {
      SomeArgsCount(ts);
    }
  }

  lemma {:induction false} SomeArgsCount(ts: seq<Tok>)
    requires ParseSomeArgs(ts).Some?
    ensures
      var (cs, rest) := ParseSomeArgs(ts).value;
      PreDecsAll(cs) + Decrements(rest) == Decrements(ts)
    decreases |ts|, 21
  {
    ExprCounts(ts);
    var (c, after) := ParseExpr(ts).value;
    assert PreDecsAll([c]) == PreDecs(c);
    if after[0] == Comma {
      SomeArgsCount(after[1..]);
      var (cs, rest) := ParseSomeArgs(after[1..]).value;
      assert ([c] + cs)[1..] == cs;
    }
  }

  lemma {:induction false} ExprCounts(ts: seq<Tok>)
    requires ParseExpr(ts).Some?
    ensures
      var (c, rest) := ParseExpr(ts).value;
      PreDecs(c) + Decrements(rest) == Decrements(ts)
    decreases |ts|, 20
  {
    LevelCounts(C_OR, ts);
    var (c, after) := ParseLevel(C_OR, ts).value;
    if after != [] && after[0] == Question {
      ExprCounts(after[1..]);
      var (a, after2) := ParseExpr(after[1..]).value;
      ExprCounts(after2[1..]);
    }
  }

  lemma {:induction false} PrimaryCounts(ts: seq<Tok>)
    requires ts != [] && ParsePrimary(ts).Some?
    ensures
      var (c, rest) := ParsePrimary(ts).value;
      PreDecs(c) + Decrements(rest) == Decrements(ts)
    decreases |ts|, 0
  {
    if ts[0] == LParen {
      ExprCounts(ts[1..]);
    }
  }
}
