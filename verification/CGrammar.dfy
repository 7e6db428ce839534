/** A parser for the C expressions the code generator prints: sections 6.5.1 to 6.5.3,
    6.5.5, 6.5.6, 6.5.8, 6.5.9, 6.5.13, 6.5.14 and 6.5.15 of ISO C11. */
module CGrammar {
  import opened Results
  import opened PrecedenceTrees

  const C_OR: nat := 0
  const C_AND: nat := 1
  const C_EQUALITY: nat := 2
  const C_RELATIONAL: nat := 3
  const C_ADDITIVE: nat := 4
  const C_MULTIPLICATIVE: nat := 5
  const C_UNARY: nat := 6
  const C_POSTFIX: nat := 7

  /** C has two comparison levels: `<` binds tighter than `==`. */
  function CLevel(op: Op): (k: nat)
    ensures k <= C_MULTIPLICATIVE
  {
    match op
    case Or => C_OR
    case And => C_AND
    case Eq => C_EQUALITY
    case Neq => C_EQUALITY
    case Lt => C_RELATIONAL
    case Gt => C_RELATIONAL
    case Leq => C_RELATIONAL
    case Geq => C_RELATIONAL
    case Add => C_ADDITIVE
    case Sub => C_ADDITIVE
    case Mul => C_MULTIPLICATIVE
    case Div => C_MULTIPLICATIVE
    case Mod => C_MULTIPLICATIVE
  }

  /** conditional-expression */
  function ParseExpr(ts: seq<Tok>): (r: Option<(CExpr, seq<Tok>)>)
    ensures r.Some? ==> |r.value.1| < |ts|
    decreases |ts|, 20
  {
    var c := ParseLevel(C_OR, ts);
    if c.None? then None
    else if c.value.1 == [] || c.value.1[0] != Question then c
    else
      var a := ParseExpr(c.value.1[1..]);
      if a.None? || a.value.1 == [] || a.value.1[0] != Colon then None
      else
        var b := ParseExpr(a.value.1[1..]);
        if b.None? then None else Some((CCond(c.value.0, a.value.0, b.value.0), b.value.1))
  }

  /** The binary levels, then unary-expression and postfix-expression. */
  function ParseLevel(k: nat, ts: seq<Tok>): (r: Option<(CExpr, seq<Tok>)>)
    requires k <= C_POSTFIX
    ensures r.Some? ==> |r.value.1| < |ts|
    decreases |ts|, 19 - k
  {
    if ts == [] then None
    else if k == C_POSTFIX then
      var p := ParsePrimary(ts);
      if p.None? then None else PostfixTail(p.value.0, p.value.1)
    else if k == C_UNARY then
      if ts[0] == Bang || ts[0] == BinTok(Sub) || ts[0] == Decrement then
        var x := ParseLevel(C_UNARY, ts[1..]);
        if x.None? then None
        else
          var e := x.value.0;
          Some((if ts[0] == Bang then CNot(e) else if ts[0] == Decrement then CPreDec(e) else CNeg(e), x.value.1))
      else ParseLevel(C_POSTFIX, ts)
    else
      var l := ParseLevel(k + 1, ts);
      if l.None? then None else Tail(k, l.value.0, l.value.1)
  }

  /** Left-associative chain of operators of level k. */
  function Tail(k: nat, acc: CExpr, ts: seq<Tok>): (r: Option<(CExpr, seq<Tok>)>)
    requires k <= C_MULTIPLICATIVE
    ensures r.Some? ==> |r.value.1| <= |ts|
    decreases |ts|, 0
  {
    if ts != [] && ts[0].BinTok? && CLevel(ts[0].op) == k then
      var r := ParseLevel(k + 1, ts[1..]);
      if r.None? then None else Tail(k, CBin(ts[0].op, acc, r.value.0), r.value.1)
    else Some((acc, ts))
  }

  function PostfixTail(acc: CExpr, ts: seq<Tok>): (r: Option<(CExpr, seq<Tok>)>)
    ensures r.Some? ==> |r.value.1| <= |ts|
    decreases |ts|, 0
  {
    if |ts| > 1 && ts[0] == Arrow && ts[1].Name? then PostfixTail(CArrow(acc, ts[1].s), ts[2..])
    else if ts != [] && ts[0] == LParen then
      var a := ParseArgs(ts[1..]);
      if a.None? then None else PostfixTail(CCall(acc, a.value.0), a.value.1)
    else Some((acc, ts))
  }

  /** Arguments up to and including the closing parenthesis. */
  function ParseArgs(ts: seq<Tok>): (r: Option<(seq<CExpr>, seq<Tok>)>)
    ensures r.Some? ==> |r.value.1| < |ts|
    decreases |ts|, 22
  {
    if ts != [] && ts[0] == RParen then Some(([], ts[1..]))
    else ParseSomeArgs(ts)
  }

  function ParseSomeArgs(ts: seq<Tok>): (r: Option<(seq<CExpr>, seq<Tok>)>)
    ensures r.Some? ==> |r.value.1| < |ts|
    decreases |ts|, 21
  {
    var a := ParseExpr(ts);
    if a.None? || a.value.1 == [] then None
    else if a.value.1[0] == RParen then Some(([a.value.0], a.value.1[1..]))
    else if a.value.1[0] == Comma then
      var rest := ParseSomeArgs(a.value.1[1..]);
      if rest.None? then None else Some(([a.value.0] + rest.value.0, rest.value.1))
    else None
  }

  function ParsePrimary(ts: seq<Tok>): (r: Option<(CExpr, seq<Tok>)>)
    requires ts != []
    ensures r.Some? ==> |r.value.1| < |ts|
    decreases |ts|, 0
  {
    if ts[0].Name? then Some((CName(ts[0].s), ts[1..]))
    else if ts[0] == LParen then
      var e := ParseExpr(ts[1..]);
      if e.Some? && e.value.1 != [] && e.value.1[0] == RParen then Some((e.value.0, e.value.1[1..])) else None
    else None
  }

  /** The tree C reads from a whole token string. */
  function ReadC(ts: seq<Tok>): Option<CExpr> {
    var r := ParseExpr(ts);
    if r.Some? && r.value.1 == [] then Some(r.value.0) else None
  }
}
