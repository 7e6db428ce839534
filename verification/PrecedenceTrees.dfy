/** Expression trees of the Jik front end, the typing rules of `infer_binop`, and the
    text `codegen.c` prints for them. */
module PrecedenceTrees {
  import opened Results

  datatype Op = Or | And | Eq | Neq | Lt | Gt | Leq | Geq | Add | Sub | Mul | Div | Mod

  datatype Expr =
    | Atom(name: string)                              // identifier or literal
    | Call(fn: string, args: seq<Expr>)
    | Member(base: Expr, field: string)
    | Group(inner: Expr)
    | Not(e: Expr)
    | Neg(e: Expr)
    | Bin(op: Op, l: Expr, r: Expr)
    | IsOption(e: Expr, some: bool)
    | IsTag(e: Expr, tag: string)
    | Ternary(cond: Expr, thn: Expr, els: Expr)

  // ----- the grammar of parser.c -----

  const TERNARY: nat := 0
  const OR: nat := 1
  const AND: nat := 2
  const IS: nat := 3
  const COMPARISON: nat := 4
  const TERM: nat := 5
  const FACTOR: nat := 6
  const UNARY: nat := 7
  const PRIMARY: nat := 8

  /** One comparison level: `==` and `<` bind alike in Jik. */
  function JikLevel(op: Op): (k: nat)
    ensures OR <= k <= FACTOR && k != IS
  {
    match op
    case Or => OR
    case And => AND
    case Eq => COMPARISON
    case Neq => COMPARISON
    case Lt => COMPARISON
    case Gt => COMPARISON
    case Leq => COMPARISON
    case Geq => COMPARISON
    case Add => TERM
    case Sub => TERM
    case Mul => FACTOR
    case Div => FACTOR
    case Mod => FACTOR
  }

  /** Trees the Jik parser can return at level k. */
  predicate JikAt(k: nat, e: Expr)
    decreases e
  {
    match e
    case Atom(_) => k <= PRIMARY
    case Call(_, args) => k <= PRIMARY && forall a :: a in args ==> JikAt(TERNARY, a)
    case Member(base, _) => k <= PRIMARY && JikAt(PRIMARY, base)
    case Group(inner) => k <= PRIMARY && JikAt(TERNARY, inner)
    case Not(x) => k <= UNARY && JikAt(UNARY, x)
    case Neg(x) => k <= UNARY && JikAt(UNARY, x)
    case Bin(op, l, r) => k <= JikLevel(op) && JikAt(JikLevel(op), l) && JikAt(JikLevel(op) + 1, r)
    case IsOption(x, _) => k <= IS && JikAt(COMPARISON, x)
    case IsTag(x, _) => k <= IS && JikAt(COMPARISON, x)
    case Ternary(c, a, b) => k <= TERNARY && JikAt(TERNARY, c) && JikAt(OR, a) && JikAt(TERNARY, b)
  }

  // ----- types -----

  datatype Ty = IntT | FloatT | BoolT | StrT | CharT | EnumT(name: string) | StructT(name: string) | VariantT(name: string) | OptionT(elem: string)

  /** Declared types of atoms, functions and struct fields. */
  datatype Env = Env(atoms: map<string, Ty>, funcs: map<string, Ty>, fields: map<(string, string), Ty>)

  predicate Numeric(t: Ty) { t.IntT? || t.FloatT? }

  predicate Comparable(t: Ty) { Numeric(t) || t.StrT? || t.BoolT? || t.CharT? || t.EnumT? }

  function Join(s: Ty, t: Ty): Ty { if s.FloatT? || t.FloatT? then FloatT else IntT }

  /** `infer_binop`. */
  function BinType(op: Op, s: Ty, t: Ty): Option<Ty> {
    if op.Add? || op.Sub? || op.Mul? || op.Div? then
      if Numeric(s) && Numeric(t) then Some(Join(s, t)) else None
    else if op.Mod? then
      if s.IntT? && t.IntT? then Some(IntT) else None
    else if op.Lt? || op.Gt? || op.Leq? || op.Geq? then
      if Numeric(s) && Numeric(t) then Some(BoolT) else None
    else if op.Eq? || op.Neq? then
      if Comparable(s) && Comparable(t) && ((Numeric(s) && Numeric(t)) || s == t) then Some(BoolT) else None
    else
      if s.BoolT? && t.BoolT? then Some(BoolT) else None
  }

  function TypeOf(env: Env, e: Expr): Option<Ty> {
    match e
    case Atom(x) => if x in env.atoms then Some(env.atoms[x]) else None
    case Call(f, args) =>
      if f in env.funcs && forall a :: a in args ==> TypeOf(env, a).Some? then Some(env.funcs[f]) else None
    case Member(base, f) =>
      var b := TypeOf(env, base);
      if b.Some? && b.value.StructT? && (b.value.name, f) in env.fields then Some(env.fields[(b.value.name, f)]) else None
    case Group(inner) => TypeOf(env, inner)
    case Not(x) => if TypeOf(env, x) == Some(BoolT) then Some(BoolT) else None
    case Neg(x) =>
      var t := TypeOf(env, x);
      if t.Some? && Numeric(t.value) then t else None
    case Bin(op, l, r) =>
      var s, t := TypeOf(env, l), TypeOf(env, r);
      if s.Some? && t.Some? then BinType(op, s.value, t.value) else None
    case IsOption(x, _) =>
      var t := TypeOf(env, x);
      if t.Some? && t.value.OptionT? then Some(BoolT) else None
    case IsTag(x, _) =>
      var t := TypeOf(env, x);
      if t.Some? && t.value.VariantT? then Some(BoolT) else None
    case Ternary(c, a, b) =>
      var s, t := TypeOf(env, a), TypeOf(env, b);
      if TypeOf(env, c) != Some(BoolT) || s.None? || t.None? then None
      else if s == t then s
      else if Numeric(s.value) && Numeric(t.value) then Some(Join(s.value, t.value))
      else None
  }

  // ----- the C text -----

  datatype Tok =
    | Name(s: string)
    | LParen | RParen | Comma | Arrow | Question | Colon | Bang
    | BinTok(op: Op)
    | Decrement

  /** Printed text between token boundaries: a token or a blank. */
  datatype Glyph = Blank | Glyph(t: Tok)

  function Sep(op: Op): seq<Glyph> { [Blank, Glyph(BinTok(op)), Blank] }

  function Lit(ts: seq<Tok>): seq<Glyph> {
    seq(|ts|, i requires 0 <= i < |ts| => Glyph(ts[i]))
  }

  predicate StringEquality(env: Env, e: Expr) {
    e.Bin? && (e.op.Eq? || e.op.Neq?) && TypeOf(env, e.l) == Some(StrT) && TypeOf(env, e.r) == Some(StrT)
  }

  function Parens(g: seq<Glyph>): seq<Glyph> { Lit([LParen]) + g + Lit([RParen]) }

  /** `jik_codegen_emit_expression`. */
  function Print(env: Env, e: Expr): seq<Glyph>
    decreases e
  {
    match e
    case Atom(x) => Lit([Name(x)])
    case Call(f, args) => Lit([Name(f), LParen]) + PrintArgs(env, args) + Lit([RParen])
    case Member(base, f) => Print(env, base) + Lit([Arrow, Name(f)])
    case Group(inner) => Parens(Print(env, inner))
    case Not(x) => Lit([Bang]) + Print(env, x)
    case Neg(x) => Lit([BinTok(Sub)]) + Print(env, x)
    case Bin(op, l, r) =>
      if StringEquality(env, e) then
        Lit([Name("jik_string_cmp"), LParen]) + Print(env, l) + [Glyph(Comma), Blank] + Print(env, r)
        + Lit([RParen]) + Sep(op) + Lit([Name("0")])
      else
        Print(env, l) + Sep(op) + Print(env, r)
    case IsOption(x, some) =>
      Lit([Name(if some then "is_some" else "is_none"), LParen]) + Print(env, x) + Lit([RParen])
    case IsTag(x, tag) =>
      Parens(Print(env, x) + Lit([Arrow, Name("tag")]) + Sep(Eq) + Lit([Name(tag)]))
    case Ternary(c, a, b) =>
      Parens(Parens(Print(env, c)) + [Blank, Glyph(Question), Blank] + Parens(Print(env, a))
             + [Blank, Glyph(Colon), Blank] + Parens(Print(env, b)))
  }

  function PrintArgs(env: Env, args: seq<Expr>): seq<Glyph>
    decreases args
  {
    if args == [] then []
    else if |args| == 1 then Print(env, args[0])
    else Print(env, args[0]) + [Glyph(Comma), Blank] + PrintArgs(env, args[1..])
  }

  /** Blanks separate tokens; two adjacent minus signs are read as one token (the
      longest-match rule of section 6.4 of ISO C11). */
  function Lex(g: seq<Glyph>): seq<Tok> {
    if g == [] then []
    else if g[0].Blank? then Lex(g[1..])
    else if g[0] == Glyph(BinTok(Sub)) && |g| > 1 && g[1] == Glyph(BinTok(Sub)) then [Decrement] + Lex(g[2..])
    else [g[0].t] + Lex(g[1..])
  }

  // ----- the C tree a Jik tree means -----

  datatype CExpr =
    | CName(s: string)
    | CCall(f: CExpr, args: seq<CExpr>)
    | CArrow(base: CExpr, field: string)
    | CNot(e: CExpr)
    | CNeg(e: CExpr)
    | CPreDec(e: CExpr)
    | CBin(op: Op, l: CExpr, r: CExpr)
    | CCond(c: CExpr, a: CExpr, b: CExpr)

  function ToC(env: Env, e: Expr): CExpr
    decreases e
  {
    match e
    case Atom(x) => CName(x)
    case Call(f, args) => CCall(CName(f), ToCs(env, args))
    case Member(base, f) => CArrow(ToC(env, base), f)
    case Group(inner) => ToC(env, inner)
    case Not(x) => CNot(ToC(env, x))
    case Neg(x) => CNeg(ToC(env, x))
    case Bin(op, l, r) =>
      if StringEquality(env, e) then
        CBin(op, CCall(CName("jik_string_cmp"), [ToC(env, l), ToC(env, r)]), CName("0"))
      else
        CBin(op, ToC(env, l), ToC(env, r))
    case IsOption(x, some) => CCall(CName(if some then "is_some" else "is_none"), [ToC(env, x)])
    case IsTag(x, tag) => CBin(Eq, CArrow(ToC(env, x), "tag"), CName(tag))
    case Ternary(c, a, b) => CCond(ToC(env, c), ToC(env, a), ToC(env, b))
  }

  function ToCs(env: Env, es: seq<Expr>): seq<CExpr>
    decreases es
  {
    if es == [] then [] else [ToC(env, es[0])] + ToCs(env, es[1..])
  }
}
