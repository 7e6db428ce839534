/** What Jik expressions and C expressions are worth, and that the printed text is worth
    what the Jik expression is. */
module PrecedenceValues {
  import opened Results
  import opened PrecedenceTrees
  import opened CGrammar
  import opened Precedence

  /** `Tag` is a C enumerator; no Jik expression has it as its value. */
  datatype Val =
    | Int(n: int)
    | Float(x: real)
    | Flag(b: bool)
    | Text(s: string)
    | Char(c: char)
    | Enumerator(enumeration: string, at: int)
    | Struct(name: string, id: int)
    | Variant(name: string, id: int, tag: string)
    | Choice(elem: string, held: Option<Val>)
    | Tag(tag: string)

  predicate HasType(v: Val, t: Ty) {
    match t
    case IntT => v.Int?
    case FloatT => v.Float?
    case BoolT => v.Flag?
    case StrT => v.Text?
    case CharT => v.Char?
    case EnumT(n) => v.Enumerator? && v.enumeration == n
    case StructT(n) => v.Struct? && v.name == n
    case VariantT(n) => v.Variant? && v.name == n
    case OptionT(n) => v.Choice? && v.elem == n
  }

  /** What names, calls, fields and operators stand for. A missing value is a computation
      that yields none, such as a division by zero. `order` is the three-way comparison of
      two strings, and `tags` are the enumerators of variants. */
  datatype Interp = Interp(
    atom: string -> Val,
    call: (string, seq<Val>) -> Option<Val>,
    field: (Val, string) -> Option<Val>,
    op: (Op, Val, Val) -> Option<Val>,
    negate: Val -> Option<Val>,
    widen: int -> real,
    order: (string, string) -> int,
    tags: set<string>)

  predicate TypedAs(v: Option<Val>, t: Ty) { v.Some? ==> HasType(v.value, t) }

  /** Values have their declared types, and operators yield values of the inferred types. */
  ghost predicate Typed(I: Interp, env: Env) {
    && (forall x :: x in env.atoms ==> HasType(I.atom(x), env.atoms[x]))
    && (forall f, vs :: f in env.funcs ==> TypedAs(I.call(f, vs), env.funcs[f]))
    && (forall v, n, f :: (n, f) in env.fields && HasType(v, StructT(n)) ==> TypedAs(I.field(v, f), env.fields[(n, f)]))
    && (forall v, t :: Numeric(t) && HasType(v, t) ==> TypedAs(I.negate(v), t))
    && (forall op, v, w, s, t :: HasType(v, s) && HasType(w, t) && BinType(op, s, t).Some? ==> TypedAs(I.op(op, v, w), BinType(op, s, t).value))
  }

  /** The runtime's own names are no names of the program, whole numbers compare as numbers,
      and the comparison of strings finds equality. */
  ghost predicate Standard(I: Interp, env: Env) {
    && RuntimeNames !! env.funcs.Keys && I.tags !! env.atoms.Keys && "0" !in I.tags
    && ("0" in env.atoms ==> env.atoms["0"] == IntT && I.atom("0") == Int(0))
    && (forall a, b :: I.order(a, b) == 0 <==> a == b)
    && (forall a, b :: I.op(Eq, Int(a), Int(b)) == Some(Flag(a == b)) && I.op(Neq, Int(a), Int(b)) == Some(Flag(a != b)))
  }

  const RuntimeNames: set<string> := {"jik_string_cmp", "is_some", "is_none"}

  // ----- Jik -----

  /** `and` and `or` look at their right operand only where the left leaves it open. */
  function Shorted(op: Op, l: Option<Val>, r: Option<Val>): Option<Val> {
    if l.None? || !l.value.Flag? then None
    else if l.value.b == op.Or? then l
    else r
  }

  /** Strings compare by their text. */
  function JikOp(I: Interp, op: Op, v: Val, w: Val): Option<Val> {
    if v.Text? && w.Text? && op.Eq? then Some(Flag(v.s == w.s))
    else if v.Text? && w.Text? && op.Neq? then Some(Flag(v.s != w.s))
    else I.op(op, v, w)
  }

  function Widened(I: Interp, t: Option<Ty>, v: Option<Val>): Option<Val> {
    if t == Some(FloatT) && v.Some? && v.value.Int? then Some(Float(I.widen(v.value.n))) else v
  }

  function JikValue(I: Interp, env: Env, e: Expr): Option<Val>
    decreases e
  {
    match e
    case Atom(x) => if x in env.atoms then Some(I.atom(x)) else None
    case Call(f, args) =>
      var vs := JikValues(I, env, args);
      if vs.None? then None else I.call(f, vs.value)
    case Member(base, f) =>
      var v := JikValue(I, env, base);
      if v.None? then None else I.field(v.value, f)
    case Group(inner) => JikValue(I, env, inner)
    case Not(x) =>
      var v := JikValue(I, env, x);
      if v.Some? && v.value.Flag? then Some(Flag(!v.value.b)) else None
    case Neg(x) =>
      var v := JikValue(I, env, x);
      if v.None? then None else I.negate(v.value)
    case Bin(op, l, r) =>
      var v, w := JikValue(I, env, l), JikValue(I, env, r);
      if op.And? || op.Or? then Shorted(op, v, w)
      else if v.None? || w.None? then None
      else JikOp(I, op, v.value, w.value)
    case IsOption(x, some) =>
      var v := JikValue(I, env, x);
      if v.Some? && v.value.Choice? then Some(Flag(some == v.value.held.Some?)) else None
    case IsTag(x, tag) =>
      var v := JikValue(I, env, x);
      if v.Some? && v.value.Variant? && tag in I.tags then Some(Flag(v.value.tag == tag)) else None
    case Ternary(c, a, b) =>
      var v := JikValue(I, env, c);
      if v.None? || !v.value.Flag? then None
      else Widened(I, TypeOf(env, e), if v.value.b then JikValue(I, env, a) else JikValue(I, env, b))
  }

  function JikValues(I: Interp, env: Env, es: seq<Expr>): Option<seq<Val>>
    decreases es
  {
    if es == [] then Some([])
    else
      var v, vs := JikValue(I, env, es[0]), JikValues(I, env, es[1..]);
      if v.None? || vs.None? then None else Some([v.value] + vs.value)
  }

  // ----- C -----

  /** The static type of a C expression: section 6.5.15 of ISO C11 brings two arithmetic
      operands of `?:` to their common type. */
  function CType(env: Env, c: CExpr): Option<Ty> {
    match c
    case CName(x) => if x == "0" then Some(IntT) else if x in env.atoms then Some(env.atoms[x]) else None
    case CCall(f, _) =>
      if !f.CName? then None
      else if f.s == "jik_string_cmp" then Some(IntT)
      else if f.s in RuntimeNames then Some(BoolT)
      else if f.s in env.funcs then Some(env.funcs[f.s])
      else None
    case CArrow(base, f) =>
      var b := CType(env, base);
      if b.Some? && b.value.StructT? && (b.value.name, f) in env.fields then Some(env.fields[(b.value.name, f)]) else None
    case CNot(_) => Some(BoolT)
    case CNeg(x) => CType(env, x)
    case CPreDec(x) => CType(env, x)
    case CBin(op, l, r) =>
      if !(op.Add? || op.Sub? || op.Mul? || op.Div? || op.Mod?) then Some(BoolT) else CommonType(CType(env, l), CType(env, r))
    case CCond(_, a, b) => CommonType(CType(env, a), CType(env, b))
  }

  function CommonType(s: Option<Ty>, t: Option<Ty>): Option<Ty> {
    if s == t then s
    else if s.Some? && t.Some? && Numeric(s.value) && Numeric(t.value) then Some(Join(s.value, t.value))
    else None
  }

  /** Strings are pointers: what `==` yields on them is not their text's business. */
  function COp(I: Interp, op: Op, v: Val, w: Val): Option<Val> {
    if v.Tag? && w.Tag? && op.Eq? then Some(Flag(v.tag == w.tag))
    else if v.Tag? || w.Tag? || (v.Text? && w.Text?) then None
    else I.op(op, v, w)
  }

  function CCallValue(I: Interp, f: string, vs: seq<Val>): Option<Val> {
    if f == "jik_string_cmp" then
      if |vs| == 2 && vs[0].Text? && vs[1].Text? then Some(Int(I.order(vs[0].s, vs[1].s))) else None
    else if f == "is_some" then
      if |vs| == 1 && vs[0].Choice? then Some(Flag(vs[0].held.Some?)) else None
    else if f == "is_none" then
      if |vs| == 1 && vs[0].Choice? then Some(Flag(vs[0].held.None?)) else None
    else I.call(f, vs)
  }

  function CValue(I: Interp, env: Env, c: CExpr): Option<Val>
    decreases c
  {
    match c
    case CName(x) => if x == "0" then Some(Int(0)) else if x in I.tags then Some(Tag(x)) else if x in env.atoms then Some(I.atom(x)) else None
    case CCall(f, args) =>
      var vs := CValues(I, env, args);
      if vs.None? || !f.CName? then None else CCallValue(I, f.s, vs.value)
    case CArrow(base, f) =>
      var v := CValue(I, env, base);
      if v.None? then None
      else if v.value.Variant? && f == "tag" then Some(Tag(v.value.tag))
      else I.field(v.value, f)
    case CNot(x) =>
      var v := CValue(I, env, x);
      if v.Some? && v.value.Flag? then Some(Flag(!v.value.b)) else None
    case CNeg(x) =>
      var v := CValue(I, env, x);
      if v.None? then None else I.negate(v.value)
    case CPreDec(_) => None
    case CBin(op, l, r) =>
      var v, w := CValue(I, env, l), CValue(I, env, r);
      if op.And? || op.Or? then Shorted(op, v, w)
      else if v.None? || w.None? then None
      else COp(I, op, v.value, w.value)
    case CCond(p, a, b) =>
      var v := CValue(I, env, p);
      if v.None? || !v.value.Flag? then None
      else Widened(I, CType(env, c), if v.value.b then CValue(I, env, a) else CValue(I, env, b))
  }

  function CValues(I: Interp, env: Env, cs: seq<CExpr>): Option<seq<Val>>
    decreases cs
  {
    if cs == [] then Some([])
    else
      var v, vs := CValue(I, env, cs[0]), CValues(I, env, cs[1..]);
      if v.None? || vs.None? then None else Some([v.value] + vs.value)
  }

  // ----- types are kept -----

  /** The value of a well-typed expression has its type. */
  lemma {:induction false} ValueHasType(I: Interp, env: Env, e: Expr)
    requires Typed(I, env) && TypeOf(env, e).Some?
    ensures TypedAs(JikValue(I, env, e), TypeOf(env, e).value)
    decreases e
  {
    match e
    case Atom(_) =>
    case Call(_, _) =>
    case Member(base, _) => ValueHasType(I, env, base);
    case Group(inner) => ValueHasType(I, env, inner);
    case Not(_) =>
    case Neg(x) => ValueHasType(I, env, x);
    case Bin(_, l, r) =>
      ValueHasType(I, env, l);
      ValueHasType(I, env, r);
    case IsOption(_, _) =>
    case IsTag(_, _) =>
    case Ternary(_, a, b) =>
      ValueHasType(I, env, a);
      ValueHasType(I, env, b);
  }

  /** The C tree has the Jik type. */
  lemma {:induction false} TypeInC(I: Interp, env: Env, e: Expr)
    requires Standard(I, env) && TypeOf(env, e).Some?
    ensures CType(env, ToC(env, e)) == TypeOf(env, e)
    decreases e
  {
    match e
    case Atom(_) =>
    case Call(_, _) =>
    case Member(base, _) => TypeInC(I, env, base);
    case Group(inner) => TypeInC(I, env, inner);
    case Not(_) =>
    case Neg(x) => TypeInC(I, env, x);
    case Bin(_, l, r) =>
      TypeInC(I, env, l);
      TypeInC(I, env, r);
    case IsOption(_, _) =>
    case IsTag(_, _) =>
    case Ternary(_, a, b) =>
      TypeInC(I, env, a);
      TypeInC(I, env, b);
  }

  // ----- values are kept -----

  lemma {:induction false} ValueInC(I: Interp, env: Env, e: Expr)
    requires Typed(I, env) && Standard(I, env) && TypeOf(env, e).Some?
    ensures CValue(I, env, ToC(env, e)) == JikValue(I, env, e)
    decreases e
  {
    match e
    case Atom(_) =>
    case Call(_, args) => ValuesInC(I, env, args);
    case Member(base, _) =>
      ValueInC(I, env, base);
      ValueHasType(I, env, base);
    case Group(inner) => ValueInC(I, env, inner);
    case Not(x) => ValueInC(I, env, x);
    case Neg(x) => ValueInC(I, env, x);
    case Bin(_, l, r) =>
      ValueInC(I, env, l);
      ValueInC(I, env, r);
      BinInC(I, env, e);
    case IsOption(x, some) =>
      ValueInC(I, env, x);
      OneArg(I, env, ToC(env, x));
    case IsTag(x, tag) =>
      ValueInC(I, env, x);
      TagInC(I, env, e);
    case Ternary(c, a, b) =>
      ValueInC(I, env, c);
      ValueInC(I, env, a);
      ValueInC(I, env, b);
      TypeInC(I, env, e);
  }

  lemma {:induction false} ValuesInC(I: Interp, env: Env, es: seq<Expr>)
    requires Typed(I, env) && Standard(I, env) && forall a :: a in es ==> TypeOf(env, a).Some?
    ensures CValues(I, env, ToCs(env, es)) == JikValues(I, env, es)
    decreases es
  {
    if es != [] {
      ValueInC(I, env, es[0]);
      ValuesInC(I, env, es[1..]);
      assert ToCs(env, es)[1..] == ToCs(env, es[1..]);
    }
  }

  lemma OneArg(I: Interp, env: Env, c: CExpr)
    ensures CValues(I, env, [c]) == if CValue(I, env, c).None? then None else Some([CValue(I, env, c).value])
  {
    var v := CValue(I, env, c);
    assert [c][1..] == [];
    if v.Some? {
      assert [v.value] + [] == [v.value];
    }
  }

  lemma TwoArgs(I: Interp, env: Env, c: CExpr, d: CExpr)
    ensures
      var v, w := CValue(I, env, c), CValue(I, env, d);
      CValues(I, env, [c, d]) == if v.None? || w.None? then None else Some([v.value, w.value])
  {
    var v, w := CValue(I, env, c), CValue(I, env, d);
    assert [c, d][1..] == [d];
    OneArg(I, env, d);
    if v.Some? && w.Some? {
      assert [v.value] + [w.value] == [v.value, w.value];
    }
  }

  /** Two strings are handed to the comparison, any other operands to the operator. */
  lemma BinInC(I: Interp, env: Env, e: Expr)
    requires Typed(I, env) && Standard(I, env) && e.Bin? && TypeOf(env, e).Some?
    requires CValue(I, env, ToC(env, e.l)) == JikValue(I, env, e.l) && CValue(I, env, ToC(env, e.r)) == JikValue(I, env, e.r)
    ensures CValue(I, env, ToC(env, e)) == JikValue(I, env, e)
  {
    ValueHasType(I, env, e.l);
    ValueHasType(I, env, e.r);
    if StringEquality(env, e) {
      TwoArgs(I, env, ToC(env, e.l), ToC(env, e.r));
      assert CValue(I, env, CName("0")) == Some(Int(0));
    }
  }

  lemma TagInC(I: Interp, env: Env, e: Expr)
    requires Typed(I, env) && Standard(I, env) && e.IsTag? && TypeOf(env, e).Some?
    requires CValue(I, env, ToC(env, e.e)) == JikValue(I, env, e.e)
    ensures CValue(I, env, ToC(env, e)) == JikValue(I, env, e)
  {
    ValueHasType(I, env, e.e);
  }

  /** For every interpretation: the tree that C reads from the text printed for a
      well-typed expression without nested minus signs is worth what the expression is. */
  lemma PrintedValue(I: Interp, env: Env, e: Expr)
    requires Typed(I, env) && Standard(I, env)
    requires JikAt(TERNARY, e) && TypeOf(env, e).Some? && !NestedMinus(e)
    ensures ReadC(Lex(Print(env, e))).Some? && CValue(I, env, ReadC(Lex(Print(env, e))).value) == JikValue(I, env, e)
  {
    PrecedenceAgreement(env, e);
    ValueInC(I, env, e);
  }

  // ----- one interpretation, to show that the premises can be met -----

  function Sample(t: Ty): (v: Val)
    ensures HasType(v, t)
  {
    match t
    case IntT => Int(0)
    case FloatT => Float(0.0)
    case BoolT => Flag(false)
    case StrT => Text("")
    case CharT => Char(' ')
    case EnumT(n) => Enumerator(n, 0)
    case StructT(n) => Struct(n, 0)
    case VariantT(n) => Variant(n, 0, "")
    case OptionT(n) => Choice(n, None)
  }

  function AsReal(v: Val): real { if v.Int? then v.n as real else if v.Float? then v.x else 0.0 }

  function Arithmetic(op: Op, v: Val, w: Val): Option<Val> {
    match op
    case Or => Some(Flag(v == Flag(true) || w == Flag(true)))
    case And => Some(Flag(v == Flag(true) && w == Flag(true)))
    case Eq => Some(Flag(if v.Float? || w.Float? then AsReal(v) == AsReal(w) else v == w))
    case Neq => Some(Flag(if v.Float? || w.Float? then AsReal(v) != AsReal(w) else v != w))
    case Lt => Some(Flag(AsReal(v) < AsReal(w)))
    case Gt => Some(Flag(AsReal(v) > AsReal(w)))
    case Leq => Some(Flag(AsReal(v) <= AsReal(w)))
    case Geq => Some(Flag(AsReal(v) >= AsReal(w)))
    case Add => Some(if v.Int? && w.Int? then Int(v.n + w.n) else Float(AsReal(v) + AsReal(w)))
    case Sub => Some(if v.Int? && w.Int? then Int(v.n - w.n) else Float(AsReal(v) - AsReal(w)))
    case Mul => Some(if v.Int? && w.Int? then Int(v.n * w.n) else Float(AsReal(v) * AsReal(w)))
    case Div =>
      if AsReal(w) == 0.0 then None
      else Some(if v.Int? && w.Int? then Int(v.n / w.n) else Float(AsReal(v) / AsReal(w)))
    case Mod => if v.Int? && w.Int? && w.n != 0 then Some(Int(v.n % w.n)) else None
  }

  function Reading(env: Env): Interp {
    Interp(
      x => if x in env.atoms && x != "0" then Sample(env.atoms[x]) else Int(0),
      (f, vs) => if f in env.funcs then Some(Sample(env.funcs[f])) else None,
      (v: Val, f) => if v.Struct? && (v.name, f) in env.fields then Some(Sample(env.fields[(v.name, f)])) else None,
      Arithmetic,
      (v: Val) => if v.Int? then Some(Int(-v.n)) else if v.Float? then Some(Float(-v.x)) else None,
      (n: int) => n as real,
      (a, b) => if a == b then 0 else 1,
      {})
  }

  lemma ReadingTyped(env: Env)
    requires "0" in env.atoms ==> env.atoms["0"] == IntT
    ensures Typed(Reading(env), env)
  {
    hide Arithmetic, BinType;
    forall op, v, w, s, t | HasType(v, s) && HasType(w, t) && BinType(op, s, t).Some?
      ensures TypedAs(Arithmetic(op, v, w), BinType(op, s, t).value)
    {
      ArithmeticTyped(op, v, w, s, t);
    }
  }

  /** Every environment without the runtime's names has an interpretation that meets the premises. */
  lemma ReadingMeetsPremises(env: Env)
    requires RuntimeNames !! env.funcs.Keys && ("0" in env.atoms ==> env.atoms["0"] == IntT)
    ensures Typed(Reading(env), env) && Standard(Reading(env), env)
  {
    ReadingTyped(env);
    hide Typed;
  }

  lemma ArithmeticTyped(op: Op, v: Val, w: Val, s: Ty, t: Ty)
    requires HasType(v, s) && HasType(w, t) && BinType(op, s, t).Some?
    ensures TypedAs(Arithmetic(op, v, w), BinType(op, s, t).value)
  {
  }
}
