/** From Jik trees to C expressions with parentheses, and the text printed for them. */
module PrecedencePrint {
  import opened PrecedenceTrees
  import opened PrecedenceSurface

  function Emit(env: Env, e: Expr): Surface
    decreases e
  {
    match e
    case Atom(x) => SName(x)
    case Call(f, args) => SCall(f, EmitAll(env, args))
    case Member(base, f) => SArrow(Emit(env, base), f)
    case Group(inner) => SParen(Emit(env, inner))
    case Not(x) => SNot(Emit(env, x))
    case Neg(x) => SNeg(Emit(env, x))
    case Bin(op, l, r) =>
      if StringEquality(env, e) then SBin(op, SCall("jik_string_cmp", [Emit(env, l), Emit(env, r)]), SName("0"))
      else SBin(op, Emit(env, l), Emit(env, r))
    case IsOption(x, some) => SCall(if some then "is_some" else "is_none", [Emit(env, x)])
    case IsTag(x, tag) => SParen(SBin(Eq, SArrow(Emit(env, x), "tag"), SName(tag)))
    case Ternary(c, a, b) => SParen(SCond(SParen(Emit(env, c)), SParen(Emit(env, a)), SParen(Emit(env, b))))
  }

  function EmitAll(env: Env, es: seq<Expr>): (ss: seq<Surface>)
    ensures |ss| == |es| && forall i :: 0 <= i < |es| ==> ss[i] == Emit(env, es[i])
    decreases es
  {
    if es == [] then [] else [Emit(env, es[0])] + EmitAll(env, es[1..])
  }

  lemma {:induction false} EmitTree(env: Env, e: Expr)
    ensures Tree(Emit(env, e)) == ToC(env, e)
    decreases e
  {
    match e
    case Atom(_) =>
    case Call(_, args) => EmitTrees(env, args);
    case Member(base, _) => EmitTree(env, base);
    case Group(inner) => EmitTree(env, inner);
    case Not(x) => EmitTree(env, x);
    case Neg(x) => EmitTree(env, x);
    case Bin(_, l, r) =>
      EmitTree(env, l);
      EmitTree(env, r);
      TreesTwo(Emit(env, l), Emit(env, r));
    case IsOption(x, _) =>
      EmitTree(env, x);
      assert [Emit(env, x)][1..] == [];
      assert Trees([Emit(env, x)]) == [Tree(Emit(env, x))] + Trees([]);
      assert Trees([Emit(env, x)]) == [ToC(env, x)];
    case IsTag(x, _) =>
      EmitTree(env, x);
      assert Tree(SArrow(Emit(env, x), "tag")) == CArrow(ToC(env, x), "tag");
      assert Tree(SBin(Eq, SArrow(Emit(env, x), "tag"), SName(e.tag))) == ToC(env, e);
    case Ternary(c, a, b) =>
      EmitTree(env, c);
      EmitTree(env, a);
      EmitTree(env, b);
      var (sc, sa, sb) := (SParen(Emit(env, c)), SParen(Emit(env, a)), SParen(Emit(env, b)));
      assert Tree(SCond(sc, sa, sb)) == CCond(Tree(sc), Tree(sa), Tree(sb));
  }

  lemma TreesTwo(s: Surface, t: Surface)
    ensures Trees([s, t]) == [Tree(s), Tree(t)]
  {
    assert [s, t][1..] == [t] && [t][1..] == [];
    assert Trees([t]) == [Tree(t)] + Trees([]);
  }

  lemma {:induction false} EmitTrees(env: Env, es: seq<Expr>)
    ensures Trees(EmitAll(env, es)) == ToCs(env, es)
    decreases es
  {
    if es != [] {
      EmitTree(env, es[0]);
      EmitTrees(env, es[1..]);
      assert EmitAll(env, es)[1..] == EmitAll(env, es[1..]);
    }
  }

  // ----- the printed text -----

  function Glyphs(s: Surface): (g: seq<Glyph>)
    ensures g != []
    decreases s
  {
    match s
    case SName(x) => Lit([Name(x)])
    case SCall(f, args) => Lit([Name(f), LParen]) + ArgsGlyphs(args) + Lit([RParen])
    case SArrow(b, f) => Glyphs(b) + Lit([Arrow, Name(f)])
    case SParen(x) => Parens(Glyphs(x))
    case SNot(x) => Lit([Bang]) + Glyphs(x)
    case SNeg(x) => Lit([BinTok(Sub)]) + Glyphs(x)
    case SBin(op, l, r) => Glyphs(l) + Sep(op) + Glyphs(r)
    case SCond(c, a, b) =>
      Glyphs(c) + [Blank, Glyph(Question), Blank] + Glyphs(a) + [Blank, Glyph(Colon), Blank] + Glyphs(b)
  }

  function ArgsGlyphs(ss: seq<Surface>): seq<Glyph>
    decreases ss
  {
    if ss == [] then []
    else if |ss| == 1 then Glyphs(ss[0])
    else Glyphs(ss[0]) + [Glyph(Comma), Blank] + ArgsGlyphs(ss[1..])
  }

  lemma {:induction false} PrintIsGlyphs(env: Env, e: Expr)
    ensures Print(env, e) == Glyphs(Emit(env, e))
    decreases e
  {
    match e
    case Atom(_) =>
    case Call(_, args) => PrintArgsIsGlyphs(env, args);
    case Member(base, _) => PrintIsGlyphs(env, base);
    case Group(inner) => PrintIsGlyphs(env, inner);
    case Not(x) => PrintIsGlyphs(env, x);
    case Neg(x) => PrintIsGlyphs(env, x);
    case Bin(op, l, r) =>
      PrintIsGlyphs(env, l);
      PrintIsGlyphs(env, r);
      if StringEquality(env, e) {
        PrintStringEquality(op, Emit(env, l), Emit(env, r));
      }
    case IsOption(x, _) => PrintIsGlyphs(env, x);
    case IsTag(x, _) =>
      PrintIsGlyphs(env, x);
      var test := SBin(Eq, SArrow(Emit(env, x), "tag"), SName(e.tag));
      assert Glyphs(test) == Glyphs(SArrow(Emit(env, x), "tag")) + Sep(Eq) + Lit([Name(e.tag)]);
    case Ternary(c, a, b) =>
      PrintIsGlyphs(env, c);
      PrintIsGlyphs(env, a);
      PrintIsGlyphs(env, b);
      var (sc, sa, sb) := (SParen(Emit(env, c)), SParen(Emit(env, a)), SParen(Emit(env, b)));
      assert Glyphs(SCond(sc, sa, sb)) ==
        Glyphs(sc) + [Blank, Glyph(Question), Blank] + Glyphs(sa) + [Blank, Glyph(Colon), Blank] + Glyphs(sb);
  }

  lemma PrintStringEquality(op: Op, l: Surface, r: Surface)
    ensures
      Glyphs(SBin(op, SCall("jik_string_cmp", [l, r]), SName("0"))) ==
      Lit([Name("jik_string_cmp"), LParen]) + Glyphs(l) + [Glyph(Comma), Blank] + Glyphs(r)
      + Lit([RParen]) + Sep(op) + Lit([Name("0")])
  {
    assert [l, r][1..] == [r];
    assert ArgsGlyphs([l, r]) == Glyphs(l) + [Glyph(Comma), Blank] + Glyphs(r);
  }

  lemma {:induction false} PrintArgsIsGlyphs(env: Env, es: seq<Expr>)
    ensures PrintArgs(env, es) == ArgsGlyphs(EmitAll(env, es))
    decreases es
  {
    if es != [] {
      PrintIsGlyphs(env, es[0]);
      PrintArgsIsGlyphs(env, es[1..]);
      assert EmitAll(env, es)[1..] == EmitAll(env, es[1..]);
    }
  }
}
