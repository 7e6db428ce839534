/** Printed texts as tokens: where two minus signs meet, and that nothing else is lost. */
module PrecedenceLexing {
  import opened Results
  import opened PrecedenceTrees
  import opened CGrammar
  import opened PrecedenceSurface
  import opened PrecedencePrint

  const MINUS := Glyph(BinTok(Sub))

  predicate Adjacent(g: seq<Glyph>) {
    |g| >= 2 && ((g[0] == MINUS && g[1] == MINUS) || Adjacent(g[1..]))
  }

  /** The tokens of a text, each glyph by itself. */
  function Strip(g: seq<Glyph>): seq<Tok> {
    if g == [] then [] else (if g[0].Blank? then [] else [g[0].t]) + Strip(g[1..])
  }

  lemma RegroupTokens(a: seq<Tok>, b: seq<Tok>, c: seq<Tok>)
    ensures a + (b + c) == a + b + c
  {
  }

  lemma {:induction false} StripConcat(a: seq<Glyph>, b: seq<Glyph>)
    ensures Strip(a + b) == Strip(a) + Strip(b)
  {
    if a == [] {
      assert a + b == b;
    } else {
      StripConcat(a[1..], b);
      var h := if a[0].Blank? then [] else [a[0].t];
      assert (a + b)[1..] == a[1..] + b;
      RegroupTokens(h, Strip(a[1..]), Strip(b));
    }
  }

  lemma {:induction false} LexPlain(g: seq<Glyph>)
    ensures !Adjacent(g) ==> Lex(g) == Strip(g)
    ensures Adjacent(g) ==> Decrements(Lex(g)) > 0
  {
    if g != [] {
      LexPlain(g[1..]);
      if g[0] == MINUS && |g| > 1 && g[1] == MINUS {
        assert Lex(g)[0] == Decrement;
      } else if !g[0].Blank? {
        assert Lex(g)[1..] == Lex(g[1..]);
      }
    }
  }

  predicate Joins(a: seq<Glyph>, b: seq<Glyph>) {
    a != [] && b != [] && a[|a| - 1] == MINUS && b[0] == MINUS
  }

  lemma {:induction false} AdjacentConcat(a: seq<Glyph>, b: seq<Glyph>)
    ensures Adjacent(a + b) <==> Adjacent(a) || Adjacent(b) || Joins(a, b)
  {
    if a == [] {
      assert a + b == b;
    } else if |a| == 1 {
      assert (a + b)[1..] == b;
    } else {
      AdjacentConcat(a[1..], b);
      assert (a + b)[1..] == a[1..] + b;
    }
  }

  lemma {:induction false} LastGlyph(s: Surface)
    ensures Glyphs(s)[|Glyphs(s)| - 1] != MINUS
  {
    match s
    case SNot(x) => LastGlyph(x);
    case SNeg(x) => LastGlyph(x);
    case SBin(_, _, r) => LastGlyph(r);
    case SCond(_, _, b) => LastGlyph(b);
    case _ =>
  }

  /** The first glyph is a minus sign only for a negation or a chain that starts with one. */
  lemma {:induction false} FirstGlyph(s: Surface)
    requires SAt(C_UNARY, s)
    ensures Glyphs(s)[0] == MINUS <==> s.SNeg?
  {
    match s
    case SArrow(b, _) => FirstGlyph(b);
    case _ =>
  }

  predicate DoubleMinus(s: Surface)
    decreases s
  {
    match s
    case SName(_) => false
    case SCall(_, args) => exists a :: a in args && DoubleMinus(a)
    case SArrow(b, _) => DoubleMinus(b)
    case SParen(x) => DoubleMinus(x)
    case SNot(x) => DoubleMinus(x)
    case SNeg(x) => x.SNeg? || DoubleMinus(x)
    case SBin(_, l, r) => DoubleMinus(l) || DoubleMinus(r)
    case SCond(c, a, b) => DoubleMinus(c) || DoubleMinus(a) || DoubleMinus(b)
  }

  predicate Shaped(s: Surface) {
    SAt(C_OR, s) || (s.SCond? && SAt(C_OR, s.c) && SAt(C_OR, s.a) && SAt(C_OR, s.b))
  }

  lemma ShapedParts(s: Surface)
    requires Shaped(s)
    ensures s.SArrow? ==> SAt(C_OR, s.base)
    ensures s.SParen? ==> Shaped(s.inner)
    ensures s.SNot? || s.SNeg? ==> SAt(C_UNARY, s.e) && SAt(C_OR, s.e)
    ensures s.SBin? ==> SAt(C_OR, s.l) && SAt(C_OR, s.r)
  {
    match s
    case SArrow(b, _) => SAtLower(C_POSTFIX, C_OR, b);
    case SNot(x) => SAtLower(C_UNARY, C_OR, x);
    case SNeg(x) => SAtLower(C_UNARY, C_OR, x);
    case SBin(op, l, r) => SAtLower(CLevel(op), C_OR, l); SAtLower(CLevel(op) + 1, C_OR, r);
    case _ =>
  }

  lemma {:induction false} AdjacentGlyphs(s: Surface)
    requires Shaped(s)
    ensures Adjacent(Glyphs(s)) <==> DoubleMinus(s)
    decreases s
  {
    ShapedParts(s);
    match s
    case SName(_) =>
    case SCall(f, args) =>
      AdjacentArgs(args);
      AdjacentConcat(Lit([Name(f), LParen]), ArgsGlyphs(args));
      AdjacentConcat(Lit([Name(f), LParen]) + ArgsGlyphs(args), Lit([RParen]));
    case SArrow(b, f) =>
      AdjacentGlyphs(b);
      AdjacentConcat(Glyphs(b), Lit([Arrow, Name(f)]));
    case SParen(x) =>
      AdjacentGlyphs(x);
      AdjacentConcat(Lit([LParen]), Glyphs(x));
      AdjacentConcat(Lit([LParen]) + Glyphs(x), Lit([RParen]));
    case SNot(x) =>
      AdjacentGlyphs(x);
      AdjacentConcat(Lit([Bang]), Glyphs(x));
    case SNeg(x) =>
      AdjacentGlyphs(x);
      FirstGlyph(x);
      AdjacentConcat(Lit([BinTok(Sub)]), Glyphs(x));
    case SBin(op, l, r) =>
      AdjacentGlyphs(l);
      AdjacentGlyphs(r);
      AdjacentAround(Glyphs(l), Sep(op), Glyphs(r));
    case SCond(c, a, b) =>
      AdjacentGlyphs(c);
      AdjacentGlyphs(a);
      AdjacentGlyphs(b);
      var q, k := [Blank, Glyph(Question), Blank], [Blank, Glyph(Colon), Blank];
      AdjacentAround(Glyphs(c), q, Glyphs(a));
      AdjacentAround(Glyphs(c) + q + Glyphs(a), k, Glyphs(b));
  }

  lemma AdjacentAround(a: seq<Glyph>, sep: seq<Glyph>, b: seq<Glyph>)
    requires |sep| == 3 && sep[0] == Blank && sep[2] == Blank
    ensures Adjacent(a + sep + b) <==> Adjacent(a) || Adjacent(b)
  {
    AdjacentConcat(a, sep);
    AdjacentConcat(a + sep, b);
    assert (a + sep)[|a + sep| - 1] == Blank;
    assert !Joins(a, sep) && !Joins(a + sep, b);
    assert sep[1..][1] == Blank && |sep[1..][1..]| == 1;
    assert !Adjacent(sep[1..]);
  }

  lemma {:induction false} AdjacentArgs(ss: seq<Surface>)
    requires forall a :: a in ss ==> SAt(C_OR, a)
    ensures Adjacent(ArgsGlyphs(ss)) <==> exists a :: a in ss && DoubleMinus(a)
    decreases ss
  {
    if ss != [] {
      AdjacentGlyphs(ss[0]);
      assert forall a :: a in ss <==> a == ss[0] || a in ss[1..];
      if |ss| > 1 {
        AdjacentArgs(ss[1..]);
        AdjacentConcat(Glyphs(ss[0]), [Glyph(Comma), Blank]);
        AdjacentConcat(Glyphs(ss[0]) + [Glyph(Comma), Blank], ArgsGlyphs(ss[1..]));
        assert !Adjacent([Glyph(Comma), Blank]);
      }
    }
  }

  lemma {:induction false} StripGlyphs(s: Surface)
    ensures Strip(Glyphs(s)) == Text(s)
    decreases s
  {
    match s
    case SName(x) => StripLit([Name(x)]);
    case SCall(f, args) =>
      StripArgs(args);
      StripLit([Name(f), LParen]);
      StripLit([RParen]);
      StripConcat(Lit([Name(f), LParen]) + ArgsGlyphs(args), Lit([RParen]));
      StripConcat(Lit([Name(f), LParen]), ArgsGlyphs(args));
    case SArrow(b, f) =>
      StripGlyphs(b);
      StripLit([Arrow, Name(f)]);
      StripConcat(Glyphs(b), Lit([Arrow, Name(f)]));
    case SParen(x) =>
      StripGlyphs(x);
      StripLit([LParen]);
      StripLit([RParen]);
      StripConcat(Lit([LParen]), Glyphs(x));
      StripConcat(Lit([LParen]) + Glyphs(x), Lit([RParen]));
    case SNot(x) =>
      StripGlyphs(x);
      StripLit([Bang]);
      StripConcat(Lit([Bang]), Glyphs(x));
    case SNeg(x) =>
      StripGlyphs(x);
      StripLit([BinTok(Sub)]);
      StripConcat(Lit([BinTok(Sub)]), Glyphs(x));
    case SBin(op, l, r) =>
      StripGlyphs(l);
      StripGlyphs(r);
      StripAround(Glyphs(l), BinTok(op), Glyphs(r));
    case SCond(c, a, b) =>
      StripGlyphs(c);
      StripGlyphs(a);
      StripGlyphs(b);
      StripAround(Glyphs(c), Question, Glyphs(a));
      StripAround(Glyphs(c) + [Blank, Glyph(Question), Blank] + Glyphs(a), Colon, Glyphs(b));
  }

  lemma StripAround(a: seq<Glyph>, t: Tok, b: seq<Glyph>)
    ensures Strip(a + [Blank, Glyph(t), Blank] + b) == Strip(a) + [t] + Strip(b)
  {
    var sep := [Blank, Glyph(t), Blank];
    StripConcat(a, sep);
    StripConcat(a + sep, b);
    assert sep[1..] == [Glyph(t), Blank] && sep[1..][1..] == [Blank] && [Blank][1..] == [];
    assert Strip([Blank]) == [];
    assert Strip([Glyph(t), Blank]) == [t];
  }

  lemma {:induction false} StripLit(ts: seq<Tok>)
    ensures Strip(Lit(ts)) == ts
  {
    if ts != [] {
      StripLit(ts[1..]);
      assert Lit(ts)[1..] == Lit(ts[1..]);
    }
  }

  lemma {:induction false} StripArgs(ss: seq<Surface>)
    ensures Strip(ArgsGlyphs(ss)) == ArgsText(ss)
    decreases ss
  {
    if ss != [] {
      StripGlyphs(ss[0]);
      if |ss| > 1 {
        StripArgs(ss[1..]);
        var sep := [Glyph(Comma), Blank];
        StripConcat(Glyphs(ss[0]), sep);
        StripConcat(Glyphs(ss[0]) + sep, ArgsGlyphs(ss[1..]));
        assert sep[1..] == [Blank] && [Blank][1..] == [];
        assert Strip([Blank]) == [];
        assert Strip(sep) == [Comma];
      }
    }
  }

  /** The C reading of a printed C-shaped expression: its tree, or, when two minus signs
      meet, nothing or some tree with a decrement, which no expression means. */
  lemma ReadsPrinted(s: Surface)
    requires SAt(C_OR, s)
    ensures !DoubleMinus(s) ==> ReadC(Lex(Glyphs(s))) == Some(Tree(s))
    ensures DoubleMinus(s) ==> ReadC(Lex(Glyphs(s))).None? || PreDecs(ReadC(Lex(Glyphs(s))).value) > 0
    ensures DoubleMinus(s) ==> ReadC(Lex(Glyphs(s))) != Some(Tree(s))
  {
    var ts := Lex(Glyphs(s));
    AdjacentGlyphs(s);
    LexPlain(Glyphs(s));
    if DoubleMinus(s) {
      TreeHasNoPreDec(s);
      if ParseExpr(ts).Some? {
        ExprCounts(ts);
      }
    } else {
      StripGlyphs(s);
      ReadsBack(s);
    }
  }
}
