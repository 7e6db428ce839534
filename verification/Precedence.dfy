/** The code generator prints binary operators without parentheses. On well-typed trees
    a C parser reads them back as the same tree, exactly when no minus sign directly
    follows another. */
module Precedence {
  import opened Results
  import opened PrecedenceTrees
  import opened CGrammar
  import opened PrecedenceSurface
  import opened PrecedencePrint
  import opened PrecedenceLexing

  /** The C level of the printed form of e. */
  function OwnLevel(e: Expr): (k: nat)
    ensures k <= C_POSTFIX
  {
    match e
    case Bin(op, _, _) => CLevel(op)
    case Not(_) => C_UNARY
    case Neg(_) => C_UNARY
    case _ => C_POSTFIX
  }

  lemma JikAtLower(k: nat, j: nat, e: Expr)
    requires JikAt(k, e) && j <= k
    ensures JikAt(j, e)
  {
  }

  /** Only typing separates the two comparison levels of C: a numeric operand of a
      comparison cannot itself be a comparison. */
  lemma OperandLevels(env: Env, op: Op, l: Expr, r: Expr)
    requires JikAt(JikLevel(op), l) && JikAt(JikLevel(op) + 1, r) && TypeOf(env, Bin(op, l, r)).Some?
    ensures CLevel(op) <= OwnLevel(l) && CLevel(op) + 1 <= OwnLevel(r)
  {
  }

  lemma {:induction false} EmitOwn(env: Env, e: Expr)
    requires JikAt(TERNARY, e) && TypeOf(env, e).Some?
    ensures SAt(OwnLevel(e), Emit(env, e)) && SAt(C_OR, Emit(env, e))
    decreases e, 1
  {
    match e
    case Atom(_) =>
    case Call(_, args) =>
      forall a | a in EmitAll(env, args)
        ensures SAt(C_OR, a)
      {
        var i :| 0 <= i < |args| && a == Emit(env, args[i]);
        assert args[i] in args;
        EmitOwn(env, args[i]);
      }
    case Member(base, _) => JikAtLower(PRIMARY, TERNARY, base); EmitOwn(env, base);
    case Group(inner) => EmitOwn(env, inner);
    case Not(x) => JikAtLower(UNARY, TERNARY, x); EmitOwn(env, x);
    case Neg(x) => JikAtLower(UNARY, TERNARY, x); EmitOwn(env, x);
    case Bin(op, l, r) => EmitBin(env, e);
    case IsOption(x, _) => JikAtLower(COMPARISON, TERNARY, x); EmitOwn(env, x);
    case IsTag(x, _) =>
      JikAtLower(COMPARISON, TERNARY, x);
      EmitOwn(env, x);
      TagAt(Emit(env, x), e.tag);
    case Ternary(c, a, b) =>
      JikAtLower(OR, TERNARY, a);
      EmitOwn(env, c);
      EmitOwn(env, a);
      EmitOwn(env, b);
      TernaryAt(Emit(env, c), Emit(env, a), Emit(env, b));
  }

  lemma {:induction false} EmitBin(env: Env, e: Expr)
    requires e.Bin? && JikAt(TERNARY, e) && TypeOf(env, e).Some?
    ensures SAt(OwnLevel(e), Emit(env, e)) && SAt(C_OR, Emit(env, e))
    decreases e, 0
  {
    JikAtLower(JikLevel(e.op), TERNARY, e.l);
    JikAtLower(JikLevel(e.op) + 1, TERNARY, e.r);
    EmitOwn(env, e.l);
    EmitOwn(env, e.r);
    OperandLevels(env, e.op, e.l, e.r);
    PrintedBin(env, e);
  }

  /** String comparison is a call, any other operator stands between its operands. */
  lemma PrintedBin(env: Env, e: Expr)
    requires e.Bin? && CLevel(e.op) <= OwnLevel(e.l) && CLevel(e.op) + 1 <= OwnLevel(e.r)
    requires SAt(OwnLevel(e.l), Emit(env, e.l)) && SAt(C_OR, Emit(env, e.l))
    requires SAt(OwnLevel(e.r), Emit(env, e.r)) && SAt(C_OR, Emit(env, e.r))
    ensures SAt(OwnLevel(e), Emit(env, e)) && SAt(C_OR, Emit(env, e))
  {
    hide StringEquality;
    if StringEquality(env, e) {
      assert forall a :: a in [Emit(env, e.l), Emit(env, e.r)] ==> SAt(C_OR, a);
    } else {
      SAtLower(OwnLevel(e.l), CLevel(e.op), Emit(env, e.l));
      SAtLower(OwnLevel(e.r), CLevel(e.op) + 1, Emit(env, e.r));
    }
  }

  lemma TagAt(x: Surface, tag: string)
    requires SAt(C_POSTFIX, x)
    ensures SAt(C_POSTFIX, SParen(SBin(Eq, SArrow(x, "tag"), SName(tag))))
  {
    assert SAt(C_EQUALITY, SArrow(x, "tag"));
    assert SAt(C_OR, SBin(Eq, SArrow(x, "tag"), SName(tag)));
  }

  lemma TernaryAt(c: Surface, a: Surface, b: Surface)
    requires SAt(C_OR, c) && SAt(C_OR, a) && SAt(C_OR, b)
    ensures SAt(C_POSTFIX, SParen(SCond(SParen(c), SParen(a), SParen(b))))
  {
    assert SAt(C_OR, SParen(c)) && SAt(C_OR, SParen(a)) && SAt(C_OR, SParen(b));
  }

  /** A minus sign applied directly to a minus sign. */
  predicate NestedMinus(e: Expr)
    decreases e
  {
    match e
    case Atom(_) => false
    case Call(_, args) => exists a :: a in args && NestedMinus(a)
    case Member(base, _) => NestedMinus(base)
    case Group(inner) => NestedMinus(inner)
    case Not(x) => NestedMinus(x)
    case Neg(x) => x.Neg? || NestedMinus(x)
    case Bin(_, l, r) => NestedMinus(l) || NestedMinus(r)
    case IsOption(x, _) => NestedMinus(x)
    case IsTag(x, _) => NestedMinus(x)
    case Ternary(c, a, b) => NestedMinus(c) || NestedMinus(a) || NestedMinus(b)
  }

  lemma {:induction false} NestedIsDouble(env: Env, e: Expr)
    ensures NestedMinus(e) <==> DoubleMinus(Emit(env, e))
    decreases e
  {
    match e
    case Atom(_) =>
    case Call(_, args) =>
      forall a | a in args
        ensures NestedMinus(a) <==> DoubleMinus(Emit(env, a))
      {
        NestedIsDouble(env, a);
      }
      NestedCall(env, e);
    case Member(base, _) => NestedIsDouble(env, base);
    case Group(inner) => NestedIsDouble(env, inner);
    case Not(x) => NestedIsDouble(env, x);
    case Neg(x) => NestedIsDouble(env, x);
    case Bin(_, l, r) =>
      NestedIsDouble(env, l);
      NestedIsDouble(env, r);
      NestedBin(env, e);
    case IsOption(x, _) =>
      NestedIsDouble(env, x);
      NestedTest(env, e);
    case IsTag(x, _) =>
      NestedIsDouble(env, x);
      NestedTest(env, e);
    case Ternary(c, a, b) =>
      NestedIsDouble(env, c);
      NestedIsDouble(env, a);
      NestedIsDouble(env, b);
      NestedTernary(env, e);
  }

  lemma NestedCall(env: Env, e: Expr)
    requires e.Call? && forall a :: a in e.args ==> (NestedMinus(a) <==> DoubleMinus(Emit(env, a)))
    ensures NestedMinus(e) <==> DoubleMinus(Emit(env, e))
  {
    var ss := EmitAll(env, e.args);
    assert forall i :: 0 <= i < |e.args| ==> ss[i] == Emit(env, e.args[i]);
    if exists a :: a in e.args && NestedMinus(a) {
      var i :| 0 <= i < |e.args| && NestedMinus(e.args[i]);
      assert ss[i] in ss;
    }
  }

  lemma NestedBin(env: Env, e: Expr)
    requires e.Bin? && (NestedMinus(e.l) <==> DoubleMinus(Emit(env, e.l))) && (NestedMinus(e.r) <==> DoubleMinus(Emit(env, e.r)))
    ensures NestedMinus(e) <==> DoubleMinus(Emit(env, e))
  {
    var two := [Emit(env, e.l), Emit(env, e.r)];
    assert two[0] in two && two[1] in two;
  }

  lemma NestedTest(env: Env, e: Expr)
    requires (e.IsOption? || e.IsTag?) && (NestedMinus(e.e) <==> DoubleMinus(Emit(env, e.e)))
    ensures NestedMinus(e) <==> DoubleMinus(Emit(env, e))
  {
    if e.IsOption? {
      assert Emit(env, e.e) in [Emit(env, e.e)];
    } else {
      var access := SArrow(Emit(env, e.e), "tag");
      assert DoubleMinus(access) == DoubleMinus(Emit(env, e.e));
      assert DoubleMinus(SBin(Eq, access, SName(e.tag))) == DoubleMinus(access);
    }
  }

  lemma NestedTernary(env: Env, e: Expr)
    requires e.Ternary? && (NestedMinus(e.cond) <==> DoubleMinus(Emit(env, e.cond)))
    requires (NestedMinus(e.thn) <==> DoubleMinus(Emit(env, e.thn))) && (NestedMinus(e.els) <==> DoubleMinus(Emit(env, e.els)))
    ensures NestedMinus(e) <==> DoubleMinus(Emit(env, e))
  {
    var (sc, sa, sb) := (SParen(Emit(env, e.cond)), SParen(Emit(env, e.thn)), SParen(Emit(env, e.els)));
    assert DoubleMinus(SCond(sc, sa, sb)) == (DoubleMinus(sc) || DoubleMinus(sa) || DoubleMinus(sb));
  }

  /** Precedence agreement: for every well-typed tree the Jik parser builds, a C parser
      reads the printed text back as the same tree if and only if no minus sign is
      applied directly to another. */
  lemma PrecedenceAgreement(env: Env, e: Expr)
    requires JikAt(TERNARY, e) && TypeOf(env, e).Some?
    ensures ReadC(Lex(Print(env, e))) == Some(ToC(env, e)) <==> !NestedMinus(e)
  {
    EmitOwn(env, e);
    PrintIsGlyphs(env, e);
    EmitTree(env, e);
    NestedIsDouble(env, e);
    ReadsPrinted(Emit(env, e));
  }

  /** Typing is what makes it work: this tree is built by the Jik parser but ill-typed,
      and C groups its text the other way. */
  lemma UntypedTreesDisagree(env: Env, a: string, b: string, c: string)
    ensures
      var e := Bin(Lt, Bin(Eq, Atom(a), Atom(b)), Atom(c));
      && JikAt(TERNARY, e) && TypeOf(env, e).None?
      && (!StringEquality(env, e.l) ==>
            ReadC(Lex(Print(env, e))) == Some(CBin(Eq, CName(a), CBin(Lt, CName(b), CName(c)))) != Some(ToC(env, e)))
  {
    hide ReadC;
    var e := Bin(Lt, Bin(Eq, Atom(a), Atom(b)), Atom(c));
    ChainUntyped(env, a, b, c);
    if !StringEquality(env, e.l) {
      ChainReadBack(env, a, b, c);
      assert ToC(env, e) == CBin(Lt, ToC(env, e.l), CName(c));
    }
  }

  /** The grammar of Jik derives the chain, but it has no type. */
  lemma ChainUntyped(env: Env, a: string, b: string, c: string)
    ensures var e := Bin(Lt, Bin(Eq, Atom(a), Atom(b)), Atom(c)); JikAt(TERNARY, e) && TypeOf(env, e).None?
  {
    assert JikAt(PRIMARY, Atom(a)) && JikAt(PRIMARY, Atom(b)) && JikAt(PRIMARY, Atom(c));
    assert JikAt(COMPARISON, Bin(Eq, Atom(a), Atom(b)));
  }

  lemma ChainReadBack(env: Env, a: string, b: string, c: string)
    requires !StringEquality(env, Bin(Eq, Atom(a), Atom(b)))
    ensures ReadC(Lex(Print(env, Bin(Lt, Bin(Eq, Atom(a), Atom(b)), Atom(c))))) == Some(CBin(Eq, CName(a), CBin(Lt, CName(b), CName(c))))
  {
    hide ReadC, Lex, Print, Glyphs, SAt, DoubleMinus, Tree;
    var s := SBin(Eq, SName(a), SBin(Lt, SName(b), SName(c)));
    ChainAt(a, b, c);
    ChainRead(a, b, c);
    ChainGlyphs(env, a, b, c);
    ReadsPrinted(s);
  }

  /** C groups the comparison chain to the right. */
  lemma ChainAt(a: string, b: string, c: string)
    ensures SAt(C_OR, SBin(Eq, SName(a), SBin(Lt, SName(b), SName(c))))
  {
    var (sa, sb, sc) := (SName(a), SName(b), SName(c));
    assert SAt(C_RELATIONAL, sb) && SAt(C_ADDITIVE, sc) && SAt(C_EQUALITY, sa);
    assert SAt(C_RELATIONAL, SBin(Lt, sb, sc));
  }

  lemma ChainRead(a: string, b: string, c: string)
    ensures !DoubleMinus(SBin(Eq, SName(a), SBin(Lt, SName(b), SName(c))))
    ensures Tree(SBin(Eq, SName(a), SBin(Lt, SName(b), SName(c)))) == CBin(Eq, CName(a), CBin(Lt, CName(b), CName(c)))
  {
    var (sa, sb, sc) := (SName(a), SName(b), SName(c));
    assert !DoubleMinus(sa) && !DoubleMinus(sb) && !DoubleMinus(sc);
    assert !DoubleMinus(SBin(Lt, sb, sc));
    assert Tree(sb) == CName(b) && Tree(sc) == CName(c);
    assert Tree(SBin(Lt, sb, sc)) == CBin(Lt, CName(b), CName(c));
  }

  lemma ChainGlyphs(env: Env, a: string, b: string, c: string)
    requires !StringEquality(env, Bin(Eq, Atom(a), Atom(b)))
    ensures Glyphs(SBin(Eq, SName(a), SBin(Lt, SName(b), SName(c)))) == Print(env, Bin(Lt, Bin(Eq, Atom(a), Atom(b)), Atom(c)))
  {
    assert Glyphs(SBin(Lt, SName(b), SName(c))) == Lit([Name(b)]) + Sep(Lt) + Lit([Name(c)]);
    assert Print(env, Bin(Eq, Atom(a), Atom(b))) == Lit([Name(a)]) + Sep(Eq) + Lit([Name(b)]);
  }
}
