/** `x op= r` is built as the ungrouped tree `x op r`: when C reads it back as that tree. */
module CompoundAssignments {
  import opened Results
  import opened PrecedenceTrees
  import opened CGrammar
  import opened PrecedenceSurface
  import opened PrecedencePrint
  import opened PrecedenceLexing
  import opened Precedence

  predicate Arithmetic(op: Op) { op.Add? || op.Sub? || op.Mul? || op.Div? || op.Mod? }

  /** How C groups `a op r` when r is printed bare. */
  function Graft(a: Surface, op: Op, r: Surface): Surface {
    if r.SBin? && CLevel(r.op) <= CLevel(op) then SBin(r.op, Graft(a, op, r.l), r.r) else SBin(op, a, r)
  }

  lemma {:induction false} GraftGlyphs(a: Surface, op: Op, r: Surface)
    ensures Glyphs(Graft(a, op, r)) == Glyphs(a) + Sep(op) + Glyphs(r)
    decreases r
  {
    if r.SBin? && CLevel(r.op) <= CLevel(op) {
      GraftGlyphs(a, op, r.l);
      Regroup(Glyphs(a) + Sep(op), Glyphs(r.l), Sep(r.op), Glyphs(r.r));
    }
  }

  lemma {:induction false} GraftMinus(a: Surface, op: Op, r: Surface)
    ensures DoubleMinus(Graft(a, op, r)) <==> DoubleMinus(a) || DoubleMinus(r)
    decreases r
  {
    if r.SBin? && CLevel(r.op) <= CLevel(op) {
      GraftMinus(a, op, r.l);
    }
  }

  lemma Regroup(a: seq<Glyph>, b: seq<Glyph>, c: seq<Glyph>, d: seq<Glyph>)
    ensures (a + b) + c + d == a + (b + c + d)
  {
  }

  lemma {:induction false} GraftAt(k: nat, a: Surface, op: Op, r: Surface)
    requires SAt(k, r) && SAt(CLevel(op), a) && k <= CLevel(op) && (r.SNot? || r.SNeg? || r.SBin? || SAt(C_POSTFIX, r))
    ensures SAt(k, Graft(a, op, r))
    decreases r
  {
    if r.SBin? && CLevel(r.op) <= CLevel(op) {
      SpineAt(CLevel(r.op), r.l);
      GraftAt(CLevel(r.op), a, op, r.l);
    }
  }

  lemma SpineAt(k: nat, s: Surface)
    requires SAt(k, s)
    ensures s.SNot? || s.SNeg? || s.SBin? || SAt(C_POSTFIX, s)
  {
  }

  function Size(c: CExpr): nat
    decreases c
  {
    match c
    case CBin(_, l, r) => 1 + Size(l) + Size(r)
    case _ => 0
  }

  lemma GraftRegroups(a: Surface, op: Op, r: Surface)
    requires r.SBin? && CLevel(r.op) <= CLevel(op)
    ensures Tree(Graft(a, op, r)) != Tree(SBin(op, a, r))
  {
    assert Size(Tree(r)) == 1 + Size(Tree(r.l)) + Size(Tree(r.r));
    assert Tree(SBin(op, a, r)) == CBin(op, Tree(a), Tree(r));
    assert Tree(Graft(a, op, r)) == CBin(r.op, Tree(Graft(a, op, r.l)), Tree(r.r));
  }

  /** `x op= r` is built as the ungrouped tree `x op r`. C reads it back as that tree
      exactly when r is not itself a binary expression that binds no tighter than op, and
      no minus sign is applied directly to another. */
  lemma CompoundAssignment(env: Env, target: Expr, op: Op, r: Expr)
    requires Arithmetic(op) && JikAt(PRIMARY, target) && JikAt(TERNARY, r) && TypeOf(env, Bin(op, target, r)).Some?
    ensures
      ReadC(Lex(Print(env, Bin(op, target, r)))) == Some(ToC(env, Bin(op, target, r)))
      <==> !(r.Bin? && JikLevel(r.op) <= JikLevel(op)) && !NestedMinus(target) && !NestedMinus(r)
  {
    hide Print, Lex, ReadC, SAt;
    CompoundReads(env, target, op, r);
    EmitOwn(env, r);
    EmitTree(env, Bin(op, target, r));
    TreeHasNoPreDec(Emit(env, Bin(op, target, r)));
    if r.Bin? && JikLevel(r.op) <= JikLevel(op) {
      GraftRegroups(Emit(env, target), op, Emit(env, r));
    }
  }

  /** C reads the printed text of a compound assignment as the grafted tree, unless two
      minus signs meet in an operand. */
  lemma CompoundReads(env: Env, target: Expr, op: Op, r: Expr)
    requires Arithmetic(op) && JikAt(PRIMARY, target) && JikAt(TERNARY, r) && TypeOf(env, Bin(op, target, r)).Some?
    ensures
      var read := ReadC(Lex(Print(env, Bin(op, target, r))));
      if NestedMinus(target) || NestedMinus(r) then read.None? || PreDecs(read.value) > 0
      else read == Some(Tree(Graft(Emit(env, target), op, Emit(env, r))))
  {
    var a, s := Emit(env, target), Emit(env, r);
    JikAtLower(PRIMARY, TERNARY, target);
    EmitOwn(env, target);
    EmitOwn(env, r);
    PrintIsGlyphs(env, Bin(op, target, r));
    NestedIsDouble(env, target);
    NestedIsDouble(env, r);
    SAtLower(C_POSTFIX, CLevel(op), a);
    SpineAt(C_OR, s);
    GraftGlyphs(a, op, s);
    GraftMinus(a, op, s);
    GraftAt(C_OR, a, op, s);
    ReadsPrinted(Graft(a, op, s));
  }
}
