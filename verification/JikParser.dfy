/** The expression parser of `parser.c`: every method advances `pos` and rebuilds its node
    in a loop. Each computes its function of `JikGrammar`, so it reads a tree exactly when
    the tokens are the yield of one. */
module JikParser {
  import opened PrecedenceTrees
  import opened JikGrammar
  import opened Results

  class Parser {
    const toks: seq<JTok>
    var pos: nat

    constructor (toks: seq<JTok>)
      ensures this.toks == toks && pos == 0
    {
      this.toks := toks;
      this.pos := 0;
    }

    predicate At(t: JTok)
      reads this
    {
      pos < |toks| && toks[pos] == t
    }

    /** The outcome of a method that started at `start` is that of the grammar. */
    ghost predicate Follows(start: nat, k: nat, r: Result<Expr>)
      requires start <= |toks| && TERNARY <= k <= PRIMARY
      reads this
    {
      var g := if k == TERNARY then ParseExpr(toks[start..]) else ParseLevel(k, toks[start..]);
      && pos <= |toks|
      && (r.Ok? ==> start < pos && g == Some((r.value, toks[pos..])))
      && (r.Err? ==> g == None)
    }

    /** The outcome in terms of trees: a result is a tree of the level whose yield is what
        was consumed, and a tree of the level is read whenever what follows its yield does
        not extend it. */
    ghost predicate ReadsTrees(start: nat, k: nat, r: Result<Expr>)
      requires start <= |toks|
      reads this
    {
      && (r.Ok? ==> start <= pos <= |toks| && JikAt(k, r.value) && toks[start..pos] == Yield(r.value))
      && forall e, rest :: JikAt(k, e) && toks[start..] == Yield(e) + rest && Stop(k, rest) ==>
           r == Ok(e) && pos <= |toks| && toks[pos..] == rest
    }

    lemma FollowsReads(start: nat, k: nat, r: Result<Expr>)
      requires start <= |toks| && TERNARY <= k <= PRIMARY && Follows(start, k, r)
      ensures ReadsTrees(start, k, r)
    {
      hide ParseLevel, ParseExpr, Stop, JikAt;
      if k == TERNARY { ExprSound(toks[start..]); } else { LevelSound(k, toks[start..]); }
      if r.Ok? {
        assert toks[start..] == toks[start..pos] + toks[pos..];
        assert |toks[start..]| == |Yield(r.value)| + |toks[pos..]|;
      }
      forall e, rest | JikAt(k, e) && toks[start..] == Yield(e) + rest && Stop(k, rest)
        ensures r == Ok(e) && toks[pos..] == rest
      {
        if k == TERNARY { ExprExact(toks[start..], e, rest); } else { LevelExact(k, toks[start..], e, rest); }
      }
    }

    /** Binary levels share one shape: an operand, then operator and operand as long as
        the operator belongs to the level. */
    method ParseBinary(k: nat) returns (r: Result<Expr>)
      requires pos <= |toks| && (k == OR || k == AND || k == COMPARISON || k == TERM || k == FACTOR)
      modifies `pos
      ensures Follows(old(pos), k, r) && ReadsTrees(old(pos), k, r)
      decreases |toks| - pos, 2 * (10 - k)
    {
      hide ReadsTrees;
      ghost var start := pos;
      r := ParseOperand(k + 1);
      while r.Ok? && pos < |toks| && toks[pos].OpTok? && JikLevel(toks[pos].op) == k
        invariant pos <= |toks| && (r.Ok? ==> start < pos)
        invariant ParseLevel(k, toks[start..]) == if r.Ok? then Tail(k, r.value, toks[pos..]) else None
        decreases |toks| - pos, if r.Ok? then 1 else 0
      {
        r := ParseRight(k, r.value);
        if r.Err? {
          break;
        }
      }
      FollowsReads(start, k, r);
    }

    /** One turn of the loop: an operator of the level and its right operand. */
    method ParseRight(k: nat, left: Expr) returns (r: Result<Expr>)
      requires pos < |toks| && OR <= k <= FACTOR && k != IS && toks[pos].OpTok? && JikLevel(toks[pos].op) == k
      modifies `pos
      ensures pos <= |toks| && (r.Ok? ==> old(pos) < pos)
      ensures Tail(k, left, toks[old(pos)..]) == if r.Ok? then Tail(k, r.value, toks[pos..]) else None
      decreases |toks| - pos, 2 * (10 - k)
    {
      assert toks[pos..][1..] == toks[pos + 1..];
      var op := toks[pos].op;
      pos := pos + 1;
      r := ParseOperand(k + 1);
      if r.Ok? {
        r := Ok(Bin(op, left, r.value));
      }
    }

    method ParseOperand(k: nat) returns (r: Result<Expr>)
      requires pos <= |toks| && OR <= k <= UNARY
      modifies `pos
      ensures Follows(old(pos), k, r)
      decreases |toks| - pos, 2 * (10 - k) + 1
    {
      if k == IS {
        r := ParseIs();
      } else if k == UNARY {
        r := ParseUnary();
      } else {
        r := ParseBinary(k);
      }
    }

    method ParseIs() returns (r: Result<Expr>)
      requires pos <= |toks|
      modifies `pos
      ensures Follows(old(pos), IS, r) && ReadsTrees(old(pos), IS, r)
      decreases |toks| - pos, 2 * (10 - IS)
    {
      ghost var start := pos;
      r := ParseOperand(COMPARISON);
      if r.Ok? && At(IsTok) {
        if pos + 1 == |toks| {
          r := Err("parse error: unexpected token");
        } else {
          var t := toks[pos + 1];
          assert toks[pos..][1] == t && toks[pos..][2..] == toks[pos + 2..];
          if t != SomeTok && t != NoneTok && !t.Word? {
            r := Err("parse error: unexpected token");
          } else {
            pos := pos + 2;
            r := Ok(if t.Word? then IsTag(r.value, t.s) else IsOption(r.value, t == SomeTok));
          }
        }
      }
      FollowsReads(start, IS, r);
    }

    method ParseUnary() returns (r: Result<Expr>)
      requires pos <= |toks|
      modifies `pos
      ensures Follows(old(pos), UNARY, r) && ReadsTrees(old(pos), UNARY, r)
      decreases |toks| - pos, 6
    {
      ghost var start := pos;
      if At(NotTok) || At(OpTok(Sub)) {
        var isNot := At(NotTok);
        assert toks[pos..][1..] == toks[pos + 1..];
        pos := pos + 1;
        r := ParseUnary();
        if r.Ok? {
          r := Ok(if isNot then Not(r.value) else Neg(r.value));
        }
      } else {
        r := ParsePrimary();
      }
      FollowsReads(start, UNARY, r);
    }

    method ParsePrimary() returns (r: Result<Expr>)
      requires pos <= |toks|
      modifies `pos
      ensures Follows(old(pos), PRIMARY, r)
      decreases |toks| - pos, 5
    {
      ghost var start := pos;
      r := ParseAtom();
      while r.Ok? && At(Dot)
        invariant pos <= |toks| && (r.Ok? ==> start < pos)
        invariant ParseLevel(PRIMARY, toks[start..]) == if r.Ok? then Members(r.value, toks[pos..]) else None
        decreases |toks| - pos, if r.Ok? then 1 else 0
      {
        if pos + 1 == |toks| || !toks[pos + 1].Word? {
          r := Err("parse error: unexpected token");
          break;
        }
        assert toks[pos..][1] == toks[pos + 1] && toks[pos..][2..] == toks[pos + 2..];
        r := Ok(Member(r.value, toks[pos + 1].s));
        pos := pos + 2;
      }
    }

    method ParseAtom() returns (r: Result<Expr>)
      requires pos <= |toks|
      modifies `pos
      ensures pos <= |toks|
      ensures ParseAtomAt(old(pos), r)
      decreases |toks| - pos, 4
    {
      if pos < |toks| && toks[pos].Word? {
        r := ParseName();
      } else if At(Open) {
        assert toks[pos..][1..] == toks[pos + 1..];
        pos := pos + 1;
        r := ParseTernary();
        if r.Ok? {
          if !At(Close) {
            r := Err("parse error: unexpected token");
          } else {
            assert toks[pos..][1..] == toks[pos + 1..];
            pos := pos + 1;
            r := Ok(Group(r.value));
          }
        }
      } else {
        r := Err("parse error: unexpected token");
      }
    }

    ghost predicate ParseAtomAt(start: nat, r: Result<Expr>)
      requires start <= |toks| && pos <= |toks|
      reads this
    {
      && (r.Ok? ==> start < pos && JikGrammar.ParseAtom(toks[start..]) == Some((r.value, toks[pos..])))
      && (r.Err? ==> JikGrammar.ParseAtom(toks[start..]) == None)
    }

    /** A name, with arguments when a parenthesis follows. */
    method ParseName() returns (r: Result<Expr>)
      requires pos < |toks| && toks[pos].Word?
      modifies `pos
      ensures pos <= |toks|
      ensures ParseAtomAt(old(pos), r)
      decreases |toks| - pos, 3
    {
      var name := toks[pos].s;
      assert toks[pos..][1..] == toks[pos + 1..];
      pos := pos + 1;
      if !At(Open) {
        return Ok(Atom(name));
      }
      assert toks[pos - 1..][2..] == toks[pos + 1..];
      pos := pos + 1;
      var args := ParseArgs();
      if args.Err? {
        return Err(args.message);
      }
      if !At(Close) {
        return Err("parse error: unexpected token");
      }
      assert toks[pos..][1..] == toks[pos + 1..];
      pos := pos + 1;
      r := Ok(Call(name, args.value));
    }

    method ParseArgs() returns (r: Result<seq<Expr>>)
      requires pos <= |toks|
      modifies `pos
      ensures pos <= |toks|
      ensures r.Ok? ==> old(pos) <= pos && JikGrammar.ParseArgs(toks[old(pos)..]) == Some((r.value, toks[pos..]))
      ensures r.Err? ==> JikGrammar.ParseArgs(toks[old(pos)..]) == None
      decreases |toks| - pos, 30
    {
      hide ReadsTrees;
      ghost var start := pos;
      if At(Close) {
        return Ok([]);
      }
      var first := ParseTernary();
      if first.Err? {
        return Err(first.message);
      }
      var args := [first.value];
      while At(CommaTok)
        invariant start < pos <= |toks|
        invariant JikGrammar.ParseArgs(toks[start..]) == MoreArgs(args, toks[pos..])
        decreases |toks| - pos
      {
        assert toks[pos..][1..] == toks[pos + 1..];
        pos := pos + 1;
        var next := ParseTernary();
        if next.Err? {
          return Err(next.message);
        }
        args := args + [next.value];
      }
      r := Ok(args);
    }

    /** `jik_parser_parse_expr`. */
    method ParseTernary() returns (r: Result<Expr>)
      requires pos <= |toks|
      modifies `pos
      ensures Follows(old(pos), TERNARY, r) && ReadsTrees(old(pos), TERNARY, r)
      decreases |toks| - pos, 22
    {
      ghost var start := pos;
      r := ParseOperand(OR);
      if r.Ok? && At(IfTok) {
        assert toks[pos..][1..] == toks[pos + 1..];
        r := ParseBranches(r.value);
      }
      FollowsReads(start, TERNARY, r);
    }

    /** `if`, the condition, `else` and the other branch. */
    method ParseBranches(thn: Expr) returns (r: Result<Expr>)
      requires At(IfTok)
      modifies `pos
      ensures pos <= |toks| && (r.Ok? ==> old(pos) < pos)
      ensures
        var c := ParseExpr(toks[old(pos) + 1..]);
        var b := if c.Some? && Starts(c.value.1, ElseTok) then ParseExpr(c.value.1[1..]) else None;
        if r.Ok? then b.Some? && r.value == Ternary(c.value.0, thn, b.value.0) && b.value.1 == toks[pos..] else b == None
      decreases |toks| - pos, 21
    {
      pos := pos + 1;
      var cond := ParseTernary();
      if cond.Err? {
        return cond;
      }
      if !At(ElseTok) {
        return Err("parse error: unexpected token");
      }
      assert toks[pos..][1..] == toks[pos + 1..];
      pos := pos + 1;
      var els := ParseTernary();
      if els.Err? {
        return els;
      }
      r := Ok(Ternary(cond.value, thn, els.value));
    }
  }
}
