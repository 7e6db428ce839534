/** Where the literal and call nodes of a body stand: each has one parent, and its place
    there decides whether a pass may ever move its spec. */
module RegionPlaces {
  import opened RegionSyntax
  import opened RegionCheck
  import opened RegionAccepted

  /** The operands of a node, in order. */
  function Operands(nd: Node): seq<Expr> {
    match nd
    case ExprNode(e) => OperandsE(e)
    case StmtNode(s) => OperandsS(s)
  }

  function OperandsE(e: Expr): seq<Expr> {
    match e
    case Lit(_, _, elems) => elems
    case Call(_, _, args, _, _) => args
    case Push(vec, item) => [vec, item]
    case Pop(_, vec, _) => [vec]
    case Copy(_, of, dest) => [of] + dest
    case Part(base, _, _) => [base]
    case Lookup(base, _) => [base]
    case Slice(base) => [base]
    case Ternary(cond, thn, els, _) => [cond, thn, els]
    case _ => []
  }

  function OperandsS(s: Stmt): seq<Expr> {
    match s
    case Declare(_, e) => [e]
    case Assign(_, e) => [e]
    case Store(target, _, e) => [target, e]
    case Do(e) => [e]
    case Return(e) => [e]
    case ReturnVoid => []
    case If(cond, _, _) => [cond]
    case While(cond, _) => [cond]
    case ForIn(_, _, e, _) => [e]
  }

  /** The spec field of a node: literals and calls have one. */
  datatype Tag = NoTag | LitTag(id: nat) | CallTag(id: nat)

  function TagOf(e: Expr): Tag {
    match e
    case Lit(_, id, _) => LitTag(id)
    case Call(id, _, _, _, _) => CallTag(id)
    case Pop(id, _, _) => CallTag(id)
    case Copy(id, _, _) => CallTag(id)
    case _ => NoTag
  }

  function NodeTag(nd: Node): Tag { if nd.ExprNode? then TagOf(nd.e) else NoTag }

  /** What holds of any parse tree: every literal and call node has its own spec field ... */
  ghost predicate OwnTags(nodes: seq<Node>) {
    forall i, j :: 0 <= i < j < |nodes| && NodeTag(nodes[i]) != NoTag ==> NodeTag(nodes[i]) != NodeTag(nodes[j])
  }

  ghost predicate SameOperand(nodes: seq<Node>, a: Node, i: nat, b: Node, j: nat) {
    && a in nodes && b in nodes && i < |Operands(a)| && j < |Operands(b)|
    && TagOf(Operands(a)[i]) != NoTag && TagOf(Operands(a)[i]) == TagOf(Operands(b)[j])
  }

  /** ... and one place below one parent. */
  ghost predicate OneParent(nodes: seq<Node>) {
    forall a, b, i, j :: SameOperand(nodes, a, i, b, j) ==> a == b && i == j
  }

  lemma SameTagSameNode(nodes: seq<Node>, a: Node, b: Node)
    requires OwnTags(nodes) && a in nodes && b in nodes && NodeTag(a) != NoTag && NodeTag(a) == NodeTag(b)
    ensures a == b
  {
    var i :| 0 <= i < |nodes| && nodes[i] == a;
    var j :| 0 <= j < |nodes| && nodes[j] == b;
    if i < j {
      assert false;
    } else if j < i {
      assert false;
    }
  }

  // ----- nodes of operands -----

  lemma {:induction false} OperandIn(b: seq<Stmt>, nd: Node, c: Expr)
    requires nd in NodesB(b) && c in Operands(nd)
    ensures forall n :: n in NodesE(c) ==> n in NodesB(b)
    decreases b, 1
  {
    if nd in NodesS(b[0]) {
      OperandInS(b[0], nd, c);
    } else {
      OperandIn(b[1..], nd, c);
    }
  }

  lemma {:induction false} OperandInS(s: Stmt, nd: Node, c: Expr)
    requires nd in NodesS(s) && c in Operands(nd)
    ensures forall n :: n in NodesE(c) ==> n in NodesS(s)
    decreases s, 0
  {
    if nd != StmtNode(s) {
      match s
      case Declare(_, e) => OperandInE(e, nd, c);
      case Assign(_, e) => OperandInE(e, nd, c);
      case Store(target, _, e) => if nd in NodesE(target) { OperandInE(target, nd, c); } else { OperandInE(e, nd, c); }
      case Do(e) => OperandInE(e, nd, c);
      case Return(e) => OperandInE(e, nd, c);
      case If(cond, thn, els) =>
        if nd in NodesE(cond) { OperandInE(cond, nd, c); }
        else if nd in NodesB(thn) { OperandIn(thn, nd, c); }
        else { OperandIn(els, nd, c); }
      case While(cond, body) => if nd in NodesE(cond) { OperandInE(cond, nd, c); } else { OperandIn(body, nd, c); }
      case ForIn(_, _, e, body) => if nd in NodesE(e) { OperandInE(e, nd, c); } else { OperandIn(body, nd, c); }
      case _ =>
    }
  }

  lemma {:induction false} OperandInE(e: Expr, nd: Node, c: Expr)
    requires nd in NodesE(e) && c in Operands(nd)
    ensures forall n :: n in NodesE(c) ==> n in NodesE(e)
    decreases e, 1
  {
    if nd == ExprNode(e) {
      OperandNodes(e, c);
    } else {
      match e
      case Lit(_, _, elems) => OperandInEs(elems, nd, c);
      case Call(_, _, args, _, _) => OperandInEs(args, nd, c);
      case Push(vec, item) => if nd in NodesE(vec) { OperandInE(vec, nd, c); } else { OperandInE(item, nd, c); }
      case Pop(_, vec, _) => OperandInE(vec, nd, c);
      case Copy(_, of, dest) => if nd in NodesE(of) { OperandInE(of, nd, c); } else { OperandInEs(dest, nd, c); }
      case Part(base, _, _) => OperandInE(base, nd, c);
      case Lookup(base, _) => OperandInE(base, nd, c);
      case Slice(base) => OperandInE(base, nd, c);
      case Ternary(cond, thn, els, _) =>
        if nd in NodesE(cond) { OperandInE(cond, nd, c); }
        else if nd in NodesE(thn) { OperandInE(thn, nd, c); }
        else { OperandInE(els, nd, c); }
      case _ =>
    }
  }

  lemma OperandNodes(e: Expr, c: Expr)
    requires c in OperandsE(e)
    ensures forall n :: n in NodesE(c) ==> n in NodesE(e)
  {
    NodesOfPart(e, c);
  }

  lemma {:induction false} OperandInEs(es: seq<Expr>, nd: Node, c: Expr)
    requires nd in NodesEs(es) && c in Operands(nd)
    ensures forall n :: n in NodesE(c) ==> n in NodesEs(es)
    decreases es, 0
  {
    if nd in NodesE(es[0]) {
      OperandInE(es[0], nd, c);
    } else {
      OperandInEs(es[1..], nd, c);
    }
  }

  // ----- the places -----

  /** steady: literals no pass moves once their source is known; nested: elements of a
      literal; mate: the two literals of a ternary; handed: automatic calls that are elements
      of a literal; own: all other automatic calls. */
  datatype Places = Places(steady: iset<nat>, nested: iset<nat>, mate: imap<nat, nat>, handed: iset<nat>, own: iset<nat>)

  ghost predicate Proper(at: Places) {
    && at.steady !! at.nested
    && at.handed !! at.own
    && forall i :: i in at.mate ==> i !in at.nested && at.mate[i] in at.mate && at.mate[at.mate[i]] == i
  }

  predicate AllLits(es: seq<Expr>) {
    forall i :: 0 <= i < |es| ==> es[i].Lit?
  }

  /** Literals compared under the same-region rule: only the first of nothing but literals stays. */
  ghost predicate ArgsFit(at: Places, args: seq<Expr>) {
    forall i :: 0 <= i < |args| && args[i].Lit? ==>
      && args[i].id !in at.nested && args[i].id !in at.mate
      && if i == 0 && AllLits(args) then args[i].id in at.steady else args[i].id !in at.steady
  }

  predicate IsForeign(params: seq<Param>, i: nat) { i < |params| && params[i].isForeign }

  ghost predicate BranchFits(at: Places, branch: Expr, other: Expr) {
    branch.Lit? ==>
      && branch.id !in at.steady && branch.id !in at.nested
      && (other.Lit? ==> branch.id in at.mate && at.mate[branch.id] == other.id)
      && (!other.Lit? ==> branch.id !in at.mate)
  }

  ghost predicate Movable(at: Places, e: Expr) {
    e.Lit? ==> e.id !in at.steady && e.id !in at.nested && e.id !in at.mate
  }

  /** An operand whose spec is read where it stands. */
  ghost predicate Readable(at: Places, e: Expr) {
    (e.Lit? ==> e.id in at.steady) && (e.Call? && e.auto ==> e.id in at.own)
  }

  ghost predicate CallFits(funcs: Funcs, at: Places, e: Expr)
    requires e.Call?
  {
    var params := if e.fn in funcs then funcs[e.fn].params else [];
    && ArgsFit(at, CallArgs(funcs, e))
    && (!e.auto ==> e.id !in at.own && e.id !in at.handed)
    && (e.auto ==> e.id in at.own || e.id in at.handed)
    && forall i :: 0 <= i < |e.args| && e.args[i].Lit? && IsForeign(params, i) ==>
         e.args[i].id !in at.nested && e.args[i].id !in at.mate && e.args[i].id !in at.steady
  }

  /** The operands of a literal are nested in it, those of any other node are not. */
  ghost predicate OperandsFit(at: Places, nd: Node) {
    forall c :: c in Operands(nd) ==>
      && (c.Lit? ==> (c.id in at.nested <==> IsLit(nd)))
      && (c.Call? && c.auto ==> if IsLit(nd) then c.id in at.handed else c.id in at.own)
  }

  predicate IsLit(nd: Node) { nd.ExprNode? && nd.e.Lit? }

  ghost predicate Fits(funcs: Funcs, at: Places, nd: Node) {
    && OperandsFit(at, nd)
    && match nd
       case ExprNode(e) => ExprFits(funcs, at, e)
       case StmtNode(s) => StmtFits(at, s)
  }

  ghost predicate ExprFits(funcs: Funcs, at: Places, e: Expr) {
    match e
    case Call(_, _, _, _, _) => CallFits(funcs, at, e)
    case Push(vec, item) => ArgsFit(at, [vec, item])
    case Pop(id, vec, _) => id !in at.own && id !in at.handed && Readable(at, vec)
    case Copy(id, of, dest) => id !in at.own && id !in at.handed && forall d :: d in dest ==> Readable(at, d)
    case Part(base, _, _) => Readable(at, base)
    case Lookup(base, _) => Readable(at, base)
    case Slice(base) => Readable(at, base)
    case Ternary(_, thn, els, _) => BranchFits(at, thn, els) && BranchFits(at, els, thn)
    case _ => true
  }

  ghost predicate StmtFits(at: Places, s: Stmt) {
    match s
    case Declare(_, e) => Readable(at, e)
    case Assign(_, e) => Readable(at, e)
    case Store(target, _, e) => Readable(at, target) && Movable(at, e)
    case Return(e) => Movable(at, e)
    case ForIn(_, _, e, _) => Readable(at, e)
    case _ => true
  }

  ghost predicate AllFit(funcs: Funcs, at: Places, nds: seq<Node>) {
    forall nd {:trigger Fits(funcs, at, nd)} :: nd in nds ==> Fits(funcs, at, nd)
  }

  // ----- every parse tree has such places -----

  /** Is a literal that stands as operand i of nd there for good? */
  predicate Stays(funcs: Funcs, nd: Node, i: nat) {
    match nd
    case ExprNode(e) =>
      (match e
       case Lit(_, _, _) => false
       case Call(_, _, args, _, _) =>
         var compared := CallArgs(funcs, e);
         compared != [] && AllLits(compared) && i < |args| && args[i] == compared[0]
       case Push(vec, item) => i == 0 && AllLits([vec, item])
       case Ternary(_, _, _, _) => false
       case _ => true)
    case StmtNode(s) =>
      (match s
       case Store(_, _, _) => i == 0
       case Return(_) => false
       case _ => true)
  }

  ghost predicate LitAtPlace(nodes: seq<Node>, nd: Node, i: nat, id: nat) {
    nd in nodes && i < |Operands(nd)| && TagOf(Operands(nd)[i]) == LitTag(id)
  }

  ghost predicate CallAtPlace(nodes: seq<Node>, nd: Node, i: nat, id: nat) {
    nd in nodes && i < |Operands(nd)| && Operands(nd)[i].Call? && Operands(nd)[i].auto && Operands(nd)[i].id == id
  }

  ghost predicate IsSteady(funcs: Funcs, nodes: seq<Node>, id: nat) {
    exists nd, i :: LitAtPlace(nodes, nd, i, id) && Stays(funcs, nd, i)
  }

  ghost predicate IsNested(nodes: seq<Node>, id: nat) {
    exists nd, i :: LitAtPlace(nodes, nd, i, id) && IsLit(nd)
  }

  ghost predicate IsHanded(nodes: seq<Node>, id: nat) {
    exists nd, i :: CallAtPlace(nodes, nd, i, id) && IsLit(nd)
  }

  ghost predicate IsAuto(nodes: seq<Node>, id: nat) {
    exists nd :: nd in nodes && nd.ExprNode? && nd.e.Call? && nd.e.auto && nd.e.id == id
  }

  predicate IsPair(nd: Node, id: nat, other: nat) {
    && nd.ExprNode? && nd.e.Ternary? && nd.e.thn.Lit? && nd.e.els.Lit?
    && ((nd.e.thn.id == id && nd.e.els.id == other) || (nd.e.els.id == id && nd.e.thn.id == other))
  }

  ghost predicate ArePair(nodes: seq<Node>, id: nat, other: nat) {
    exists nd :: nd in nodes && IsPair(nd, id, other)
  }

  ghost predicate HasMate(nodes: seq<Node>, id: nat) {
    exists other :: ArePair(nodes, id, other)
  }

  ghost function MateOf(nodes: seq<Node>, id: nat): nat
    requires HasMate(nodes, id)
  {
    var other :| ArePair(nodes, id, other);
    other
  }

  ghost function PlacesOf(funcs: Funcs, nodes: seq<Node>): Places {
    Places(
      iset id | IsSteady(funcs, nodes, id),
      iset id | IsNested(nodes, id),
      imap id | HasMate(nodes, id) :: MateOf(nodes, id),
      iset id | IsHanded(nodes, id),
      iset id | IsAuto(nodes, id) && !IsHanded(nodes, id))
  }

  /** The place of a literal is determined by its id. */
  lemma LitPlaceUnique(nodes: seq<Node>, a: Node, i: nat, b: Node, j: nat, id: nat)
    requires OneParent(nodes) && LitAtPlace(nodes, a, i, id) && LitAtPlace(nodes, b, j, id)
    ensures a == b && i == j
  {
    assert SameOperand(nodes, a, i, b, j);
  }

  lemma CallPlaceUnique(nodes: seq<Node>, a: Node, i: nat, b: Node, j: nat, id: nat)
    requires OneParent(nodes) && CallAtPlace(nodes, a, i, id) && CallAtPlace(nodes, b, j, id)
    ensures a == b && i == j
  {
    assert SameOperand(nodes, a, i, b, j);
  }

  lemma PairPlace(nodes: seq<Node>, nd: Node, id: nat, other: nat) returns (i: nat, j: nat)
    requires nd in nodes && IsPair(nd, id, other)
    ensures LitAtPlace(nodes, nd, i, id) && LitAtPlace(nodes, nd, j, other) && i + j == 3 && 1 <= i <= 2
  {
    i := if nd.e.thn.id == id && nd.e.els.id == other then 1 else 2;
    j := 3 - i;
    assert Operands(nd) == [nd.e.cond, nd.e.thn, nd.e.els];
  }

  lemma MateUnique(nodes: seq<Node>, id: nat, a: nat, b: nat)
    requires OneParent(nodes) && ArePair(nodes, id, a) && ArePair(nodes, id, b)
    ensures a == b
  {
    var m :| m in nodes && IsPair(m, id, a);
    var n :| n in nodes && IsPair(n, id, b);
    var i, i' := PairPlace(nodes, m, id, a);
    var j, j' := PairPlace(nodes, n, id, b);
    LitPlaceUnique(nodes, m, i, n, j, id);
  }

  /** A literal operand has the colours of its place and no others. */
  lemma LitColours(funcs: Funcs, nodes: seq<Node>, nd: Node, i: nat, id: nat)
    requires OneParent(nodes) && LitAtPlace(nodes, nd, i, id)
    ensures IsSteady(funcs, nodes, id) <==> Stays(funcs, nd, i)
    ensures IsNested(nodes, id) <==> IsLit(nd)
    ensures HasMate(nodes, id) ==> nd.ExprNode? && nd.e.Ternary? && nd.e.thn.Lit? && nd.e.els.Lit? && i > 0
  {
    if IsSteady(funcs, nodes, id) {
      var b, j :| LitAtPlace(nodes, b, j, id) && Stays(funcs, b, j);
      LitPlaceUnique(nodes, nd, i, b, j, id);
    }
    if IsNested(nodes, id) {
      var b, j :| LitAtPlace(nodes, b, j, id) && IsLit(b);
      LitPlaceUnique(nodes, nd, i, b, j, id);
    }
    if HasMate(nodes, id) {
      var other :| ArePair(nodes, id, other);
      var b :| b in nodes && IsPair(b, id, other);
      var j, j' := PairPlace(nodes, b, id, other);
      LitPlaceUnique(nodes, nd, i, b, j, id);
    }
  }

  lemma PlacesProper(funcs: Funcs, nodes: seq<Node>)
    requires OneParent(nodes)
    ensures Proper(PlacesOf(funcs, nodes))
  {
    var at := PlacesOf(funcs, nodes);
    forall id | id in at.steady
      ensures id !in at.nested
    {
      var a, i :| LitAtPlace(nodes, a, i, id) && Stays(funcs, a, i);
      LitColours(funcs, nodes, a, i, id);
    }
    forall id | id in at.mate
      ensures id !in at.nested && at.mate[id] in at.mate && at.mate[at.mate[id]] == id
    {
      var other := at.mate[id];
      var m :| m in nodes && IsPair(m, id, other);
      assert IsPair(m, other, id);
      assert ArePair(nodes, other, id);
      MateUnique(nodes, other, id, MateOf(nodes, other));
      var i, k := PairPlace(nodes, m, id, other);
      LitColours(funcs, nodes, m, i, id);
    }
  }

  /** Automatic calls that are not elements of a literal are coloured `own`. */
  lemma AutoColours(funcs: Funcs, b: seq<Stmt>, nd: Node, i: nat)
    requires OneParent(NodesB(b)) && nd in NodesB(b) && i < |Operands(nd)| && Operands(nd)[i].Call? && Operands(nd)[i].auto
    ensures
      var at, id := PlacesOf(funcs, NodesB(b)), Operands(nd)[i].id;
      if IsLit(nd) then id in at.handed else id in at.own
  {
    var c := Operands(nd)[i];
    assert c in Operands(nd);
    OperandIn(b, nd, c);
    assert CallAtPlace(NodesB(b), nd, i, c.id);
    assert ExprNode(c) in NodesE(c);
    if IsHanded(NodesB(b), c.id) {
      var m, j :| CallAtPlace(NodesB(b), m, j, c.id) && IsLit(m);
      CallPlaceUnique(NodesB(b), nd, i, m, j, c.id);
    }
  }

  lemma HandedIsAuto(b: seq<Stmt>, id: nat)
    requires IsHanded(NodesB(b), id)
    ensures IsAuto(NodesB(b), id)
  {
    var m, j: nat :| CallAtPlace(NodesB(b), m, j, id) && IsLit(m);
    var c := Operands(m)[j];
    assert c in Operands(m);
    OperandIn(b, m, c);
    assert ExprNode(c) in NodesE(c);
  }

  /** Nodes with a call field that are not automatic calls have no automatic colour. */
  lemma NotAutomatic(funcs: Funcs, b: seq<Stmt>, nd: Node, id: nat)
    requires OwnTags(NodesB(b)) && nd in NodesB(b) && NodeTag(nd) == CallTag(id) && !(nd.e.Call? && nd.e.auto)
    ensures var at := PlacesOf(funcs, NodesB(b)); id !in at.own && id !in at.handed
  {
    var nodes := NodesB(b);
    if IsHanded(nodes, id) {
      HandedIsAuto(b, id);
    }
    if IsAuto(nodes, id) {
      var m :| m in nodes && m.ExprNode? && m.e.Call? && m.e.auto && m.e.id == id;
      SameTagSameNode(nodes, nd, m);
    }
  }

  // ----- arguments keep their order -----

  lemma {:induction false} AllocatedArgAt(params: seq<Param>, args: seq<Expr>, j: nat) returns (k: nat)
    requires j < |AllocatedArgs(params, args)|
    ensures k < |args| && AllocatedArgs(params, args)[j] == args[k] && !IsForeign(params, k)
  {
    var ps := if params == [] then [] else params[1..];
    if (params != [] && params[0].isForeign) || TypeOf(args[0]) == PrimTy {
      k := AllocatedArgAt(ps, args[1..], j);
      k := k + 1;
    } else if j == 0 {
      k := 0;
    } else {
      k := AllocatedArgAt(ps, args[1..], j - 1);
      k := k + 1;
    }
  }

  lemma {:induction false} AllocatedArgsInOrder(params: seq<Param>, args: seq<Expr>, j: nat) returns (k: nat, k': nat)
    requires 0 < j < |AllocatedArgs(params, args)|
    ensures k < k' < |args| && AllocatedArgs(params, args)[0] == args[k] && AllocatedArgs(params, args)[j] == args[k']
  {
    var ps := if params == [] then [] else params[1..];
    if (params != [] && params[0].isForeign) || TypeOf(args[0]) == PrimTy {
      k, k' := AllocatedArgsInOrder(ps, args[1..], j);
      k, k' := k + 1, k' + 1;
    } else {
      k' := AllocatedArgAt(ps, args[1..], j - 1);
      k, k' := 0, k' + 1;
    }
  }

  // ----- each node fits -----

  lemma ArgFits(funcs: Funcs, b: seq<Stmt>, e: Expr, j: nat)
    requires OneParent(NodesB(b)) && ExprNode(e) in NodesB(b) && e.Call?
    requires j < |CallArgs(funcs, e)| && CallArgs(funcs, e)[j].Lit?
    ensures
      var at, args := PlacesOf(funcs, NodesB(b)), CallArgs(funcs, e);
      && args[j].id !in at.nested && args[j].id !in at.mate
      && if j == 0 && AllLits(args) then args[j].id in at.steady else args[j].id !in at.steady
  {
    var nodes, args := NodesB(b), CallArgs(funcs, e);
    var params := if e.fn in funcs then funcs[e.fn].params else [];
    assert args[j] != LocalRegion;
    var k := AllocatedArgAt(params, e.args, j);
    assert LitAtPlace(nodes, ExprNode(e), k, args[j].id);
    LitColours(funcs, nodes, ExprNode(e), k, args[j].id);
    if j > 0 && Stays(funcs, ExprNode(e), k) {
      var k0, k1 := AllocatedArgsInOrder(params, e.args, j);
      assert LitAtPlace(nodes, ExprNode(e), k0, args[j].id);
      assert LitAtPlace(nodes, ExprNode(e), k1, args[j].id);
      LitPlaceUnique(nodes, ExprNode(e), k0, ExprNode(e), k1, args[j].id);
    }
  }

  lemma ForeignArgFits(funcs: Funcs, b: seq<Stmt>, e: Expr, i: nat)
    requires OneParent(NodesB(b)) && ExprNode(e) in NodesB(b) && e.Call?
    requires i < |e.args| && e.args[i].Lit? && IsForeign(if e.fn in funcs then funcs[e.fn].params else [], i)
    ensures
      var at := PlacesOf(funcs, NodesB(b));
      e.args[i].id !in at.nested && e.args[i].id !in at.mate && e.args[i].id !in at.steady
  {
    var nodes, args := NodesB(b), CallArgs(funcs, e);
    var params := if e.fn in funcs then funcs[e.fn].params else [];
    assert LitAtPlace(nodes, ExprNode(e), i, e.args[i].id);
    LitColours(funcs, nodes, ExprNode(e), i, e.args[i].id);
    if Stays(funcs, ExprNode(e), i) {
      var k := AllocatedArgAt(params, e.args, 0);
      assert LitAtPlace(nodes, ExprNode(e), k, e.args[i].id);
      LitPlaceUnique(nodes, ExprNode(e), i, ExprNode(e), k, e.args[i].id);
    }
  }

  lemma CallNodeFits(funcs: Funcs, b: seq<Stmt>, e: Expr)
    requires OwnTags(NodesB(b)) && OneParent(NodesB(b)) && ExprNode(e) in NodesB(b) && e.Call?
    ensures CallFits(funcs, PlacesOf(funcs, NodesB(b)), e)
  {
    var at := PlacesOf(funcs, NodesB(b));
    var params := if e.fn in funcs then funcs[e.fn].params else [];
    var args := CallArgs(funcs, e);
    forall j | 0 <= j < |args| && args[j].Lit?
      ensures args[j].id !in at.nested && args[j].id !in at.mate
      ensures if j == 0 && AllLits(args) then args[j].id in at.steady else args[j].id !in at.steady
    {
      ArgFits(funcs, b, e, j);
    }
    forall i | 0 <= i < |e.args| && e.args[i].Lit? && IsForeign(params, i)
      ensures e.args[i].id !in at.nested && e.args[i].id !in at.mate && e.args[i].id !in at.steady
    {
      ForeignArgFits(funcs, b, e, i);
    }
    if !e.auto {
      NotAutomatic(funcs, b, ExprNode(e), e.id);
    }
  }

  /** Every literal operand of nd has the colours of its place. */
  lemma OperandsAreColoured(funcs: Funcs, nodes: seq<Node>, nd: Node)
    requires OneParent(nodes) && nd in nodes
    ensures
      var at := PlacesOf(funcs, nodes);
      forall i :: 0 <= i < |Operands(nd)| && Operands(nd)[i].Lit? ==>
        && (Operands(nd)[i].id in at.steady <==> Stays(funcs, nd, i))
        && (Operands(nd)[i].id in at.nested <==> IsLit(nd))
        && (Operands(nd)[i].id in at.mate ==> nd.ExprNode? && nd.e.Ternary? && nd.e.thn.Lit? && nd.e.els.Lit? && i > 0)
  {
    forall i | 0 <= i < |Operands(nd)| && Operands(nd)[i].Lit?
      ensures HasMate(nodes, Operands(nd)[i].id) ==> nd.ExprNode? && nd.e.Ternary? && nd.e.thn.Lit? && nd.e.els.Lit? && i > 0
      ensures IsSteady(funcs, nodes, Operands(nd)[i].id) <==> Stays(funcs, nd, i)
      ensures IsNested(nodes, Operands(nd)[i].id) <==> IsLit(nd)
    {
      assert LitAtPlace(nodes, nd, i, Operands(nd)[i].id);
      LitColours(funcs, nodes, nd, i, Operands(nd)[i].id);
    }
  }

  lemma OperandsFitThere(funcs: Funcs, b: seq<Stmt>, nd: Node)
    requires OneParent(NodesB(b)) && nd in NodesB(b)
    ensures OperandsFit(PlacesOf(funcs, NodesB(b)), nd)
  {
    OperandsAreColoured(funcs, NodesB(b), nd);
    forall c | c in Operands(nd)
      ensures c.Lit? ==> (IsNested(NodesB(b), c.id) <==> IsLit(nd))
      ensures
        var at := PlacesOf(funcs, NodesB(b));
        c.Call? && c.auto ==> if IsLit(nd) then c.id in at.handed else c.id in at.own
    {
      var i :| 0 <= i < |Operands(nd)| && Operands(nd)[i] == c;
      if c.Call? && c.auto {
        AutoColours(funcs, b, nd, i);
      }
    }
  }

  lemma TernaryFits(funcs: Funcs, b: seq<Stmt>, e: Expr)
    requires OneParent(NodesB(b)) && ExprNode(e) in NodesB(b) && e.Ternary?
    ensures var at := PlacesOf(funcs, NodesB(b)); BranchFits(at, e.thn, e.els) && BranchFits(at, e.els, e.thn)
  {
    var nodes, nd := NodesB(b), ExprNode(e);
    OperandsAreColoured(funcs, nodes, nd);
    assert Operands(nd)[1] == e.thn && Operands(nd)[2] == e.els;
    if e.thn.Lit? && e.els.Lit? {
      assert IsPair(nd, e.thn.id, e.els.id) && IsPair(nd, e.els.id, e.thn.id);
      assert ArePair(nodes, e.thn.id, e.els.id) && ArePair(nodes, e.els.id, e.thn.id);
      MateUnique(nodes, e.thn.id, e.els.id, MateOf(nodes, e.thn.id));
      MateUnique(nodes, e.els.id, e.thn.id, MateOf(nodes, e.els.id));
    }
  }

  lemma ExprFitsThere(funcs: Funcs, b: seq<Stmt>, e: Expr)
    requires OwnTags(NodesB(b)) && OneParent(NodesB(b)) && ExprNode(e) in NodesB(b)
    ensures ExprFits(funcs, PlacesOf(funcs, NodesB(b)), e)
  {
    var nd := ExprNode(e);
    match e
    case Call(_, _, _, _, _) => CallNodeFits(funcs, b, e);
    case Ternary(_, _, _, _) => TernaryFits(funcs, b, e);
    case Copy(_, _, _) => CopyFits(funcs, b, e);
    case Pop(id, _, _) =>
      NotAutomatic(funcs, b, nd, id);
      OperandReadable(funcs, b, nd, 0);
    case Push(vec, item) =>
      OperandsAreColoured(funcs, NodesB(b), nd);
      assert Operands(nd)[0] == vec && Operands(nd)[1] == item;
    case Part(_, _, _) => OperandReadable(funcs, b, nd, 0);
    case Lookup(_, _) => OperandReadable(funcs, b, nd, 0);
    case Slice(_) => OperandReadable(funcs, b, nd, 0);
    case _ =>
  }

  lemma OperandReadable(funcs: Funcs, b: seq<Stmt>, nd: Node, i: nat)
    requires OneParent(NodesB(b)) && nd in NodesB(b) && i < |Operands(nd)| && !IsLit(nd) && Stays(funcs, nd, i)
    ensures Readable(PlacesOf(funcs, NodesB(b)), Operands(nd)[i])
  {
    OperandsFitThere(funcs, b, nd);
    OperandsAreColoured(funcs, NodesB(b), nd);
    assert Operands(nd)[i] in Operands(nd);
  }

  lemma CopyFits(funcs: Funcs, b: seq<Stmt>, e: Expr)
    requires OwnTags(NodesB(b)) && OneParent(NodesB(b)) && ExprNode(e) in NodesB(b) && e.Copy?
    ensures ExprFits(funcs, PlacesOf(funcs, NodesB(b)), e)
  {
    var nd := ExprNode(e);
    NotAutomatic(funcs, b, nd, e.id);
    forall d | d in e.dest
      ensures Readable(PlacesOf(funcs, NodesB(b)), d)
    {
      DestReadable(funcs, b, e, d);
    }
  }

  lemma DestReadable(funcs: Funcs, b: seq<Stmt>, e: Expr, d: Expr)
    requires OneParent(NodesB(b)) && ExprNode(e) in NodesB(b) && e.Copy? && d in e.dest
    ensures Readable(PlacesOf(funcs, NodesB(b)), d)
  {
    var i :| 0 <= i < |e.dest| && e.dest[i] == d;
    assert Operands(ExprNode(e))[i + 1] == d;
    OperandReadable(funcs, b, ExprNode(e), i + 1);
  }

  lemma OperandMovable(funcs: Funcs, b: seq<Stmt>, nd: Node, i: nat)
    requires OneParent(NodesB(b)) && nd in NodesB(b) && nd.StmtNode? && i < |Operands(nd)| && !Stays(funcs, nd, i)
    ensures Movable(PlacesOf(funcs, NodesB(b)), Operands(nd)[i])
  {
    OperandsAreColoured(funcs, NodesB(b), nd);
  }

  lemma StmtFitsThere(funcs: Funcs, b: seq<Stmt>, s: Stmt)
    requires OneParent(NodesB(b)) && StmtNode(s) in NodesB(b)
    ensures StmtFits(PlacesOf(funcs, NodesB(b)), s)
  {
    var nd := StmtNode(s);
    match s
    case Declare(_, _) => OperandReadable(funcs, b, nd, 0);
    case Assign(_, _) => OperandReadable(funcs, b, nd, 0);
    case Store(_, _, _) =>
      OperandReadable(funcs, b, nd, 0);
      OperandMovable(funcs, b, nd, 1);
    case Return(_) => OperandMovable(funcs, b, nd, 0);
    case ForIn(_, _, _, _) => OperandReadable(funcs, b, nd, 0);
    case _ =>
  }

  /** In a parse tree every literal and call stands at a place of one kind. */
  lemma PlacesFit(funcs: Funcs, b: seq<Stmt>)
    requires OwnTags(NodesB(b)) && OneParent(NodesB(b))
    ensures Proper(PlacesOf(funcs, NodesB(b))) && AllFit(funcs, PlacesOf(funcs, NodesB(b)), NodesB(b))
  {
    PlacesProper(funcs, NodesB(b));
    forall nd | nd in NodesB(b)
      ensures Fits(funcs, PlacesOf(funcs, NodesB(b)), nd)
    {
      OperandsFitThere(funcs, b, nd);
      match nd
      case ExprNode(e) => ExprFitsThere(funcs, b, e);
      case StmtNode(s) => StmtFitsThere(funcs, b, s);
    }
  }
}
