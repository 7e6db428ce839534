/** Types as a graph: structs and variants are shared objects that may refer back to
    themselves, every other type is a tree over them. */
module TypeGraph {
  import opened Results

  datatype Type =
    | NoType
    | Unknown
    | Primitive(name: string)
    | Func(ret: Type, variadic: bool, params: seq<Type>)
    | Vec(elem: Type)
    | Dict(elem: Type)
    | OptionType(elem: Type)
    | Composite(node: Node)

  /** A struct or variant; `members` is NULL until its fields have been inferred. */
  class Node {
    var members: Option<seq<Type>>
    var visiting: bool

    constructor ()
      ensures members == None && !visiting
    {
      members, visiting := None, false;
    }
  }

  type Graph = map<Node, Option<seq<Type>>>

  /** The members of every node, apart from the flags. */
  ghost function Shape(nodes: set<Node>): Graph
    reads nodes
  {
    map c | c in nodes :: c.members
  }

  ghost function Flagged(nodes: set<Node>): set<Node>
    reads nodes
  {
    set c | c in nodes && c.visiting
  }

  predicate Within(t: Type, nodes: set<Node>) {
    match t
    case Func(ret, variadic, params) => Within(ret, nodes) && (variadic || forall i :: 0 <= i < |params| ==> Within(params[i], nodes))
    case Vec(e) => Within(e, nodes)
    case Dict(e) => Within(e, nodes)
    case OptionType(e) => Within(e, nodes)
    case Composite(c) => c in nodes
    case _ => true
  }

  ghost predicate Closed(m: Graph) {
    forall c :: c in m && m[c].Some? ==> forall i :: 0 <= i < |m[c].value| ==> Within(m[c].value[i], m.Keys)
  }

  /** Within n composites, a chain of members that avoids `avoid` leads from t to an unknown
      type or to a composite whose members are not inferred. */
  ghost predicate UnfinishedIn(m: Graph, avoid: set<Node>, t: Type, n: nat)
    decreases n, t
  {
    match t
    case Unknown => true
    case Func(ret, variadic, params) =>
      UnfinishedIn(m, avoid, ret, n) || (!variadic && exists i :: 0 <= i < |params| && UnfinishedIn(m, avoid, params[i], n))
    case Vec(e) => UnfinishedIn(m, avoid, e, n)
    case Dict(e) => UnfinishedIn(m, avoid, e, n)
    case OptionType(e) => UnfinishedIn(m, avoid, e, n)
    case Composite(c) =>
      c in m && c !in avoid &&
      (m[c].None? || (n > 0 && exists i :: 0 <= i < |m[c].value| && UnfinishedIn(m, avoid, m[c].value[i], n - 1)))
    case _ => false
  }

  ghost predicate Unfinished(m: Graph, avoid: set<Node>, t: Type) {
    exists n: nat :: UnfinishedIn(m, avoid, t, n)
  }

  lemma {:induction false} AvoidLess(m: Graph, avoid: set<Node>, c: Node, t: Type, n: nat)
    requires UnfinishedIn(m, avoid + {c}, t, n)
    ensures UnfinishedIn(m, avoid, t, n)
    decreases n, t
  {
    match t
    case Func(ret, variadic, params) =>
      if UnfinishedIn(m, avoid + {c}, ret, n) {
        AvoidLess(m, avoid, c, ret, n);
      } else {
        var i :| 0 <= i < |params| && UnfinishedIn(m, avoid + {c}, params[i], n);
        AvoidLess(m, avoid, c, params[i], n);
      }
    case Vec(e) => AvoidLess(m, avoid, c, e, n);
    case Dict(e) => AvoidLess(m, avoid, c, e, n);
    case OptionType(e) => AvoidLess(m, avoid, c, e, n);
    case Composite(x) =>
      if m[x].Some? {
        var i :| 0 <= i < |m[x].value| && UnfinishedIn(m, avoid + {c}, m[x].value[i], n - 1);
        AvoidLess(m, avoid, c, m[x].value[i], n - 1);
      }
    case _ =>
  }

  /** A chain either avoids c as well, or its last part starts at c. */
  lemma {:induction false} Cut(m: Graph, avoid: set<Node>, c: Node, t: Type, n: nat)
    requires UnfinishedIn(m, avoid, t, n)
    ensures UnfinishedIn(m, avoid + {c}, t, n) || exists k: nat :: k <= n && UnfinishedIn(m, avoid, Composite(c), k)
    decreases n, t
  {
    match t
    case Func(ret, variadic, params) =>
      if UnfinishedIn(m, avoid, ret, n) {
        Cut(m, avoid, c, ret, n);
      } else {
        var i :| 0 <= i < |params| && UnfinishedIn(m, avoid, params[i], n);
        Cut(m, avoid, c, params[i], n);
      }
    case Vec(e) => Cut(m, avoid, c, e, n);
    case Dict(e) => Cut(m, avoid, c, e, n);
    case OptionType(e) => Cut(m, avoid, c, e, n);
    case Composite(x) =>
      if x != c && m[x].Some? {
        var i :| 0 <= i < |m[x].value| && UnfinishedIn(m, avoid, m[x].value[i], n - 1);
        Cut(m, avoid, c, m[x].value[i], n - 1);
        if !UnfinishedIn(m, avoid + {c}, m[x].value[i], n - 1) {
          var k: nat :| k <= n - 1 && UnfinishedIn(m, avoid, Composite(c), k);
          assert k <= n;
        }
      } else if x == c {
        assert n <= n && UnfinishedIn(m, avoid, Composite(c), n);
      }
    case _ =>
  }

  /** From a composite, some member leads on without coming back to it. */
  lemma {:induction false} WithoutReturning(m: Graph, avoid: set<Node>, c: Node, n: nat)
    requires UnfinishedIn(m, avoid, Composite(c), n) && m[c].Some?
    ensures exists i :: 0 <= i < |m[c].value| && Unfinished(m, avoid + {c}, m[c].value[i])
    decreases n
  {
    var i :| 0 <= i < |m[c].value| && UnfinishedIn(m, avoid, m[c].value[i], n - 1);
    Cut(m, avoid, c, m[c].value[i], n - 1);
    if UnfinishedIn(m, avoid + {c}, m[c].value[i], n - 1) {
      assert Unfinished(m, avoid + {c}, m[c].value[i]);
    } else {
      var k: nat :| k <= n - 1 && UnfinishedIn(m, avoid, Composite(c), k);
      WithoutReturning(m, avoid, c, k);
    }
  }

  /** Setting the flag of a filled composite before looking at its members loses nothing. */
  lemma FlagIsEnough(m: Graph, avoid: set<Node>, c: Node)
    requires c in m && c !in avoid && m[c].Some?
    ensures Unfinished(m, avoid, Composite(c)) <==>
      exists i :: 0 <= i < |m[c].value| && Unfinished(m, avoid + {c}, m[c].value[i])
  {
    if Unfinished(m, avoid, Composite(c)) {
      var n: nat :| UnfinishedIn(m, avoid, Composite(c), n);
      WithoutReturning(m, avoid, c, n);
    }
    if exists i :: 0 <= i < |m[c].value| && Unfinished(m, avoid + {c}, m[c].value[i]) {
      var i :| 0 <= i < |m[c].value| && Unfinished(m, avoid + {c}, m[c].value[i]);
      var n: nat :| UnfinishedIn(m, avoid + {c}, m[c].value[i], n);
      AvoidLess(m, avoid, c, m[c].value[i], n);
      assert UnfinishedIn(m, avoid, Composite(c), n + 1);
    }
  }

  /** A function type is unfinished when its result or some parameter is. */
  lemma FuncParts(m: Graph, avoid: set<Node>, t: Type)
    requires t.Func?
    ensures Unfinished(m, avoid, t) <==>
      Unfinished(m, avoid, t.ret) ||
      (!t.variadic && exists i :: 0 <= i < |t.params| && Unfinished(m, avoid, t.params[i]))
  {
    if Unfinished(m, avoid, t.ret) {
      var n: nat :| UnfinishedIn(m, avoid, t.ret, n);
      assert UnfinishedIn(m, avoid, t, n);
    }
    if Unfinished(m, avoid, t) {
      var n: nat :| UnfinishedIn(m, avoid, t, n);
      if !UnfinishedIn(m, avoid, t.ret, n) {
        var i :| 0 <= i < |t.params| && UnfinishedIn(m, avoid, t.params[i], n);
        assert Unfinished(m, avoid, t.params[i]);
      }
    }
    if !t.variadic && exists i :: 0 <= i < |t.params| && Unfinished(m, avoid, t.params[i]) {
      var i :| 0 <= i < |t.params| && Unfinished(m, avoid, t.params[i]);
      var n: nat :| UnfinishedIn(m, avoid, t.params[i], n);
      assert UnfinishedIn(m, avoid, t, n);
    }
  }

  lemma ElemPart(m: Graph, avoid: set<Node>, t: Type)
    requires t.Vec? || t.Dict? || t.OptionType?
    ensures Unfinished(m, avoid, t) <==> Unfinished(m, avoid, t.elem)
  {
    if Unfinished(m, avoid, t.elem) {
      var n: nat :| UnfinishedIn(m, avoid, t.elem, n);
      assert UnfinishedIn(m, avoid, t, n);
    }
    if Unfinished(m, avoid, t) {
      var n: nat :| UnfinishedIn(m, avoid, t, n);
      assert UnfinishedIn(m, avoid, t.elem, n);
    }
  }

  /** `jik_type_is_inferred`: false exactly when something unfinished can be reached without
      passing a flagged composite; every flag is left as it was found. */
  method IsInferred(t: Type, ghost nodes: set<Node>) returns (r: bool)
    requires Within(t, nodes) && Closed(Shape(nodes))
    requires forall c :: c in Flagged(nodes) ==> c.members.Some?
    modifies nodes`visiting
    ensures r <==> !Unfinished(Shape(nodes), old(Flagged(nodes)), t)
    ensures Shape(nodes) == old(Shape(nodes)) && forall c :: c in nodes ==> c.visiting == old(c.visiting)
    decreases nodes - Flagged(nodes), 1, t
  {
    ghost var m, avoid := Shape(nodes), Flagged(nodes);
    match t
    case NoType => return true;
    case Unknown =>
      assert UnfinishedIn(m, avoid, t, 0);
      return false;
    case Primitive(_) => return true;
    case Vec(e) => ElemPart(m, avoid, t); r := IsInferred(e, nodes);
    case Dict(e) => ElemPart(m, avoid, t); r := IsInferred(e, nodes);
    case OptionType(e) => ElemPart(m, avoid, t); r := IsInferred(e, nodes);
    case Func(ret, variadic, params) =>
      FuncParts(m, avoid, t);
      r := IsInferred(ret, nodes);
      if !r || variadic {
        return r;
      }
      assert Flagged(nodes) == avoid;
      for i := 0 to |params|
        invariant r && Shape(nodes) == m && forall c :: c in nodes ==> c.visiting == old(c.visiting)
        invariant forall j :: 0 <= j < i ==> !Unfinished(m, avoid, params[j])
      {
        assert Flagged(nodes) == avoid;
        r := IsInferred(params[i], nodes);
        if !r {
          return false;
        }
      }
    case Composite(c) =>
      if c.members.None? {
        assert UnfinishedIn(m, avoid, t, 0);
        return false;
      }
      if c.visiting {
        assert c in avoid;
        assert forall n: nat :: !UnfinishedIn(m, avoid, t, n);
        return true;
      }
      FlagIsEnough(m, avoid, c);
      r := MembersInferred(c, nodes);
  }

  /** The flagged loop over the members of one composite. */
  method MembersInferred(c: Node, ghost nodes: set<Node>) returns (inferred: bool)
    requires c in nodes && c.members.Some? && !c.visiting && Closed(Shape(nodes))
    requires forall x :: x in Flagged(nodes) ==> x.members.Some?
    modifies nodes`visiting
    ensures inferred <==>
      forall i :: 0 <= i < |c.members.value| ==> !Unfinished(Shape(nodes), old(Flagged(nodes)) + {c}, c.members.value[i])
    ensures Shape(nodes) == old(Shape(nodes)) && forall x :: x in nodes ==> x.visiting == old(x.visiting)
    decreases nodes - Flagged(nodes), 0
  {
    ghost var m, avoid := Shape(nodes), Flagged(nodes) + {c};
    assert m.Keys == nodes;
    c.visiting := true;
    inferred := true;
    var members := c.members.value;
    for i := 0 to |members|
      invariant Shape(nodes) == m && forall x :: x in nodes ==> x.visiting == (x == c || old(x.visiting))
      invariant inferred <==> forall j :: 0 <= j < i ==> !Unfinished(m, avoid, members[j])
    {
      assert Flagged(nodes) == avoid;
      assert m.Keys == nodes && Within(m[c].value[i], m.Keys);
      var r := IsInferred(members[i], nodes);
      if !r {
        inferred := false;
      }
    }
    c.visiting := false;
    assert members == c.members.value && avoid == old(Flagged(nodes)) + {c} && m == old(Shape(nodes));
  }

  /** From a clean state: true exactly when nothing unfinished is reachable at all, and the
      state is clean again. */
  method IsInferredFromClean(t: Type, ghost nodes: set<Node>) returns (r: bool)
    requires Within(t, nodes) && Closed(Shape(nodes)) && forall c :: c in nodes ==> !c.visiting
    modifies nodes`visiting
    ensures r <==> !Unfinished(old(Shape(nodes)), {}, t)
    ensures Shape(nodes) == old(Shape(nodes))
    ensures forall c :: c in nodes ==> !c.visiting
  {
    assert Flagged(nodes) == {};
    r := IsInferred(t, nodes);
  }
}
