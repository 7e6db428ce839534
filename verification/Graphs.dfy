/** Finite directed graphs on names: reachability, cycles, and orders that respect edges. */
module Graphs {

  type Graph = map<string, set<string>>

  predicate Edge(g: Graph, a: string, b: string) {
    a in g && b in g[a]
  }

  ghost predicate ReachIn(g: Graph, a: string, b: string, n: nat)
    decreases n
  {
    if n == 0 then a == b else exists c :: Edge(g, a, c) && ReachIn(g, c, b, n - 1)
  }

  /** One or more edges lead from a to b. */
  ghost predicate Leads(g: Graph, a: string, b: string) {
    exists n: nat :: n > 0 && ReachIn(g, a, b, n)
  }

  /** Some number of edges, possibly none, lead from a to b. */
  ghost predicate Reaches(g: Graph, a: string, b: string) {
    exists n: nat :: ReachIn(g, a, b, n)
  }

  lemma ReachesStep(g: Graph, a: string, b: string, c: string)
    requires Reaches(g, a, b) && Edge(g, b, c)
    ensures Reaches(g, a, c)
  {
    var n: nat :| ReachIn(g, a, b, n);
    assert ReachIn(g, c, c, 0);
    assert ReachIn(g, b, c, 1);
    ReachTrans(g, a, b, c, n, 1);
  }

  ghost predicate Acyclic(g: Graph) {
    forall a :: !Leads(g, a, a)
  }

  lemma {:induction false} ReachTrans(g: Graph, a: string, b: string, c: string, n: nat, k: nat)
    requires ReachIn(g, a, b, n) && ReachIn(g, b, c, k)
    ensures ReachIn(g, a, c, n + k)
    decreases n
  {
    if n > 0 {
      var e :| Edge(g, a, e) && ReachIn(g, e, b, n - 1);
      ReachTrans(g, e, b, c, n - 1, k);
    }
  }

  lemma LeadsStep(g: Graph, x: string, n: string, b: string)
    requires (x == n || Leads(g, x, n)) && Edge(g, n, b)
    ensures Leads(g, x, b)
  {
    assert ReachIn(g, b, b, 0);
    assert ReachIn(g, n, b, 1);
    if x != n {
      var k: nat :| k > 0 && ReachIn(g, x, n, k);
      ReachTrans(g, x, n, b, k, 1);
      assert ReachIn(g, x, b, k + 1);
    }
  }

  lemma OutsideLeadsNowhere(g: Graph, a: string, b: string)
    requires a !in g
    ensures !Leads(g, a, b)
  {
    forall n: nat | n > 0
      ensures !ReachIn(g, a, b, n)
    {
    }
  }

  ghost predicate ClosedUnder(g: Graph, s: set<string>) {
    forall x, y :: x in s && Edge(g, x, y) ==> y in s
  }

  /** What a closed set reaches, it contains. */
  lemma {:induction false} ClosedReach(g: Graph, s: set<string>, a: string, b: string, n: nat)
    requires a in s && ClosedUnder(g, s) && ReachIn(g, a, b, n)
    ensures b in s
    decreases n
  {
    if n > 0 {
      var e :| Edge(g, a, e) && ReachIn(g, e, b, n - 1);
      ClosedReach(g, s, e, b, n - 1);
    }
  }

  /** Everything a listed name has an edge to is listed before it. */
  ghost predicate Ordered(g: Graph, order: seq<string>) {
    forall i, m :: 0 <= i < |order| && Edge(g, order[i], m) ==> m in order[..i]
  }

  lemma {:induction false} ReachesOnlyEarlier(g: Graph, order: seq<string>, i: nat, b: string, n: nat)
    requires Ordered(g, order) && i < |order| && n > 0 && ReachIn(g, order[i], b, n)
    ensures b in order[..i]
    decreases n
  {
    var c :| Edge(g, order[i], c) && ReachIn(g, c, b, n - 1);
    assert c in order[..i];
    var j :| 0 <= j < i && order[j] == c;
    if n > 1 {
      ReachesOnlyEarlier(g, order, j, b, n - 1);
      assert b in order[..j] && order[..j] <= order[..i];
    }
  }

  /** A listed name lies on no cycle. */
  lemma {:induction false} OrderedIsAcyclic(g: Graph, order: seq<string>, i: nat)
    requires Ordered(g, order) && i < |order|
    ensures !Leads(g, order[i], order[i])
    decreases i
  {
    if Leads(g, order[i], order[i]) {
      var n: nat :| n > 0 && ReachIn(g, order[i], order[i], n);
      ReachesOnlyEarlier(g, order, i, order[i], n);
      var j :| 0 <= j < i && order[j] == order[i];
      OrderedIsAcyclic(g, order, j);
      assert false;
    }
  }

  lemma OrderedAppend(g: Graph, order: seq<string>, a: string)
    requires Ordered(g, order) && forall m :: Edge(g, a, m) ==> m in order
    ensures Ordered(g, order + [a])
  {
    var longer := order + [a];
    forall i, m | 0 <= i < |longer| && Edge(g, longer[i], m)
      ensures m in longer[..i]
    {
      if i < |order| {
        assert longer[..i] == order[..i];
      } else {
        assert longer[..i] == order;
      }
    }
  }

  /** x has an edge into s. */
  ghost predicate EdgeInto(g: Graph, s: set<string>, x: string) {
    exists y :: y in s && Edge(g, x, y)
  }

  ghost predicate NoSink(g: Graph, s: set<string>) {
    forall x {:trigger EdgeInto(g, s, x)} :: x in s ==> EdgeInto(g, s, x)
  }

  ghost function Downstream(g: Graph, s: set<string>, a: string): set<string> {
    set b | b in s && Leads(g, a, b)
  }

  lemma DownstreamEdge(g: Graph, s: set<string>, a: string, x: string)
    requires EdgeInto(g, s, x) && (x == a || x in Downstream(g, s, a))
    ensures EdgeInto(g, Downstream(g, s, a), x)
  {
    var y :| y in s && Edge(g, x, y);
    if x == a {
      LeadsStep(g, a, a, y);
    } else {
      LeadsStep(g, a, x, y);
    }
    assert y in Downstream(g, s, a);
  }

  /** A nonempty finite set in which every name has an edge to another holds a cycle. */
  lemma {:induction false} NoSinkHasCycle(g: Graph, s: set<string>) returns (w: string)
    requires s != {} && NoSink(g, s)
    ensures w in s && Leads(g, w, w)
    decreases s
  {
    var a :| a in s;
    var r := Downstream(g, s, a);
    if a in r {
      return a;
    }
    assert EdgeInto(g, s, a);
    DownstreamEdge(g, s, a, a);
    DownstreamNoSink(g, s, a);
    w := NoSinkHasCycle(g, r);
  }

  lemma DownstreamNoSink(g: Graph, s: set<string>, a: string)
    requires NoSink(g, s)
    ensures NoSink(g, Downstream(g, s, a))
  {
    forall x {:trigger EdgeInto(g, Downstream(g, s, a), x)} | x in Downstream(g, s, a)
      ensures EdgeInto(g, Downstream(g, s, a), x)
    {
      assert EdgeInto(g, s, x);
      DownstreamEdge(g, s, a, x);
    }
  }
}
