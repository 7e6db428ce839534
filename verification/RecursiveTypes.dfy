/** Composite type declarations, and the check that no struct or variant contains itself
    without an Option in between. */
module RecursiveTypes {
  import opened Results
  import opened Graphs

  /** Enums, strings, numbers and extern structs are `Simple`: they contain no composite. */
  datatype TypeDesc = Simple | VecOf(elem: TypeDesc) | DictOf(elem: TypeDesc) | OptionOf(elem: TypeDesc) | Named(name: string)

  /** A variant tag without payload has no type. */
  datatype Field = Field(name: string, desc: Option<TypeDesc>)

  datatype Composite = Composite(isVariant: bool, fields: seq<Field>)

  type Decls = map<string, Composite>

  /** The composite a value of this type holds directly, outside any Option. */
  function Core(d: Decls, t: TypeDesc): Option<string> {
    match t
    case Simple => None
    case VecOf(e) => Core(d, e)
    case DictOf(e) => Core(d, e)
    case OptionOf(_) => None
    case Named(x) => if x in d then Some(x) else None
  }

  function FieldCore(d: Decls, f: Field): Option<string> {
    if f.desc.None? then None else Core(d, f.desc.value)
  }

  /** Which composites each composite holds directly. */
  function Held(d: Decls): Graph {
    map a | a in d :: set i | 0 <= i < |d[a].fields| && FieldCore(d, d[a].fields[i]).Some? :: FieldCore(d, d[a].fields[i]).value
  }

  lemma EdgeIsMember(d: Decls, a: string, b: string)
    ensures Edge(Held(d), a, b) <==> a in d && exists i :: 0 <= i < |d[a].fields| && FieldCore(d, d[a].fields[i]) == Some(b)
  {
    if a in d && exists i :: 0 <= i < |d[a].fields| && FieldCore(d, d[a].fields[i]) == Some(b) {
      var i :| 0 <= i < |d[a].fields| && FieldCore(d, d[a].fields[i]) == Some(b);
      assert FieldCore(d, d[a].fields[i]).Some?;
    }
  }

  /** The successors of x all avoid the target and were all visited. */
  ghost predicate Explored(d: Decls, visited: set<string>, x: string, target: string) {
    forall y :: Edge(Held(d), x, y) ==> y != target && y in visited
  }

  class CycleSearch {
    const d: Decls
    var visiting: set<string>

    constructor (decls: Decls)
      ensures d == decls && visiting == {}
    {
      d, visiting := decls, {};
    }

    /** `jik_type_desc_has_non_option_cycle_to`: depth-first search with one visited set.
        A positive answer is a real chain to the target; a negative one leaves behind a
        set of composites closed under holding that avoids the target. */
    method HasCycleTo(t: TypeDesc, target: string) returns (found: bool)
      modifies this
      ensures old(visiting) <= visiting
      ensures found ==> exists b, n: nat :: Core(d, t) == Some(b) && ReachIn(Held(d), b, target, n)
      ensures !found && Core(d, t).Some? ==> Core(d, t).value != target && Core(d, t).value in visiting
      ensures !found ==> forall x :: x in visiting - old(visiting) ==> Explored(d, visiting, x, target)
      decreases d.Keys - visiting, 1, t
    {
      match t
      case Simple => return false;
      case OptionOf(_) => return false;
      case VecOf(e) => found := HasCycleTo(e, target);
      case DictOf(e) => found := HasCycleTo(e, target);
      case Named(next) =>
        if next !in d {
          return false;
        }
        if next == target {
          assert ReachIn(Held(d), next, target, 0);
          return true;
        }
        if next in visiting {
          return false;
        }
        found := Expand(next, target);
    }

    /** Marks a composite and searches all its members. */
    method Expand(next: string, target: string) returns (found: bool)
      requires next in d && next !in visiting && next != target
      modifies this
      ensures old(visiting) + {next} <= visiting
      ensures found ==> exists n: nat :: ReachIn(Held(d), next, target, n)
      ensures !found ==> forall x :: x in visiting - old(visiting) ==> Explored(d, visiting, x, target)
      decreases d.Keys - visiting, 0
    {
      visiting := visiting + {next};
      var fields := d[next].fields;
      for i := 0 to |fields|
        invariant old(visiting) + {next} <= visiting
        invariant forall j :: 0 <= j < i && FieldCore(d, fields[j]).Some? ==>
                    FieldCore(d, fields[j]).value != target && FieldCore(d, fields[j]).value in visiting
        invariant forall x :: x in visiting - old(visiting) - {next} ==> Explored(d, visiting, x, target)
      {
        ghost var before := visiting;
        if fields[i].desc.Some? {
          found := HasCycleTo(fields[i].desc.value, target);
          if found {
            ghost var b, n: nat :| Core(d, fields[i].desc.value) == Some(b) && ReachIn(Held(d), b, target, n);
            assert FieldCore(d, d[next].fields[i]) == Some(b);
            assert Edge(Held(d), next, b);
            assert ReachIn(Held(d), next, target, n + 1);
            return true;
          }
        }
        assert forall x :: x in before - old(visiting) - {next} ==> Explored(d, before, x, target) ==> Explored(d, visiting, x, target);
      }
      return false;
    }

    /** One member of a composite, searched with a visited set of its own. */
    method MemberCycles(a: string, f: Field) returns (found: bool)
      requires a in d && f in d[a].fields
      modifies this
      ensures found <==> MemberReaches(d, a, f)
    {
      visiting := {a};
      if f.desc.None? {
        return false;
      }
      found := HasCycleTo(f.desc.value, a);
      if !found && FieldCore(d, f).Some? {
        var s := visiting - {a};
        forall n: nat
          ensures !ReachIn(Held(d), FieldCore(d, f).value, a, n)
        {
          if ReachIn(Held(d), FieldCore(d, f).value, a, n) {
            ClosedReach(Held(d), s, FieldCore(d, f).value, a, n);
            assert false;
          }
        }
      }
    }

    /** `jik_semantic_check_recursive_composites`: rejects exactly the declarations in
        which some composite holds itself, and names a composite and member at fault. */
    method Check(order: seq<string>) returns (r: Result<()>, culprit: Option<(string, Field)>)
      requires forall a :: a in order <==> a in d
      modifies this
      ensures r.Ok? <==> Acyclic(Held(d))
      ensures r.Err? ==>
        && culprit.Some? && culprit.value.0 in d && culprit.value.1 in d[culprit.value.0].fields
        && MemberReaches(d, culprit.value.0, culprit.value.1)
    {
      culprit := None;
      for i := 0 to |order|
        invariant forall k :: 0 <= k < i ==> !Leads(Held(d), order[k], order[k])
      {
        var a := order[i];
        var fields := d[a].fields;
        for j := 0 to |fields|
          invariant forall k :: 0 <= k < j ==> !MemberReaches(d, a, fields[k])
        {
          var found := MemberCycles(a, fields[j]);
          if found {
            FaultIsCycle(d, a, j);
            return Err("illegal recursive definition"), Some((a, fields[j]));
          }
          assert !MemberReaches(d, a, fields[j]);
        }
        NoFaultNoCycle(d, a);
      }
      forall a
        ensures !Leads(Held(d), a, a)
      {
        if a in d {
          assert a in order;
        } else {
          OutsideLeadsNowhere(Held(d), a, a);
        }
      }
      r := Ok(());
    }
  }

  ghost predicate MemberReaches(d: Decls, a: string, f: Field) {
    exists b, n: nat :: FieldCore(d, f) == Some(b) && ReachIn(Held(d), b, a, n)
  }

  lemma FaultIsCycle(d: Decls, a: string, j: nat)
    requires a in d && j < |d[a].fields| && MemberReaches(d, a, d[a].fields[j])
    ensures Leads(Held(d), a, a)
  {
    var b, n: nat :| FieldCore(d, d[a].fields[j]) == Some(b) && ReachIn(Held(d), b, a, n);
    assert Edge(Held(d), a, b);
    assert ReachIn(Held(d), a, a, n + 1);
  }

  lemma NoFaultNoCycle(d: Decls, a: string)
    requires a in d && forall k :: 0 <= k < |d[a].fields| ==> !MemberReaches(d, a, d[a].fields[k])
    ensures !Leads(Held(d), a, a)
  {
    forall n: nat | n > 0
      ensures !ReachIn(Held(d), a, a, n)
    {
      forall b | Edge(Held(d), a, b)
        ensures !ReachIn(Held(d), b, a, n - 1)
      {
        EdgeIsMember(d, a, b);
        var i :| 0 <= i < |d[a].fields| && FieldCore(d, d[a].fields[i]) == Some(b);
        assert !MemberReaches(d, a, d[a].fields[i]);
      }
    }
  }
}
