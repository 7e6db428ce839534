/** Match statements: the exhaustiveness check and the chain of ifs they become. */
module MatchLowering {
  import opened Collections
  import opened Results
  import opened EnumTables

  type Arm = string

  /** Cases name a tag each; `other` takes the rest. */
  datatype Match = Match(cases: seq<(string, Arm)>, other: Option<Arm>)

  function Tags(m: Match): (r: seq<string>)
    ensures |r| == |m.cases| && forall i :: 0 <= i < |r| ==> r[i] == m.cases[i].0
  {
    seq(|m.cases|, i requires 0 <= i < |m.cases| => m.cases[i].0)
  }

  /** Cases name different known tags, and without `other` all of them. */
  predicate Exhaustive(members: seq<string>, m: Match) {
    && m.cases != [] && Distinct(Tags(m))
    && (forall i :: 0 <= i < |m.cases| ==> m.cases[i].0 in members)
    && (m.other.None? ==> forall i :: 0 <= i < |members| ==> members[i] in Tags(m))
  }

  /** The match part of the type checker. */
  method Check(members: seq<string>, m: Match) returns (r: Result<()>)
    ensures r.Ok? <==> Exhaustive(members, m)
  {
    if m.cases == [] {
      return Err("no cases provided");
    }
    var seen: set<string> := {};
    for i := 0 to |m.cases|
      invariant forall x :: x in seen <==> exists k :: 0 <= k < i && Tags(m)[k] == x
      invariant forall a, b :: 0 <= a < b < i ==> Tags(m)[a] != Tags(m)[b]
      invariant forall k :: 0 <= k < i ==> m.cases[k].0 in members
    {
      var tag := m.cases[i].0;
      assert Tags(m)[i] == tag;
      if tag !in members {
        return Err("unknown tag");
      }
      if tag in seen {
        return Err("duplicate case");
      }
      seen := seen + {tag};
    }
    if m.other.None? {
      for i := 0 to |members|
        invariant forall k :: 0 <= k < i ==> members[k] in Tags(m)
      {
        if members[i] !in seen {
          return Err("match does not exhaust");
        }
      }
    }
    r := Ok(());
  }

  /** `if (tag == value) { arm } else ...`; the arms are opaque blocks. */
  datatype Chain = If(value: nat, arm: Arm, rest: Chain) | Else(arm: Arm) | End

  /** `jik_codegen_emit_stmnt_match`: one test per case, in order, then `other`. */
  function Lower(members: seq<string>, cases: seq<(string, Arm)>, other: Option<Arm>): Chain
    requires forall i :: 0 <= i < |cases| ==> cases[i].0 in members
  {
    if cases == [] then if other.Some? then Else(other.value) else End
    else If(ValueOf(members, cases[0].0), cases[0].1, Lower(members, cases[1..], other))
  }

  /** The arms that run for a tag value, in order. */
  function Run(c: Chain, tag: nat): seq<Arm> {
    match c
    case If(value, arm, rest) => if tag == value then [arm] else Run(rest, tag)
    case Else(arm) => [arm]
    case End => []
  }

  lemma {:induction false} RunUnnamed(members: seq<string>, cases: seq<(string, Arm)>, other: Option<Arm>, tag: string)
    requires tag in members && forall i :: 0 <= i < |cases| ==> cases[i].0 in members && cases[i].0 != tag
    ensures Run(Lower(members, cases, other), ValueOf(members, tag)) == if other.Some? then [other.value] else []
  {
    if cases != [] {
      RunUnnamed(members, cases[1..], other, tag);
    }
  }

  lemma {:induction false} RunNamed(members: seq<string>, cases: seq<(string, Arm)>, other: Option<Arm>, k: nat)
    requires k < |cases| && forall i :: 0 <= i < |cases| ==> cases[i].0 in members
    requires forall i :: 0 <= i < k ==> cases[i].0 != cases[k].0
    ensures Run(Lower(members, cases, other), ValueOf(members, cases[k].0)) == [cases[k].1]
  {
    if k > 0 {
      RunNamed(members, cases[1..], other, k - 1);
    }
  }

  /** An accepted match runs exactly one arm for every tag: the one whose case names it, or
      `other` when none does. */
  lemma ExactlyOneArm(members: seq<string>, m: Match, tag: string)
    requires Exhaustive(members, m) && tag in members
    ensures
      var arms := Run(Lower(members, m.cases, m.other), ValueOf(members, tag));
      && |arms| == 1
      && (forall k :: 0 <= k < |m.cases| && m.cases[k].0 == tag ==> arms[0] == m.cases[k].1)
      && (tag !in Tags(m) ==> m.other == Some(arms[0]))
  {
    if tag in Tags(m) {
      var k :| 0 <= k < |m.cases| && Tags(m)[k] == tag;
      assert forall i :: 0 <= i < |m.cases| && i != k ==> Tags(m)[i] != Tags(m)[k];
      RunNamed(members, m.cases, m.other, k);
    } else {
      assert forall i :: 0 <= i < |m.cases| ==> Tags(m)[i] != tag;
      RunUnnamed(members, m.cases, m.other, tag);
    }
  }
}
