/** Default initialisers of struct fields and variant payloads: the mutual recursion of
    building an initialiser and inferring a composite, with its `inferring` flags. */
module DefaultInits {
  import opened Results
  import opened Graphs
  import opened RecursiveTypes

  datatype Init =
    | Zero
    | EmptyVec(elem: Init)
    | EmptyDict(elem: Init)
    | NoneInit
    | NewStruct(name: string)
    | NewVariant(name: string, tag: string, payload: Option<Init>)

  /** Names are resolved, members are distinct, and a variant has a first member. */
  ghost predicate WellFormed(d: Decls) {
    forall a :: a in d ==>
      && (d[a].isVariant ==> d[a].fields != [])
      && (forall i, j :: 0 <= i < j < |d[a].fields| ==> d[a].fields[i].name != d[a].fields[j].name)
      && (forall f :: f in d[a].fields && f.desc.Some? ==> Resolved(d, f.desc.value))
  }

  predicate Resolved(d: Decls, t: TypeDesc) {
    match t
    case Named(x) => x in d
    case VecOf(e) => Resolved(d, e)
    case DictOf(e) => Resolved(d, e)
    case _ => true
  }

  /** e is the default of the type t, told from the declarations alone. A variant starts as
      its first declared member, with the default of that member's type if it has one. */
  predicate IsDefault(d: Decls, t: TypeDesc, e: Init)
    decreases e
  {
    match t
    case Simple => e == Zero
    case OptionOf(_) => e == NoneInit
    case VecOf(elem) => e.EmptyVec? && IsDefault(d, elem, e.elem)
    case DictOf(elem) => e.EmptyDict? && IsDefault(d, elem, e.elem)
    case Named(n) =>
      n in d &&
      if !d[n].isVariant then e == NewStruct(n)
      else
        && e.NewVariant? && e.name == n && d[n].fields != [] && e.tag == d[n].fields[0].name
        && match d[n].fields[0].desc
           case None => e.payload == None
           case Some(u) => e.payload.Some? && IsDefault(d, u, e.payload.value)
  }

  /** A type has at most one default. */
  lemma {:induction false} DefaultIsUnique(d: Decls, t: TypeDesc, a: Init, b: Init)
    requires IsDefault(d, t, a) && IsDefault(d, t, b)
    ensures a == b
    decreases a
  {
    match t
    case VecOf(elem) => DefaultIsUnique(d, elem, a.elem, b.elem);
    case DictOf(elem) => DefaultIsUnique(d, elem, a.elem, b.elem);
    case Named(n) =>
      if d[n].isVariant && d[n].fields[0].desc.Some? {
        DefaultIsUnique(d, d[n].fields[0].desc.value, a.payload.value, b.payload.value);
      }
    case _ =>
  }

  /** Each of a composite's initialisers is the default of its member. */
  ghost predicate DefaultsOf(d: Decls, fs: seq<Field>, inits: map<string, Init>) {
    && inits.Keys <= Payloads(fs)
    && forall i :: 0 <= i < |fs| && fs[i].desc.Some? && fs[i].name in inits ==> IsDefault(d, fs[i].desc.value, inits[fs[i].name])
  }

  /** The members of a composite that need an initialiser. */
  function Payloads(fs: seq<Field>): set<string> {
    set i | 0 <= i < |fs| && fs[i].desc.Some? :: fs[i].name
  }

  class Inference {
    const d: Decls
    var inferring: set<string>
    var inits: map<string, map<string, Init>>
    // `finished` lists composites in the order their inference ended; `reentered`
    // records that inference met a composite whose inference had not ended.
    ghost var finished: seq<string>
    ghost var reentered: bool

    ghost predicate Valid()
      reads this
    {
      && WellFormed(d) && inits.Keys == d.Keys && inferring <= d.Keys
      && (!reentered ==>
            && Ordered(Held(d), finished)
            && (forall n :: n in finished ==> n in d && Payloads(d[n].fields) <= inits[n].Keys)
            && (forall n :: n in d && inits[n] != map[] ==> n in finished || n in inferring)
            && (forall n :: n in d ==> DefaultsOf(d, d[n].fields, inits[n])))
    }

    /** What every step keeps. */
    twostate predicate Grows()
      reads this
    {
      && inferring == old(inferring) && inits.Keys == old(inits.Keys)
      && (old(reentered) ==> reentered)
      && old(finished) <= finished
      && (!reentered ==>
            && (forall n :: n in finished && n !in old(finished) ==> n !in inferring)
            && (forall n :: n in inferring && n in inits ==> inits[n] == old(inits)[n]))
    }

    constructor (decls: Decls)
      requires WellFormed(decls)
      ensures Valid() && d == decls && inferring == {} && finished == [] && !reentered
    {
      d, inferring, inits := decls, {}, map n | n in decls :: map[];
      finished, reentered := [], false;
    }

    /** `jik_get_default_initializer_for_type_desc`. */
    method Default(t: TypeDesc) returns (e: Init)
      requires Valid() && Resolved(d, t)
      modifies this
      ensures Valid() && Grows()
      ensures !reentered ==> IsDefault(d, t, e) && (Core(d, t).Some? ==> Core(d, t).value in finished)
      ensures
        Acyclic(Held(d)) && !old(reentered)
        && (Core(d, t).Some? ==> forall x :: x in inferring ==> Leads(Held(d), x, Core(d, t).value))
        ==> !reentered
      decreases d.Keys - inferring, 1, t
    {
      hide Ordered, Acyclic;
      match t
      case Simple => e := Zero;
      case OptionOf(_) => e := NoneInit;
      case VecOf(elem) =>
        var x := Default(elem);
        e := EmptyVec(x);
      case DictOf(elem) =>
        var x := Default(elem);
        e := EmptyDict(x);
      case Named(n) =>
        Infer(n);
        if !d[n].isVariant {
          e := NewStruct(n);
        } else {
          var first := d[n].fields[0];
          var payload := if first.desc.Some? && first.name in inits[n] then Some(inits[n][first.name]) else None;
          e := NewVariant(n, first.name, payload);
          if !reentered && first.desc.Some? {
            assert first.name in Payloads(d[n].fields);
          }
        }
    }

    /** A member already initialised was met before, unless the composite is finished. */
    lemma MemberFacts(n: string, i: nat)
      requires Valid() && n in d && i < |d[n].fields|
      ensures FieldCore(d, d[n].fields[i]).Some? ==> Edge(Held(d), n, FieldCore(d, d[n].fields[i]).value)
      ensures d[n].fields[i].name !in Payloads(d[n].fields[..i])
      ensures !reentered && n in finished && FieldCore(d, d[n].fields[i]).Some? ==> FieldCore(d, d[n].fields[i]).value in finished
      ensures FieldCore(d, d[n].fields[i]).Some? ==>
        forall x :: x == n || Leads(Held(d), x, n) ==> Leads(Held(d), x, FieldCore(d, d[n].fields[i]).value)
    {
      if FieldCore(d, d[n].fields[i]).Some? {
        var b := FieldCore(d, d[n].fields[i]).value;
        forall x | x == n || Leads(Held(d), x, n)
          ensures Leads(Held(d), x, b)
        {
          LeadsStep(Held(d), x, n, b);
        }
        assert Edge(Held(d), n, b);
        if !reentered && n in finished {
          var k :| 0 <= k < |finished| && finished[k] == n;
          assert b in finished[..k];
        }
      }
    }

    /** One member of a composite under inference: built unless it already has an initialiser. */
    method InferMember(n: string, i: nat)
      requires Valid() && n in d && n in inferring && i < |d[n].fields|
      requires !reentered && n !in finished ==> inits[n].Keys == Payloads(d[n].fields[..i])
      modifies this
      ensures Valid() && inferring == old(inferring) && inits.Keys == old(inits.Keys)
      ensures (old(reentered) ==> reentered) && old(finished) <= finished
      ensures !reentered ==> forall m :: m in finished && m !in old(finished) ==> m !in inferring
      ensures !reentered ==> forall m :: m in inferring && m != n ==> inits[m] == old(inits)[m]
      ensures !reentered && n !in finished ==> inits[n].Keys == Payloads(d[n].fields[..i + 1])
      ensures !reentered && FieldCore(d, d[n].fields[i]).Some? ==> FieldCore(d, d[n].fields[i]).value in finished
      ensures Acyclic(Held(d)) && !old(reentered) && (forall x :: x in inferring ==> x == n || Leads(Held(d), x, n)) ==> !reentered
      decreases d.Keys - inferring, 2
    {
      var f := d[n].fields[i];
      MemberFacts(n, i);
      PayloadsStep(d[n].fields, i);
      if f.desc.Some? && f.name !in inits[n] {
        var e := Default(f.desc.value);
        Record(n, i, e);
      }
    }

    /** Keeps the initialiser of a member of a composite in progress. */
    method Record(n: string, i: nat, e: Init)
      requires Valid() && n in d && n in inferring && i < |d[n].fields| && d[n].fields[i].desc.Some?
      requires !reentered ==> IsDefault(d, d[n].fields[i].desc.value, e)
      modifies `inits
      ensures Valid() && inits == old(inits)[n := old(inits)[n][d[n].fields[i].name := e]]
    {
      hide IsDefault, Ordered;
      assert d[n].fields[i].name in Payloads(d[n].fields);
      assert DefaultsOf(d, d[n].fields, inits[n][d[n].fields[i].name := e]) || reentered;
      inits := inits[n := inits[n][d[n].fields[i].name := e]];
    }

    /** The loop over the members of a composite whose flag is up. */
    method InferMembers(n: string)
      requires Valid() && n in d && n in inferring
      requires !reentered && n !in finished ==> inits[n] == map[]
      modifies this
      ensures Valid() && inferring == old(inferring) && inits.Keys == old(inits.Keys)
      ensures (old(reentered) ==> reentered) && old(finished) <= finished
      ensures !reentered ==> forall m :: m in finished && m !in old(finished) ==> m !in inferring
      ensures !reentered ==> forall m :: m in inferring && m != n ==> inits[m] == old(inits)[m]
      ensures !reentered ==> Payloads(d[n].fields) <= inits[n].Keys
      ensures !reentered ==> forall j :: 0 <= j < |d[n].fields| && FieldCore(d, d[n].fields[j]).Some? ==>
        FieldCore(d, d[n].fields[j]).value in finished
      ensures Acyclic(Held(d)) && !old(reentered) && (forall x :: x in inferring ==> x == n || Leads(Held(d), x, n)) ==> !reentered
      decreases d.Keys - inferring, 3
    {
      var fields := d[n].fields;
      for i := 0 to |fields|
        invariant Valid() && inferring == old(inferring) && inits.Keys == old(inits.Keys)
        invariant (old(reentered) ==> reentered) && old(finished) <= finished
        invariant !reentered ==> forall m :: m in finished && m !in old(finished) ==> m !in inferring
        invariant !reentered ==> forall m :: m in inferring && m != n ==> inits[m] == old(inits)[m]
        invariant !reentered ==> if n in finished then Payloads(fields) <= inits[n].Keys else inits[n].Keys == Payloads(fields[..i])
        invariant !reentered ==> forall j :: 0 <= j < i && FieldCore(d, fields[j]).Some? ==> FieldCore(d, fields[j]).value in finished
        invariant Acyclic(Held(d)) && !old(reentered) && (forall x :: x in inferring ==> x == n || Leads(Held(d), x, n)) ==> !reentered
      {
        InferMember(n, i);
      }
      assert fields[..|fields|] == fields;
    }

    /** The struct and variant cases of `jik_semantic_infer_type`. */
    method Infer(n: string)
      requires Valid() && n in d
      modifies this
      ensures Valid() && Grows()
      ensures !reentered ==> n in finished
      ensures Acyclic(Held(d)) && !old(reentered) && (forall x :: x in inferring ==> Leads(Held(d), x, n)) ==> !reentered
      decreases d.Keys - inferring, 0
    {
      if n in inferring {
        reentered := true;
        return;
      }
      inferring := inferring + {n};
      InferMembers(n);
      Finish(n);
    }

    /** Lowers the flag of a composite whose members have all been built. */
    method Finish(n: string)
      requires Valid() && n in d && n in inferring
      requires !reentered ==> Payloads(d[n].fields) <= inits[n].Keys
      requires !reentered ==> forall j :: 0 <= j < |d[n].fields| && FieldCore(d, d[n].fields[j]).Some? ==>
        FieldCore(d, d[n].fields[j]).value in finished
      modifies this
      ensures Valid() && inferring == old(inferring) - {n} && inits == old(inits) && reentered == old(reentered)
      ensures finished == old(finished) + if n in old(finished) then [] else [n]
    {
      inferring := inferring - {n};
      if n !in finished {
        ghost var before := finished;
        finished := finished + [n];
        assert forall i :: 0 <= i < |before| ==> finished[..i] == before[..i];
        assert finished[..|before|] == before;
      }
    }

    /** Infers every composite: some inference is re-entered exactly when the recursive-type
        check would have rejected; otherwise every member that needs one ends with the default
        of its type, and no other member has one. */
    method InferAll(order: seq<string>)
      requires Valid() && inferring == {} && finished == [] && !reentered
      requires forall a :: a in order <==> a in d
      modifies this
      ensures reentered <==> !Acyclic(Held(d))
      ensures Acyclic(Held(d)) ==> forall n :: n in d ==> n in inits && inits[n].Keys == Payloads(d[n].fields)
      ensures Acyclic(Held(d)) ==> forall n, f :: n in d && f in d[n].fields && f.desc.Some? ==>
        n in inits && f.name in inits[n] && IsDefault(d, f.desc.value, inits[n][f.name])
    {
      InferEach(order);
      if !reentered {
        assert forall a :: a in d ==> a in order;
        AllFinished();
      }
    }

    method InferEach(order: seq<string>)
      requires Valid() && inferring == {} && !reentered && forall a :: a in order ==> a in d
      modifies this
      ensures Valid() && (Acyclic(Held(d)) ==> !reentered)
      ensures !reentered ==> forall a :: a in order ==> a in finished
    {
      hide Acyclic, IsDefault, DefaultsOf, Ordered, Payloads;
      for i := 0 to |order|
        invariant Valid() && inferring == {}
        invariant Acyclic(Held(d)) ==> !reentered
        invariant !reentered ==> forall k :: 0 <= k < i ==> order[k] in finished
      {
        Infer(order[i]);
      }
    }

    lemma AllFinished()
      requires Valid() && !reentered && forall a :: a in d ==> a in finished
      ensures Acyclic(Held(d))
      ensures forall n :: n in d ==> n in inits && inits[n].Keys == Payloads(d[n].fields)
      ensures forall n, f :: n in d && f in d[n].fields && f.desc.Some? ==>
        n in inits && f.name in inits[n] && IsDefault(d, f.desc.value, inits[n][f.name])
    {
      forall a
        ensures !Leads(Held(d), a, a)
      {
        if a in d {
          var k :| 0 <= k < |finished| && finished[k] == a;
          OrderedIsAcyclic(Held(d), finished, k);
        } else {
          OutsideLeadsNowhere(Held(d), a, a);
        }
      }
      forall n, f | n in d && f in d[n].fields && f.desc.Some?
        ensures n in inits && f.name in inits[n] && IsDefault(d, f.desc.value, inits[n][f.name])
      {
        var i :| 0 <= i < |d[n].fields| && d[n].fields[i] == f;
        assert d[n].fields[i].name in Payloads(d[n].fields);
      }
    }
  }

  lemma PayloadsStep(fs: seq<Field>, i: nat)
    requires i < |fs|
    ensures Payloads(fs[..i + 1]) == Payloads(fs[..i]) + if fs[i].desc.Some? then {fs[i].name} else {}
  {
    var a, b := fs[..i + 1], fs[..i];
    forall x | x in Payloads(a)
      ensures x in Payloads(b) || (fs[i].desc.Some? && x == fs[i].name)
    {
      var k :| 0 <= k < |a| && a[k].desc.Some? && a[k].name == x;
      assert k < i ==> b[k] == a[k];
    }
    forall x | x in Payloads(b)
      ensures x in Payloads(a)
    {
      var k :| 0 <= k < |b| && b[k].desc.Some? && b[k].name == x;
      assert a[k] == b[k];
    }
    assert a[i] == fs[i];
  }
}
