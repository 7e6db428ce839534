/** Tables keyed by an enum or by a variant's tags: checking, initialisation and lookup. */
module EnumTables {
  import opened Collections
  import opened Results

  datatype Ty = IntTy | EnumTy(name: string)

  /** What a table entry may be made of: no calls and no global variables. */
  datatype Expr = Num(n: int) | Member(enum: string, name: string) | Lookup(table: nat, key: Expr) | Plus(l: Expr, r: Expr)

  /** Entries in the order they were written. */
  datatype Table = Table(key: string, value: Ty, entries: seq<(string, Expr)>)

  /** Each enum lists its members in the order of their values 0, 1, 2, ... */
  datatype Program = Program(enums: map<string, seq<string>>, tables: seq<Table>)

  function Names(entries: seq<(string, Expr)>): (r: seq<string>)
    ensures |r| == |entries| && forall i :: 0 <= i < |r| ==> r[i] == entries[i].0
  {
    seq(|entries|, i requires 0 <= i < |entries| => entries[i].0)
  }

  /** The position of a member: its value in the generated C enum. */
  function ValueOf(members: seq<string>, name: string): (i: nat)
    requires name in members
    ensures i < |members| && members[i] == name
  {
    if members[0] == name then 0 else 1 + ValueOf(members[1..], name)
  }

  /** The entry written for a member. */
  function EntryFor(entries: seq<(string, Expr)>, name: string): Result<Expr> {
    if entries == [] then Err("missing")
    else if entries[0].0 == name then Ok(entries[0].1)
    else EntryFor(entries[1..], name)
  }

  predicate Typed(p: Program, e: Expr, t: Ty) {
    match e
    case Num(_) => t == IntTy
    case Member(en, x) => en in p.enums && x in p.enums[en] && t == EnumTy(en)
    case Lookup(tab, key) => tab < |p.tables| && t == p.tables[tab].value && Typed(p, key, EnumTy(p.tables[tab].key))
    case Plus(l, r) => t == IntTy && Typed(p, l, IntTy) && Typed(p, r, IntTy)
  }

  /** Keys are declared enums, member and entry names do not repeat, entries are typed. */
  ghost predicate WellFormed(p: Program) {
    && (forall en :: en in p.enums ==> Distinct(p.enums[en]))
    && (forall i :: 0 <= i < |p.tables| ==>
          && p.tables[i].key in p.enums && Distinct(Names(p.tables[i].entries))
          && forall j :: 0 <= j < |p.tables[i].entries| ==> Typed(p, p.tables[i].entries[j].1, p.tables[i].value))
  }

  function Members(p: Program, i: nat): seq<string>
    requires i < |p.tables|
  {
    if p.tables[i].key in p.enums then p.enums[p.tables[i].key] else []
  }

  /** Every table read is declared before `limit`. */
  predicate Below(e: Expr, limit: nat) {
    match e
    case Lookup(t, key) => t < limit && Below(key, limit)
    case Plus(l, r) => Below(l, limit) && Below(r, limit)
    case _ => true
  }

  /** One entry for every member and none else. */
  predicate Total(members: seq<string>, entries: seq<(string, Expr)>) {
    && (forall i :: 0 <= i < |entries| ==> entries[i].0 in members)
    && (forall i :: 0 <= i < |members| ==> members[i] in Names(entries))
  }

  predicate Accepted(p: Program) {
    forall i :: 0 <= i < |p.tables| ==>
      && Total(Members(p, i), p.tables[i].entries)
      && forall j :: 0 <= j < |p.tables[i].entries| ==> Below(p.tables[i].entries[j].1, i)
  }

  lemma {:induction false} EntryIsWritten(entries: seq<(string, Expr)>, j: nat)
    requires j < |entries| && Distinct(Names(entries))
    ensures EntryFor(entries, entries[j].0) == Ok(entries[j].1)
  {
    if j > 0 {
      assert Names(entries)[0] != Names(entries)[j];
      assert Names(entries[1..]) == Names(entries)[1..];
      EntryIsWritten(entries[1..], j - 1);
    }
  }

  lemma {:induction false} EntryExists(entries: seq<(string, Expr)>, name: string)
    ensures EntryFor(entries, name).Ok? <==> name in Names(entries)
    ensures EntryFor(entries, name).Ok? ==> exists j :: 0 <= j < |entries| && entries[j] == (name, EntryFor(entries, name).value)
  {
    if entries != [] {
      EntryExists(entries[1..], name);
      assert Names(entries[1..]) == Names(entries)[1..];
      assert Names(entries) == [entries[0].0] + Names(entries)[1..];
    }
  }

  /** `jik_semantic_resolve_tables` for one table: the entries in the order of the keys, or
      an error exactly when an entry names no member or a member has no entry. */
  method Resolve(members: seq<string>, entries: seq<(string, Expr)>) returns (r: Result<seq<Expr>>)
    ensures r.Ok? <==> Total(members, entries)
    ensures r.Ok? ==> |r.value| == |members| && forall j :: 0 <= j < |members| ==> EntryFor(entries, members[j]) == Ok(r.value[j])
  {
    for i := 0 to |entries|
      invariant forall k :: 0 <= k < i ==> entries[k].0 in members
    {
      if entries[i].0 !in members {
        return Err("unknown member in table");
      }
    }
    var normalized: seq<Expr> := [];
    for j := 0 to |members|
      invariant |normalized| == j
      invariant forall k :: 0 <= k < j ==> EntryFor(entries, members[k]) == Ok(normalized[k])
      invariant forall k :: 0 <= k < j ==> members[k] in Names(entries)
    {
      var entry := EntryFor(entries, members[j]);
      EntryExists(entries, members[j]);
      if entry.Err? {
        return Err("table is missing an entry");
      }
      normalized := normalized + [entry.value];
    }
    r := Ok(normalized);
  }

  /** `jik_semantic_check_table_initialization_order`. */
  method CheckOrder(normalized: seq<seq<Expr>>) returns (r: Result<()>)
    ensures r.Ok? <==> forall i, j :: 0 <= i < |normalized| && 0 <= j < |normalized[i]| ==> Below(normalized[i][j], i)
  {
    for i := 0 to |normalized|
      invariant forall a, j :: 0 <= a < i && 0 <= j < |normalized[a]| ==> Below(normalized[a][j], a)
    {
      for j := 0 to |normalized[i]|
        invariant forall b :: 0 <= b < j ==> Below(normalized[i][b], i)
      {
        if !Below(normalized[i][j], i) {
          return Err("table initializer reads a table before it is initialized");
        }
      }
    }
    r := Ok(());
  }

  /** The whole check: accepts exactly the total tables that only read earlier ones. */
  method Check(p: Program) returns (r: Result<seq<seq<Expr>>>)
    requires WellFormed(p)
    ensures r.Ok? <==> Accepted(p)
    ensures r.Ok? ==> Normalized(p, r.value)
  {
    var all: seq<seq<Expr>> := [];
    for i := 0 to |p.tables|
      invariant |all| == i
      invariant forall k :: 0 <= k < i ==> Total(Members(p, k), p.tables[k].entries) && InKeyOrder(p, k, all[k])
    {
      var one := Resolve(p.enums[p.tables[i].key], p.tables[i].entries);
      if one.Err? {
        return Err(one.message);
      }
      all := all + [one.value];
    }
    var ordered := CheckOrder(all);
    SameEntries(p, all);
    if ordered.Err? {
      return Err(ordered.message);
    }
    r := Ok(all);
  }

  ghost predicate InKeyOrder(p: Program, i: nat, exprs: seq<Expr>)
    requires i < |p.tables|
  {
    |exprs| == |Members(p, i)| && forall j :: 0 <= j < |exprs| ==> EntryFor(p.tables[i].entries, Members(p, i)[j]) == Ok(exprs[j])
  }

  ghost predicate Normalized(p: Program, all: seq<seq<Expr>>) {
    |all| == |p.tables| && forall i :: 0 <= i < |all| ==> InKeyOrder(p, i, all[i])
  }

  /** Putting entries in key order loses none and adds none. */
  lemma SameEntries(p: Program, all: seq<seq<Expr>>)
    requires WellFormed(p) && Normalized(p, all)
    requires forall k :: 0 <= k < |p.tables| ==> Total(Members(p, k), p.tables[k].entries)
    ensures (forall i, j :: 0 <= i < |all| && 0 <= j < |all[i]| ==> Below(all[i][j], i)) <==> Accepted(p)
  {
    forall i, j | 0 <= i < |all| && 0 <= j < |all[i]|
      ensures exists k :: 0 <= k < |p.tables[i].entries| && p.tables[i].entries[k].1 == all[i][j]
    {
      EntryExists(p.tables[i].entries, Members(p, i)[j]);
    }
    forall i, k | 0 <= i < |all| && 0 <= k < |p.tables[i].entries|
      ensures exists j :: 0 <= j < |all[i]| && all[i][j] == p.tables[i].entries[k].1
    {
      var entry := p.tables[i].entries[k];
      var j := ValueOf(Members(p, i), entry.0);
      EntryIsWritten(p.tables[i].entries, k);
      assert all[i][j] == entry.1;
    }
  }

  // ----- meaning and generated code -----

  /** What an expression denotes: a lookup is the entry written for the key, whatever the
      order entries and tables were written in. */
  ghost function Meaning(p: Program, limit: nat, e: Expr): int
    requires WellFormed(p) && Accepted(p) && limit <= |p.tables| && Below(e, limit)
    decreases limit, e
  {
    match e
    case Num(n) => n
    case Member(en, x) => if en in p.enums && x in p.enums[en] then ValueOf(p.enums[en], x) else 0
    case Lookup(t, key) =>
      var k := Meaning(p, limit, key);
      if 0 <= k < |Members(p, t)| then EntryMeaning(p, t, Members(p, t)[k]) else 0
    case Plus(l, r) => Meaning(p, limit, l) + Meaning(p, limit, r)
  }

  /** What the entry written for a member denotes. */
  ghost function EntryMeaning(p: Program, t: nat, name: string): int
    requires WellFormed(p) && Accepted(p) && t < |p.tables| && name in Members(p, t)
    decreases t
  {
    EntryExists(p.tables[t].entries, name);
    var entry := EntryFor(p.tables[t].entries, name).value;
    Meaning(p, t, entry)
  }

  /** An enum-typed expression denotes one of the enum's values. */
  lemma {:induction false} MeaningInRange(p: Program, limit: nat, e: Expr, en: string)
    requires WellFormed(p) && Accepted(p) && limit <= |p.tables| && Below(e, limit)
    requires Typed(p, e, EnumTy(en)) && en in p.enums
    ensures 0 <= Meaning(p, limit, e) < |p.enums[en]|
    decreases limit, e
  {
    match e
    case Member(_, _) =>
    case Lookup(t, key) =>
      MeaningInRange(p, limit, key, p.tables[t].key);
      var name := Members(p, t)[Meaning(p, limit, key)];
      EntryExists(p.tables[t].entries, name);
      var entry := EntryFor(p.tables[t].entries, name).value;
      assert Typed(p, entry, EnumTy(en)) && Below(entry, t);
      MeaningInRange(p, t, entry, en);
  }

  /** The generated arrays of the first `limit` tables are filled with what was written. */
  ghost predicate Filled(p: Program, arrays: seq<array<int>>, limit: nat)
    requires WellFormed(p) && Accepted(p)
    reads arrays
  {
    && |arrays| == |p.tables| && limit <= |arrays|
    && (forall i :: 0 <= i < |arrays| ==> arrays[i].Length == |Members(p, i)|)
    && forall t {:trigger Loaded(p, arrays[t], t)} :: 0 <= t < limit ==> Loaded(p, arrays[t], t)
  }

  /** Each slot of table t holds what was written for its member. */
  ghost predicate Loaded(p: Program, a: array<int>, t: nat)
    requires WellFormed(p) && Accepted(p) && t < |p.tables|
    reads a
  {
    a.Length == |Members(p, t)| && forall k :: 0 <= k < a.Length ==> a[k] == EntryMeaning(p, t, Members(p, t)[k])
  }

  /** The generated C expression: a lookup indexes the array, always in bounds. */
  method Evaluate(p: Program, arrays: seq<array<int>>, limit: nat, e: Expr, ghost t: Ty) returns (v: int)
    requires WellFormed(p) && Accepted(p) && limit <= |p.tables| && Below(e, limit) && Typed(p, e, t)
    requires Filled(p, arrays, limit)
    ensures v == Meaning(p, limit, e)
    decreases e
  {
    match e
    case Num(n) => v := n;
    case Member(en, x) => v := ValueOf(p.enums[en], x);
    case Plus(l, r) =>
      var a := Evaluate(p, arrays, limit, l, IntTy);
      var b := Evaluate(p, arrays, limit, r, IntTy);
      v := a + b;
    case Lookup(tab, key) =>
      var k := Evaluate(p, arrays, limit, key, EnumTy(p.tables[tab].key));
      MeaningInRange(p, limit, key, p.tables[tab].key);
      assert Loaded(p, arrays[tab], tab);
      v := arrays[tab][k];
  }

  /** The start of the generated main: fills every table, entry by entry in key order. */
  method Initialize(p: Program, normalized: seq<seq<Expr>>) returns (arrays: seq<array<int>>)
    requires WellFormed(p) && Accepted(p) && Normalized(p, normalized)
    ensures fresh(arrays) && Filled(p, arrays, |p.tables|)
  {
    arrays := [];
    for i := 0 to |p.tables|
      invariant |arrays| == i && fresh(arrays) && forall k :: 0 <= k < i ==> arrays[k].Length == |Members(p, k)|
      invariant Apart(arrays)
    {
      var a := new int[|Members(p, i)|](_ => 0);
      arrays := arrays + [a];
    }
    for i := 0 to |p.tables|
      invariant Filled(p, arrays, i) && Apart(arrays)
    {
      FillTable(p, normalized, arrays, i);
    }
  }

  ghost predicate Apart(arrays: seq<array<int>>) {
    forall a, b :: 0 <= a < b < |arrays| ==> arrays[a] != arrays[b]
  }

  /** The normalized entry at j is the one written for member j. */
  lemma EntryWritten(p: Program, normalized: seq<seq<Expr>>, i: nat, j: nat)
    requires WellFormed(p) && Accepted(p) && Normalized(p, normalized) && i < |p.tables| && j < |normalized[i]|
    ensures j < |Members(p, i)| && Below(normalized[i][j], i) && Typed(p, normalized[i][j], p.tables[i].value)
    ensures Meaning(p, i, normalized[i][j]) == EntryMeaning(p, i, Members(p, i)[j])
  {
    EntryExists(p.tables[i].entries, Members(p, i)[j]);
  }

  /** Table i, entry by entry. */
  method FillTable(p: Program, normalized: seq<seq<Expr>>, arrays: seq<array<int>>, i: nat)
    requires WellFormed(p) && Accepted(p) && Normalized(p, normalized) && i < |p.tables|
    requires Filled(p, arrays, i) && Apart(arrays)
    modifies arrays[i]
    ensures Filled(p, arrays, i + 1)
  {
    hide EntryMeaning, Meaning, Typed, Below;
    for j := 0 to |normalized[i]|
      invariant Filled(p, arrays, i)
      invariant forall k :: 0 <= k < j ==> arrays[i][k] == EntryMeaning(p, i, Members(p, i)[k])
    {
      EntryWritten(p, normalized, i, j);
      var v := Evaluate(p, arrays, i, normalized[i][j], p.tables[i].value);
      arrays[i][j] := v;
    }
    assert Loaded(p, arrays[i], i);
  }

  /** A lookup with a member's value yields the entry written for that member. */
  method LookupMember(p: Program, arrays: seq<array<int>>, t: nat, name: string) returns (v: int)
    requires WellFormed(p) && Accepted(p) && Filled(p, arrays, |p.tables|) && t < |p.tables| && name in Members(p, t)
    ensures v == EntryMeaning(p, t, name)
  {
    assert Loaded(p, arrays[t], t);
    v := arrays[t][ValueOf(Members(p, t), name)];
  }
}
