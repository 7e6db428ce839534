/** The passes of `regcheck.c` over one function: reading and retargeting allocation
    specs, the integrity pass, the post-check and the region-safe test. */
module RegionCheck {
  import opened RegionSyntax
  import opened Results

  /** `tab` is the function's `spec_tab`; `lit` and `call` hold the `alloc_spec` fields
      of literal and call nodes. */
  datatype Specs = Specs(tab: map<Name, Spec>, lit: map<nat, Spec>, call: map<nat, Spec>) {
    function Named(x: Name): Spec {
      // a name outside the table is a composite global
      if x in tab then tab[x] else GLOBAL
    }

    function LitAt(id: nat): Spec {
      if id in lit then lit[id] else UNKNOWN
    }

    function CallAt(id: nat): Spec {
      if id in call then call[id] else UNKNOWN
    }

    function SetLit(id: nat, s: Spec): Specs {
      this.(lit := lit[id := s])
    }

    function SetCall(id: nat, s: Spec): Specs {
      this.(call := call[id := s])
    }

    function SetName(x: Name, s: Spec): Specs {
      this.(tab := tab[x := s])
    }
  }

  // ----- reading a spec; a ternary may retarget a literal branch -----

  /** `can_retarget_literal` on the literal's own spec. */
  function CanRetarget(own: Spec, req: Spec): Result<bool> {
    if own.src == LocalSrc && req.kind == GlobalKind then
      Err("cannot implicitly allocate literal in global region")
    else
      Ok(own.src == LocalSrc && req.src != LocalSrc && req.src != CrossSrc)
  }

  /** `jik_set_alloc_spec`: a literal hands its spec down to literal children and
      to calls with an injected region. */
  function SetAlloc(S: Specs, e: Expr, s: Spec): Specs
    requires e.Lit?
    decreases e
  {
    SetAllocs(S.SetLit(e.id, s), e.elems, s)
  }

  function SetAllocs(S: Specs, es: seq<Expr>, s: Spec): Specs
    decreases es
  {
    if es == [] then S
    else
      var S1 := if es[0].Lit? then SetAlloc(S, es[0], s)
                else if es[0].Call? && es[0].auto then S.SetCall(es[0].id, s)
                else S;
      SetAllocs(S1, es[1..], s)
  }

  /** `get_expression_alloc_spec`, with the specs after it. */
  function GetSpec(S: Specs, e: Expr): Result<(Spec, Specs)>
    decreases e
  {
    match e
    case Prim => Err("internal error: no region rule for expression")
    case Push(_, _) => Ok((UNKNOWN, S))
    case Ident(x, _) => Ok((S.Named(x), S))
    case Lit(_, id, _) => Ok((S.LitAt(id), S))
    case Call(id, _, _, _, _) => Ok((S.CallAt(id), S))
    case Pop(id, _, _) => Ok((S.CallAt(id), S))
    case Copy(id, _, _) => Ok((S.CallAt(id), S))
    case LocalRegion => Ok((LOCAL, S))
    case RegionOf(x) => Ok((S.Named(x), S))
    case Part(base, _, _) => GetSpec(S, base)
    case Lookup(base, _) => GetSpec(S, base)
    case Slice(base) => GetSpec(S, base)
    case Ternary(_, thn, els, _) =>
      var (a, S1) :- GetSpec(S, thn);
      var (b, S2) :- GetSpec(S1, els);
      Join(S2, thn, els, a, b)
  }

  /** The two branches of a ternary, read as a and b. */
  function Join(S: Specs, thn: Expr, els: Expr, a: Spec, b: Spec): Result<(Spec, Specs)> {
    var intoElse :- Retargets(S, a, els, b);
    if intoElse then Ok((a, SetAlloc(S, els, a)))
    else
      var intoThen :- Retargets(S, b, thn, a);
      if intoThen then Ok((b, SetAlloc(S, thn, b)))
      else if BothKnown(a, b) && !SourcesMatch(a, b) then
        Err("ternary branches should belong to same region")
      else if Complete(a) && Complete(b) then Ok((a, S))
      else Ok((UNKNOWN, S))
  }

  /** A ternary branch that was read as a local literal moves to the complete spec of the other. */
  function Retargets(S: Specs, other: Spec, branch: Expr, own: Spec): (r: Result<bool>)
    ensures r == Ok(true) ==> branch.Lit? && own.src == LocalSrc && S.LitAt(branch.id).src == LocalSrc && other.src == ForeignSrc
  {
    if Complete(other) && branch.Lit? && own.src == LocalSrc then CanRetarget(S.LitAt(branch.id), other)
    else Ok(false)
  }

  // ----- region-safe operations and functions -----

  /** `is_region_safe_operation`. */
  predicate SafeOp(S: Specs, lhs: Expr, rhs: Expr) {
    match GetSpec(S, lhs)
    case Err(_) => false
    case Ok((a, S1)) =>
      match GetSpec(S1, rhs)
      case Err(_) => false
      case Ok((b, _)) =>
        || (a.src == LocalSrc && b.src == LocalSrc)
        || (a.src == ForeignSrc && b.src == ForeignSrc && a.kind == b.kind && a.region != "" && a.region == b.region)
  }

  /** `is_region_safe_function_call`; anything not defined in Jik is unsafe. */
  predicate SafeCall(funcs: Funcs, safe: set<Name>, S: Specs, e: Expr) {
    match e
    case Call(_, fn, _, _, _) => fn in funcs && fn in safe
    case Push(vec, item) => !Allocated(item) || SafeOp(S, vec, item)
    case _ => true
  }

  /** One node of `is_region_safe_function`. */
  predicate SafeNode(funcs: Funcs, safe: set<Name>, S: Specs, nd: Node) {
    match nd
    case ExprNode(e) =>
      if e.Lit? then forall c :: c in e.elems && Allocated(c) ==> SafeOp(S, e, c)
      else SafeCall(funcs, safe, S, e)
    case StmtNode(Return(e)) => !Allocated(e)
    case StmtNode(Store(target, _, e)) => Allocated(e) ==> SafeOp(S, target, e)
    case _ => true
  }

  predicate SafeBody(funcs: Funcs, safe: set<Name>, S: Specs, body: seq<Stmt>) {
    forall nd :: nd in NodesB(body) ==> SafeNode(funcs, safe, S, nd)
  }

  // ----- calls -----

  /** `get_allocated_args`: composite and region arguments of non-foreign parameters,
      then the injected local region. */
  function AllocatedArgs(params: seq<Param>, args: seq<Expr>): seq<Expr> {
    if args == [] then []
    else
      var rest := AllocatedArgs(if params == [] then [] else params[1..], args[1..]);
      if (params != [] && params[0].isForeign) || TypeOf(args[0]) == PrimTy then rest
      else [args[0]] + rest
  }

  function CallArgs(funcs: Funcs, e: Expr): seq<Expr>
    requires e.Call?
  {
    AllocatedArgs(if e.fn in funcs then funcs[e.fn].params else [], e.args) + if e.auto then [LocalRegion] else []
  }

  /** The argument whose region every other argument has to share. */
  function Anchor(args: seq<Expr>): (a: Expr)
    requires args != []
    ensures a in args
  {
    if forall i :: 0 <= i < |args| ==> args[i].Lit? then args[0] else FirstNonLiteral(args)
  }

  function FirstNonLiteral(args: seq<Expr>): (a: Expr)
    requires exists i :: 0 <= i < |args| && !args[i].Lit?
    ensures a in args && !a.Lit?
  {
    if !args[0].Lit? then args[0] else FirstNonLiteral(args[1..])
  }

  /** `mark_foreign_container_literal_args_specs`. */
  function MarkForeign(S: Specs, params: seq<Param>, args: seq<Expr>): Specs
    decreases args
  {
    if args == [] || params == [] then S
    else
      var a := args[0];
      var S1 := if params[0].isForeign && a.Lit? && (a.lit.VecLit? || a.lit.DictLit?)
                   && S.LitAt(a.id).kind == LocalKind && S.LitAt(a.id).src == LocalSrc
                then S.SetLit(a.id, S.LitAt(a.id).(src := CrossSrc)) else S;
      MarkForeign(S1, params[1..], args[1..])
  }

  function RetargetFirst(S: Specs, first: Expr, req: Spec): Result<Specs> {
    if !Complete(req) || !first.Lit? then Ok(S)
    else
      var can :- CanRetarget(S.LitAt(first.id), req);
      Ok(if can then SetAlloc(S, first, req) else S)
  }

  /** The loop over the remaining arguments of a call that obeys the same-region rule. */
  function AlignArgs(S: Specs, args: seq<Expr>, req: Spec): Result<Specs>
    decreases args
  {
    if args == [] then Ok(S)
    else
      var (a, S1) :- GetSpec(S, args[0]);
      if !BothKnown(a, req) then AlignArgs(S1, args[1..], req)
      else
        var can :- if args[0].Lit? then CanRetarget(S1.LitAt(args[0].id), req) else Ok(false);
        if can then AlignArgs(SetAlloc(S1, args[0], req), args[1..], req)
        else if !SourcesMatch(a, req) then Err("all arguments should belong to same region")
        else AlignArgs(S1, args[1..], req)
  }

  /** Arguments of one call under the same-region rule, and the region they share. */
  function SameRegion(S: Specs, args: seq<Expr>): Result<(Spec, Specs)>
    requires args != []
  {
    var (req, S1) :- GetSpec(S, Anchor(args));
    var S2 :- RetargetFirst(S1, args[0], req);
    var S3 :- AlignArgs(S2, args[1..], req);
    Ok((req, S3))
  }

  // ----- the integrity pass -----

  function VisitCall(funcs: Funcs, safe: set<Name>, S: Specs, e: Expr): Result<Specs>
    requires e.Call? || e.Push?
  {
    if SafeCall(funcs, safe, S, e) then
      Ok(if e.Call? && e.auto && S.CallAt(e.id).kind == UnknownKind then S.SetCall(e.id, LOCAL) else S)
    else if e.Push? then
      var (_, S1) :- SameRegion(S, [e.vec, e.item]);
      Ok(S1)
    else
      var S0 := MarkForeign(S, if e.fn in funcs then funcs[e.fn].params else [], e.args);
      var args := CallArgs(funcs, e);
      if args == [] then Ok(S0)
      else
        var (req, S1) :- SameRegion(S0, args);
        Ok(TakeRead(S1, e.id, req))
  }

  /** A call takes over a complete spec it read. */
  function TakeRead(S: Specs, id: nat, s: Spec): Specs {
    if Complete(s) then S.SetCall(id, s) else S
  }

  /** A name is bound to a known spec that was read. */
  function BindRead(S: Specs, x: Name, s: Spec): Specs {
    if SrcKnown(s) then S.SetName(x, s) else S
  }

  function VisitExpr(funcs: Funcs, safe: set<Name>, S: Specs, e: Expr): Result<Specs> {
    match e
    case Call(_, _, _, _, _) => VisitCall(funcs, safe, S, e)
    case Push(_, _) => VisitCall(funcs, safe, S, e)
    case Pop(id, vec, _) =>
      var (s, S1) :- GetSpec(S, vec);
      Ok(TakeRead(S1, id, s))
    case Copy(id, _, dest) =>
      var (s, S1) :- if dest == [] then Ok((LOCAL, S)) else GetSpec(S, dest[0]);
      Ok(TakeRead(S1, id, s))
    case Lit(_, id, _) =>
      // a suffix `[r]` or `[.x]` takes its source from the table
      var own := S.LitAt(id);
      if own.kind.NamedRegionKind? || own.kind.ContainerKind? then
        var named := S.Named(own.region);
        Ok(if SrcKnown(named) && !SrcKnown(own) then SetAlloc(S, e, own.(src := named.src)) else S)
      else Ok(S)
    case _ => Ok(S)
  }

  /** Member and subscript stores: a local literal moves to the destination. */
  function VisitStore(S: Specs, target: Expr, e: Expr): Result<Specs> {
    var (lhs, S1) :- GetSpec(S, target);
    if !Allocated(e) then Ok(S1)
    else
      var (rhs, S2) :- GetSpec(S1, e);
      StoreRead(S2, lhs, rhs, e)
  }

  /** A store of e, read as rhs, into something read as lhs. */
  function StoreRead(S: Specs, lhs: Spec, rhs: Spec, e: Expr): Result<Specs> {
    var can :- if e.Lit? && Complete(lhs) then CanRetarget(S.LitAt(e.id), lhs) else Ok(false);
    if can then Ok(SetAlloc(S, e, lhs))
    else if BothKnown(lhs, rhs) && !SourcesMatch(lhs, rhs) then Err("region mismatch")
    else Ok(S)
  }

  /** `get_function_implicit_region_spec`: the first complete non-foreign parameter. */
  function ImplicitSpec(S: Specs, params: seq<Param>): Spec {
    if params == [] then UNKNOWN
    else
      var q := params[0];
      if q.ty != PrimTy && !(q.ty == CompositeTy && q.isForeign) && q.name in S.tab && Complete(S.tab[q.name])
      then S.tab[q.name]
      else ImplicitSpec(S, params[1..])
  }

  function VisitReturn(params: seq<Param>, S: Specs, e: Expr): Result<Specs> {
    if !Allocated(e) then Ok(S)
    else
      var (s, S1) :- GetSpec(S, e);
      ReturnRead(S1, ImplicitSpec(S1, params), s, e)
  }

  /** A return of e, read as s, where a local literal may move to the implicit region. */
  function ReturnRead(S: Specs, implicit: Spec, s: Spec, e: Expr): Result<Specs> {
    var can :- if e.Lit? && s.src == LocalSrc && Complete(implicit) then CanRetarget(s, implicit) else Ok(false);
    var s' := if can then implicit else s;
    if s'.src == LocalSrc then Err("cannot return local allocation")
    else if s'.src == CrossSrc then Err("cannot return foreign composite value")
    else if SrcKnown(s') && s'.kind == GlobalKind then Err("cannot return composite global")
    else Ok(if can then SetAlloc(S, e, implicit) else S)
  }

  function VisitStmt(params: seq<Param>, S: Specs, st: Stmt): Result<Specs> {
    match st
    case Declare(x, e) =>
      if TypeOf(e) == RegionTy then Err("region cannot be declared")
      else if !Allocated(e) then Ok(S)
      else
        var (s, S1) :- GetSpec(S, e);
        Ok(BindRead(S1, x, s))
    case Assign(x, e) =>
      if TypeOf(e) == RegionTy then Err("region cannot be aliased")
      else if !Allocated(e) then Ok(S)
      else
        var (s, S1) :- GetSpec(S, e);
        if BothKnown(S.Named(x), s) && !SourcesMatch(S.Named(x), s) then Err("region mismatch") else Ok(S1)
    case Store(target, _, e) => VisitStore(S, target, e)
    case Return(e) =>
      if TypeOf(e) == RegionTy then Err("region cannot be a return value") else VisitReturn(params, S, e)
    case ForIn(x, ty, e, _) =>
      if ty != CompositeTy then Ok(S)
      else
        var (s, S1) :- GetSpec(S, e);
        Ok(BindRead(S1, x, s))
    case _ => Ok(S)
  }

  /** What `jik_check_region_integrity` does at one node. The region-semantics
      diagnostics of `jik_check_region_semantics` are raised at the same nodes. */
  function Visit(funcs: Funcs, safe: set<Name>, params: seq<Param>, S: Specs, nd: Node): Result<Specs> {
    match nd
    case ExprNode(e) => VisitExpr(funcs, safe, S, e)
    case StmtNode(st) => VisitStmt(params, S, st)
  }

  function Pass(funcs: Funcs, safe: set<Name>, params: seq<Param>, S: Specs, nodes: seq<Node>): Result<Specs>
    decreases nodes
  {
    if nodes == [] then Ok(S)
    else
      var S1 :- Visit(funcs, safe, params, S, nodes[0]);
      Pass(funcs, safe, params, S1, nodes[1..])
  }

  // ----- the post-check -----

  predicate ChildInRegion(S: Specs, parent: Expr, child: Expr)
    requires parent.Lit?
  {
    Allocated(child) ==>
      || (S.LitAt(parent.id).src == CrossSrc && (parent.lit.VecLit? || parent.lit.DictLit?))
      || (match GetSpec(S, child)
          case Ok((c, _)) => BothKnown(S.LitAt(parent.id), c) && SourcesMatch(S.LitAt(parent.id), c)
          case Err(_) => false)
  }

  predicate ArgsInRegion(S: Specs, args: seq<Expr>)
    requires args != []
  {
    match GetSpec(S, Anchor(args))
    case Err(_) => false
    case Ok((req, _)) =>
      forall i :: 1 <= i < |args| ==>
        match GetSpec(S, args[i])
        case Ok((a, _)) => BothKnown(req, a) && SourcesMatch(req, a)
        case Err(_) => false
  }

  predicate PostCheck(funcs: Funcs, safe: set<Name>, S: Specs, nd: Node) {
    match nd
    case ExprNode(e) =>
      if e.Lit? then forall c :: c in e.elems ==> ChildInRegion(S, e, c)
      else if SafeCall(funcs, safe, S, e) then true
      else if e.Push? then ArgsInRegion(S, [e.vec, e.item])
      else e.Call? && (CallArgs(funcs, e) != [] ==> ArgsInRegion(S, CallArgs(funcs, e)))
    case StmtNode(_) => true
  }

  /** `jik_node_has_alloc_spec`: the nodes whose spec must be inferred. */
  predicate HasAllocSpec(e: Expr) {
    match e
    case Lit(_, _, _) => true
    case Copy(_, _, _) => true
    case Call(_, _, _, _, _) => Allocated(e)
    case Ternary(_, _, _, _) => Allocated(e)
    case Ident(_, _) => Allocated(e)
    case _ => false
  }
}
