/** Where the values of a function live, told without running a pass: a siting gives each
    name, literal and call a place, and it is right when at every node of the body the
    values that meet there live together. */
module RegionSiting {
  import opened RegionSyntax
  import opened RegionCheck
  import opened RegionStart

  /** The local region; the region of the arguments; static storage; no single region. */
  datatype Site = LocalSite | OuterSite | GlobalSite | MixedSite

  /** Two places whose values may point to each other, as far as the checker tells them apart. */
  predicate Agree(a: Site, b: Site) {
    a != MixedSite && b != MixedSite && (a == LocalSite <==> b == LocalSite)
  }

  /** `given`: literals whose place comes from a suffix, from where they are put, or from the
      literal around them. `handed`: automatic calls that take the place of such a literal. */
  datatype Siting = Siting(name: map<Name, Site>, lit: nat -> Site, call: nat -> Site, given: nat -> bool, handed: nat -> bool)

  /** A function, the specs its literals were parsed with, the functions taken for
      region-safe, and a siting. */
  datatype Case = Case(funcs: Funcs, f: FuncDecl, parsed: Specs, safe: set<Name>, at: Siting)

  predicate SafeFn(c: Case, fn: Name) { fn in c.funcs && fn in c.safe }

  // ----- the place of an expression -----

  /** A literal without a suffix. */
  predicate Free(c: Case, e: Expr) {
    e.Lit? && c.parsed.LitAt(e.id).src == LocalSrc
  }

  predicate HasSuffix(s: Spec) {
    (s.kind == NamedRegionKind || s.kind == ContainerKind) && s.src == UnknownSrc
  }

  predicate Suffixed(c: Case, e: Expr) {
    e.Lit? && HasSuffix(c.parsed.LitAt(e.id))
  }

  /** A name outside the table is a composite global. */
  function NameSite(c: Case, x: Name): Site {
    if x in c.at.name then c.at.name[x] else GlobalSite
  }

  /** The place a literal has by itself: the local region, or what its suffix names. */
  function Home(c: Case, e: Expr): Site
    requires e.Lit?
  {
    var s := c.parsed.LitAt(e.id);
    if s.src == LocalSrc then LocalSite
    else if HasSuffix(s) then if NameSite(c, s.region) == GlobalSite then OuterSite else NameSite(c, s.region)
    else if s.src == ForeignSrc then OuterSite
    else if s.src == CrossSrc then MixedSite
    else c.at.lit(e.id)
  }

  function Where(c: Case, e: Expr): Site {
    match e
    case Prim => LocalSite
    case Push(_, _) => LocalSite
    case Ident(x, _) => NameSite(c, x)
    case Lit(_, id, _) => c.at.lit(id)
    case Call(id, _, _, _, _) => c.at.call(id)
    case Pop(id, _, _) => c.at.call(id)
    case Copy(id, _, _) => c.at.call(id)
    case LocalRegion => LocalSite
    case RegionOf(x) => NameSite(c, x)
    case Part(base, _, _) => Where(c, base)
    case Lookup(base, _) => Where(c, base)
    case Slice(base) => Where(c, base)
    case Ternary(_, thn, _, _) => Where(c, thn)
  }

  /** Expressions that have a place: composites and regions, well typed. */
  predicate Placed(c: Case, e: Expr) {
    match e
    case Prim => false
    case Push(_, _) => false
    case Ident(x, ty) => ty == CompositeTy || (ty == RegionTy && exists q :: q in c.f.params && q.name == x && q.ty == RegionTy)
    case Lit(_, _, _) => true
    case Call(id, _, _, _, ty) => ty == CompositeTy && !c.at.handed(id)
    case Pop(_, vec, ty) => ty == CompositeTy && Allocated(vec) && Placed(c, vec)
    case Copy(_, _, _) => true
    case LocalRegion => true
    case RegionOf(x) => x in c.at.name
    case Part(base, _, ty) => ty == CompositeTy && Allocated(base) && Placed(c, base)
    case Lookup(base, _) => Allocated(base) && Placed(c, base)
    case Slice(base) => Allocated(base) && Placed(c, base)
    case Ternary(_, thn, els, ty) => ty != PrimTy && TypeOf(thn) == ty && TypeOf(els) == ty && Placed(c, thn) && Placed(c, els)
  }

  // ----- what is right at a node -----

  /** A literal that nothing moves lives where it does by itself. */
  predicate AtRest(c: Case, e: Expr) {
    e.Lit? ==> c.at.lit(e.id) == Home(c, e) && (c.at.given(e.id) <==> Suffixed(c, e))
  }

  /** A value put next to others: a literal without suffix goes to their place, which is not
      static storage; any other value has to live there already. */
  predicate PutAt(c: Case, e: Expr, site: Site) {
    if Free(c, e) then
      && (site == LocalSite || site == OuterSite)
      && c.at.lit(e.id) == site && (c.at.given(e.id) <==> site == OuterSite)
    else AtRest(c, e) && Agree(Where(c, e), site)
  }

  /** The argument that decides: the first that is no literal, or else the first. */
  predicate Leads(args: seq<Expr>, i: nat)
    requires i < |args|
  {
    || (!args[i].Lit? && forall j :: 0 <= j < i ==> args[j].Lit?)
    || (i == 0 && forall j :: 0 <= j < |args| ==> args[j].Lit?)
  }

  /** The same-region rule: every argument lives at, or is put at, the place of the one that decides. */
  ghost predicate ArgsSited(c: Case, args: seq<Expr>, site: Site) {
    && (|args| > 1 ==> site != MixedSite)
    && forall i :: 0 <= i < |args| ==>
         && Placed(c, args[i])
         && if Leads(args, i) then AtRest(c, args[i]) && Where(c, args[i]) == site else PutAt(c, args[i], site)
  }

  predicate TakesPart(params: seq<Param>, args: seq<Expr>, i: nat)
    requires i < |args|
  {
    TypeOf(args[i]) != PrimTy && !(i < |params| && params[i].isForeign)
  }

  /** The arguments from the i-th on that the same-region rule is about. */
  function Joined(params: seq<Param>, args: seq<Expr>, i: nat): seq<Expr>
    decreases |args| - i
  {
    if i >= |args| then []
    else (if TakesPart(params, args, i) then [args[i]] else []) + Joined(params, args, i + 1)
  }

  function ParamsOf(c: Case, fn: Name): seq<Param> {
    if fn in c.funcs then c.funcs[fn].params else []
  }

  /** With the region the generator adds where a call asks for one. */
  function Compared(c: Case, e: Expr): seq<Expr>
    requires e.Call?
  {
    Joined(ParamsOf(c, e.fn), e.args, 0) + if e.auto then [LocalRegion] else []
  }

  /** A vector or dictionary literal handed to a `foreign` parameter may hold anything. */
  predicate ForeignSited(c: Case, a: Expr) {
    if Free(c, a) && (a.lit.VecLit? || a.lit.DictLit?) then c.at.lit(a.id) == MixedSite && !c.at.given(a.id) else AtRest(c, a)
  }

  ghost predicate CallSited(c: Case, e: Expr)
    requires e.Call?
  {
    && (c.at.handed(e.id) ==> e.auto && SafeFn(c, e.fn))
    && if SafeFn(c, e.fn) then
         && (e.auto && !c.at.handed(e.id) ==> c.at.call(e.id) == LocalSite)
         && forall a :: a in e.args ==> AtRest(c, a)
       else
         && (Compared(c, e) != [] ==> ArgsSited(c, Compared(c, e), c.at.call(e.id)))
         && forall i :: 0 <= i < |e.args| && i < |ParamsOf(c, e.fn)| && ParamsOf(c, e.fn)[i].isForeign ==> ForeignSited(c, e.args[i])
  }

  ghost predicate PushSited(c: Case, vec: Expr, item: Expr) {
    if !Allocated(item) then AtRest(c, vec)
    else ArgsSited(c, [vec, item], if vec.Lit? && !item.Lit? then Where(c, item) else Where(c, vec))
  }

  /** Both branches live in one place; two literals without suffix stay local. */
  predicate BranchesSited(c: Case, thn: Expr, els: Expr) {
    if Free(c, thn) && Free(c, els) then AtRest(c, thn) && AtRest(c, els)
    else if Free(c, thn) then AtRest(c, els) && PutAt(c, thn, Where(c, els))
    else AtRest(c, thn) && PutAt(c, els, Where(c, thn))
  }

  predicate MixedContainer(c: Case, e: Expr)
    requires e.Lit?
  {
    c.at.lit(e.id) == MixedSite && (e.lit.VecLit? || e.lit.DictLit?)
  }

  /** An element lives with its literal; a literal whose place was given passes it on. */
  predicate ElementSited(c: Case, e: Expr, x: Expr)
    requires e.Lit?
  {
    && (x.Lit? ==>
          && c.at.lit(x.id) == (if c.at.given(e.id) then c.at.lit(e.id) else Home(c, x))
          && (c.at.given(x.id) <==> c.at.given(e.id) || Suffixed(c, x)))
    && (x.Call? && x.auto ==>
          && (c.at.given(e.id) ==> c.at.call(x.id) == c.at.lit(e.id))
          && (c.at.handed(x.id) <==> c.at.given(e.id) && c.at.lit(e.id) != LocalSite))
    && (Allocated(x) ==>
          && (Placed(c, x) || (x.Call? && x.auto))
          && (MixedContainer(c, e) || Agree(Where(c, x), c.at.lit(e.id))))
  }

  predicate LitSited(c: Case, e: Expr)
    requires e.Lit?
  {
    && (Suffixed(c, e) ==> c.at.given(e.id) && c.at.lit(e.id) == Home(c, e))
    && forall x :: x in e.elems ==> ElementSited(c, e, x)
  }

  ghost predicate ExprSited(c: Case, e: Expr) {
    match e
    case Lit(_, _, _) => LitSited(c, e)
    case Call(_, _, _, _, _) => CallSited(c, e)
    case Push(vec, item) => PushSited(c, vec, item)
    case Pop(id, vec, ty) =>
      !c.at.handed(id) && AtRest(c, vec) && Allocated(vec) && Placed(c, vec) && c.at.call(id) == Where(c, vec)
    case Copy(id, of, dest) =>
      && !c.at.handed(id) && AtRest(c, of) && (forall d :: d in dest ==> AtRest(c, d))
      && if dest == [] then c.at.call(id) == LocalSite else Placed(c, dest[0]) && c.at.call(id) == Where(c, dest[0])
    case Part(base, _, _) => AtRest(c, base)
    case Lookup(base, _) => AtRest(c, base)
    case Slice(base) => AtRest(c, base)
    case Ternary(cond, thn, els, ty) =>
      && AtRest(c, cond)
      && if ty == PrimTy then AtRest(c, thn) && AtRest(c, els) else Placed(c, e) && BranchesSited(c, thn, els)
    case _ => true
  }

  /** An own parameter or a region tells where a function allocates what it returns. */
  predicate HasImplicit(params: seq<Param>) {
    exists q :: q in params && (q.ty == RegionTy || (q.ty == CompositeTy && !q.isForeign))
  }

  /** Only values of the arguments' region are returned; a literal needs a parameter that names it. */
  predicate ReturnSited(c: Case, e: Expr) {
    && Placed(c, e) && Where(c, e) == OuterSite
    && if Free(c, e) then HasImplicit(c.f.params) && c.at.given(e.id) else AtRest(c, e)
  }

  predicate StmtSited(c: Case, s: Stmt) {
    match s
    case Declare(x, e) =>
      && TypeOf(e) != RegionTy && AtRest(c, e)
      && (Allocated(e) ==> Placed(c, e) && x in c.at.name && c.at.name[x] == Where(c, e))
    case Assign(x, e) =>
      && TypeOf(e) != RegionTy && AtRest(c, e)
      && (Allocated(e) ==> Placed(c, e) && Agree(NameSite(c, x), Where(c, e)))
    case Store(target, _, e) =>
      && Allocated(target) && Placed(c, target) && AtRest(c, target)
      && (Allocated(e) ==> Placed(c, e) && PutAt(c, e, Where(c, target)))
    case Do(e) => AtRest(c, e)
    case Return(e) => TypeOf(e) != RegionTy && (Allocated(e) ==> ReturnSited(c, e))
    case ReturnVoid => true
    case If(cond, _, _) => AtRest(c, cond)
    case While(cond, _) => AtRest(c, cond)
    case ForIn(x, ty, e, _) =>
      && AtRest(c, e) && ty != RegionTy
      && (ty == CompositeTy ==> Allocated(e) && Placed(c, e) && x in c.at.name && c.at.name[x] == Where(c, e))
  }

  ghost predicate NodeSited(c: Case, nd: Node) {
    match nd
    case ExprNode(e) => ExprSited(c, e)
    case StmtNode(s) => StmtSited(c, s)
  }

  /** Parameters: a `foreign` composite has no single region, all others are of the outer one. */
  ghost predicate ParamsSited(c: Case) {
    forall q :: q in c.f.params && q.ty != PrimTy ==>
      q.name in c.at.name && c.at.name[q.name] == if q.isForeign && q.ty == CompositeTy then MixedSite else OuterSite
  }

  /** Everything that meets in the function lives together. */
  ghost predicate Sited(c: Case) {
    && WellFormed(c.f) && Initial(c.f, c.parsed)
    && c.at.name.Keys == TableNames(c.f) && ParamsSited(c)
    && forall nd :: nd in NodesB(c.f.body) ==> NodeSited(c, nd)
  }
}
