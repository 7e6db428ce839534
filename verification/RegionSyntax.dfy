/** Core language of the region checker: the part of the syntax tree that
    `regcheck.c` looks at, with the allocation specs it assigns. */
module RegionSyntax {

  type Name = string

  datatype Kind = UnknownKind | LocalKind | GlobalKind | ContainerKind | NamedRegionKind

  datatype Source = UnknownSrc | LocalSrc | ForeignSrc | CrossSrc

  /** Where a composite value is allocated. `region` names the parameter or variable
      whose region is meant and is empty where the C field is a null pointer. */
  datatype Spec = Spec(kind: Kind, src: Source, region: Name)

  const UNKNOWN := Spec(UnknownKind, UnknownSrc, "")
  const LOCAL := Spec(LocalKind, LocalSrc, "")
  const GLOBAL := Spec(GlobalKind, ForeignSrc, "")

  /** Known, and not the local region. */
  predicate Outside(s: Source) { s == ForeignSrc || s == CrossSrc }

  predicate SrcKnown(s: Spec) { s.src != UnknownSrc }

  predicate Complete(s: Spec) { s.kind != UnknownKind && s.src != UnknownSrc }

  predicate BothKnown(s: Spec, t: Spec) { SrcKnown(s) && SrcKnown(t) }

  /** The comparison behind every "belongs to same region" diagnostic. */
  predicate SourcesMatch(s: Spec, t: Spec) {
    s.src != CrossSrc && t.src != CrossSrc && s.src == t.src
  }

  datatype Ty = PrimTy | CompositeTy | RegionTy

  datatype LitKind = VecLit | DictLit | StructLit | VariantLit | SomeLit | NoneLit | StrLit

  /** `id` keys the mutable `alloc_spec` field of the node. */
  datatype Expr =
    | Prim
    | Ident(name: Name, ty: Ty)
    | Lit(lit: LitKind, id: nat, elems: seq<Expr>)
    | Call(id: nat, fn: Name, args: seq<Expr>, auto: bool, ty: Ty)
    | Push(vec: Expr, item: Expr)
    | Pop(id: nat, vec: Expr, ty: Ty)
    | Copy(id: nat, of: Expr, dest: seq<Expr>)
    | LocalRegion
    | RegionOf(name: Name)
    | Part(base: Expr, at: nat, ty: Ty)       // member access, vector subscript, Option unwrap
    | Lookup(base: Expr, at: nat)             // dictionary subscript: a fresh Option
    | Slice(base: Expr)
    | Ternary(cond: Expr, thn: Expr, els: Expr, ty: Ty)

  function TypeOf(e: Expr): Ty {
    match e
    case Prim => PrimTy
    case Ident(_, ty) => ty
    case Lit(_, _, _) => CompositeTy
    case Call(_, _, _, _, ty) => ty
    case Push(_, _) => PrimTy
    case Pop(_, _, ty) => ty
    case Copy(_, _, _) => CompositeTy
    case LocalRegion => RegionTy
    case RegionOf(_) => RegionTy
    case Part(_, _, ty) => ty
    case Lookup(_, _) => CompositeTy
    case Slice(_) => CompositeTy
    case Ternary(_, _, _, ty) => ty
  }

  predicate Allocated(e: Expr) { TypeOf(e) == CompositeTy }

  datatype Stmt =
    | Declare(x: Name, e: Expr)
    | Assign(x: Name, e: Expr)
    | Store(target: Expr, at: nat, e: Expr)   // member set, subscript set
    | Do(e: Expr)
    | Return(e: Expr)
    | ReturnVoid
    | If(cond: Expr, thn: seq<Stmt>, els: seq<Stmt>)
    | While(cond: Expr, body: seq<Stmt>)
    | ForIn(x: Name, ty: Ty, e: Expr, body: seq<Stmt>)

  datatype Param = Param(name: Name, ty: Ty, isForeign: bool)

  datatype FuncDecl = FuncDecl(params: seq<Param>, body: seq<Stmt>)

  type Funcs = map<Name, FuncDecl>

  datatype Node = ExprNode(e: Expr) | StmtNode(s: Stmt)

  /** `jik_collect_nodes`: preorder, a node before its children. */
  function NodesE(e: Expr): (ns: seq<Node>)
    ensures ExprNode(e) in ns
  {
    [ExprNode(e)] +
    match e
    case Prim => []
    case Ident(_, _) => []
    case Lit(_, _, elems) => NodesEs(elems)
    case Call(_, _, args, _, _) => NodesEs(args)
    case Push(vec, item) => NodesE(vec) + NodesE(item)
    case Pop(_, vec, _) => NodesE(vec)
    case Copy(_, of, dest) => NodesE(of) + NodesEs(dest)
    case LocalRegion => []
    case RegionOf(_) => []
    case Part(base, _, _) => NodesE(base)
    case Lookup(base, _) => NodesE(base)
    case Slice(base) => NodesE(base)
    case Ternary(cond, thn, els, _) => NodesE(cond) + NodesE(thn) + NodesE(els)
  }

  function NodesEs(es: seq<Expr>): (ns: seq<Node>)
    ensures forall e :: e in es ==> ExprNode(e) in ns
  {
    if es == [] then [] else NodesE(es[0]) + NodesEs(es[1..])
  }

  function NodesS(s: Stmt): (ns: seq<Node>)
    ensures StmtNode(s) in ns
  {
    [StmtNode(s)] +
    match s
    case Declare(x, e) => NodesE(e) + NodesE(Ident(x, TypeOf(e)))
    case Assign(x, e) => NodesE(e) + NodesE(Ident(x, TypeOf(e)))
    case Store(target, _, e) => NodesE(target) + NodesE(e)
    case Do(e) => NodesE(e)
    case Return(e) => NodesE(e)
    case ReturnVoid => []
    case If(cond, thn, els) => NodesE(cond) + NodesB(thn) + NodesB(els)
    case While(cond, body) => NodesE(cond) + NodesB(body)
    case ForIn(_, _, e, body) => NodesE(e) + NodesB(body)
  }

  function NodesB(b: seq<Stmt>): seq<Node> {
    if b == [] then [] else NodesS(b[0]) + NodesB(b[1..])
  }

  function DeclaredS(s: Stmt): seq<Name> {
    match s
    case Declare(x, e) => if TypeOf(e) == PrimTy then [] else [x]
    case If(_, thn, els) => DeclaredB(thn) + DeclaredB(els)
    case While(_, body) => DeclaredB(body)
    case ForIn(x, ty, _, body) => (if ty == PrimTy then [] else [x]) + DeclaredB(body)
    case _ => []
  }

  function DeclaredB(b: seq<Stmt>): seq<Name> {
    if b == [] then [] else DeclaredS(b[0]) + DeclaredB(b[1..])
  }
}
