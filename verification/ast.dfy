/** The abstract syntax of Fuel programs: type signatures, expressions,
    statements and function declarations. Name binding fills in the
    `referred` fields, which the parser leaves empty. */
module Ast {
  import opened Wrappers
  import opened Symbols
  import opened Types

  /** What a name was bound to: a declaration and, for nominal type
      declarations, the type it declares. */
  datatype Entry = Entry(decl: Decl, nominalType: Option<BareType>)

  datatype Segment = Stack | Heap

  datatype TypeSign =
    | IdentSign(name: string, referred: Option<Entry>)
    | LocSign(location: Expr)
    | FuncSign(params: seq<TypeSign>, output: TypeSign)
    | TupleSign(members: seq<TypeSign>)
    | BundledSign(base: TypeSign, assumptions: seq<AssumpSign>)
    | QuantifiedSign(quantifier: Quantifier, qparams: seq<Decl>, base: TypeSign)
    | QualSign(quals: set<Qualifier>, base: TypeSign)

  /** `[a: τ]`: the identifier of a location and the type it holds. */
  datatype AssumpSign = AssumpSign(ident: Expr, sign: TypeSign)

  datatype Expr =
    | IdentExpr(name: string, referred: Option<Entry>)
    | MemberExpr(base: Expr, offset: int)
    | BoolLit(b: bool)
    | IntLit(v: int)
    | VoidLit

  datatype Stmt =
    | AllocStmt(decl: Decl, segment: Segment, sign: TypeSign, loc: Option<Decl>)
    | FreeStmt(expr: Expr)
    | StoreStmt(rvalue: Expr, lvalue: Expr)
    | LoadStmt(decl: Decl, lvalue: Expr)
    | CallStmt(decl: Decl, callee: Expr, args: seq<Expr>)
    | ReturnStmt(value: Expr)
    | IfStmt(cond: Expr, thenBody: Brace, elseBody: Option<Brace>)
    | BraceS(brace: Brace)

  datatype Brace = Brace(stmts: seq<Stmt>)

  datatype FuncDecl = FuncDecl(decl: Decl, params: seq<Decl>, sign: TypeSign, body: Option<Brace>)

  /** The declaration a statement introduces, if it is a named one
      (allocations, loads and calls). */
  function StmtDecl(s: Stmt): (r: Option<Decl>)
    ensures r.Some? <==> s.AllocStmt? || s.LoadStmt? || s.CallStmt?
  {
    match s
    case AllocStmt(d, _, _, _) => Some(d)
    case LoadStmt(d, _) => Some(d)
    case CallStmt(d, _, _) => Some(d)
    case _ => None
  }

  /** The base of an l-value and the member offsets leading from it to the
      storage, outermost first: `a.1.0` is `a` with path `[1, 0]`. An
      identifier is its own base, with the empty path. */
  function StorageRef(e: Expr): (r: (Expr, seq<int>))
    ensures !r.0.MemberExpr?
    ensures e.MemberExpr? ==> |r.1| >= 1 && r.1[|r.1| - 1] == e.offset
    ensures !e.MemberExpr? ==> r == (e, [])
  {
    match e
    case MemberExpr(b, off) =>
      var (base, path) := StorageRef(b);
      (base, path + [off])
    case _ => (e, [])
  }

  /** Rebuilds the member chain from a base and a path. */
  function MemberChain(base: Expr, path: seq<int>): Expr {
    if |path| == 0 then base else MemberExpr(MemberChain(base, path[..|path| - 1]), path[|path| - 1])
  }

  /** Splitting an l-value into base and path and rebuilding it gives it back. */
  lemma {:induction false} StorageRefRoundTrip(e: Expr)
    ensures var (base, path) := StorageRef(e); MemberChain(base, path) == e
  {
    if e.MemberExpr? {
      StorageRefRoundTrip(e.base);
      var (base, path) := StorageRef(e.base);
      assert (path + [e.offset])[..|path|] == path;
    }
  }

  /** Conversely, the path of a rebuilt chain over a non-member base is the
      path it was built from. */
  lemma {:induction false} MemberChainRoundTrip(base: Expr, path: seq<int>)
    requires !base.MemberExpr?
    ensures StorageRef(MemberChain(base, path)) == (base, path)
  {
    if |path| > 0 {
      MemberChainRoundTrip(base, path[..|path| - 1]);
      assert path[..|path| - 1] + [path[|path| - 1]] == path;
    }
  }
}
