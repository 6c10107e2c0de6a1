/** Name binding (`NameBinder`): the first analysis pass, which links every
    identifier expression and type identifier to the declaration it names
    and reports unknown names, non-type names used as types and duplicate
    declarations. The pass rebuilds the tree with the `referred` fields
    filled in; the stack of declaration contexts is the `chain` argument,
    innermost first, and `builtin` is the built-in module's context, searched
    last (`BindModule` passes `BuiltinScope()`). Diagnostics are returned in
    traversal order. */
module NameBinder {
  import opened Wrappers
  import opened Symbols
  import opened Types
  import opened Ast
  import opened Modules
  import opened Builtins
  import opened Scopes

  datatype Diag =
    | CannotFind(name: string)       // "cannot find '…' in scope"
    | NotAType(name: string)         // "'…' is not a type"
    | DuplicateDecl(name: string)    // "duplicate declaration '…'"

  /** A rebuilt node and the diagnostics raised while binding it. */
  datatype Bound<T> = Bound(node: T, diags: seq<Diag>)

  /** The built-in module, searched when the chain is exhausted. */
  function BuiltinScope(): Scope {
    ModuleScope(BuiltinModule())
  }

  /** `checkDuplicateDecl`: a declaration clashes when its context holds
      another declaration of the same name. */
  function CheckDuplicate(ctx: Scope, d: Decl): (r: seq<Diag>)
    ensures r == [] || r == [DuplicateDecl(d.name)]
    ensures r != [] <==> exists e :: e in DeclsNamed(ctx, d.name) && e.decl != d
  {
    var ds := DeclsNamed(ctx, d.name);
    if exists i | 0 <= i < |ds| :: ds[i].decl != d then [DuplicateDecl(d.name)] else []
  }

  function CheckDuplicates(ctx: Scope, ps: seq<Decl>): (r: seq<Diag>)
    ensures forall x | x in r :: x.DuplicateDecl?
  {
    if |ps| == 0 then [] else CheckDuplicate(ctx, ps[0]) + CheckDuplicates(ctx, ps[1..])
  }

  // ---------------------------------------------------------------------------
  // The shape of a tree, with every binding erased

  function EraseExpr(e: Expr): Expr {
    match e
    case IdentExpr(n, _) => IdentExpr(n, None)
    case MemberExpr(b, off) => MemberExpr(EraseExpr(b), off)
    case _ => e
  }

  function EraseExprs(es: seq<Expr>): (r: seq<Expr>)
    ensures |r| == |es|
  {
    if |es| == 0 then [] else [EraseExpr(es[0])] + EraseExprs(es[1..])
  }

  function EraseSign(s: TypeSign): TypeSign {
    match s
    case IdentSign(n, _) => IdentSign(n, None)
    case LocSign(l) => LocSign(EraseExpr(l))
    case FuncSign(ps, o) => FuncSign(EraseSigns(ps), EraseSign(o))
    case TupleSign(ms) => TupleSign(EraseSigns(ms))
    case BundledSign(b, asms) => BundledSign(EraseSign(b), EraseAssumps(asms))
    case QuantifiedSign(q, ps, b) => QuantifiedSign(q, ps, EraseSign(b))
    case QualSign(qs, b) => QualSign(qs, EraseSign(b))
  }

  function EraseSigns(ss: seq<TypeSign>): (r: seq<TypeSign>)
    ensures |r| == |ss|
  {
    if |ss| == 0 then [] else [EraseSign(ss[0])] + EraseSigns(ss[1..])
  }

  function EraseAssump(a: AssumpSign): AssumpSign {
    AssumpSign(EraseExpr(a.ident), EraseSign(a.sign))
  }

  function EraseAssumps(asms: seq<AssumpSign>): (r: seq<AssumpSign>)
    ensures |r| == |asms|
  {
    if |asms| == 0 then [] else [EraseAssump(asms[0])] + EraseAssumps(asms[1..])
  }

  function EraseStmt(s: Stmt): Stmt {
    match s
    case AllocStmt(d, seg, sign, l) => AllocStmt(d, seg, EraseSign(sign), l)
    case FreeStmt(e) => FreeStmt(EraseExpr(e))
    case StoreStmt(v, l) => StoreStmt(EraseExpr(v), EraseExpr(l))
    case LoadStmt(d, l) => LoadStmt(d, EraseExpr(l))
    case CallStmt(d, c, asms) => CallStmt(d, EraseExpr(c), EraseExprs(asms))
    case ReturnStmt(v) => ReturnStmt(EraseExpr(v))
    case IfStmt(c, t, e) => IfStmt(EraseExpr(c), EraseBrace(t), EraseElse(e))
    case BraceS(b) => BraceS(EraseBrace(b))
  }

  function EraseElse(e: Option<Brace>): Option<Brace> {
    if e.Some? then Some(EraseBrace(e.value)) else None
  }

  function EraseStmts(ss: seq<Stmt>): (r: seq<Stmt>)
    ensures |r| == |ss|
  {
    if |ss| == 0 then [] else [EraseStmt(ss[0])] + EraseStmts(ss[1..])
  }

  function EraseBrace(b: Brace): Brace {
    Brace(EraseStmts(b.stmts))
  }

  function EraseFunc(f: FuncDecl): FuncDecl {
    FuncDecl(f.decl, f.params, EraseSign(f.sign), if f.body.Some? then Some(EraseBrace(f.body.value)) else None)
  }

  function EraseFuncs(fs: seq<FuncDecl>): (r: seq<FuncDecl>)
    ensures |r| == |fs|
  {
    if |fs| == 0 then [] else [EraseFunc(fs[0])] + EraseFuncs(fs[1..])
  }

  // ---------------------------------------------------------------------------
  // The identifiers of a tree, in traversal order

  /** An identifier occurrence: its name, what it is bound to, and whether
      it names a type. */
  datatype Ref = Ref(name: string, referred: Option<Entry>, isType: bool)

  function RefsExpr(e: Expr): seq<Ref> {
    match e
    case IdentExpr(n, r) => [Ref(n, r, false)]
    case MemberExpr(b, _) => RefsExpr(b)
    case _ => []
  }

  function RefsExprs(es: seq<Expr>): seq<Ref> {
    if |es| == 0 then [] else RefsExpr(es[0]) + RefsExprs(es[1..])
  }

  function RefsSign(s: TypeSign): seq<Ref> {
    match s
    case IdentSign(n, r) => [Ref(n, r, true)]
    case LocSign(l) => RefsExpr(l)
    case FuncSign(ps, o) => RefsSigns(ps) + RefsSign(o)
    case TupleSign(ms) => RefsSigns(ms)
    case BundledSign(b, asms) => RefsSign(b) + RefsAssumps(asms)
    case QuantifiedSign(_, _, b) => RefsSign(b)
    case QualSign(_, b) => RefsSign(b)
  }

  function RefsSigns(ss: seq<TypeSign>): seq<Ref> {
    if |ss| == 0 then [] else RefsSign(ss[0]) + RefsSigns(ss[1..])
  }

  function RefsAssump(a: AssumpSign): seq<Ref> {
    RefsExpr(a.ident) + RefsSign(a.sign)
  }

  function RefsAssumps(asms: seq<AssumpSign>): seq<Ref> {
    if |asms| == 0 then [] else RefsAssump(asms[0]) + RefsAssumps(asms[1..])
  }

  function RefsStmt(s: Stmt): seq<Ref> {
    match s
    case AllocStmt(_, _, sign, _) => RefsSign(sign)
    case FreeStmt(e) => RefsExpr(e)
    case StoreStmt(v, l) => RefsExpr(v) + RefsExpr(l)
    case LoadStmt(_, l) => RefsExpr(l)
    case CallStmt(_, c, asms) => RefsExpr(c) + RefsExprs(asms)
    case ReturnStmt(v) => RefsExpr(v)
    case IfStmt(c, t, e) => RefsExpr(c) + RefsBrace(t) + RefsElse(e)
    case BraceS(b) => RefsBrace(b)
  }

  function RefsElse(e: Option<Brace>): seq<Ref> {
    if e.Some? then RefsBrace(e.value) else []
  }

  function RefsStmts(ss: seq<Stmt>): seq<Ref> {
    if |ss| == 0 then [] else RefsStmt(ss[0]) + RefsStmts(ss[1..])
  }

  function RefsBrace(b: Brace): seq<Ref> {
    RefsStmts(b.stmts)
  }

  function RefsFunc(f: FuncDecl): seq<Ref> {
    RefsSign(f.sign) + (if f.body.Some? then RefsBrace(f.body.value) else [])
  }

  function RefsFuncs(fs: seq<FuncDecl>): seq<Ref> {
    if |fs| == 0 then [] else RefsFunc(fs[0]) + RefsFuncs(fs[1..])
  }

  /** No identifier is bound yet, as the parser leaves them. */
  predicate Fresh(rs: seq<Ref>) {
    forall i | 0 <= i < |rs| :: rs[i].referred.None?
  }

  /** Every identifier is bound. */
  predicate Resolved(rs: seq<Ref>) {
    forall i | 0 <= i < |rs| :: rs[i].referred.Some?
  }

  /** Every bound identifier names the declaration it is bound to, and a
      type identifier is bound to a nominal type declaration. */
  predicate WellBound(rs: seq<Ref>) {
    forall i | 0 <= i < |rs| :: rs[i].referred.Some? ==>
      rs[i].referred.value.decl.name == rs[i].name && (rs[i].isType ==> rs[i].referred.value.nominalType.Some?)
  }

  /** No diagnostic reports an unresolved name. */
  predicate NamesFound(ds: seq<Diag>) {
    forall i | 0 <= i < |ds| :: ds[i].DuplicateDecl?
  }

  /** What binding promises of every subtree: the shape is unchanged,
      well-bound identifiers stay well bound, and a tree whose identifiers
      were all unbound comes out fully resolved exactly when no name was
      reported missing. */
  predicate Binds(before: seq<Ref>, after: seq<Ref>, ds: seq<Diag>) {
    |after| == |before| &&
    (WellBound(before) ==> WellBound(after)) &&
    (Fresh(before) ==> (Resolved(after) <==> NamesFound(ds)))
  }

  lemma BindsConcat(b1: seq<Ref>, a1: seq<Ref>, d1: seq<Diag>, b2: seq<Ref>, a2: seq<Ref>, d2: seq<Diag>)
    requires Binds(b1, a1, d1) && Binds(b2, a2, d2)
    ensures Binds(b1 + b2, a1 + a2, d1 + d2)
  {
    var b, a, d := b1 + b2, a1 + a2, d1 + d2;
    if WellBound(b) {
      assert forall i | 0 <= i < |b1| :: b1[i] == b[i];
      assert forall i | 0 <= i < |b2| :: b2[i] == b[|b1| + i];
    }
    if Fresh(b) {
      assert forall i | 0 <= i < |b1| :: b1[i] == b[i];
      assert forall i | 0 <= i < |b2| :: b2[i] == b[|b1| + i];
      assert Resolved(a) <==> Resolved(a1) && Resolved(a2) by {
        if Resolved(a1) && Resolved(a2) {
          forall i | 0 <= i < |a| ensures a[i].referred.Some? {
            if i >= |a1| { assert a[i] == a2[i - |a1|]; }
          }
        }
        if Resolved(a) {
          forall i | 0 <= i < |a1| ensures a1[i].referred.Some? { assert a1[i] == a[i]; }
          forall i | 0 <= i < |a2| ensures a2[i].referred.Some? { assert a2[i] == a[|a1| + i]; }
        }
      }
      assert NamesFound(d) <==> NamesFound(d1) && NamesFound(d2) by {
        if NamesFound(d1) && NamesFound(d2) {
          forall i | 0 <= i < |d| ensures d[i].DuplicateDecl? {
            if i >= |d1| { assert d[i] == d2[i - |d1|]; }
          }
        }
        if NamesFound(d) {
          forall i | 0 <= i < |d1| ensures d1[i].DuplicateDecl? { assert d1[i] == d[i]; }
          forall i | 0 <= i < |d2| ensures d2[i].DuplicateDecl? { assert d2[i] == d[|d1| + i]; }
        }
      }
    }
  }

  /** Duplicate reports in front of a subtree's diagnostics change
      nothing about name resolution. */
  lemma BindsAfterDuplicates(dup: seq<Diag>, b: seq<Ref>, a: seq<Ref>, ds: seq<Diag>)
    requires forall x | x in dup :: x.DuplicateDecl?
    requires Binds(b, a, ds)
    ensures Binds(b, a, dup + ds)
  {
    assert forall i | 0 <= i < |dup| :: dup[i] in dup;
    assert forall i | 0 <= i < |ds| :: ds[i] == (dup + ds)[|dup| + i];
  }

  /** An identifier bound to a declaration of its name. */
  lemma BindsResolved(n: string, before: Option<Entry>, d: Entry, isType: bool)
    requires d.decl.name == n && (isType ==> d.nominalType.Some?)
    ensures Binds([Ref(n, before, isType)], [Ref(n, Some(d), isType)], [])
  {
  }

  /** An identifier left unbound with a report of its name. */
  lemma BindsUnresolved(x: Ref, d: Diag)
    requires !d.DuplicateDecl?
    ensures Binds([x], [x], [d])
  {
    assert !NamesFound([d]) by { assert [d][0] == d; }
    if Fresh([x]) {
      assert !Resolved([x]) by { assert [x][0] == x; }
    }
  }

  // ---------------------------------------------------------------------------
  // The pass

  function BindExpr(chain: seq<Scope>, builtin: Scope, e: Expr): (r: Bound<Expr>)
    requires |chain| >= 1
    ensures EraseExpr(r.node) == EraseExpr(e)
    ensures Binds(RefsExpr(e), RefsExpr(r.node), r.diags)
    ensures e.IdentExpr? ==> match LookupName(chain, builtin, e.name)
      case Some(d) => r == Bound(IdentExpr(e.name, Some(d)), [])
      case None => r == Bound(e, [CannotFind(e.name)])
    decreases e
  {
    match e
    case IdentExpr(n, _) =>
      (match LookupName(chain, builtin, n)
       case Some(d) =>
         BindsResolved(n, e.referred, d, false);
         Bound(IdentExpr(n, Some(d)), [])
       case None =>
         BindsUnresolved(Ref(n, e.referred, false), CannotFind(n));
         Bound(e, [CannotFind(n)]))
    case MemberExpr(b, off) =>
      var rb := BindExpr(chain, builtin, b);
      Bound(MemberExpr(rb.node, off), rb.diags)
    case _ => Bound(e, [])
  }

  function BindExprs(chain: seq<Scope>, builtin: Scope, es: seq<Expr>): (r: Bound<seq<Expr>>)
    requires |chain| >= 1
    ensures EraseExprs(r.node) == EraseExprs(es)
    ensures Binds(RefsExprs(es), RefsExprs(r.node), r.diags)
    decreases es
  {
    if |es| == 0 then Bound([], [])
    else
      var h := BindExpr(chain, builtin, es[0]);
      var t := BindExprs(chain, builtin, es[1..]);
      var node := [h.node] + t.node;
      assert node[0] == h.node && node[1..] == t.node;
      BindsConcat(RefsExpr(es[0]), RefsExpr(h.node), h.diags, RefsExprs(es[1..]), RefsExprs(t.node), t.diags);
      Bound(node, h.diags + t.diags)
  }

  /** A type identifier binds only to a nominal type declaration. */
  function BindIdentSign(chain: seq<Scope>, builtin: Scope, s: TypeSign): (r: Bound<TypeSign>)
    requires |chain| >= 1 && s.IdentSign?
    ensures Binds(RefsSign(s), RefsSign(r.node), r.diags)
    ensures match LookupName(chain, builtin, s.name)
      case Some(d) =>
        if d.nominalType.Some? then r == Bound(IdentSign(s.name, Some(d)), [])
        else r == Bound(s, [NotAType(s.name)])
      case None => r == Bound(s, [CannotFind(s.name)])
  {
    match LookupName(chain, builtin, s.name)
    case Some(d) =>
      if d.nominalType.Some? then
        BindsResolved(s.name, s.referred, d, true);
        Bound(IdentSign(s.name, Some(d)), [])
      else
        BindsUnresolved(Ref(s.name, s.referred, true), NotAType(s.name));
        Bound(s, [NotAType(s.name)])
    case None =>
      BindsUnresolved(Ref(s.name, s.referred, true), CannotFind(s.name));
      Bound(s, [CannotFind(s.name)])
  }

  function BindFuncSign(chain: seq<Scope>, builtin: Scope, s: TypeSign): (r: Bound<TypeSign>)
    requires |chain| >= 1 && s.FuncSign?
    ensures EraseSign(r.node) == EraseSign(s)
    ensures Binds(RefsSign(s), RefsSign(r.node), r.diags)
    decreases s, 0
  {
    var rp := BindSigns(chain, builtin, s.params);
    var ro := BindSign(chain, builtin, s.output);
    BindsConcat(RefsSigns(s.params), RefsSigns(rp.node), rp.diags, RefsSign(s.output), RefsSign(ro.node), ro.diags);
    Bound(FuncSign(rp.node, ro.node), rp.diags + ro.diags)
  }

  function BindBundledSign(chain: seq<Scope>, builtin: Scope, s: TypeSign): (r: Bound<TypeSign>)
    requires |chain| >= 1 && s.BundledSign?
    ensures EraseSign(r.node) == EraseSign(s)
    ensures Binds(RefsSign(s), RefsSign(r.node), r.diags)
    decreases s, 0
  {
    var rb := BindSign(chain, builtin, s.base);
    var ra := BindAssumps(chain, builtin, s.assumptions);
    BindsConcat(RefsSign(s.base), RefsSign(rb.node), rb.diags, RefsAssumps(s.assumptions), RefsAssumps(ra.node), ra.diags);
    Bound(BundledSign(rb.node, ra.node), rb.diags + ra.diags)
  }

  /** A quantified signature opens a context holding its parameters, each
      checked for duplicates there, and binds its base inside it. */
  function BindQuantifiedSign(chain: seq<Scope>, builtin: Scope, s: TypeSign): (r: Bound<TypeSign>)
    requires |chain| >= 1 && s.QuantifiedSign?
    ensures EraseSign(r.node) == EraseSign(s)
    ensures Binds(RefsSign(s), RefsSign(r.node), r.diags)
    ensures CheckDuplicates(QuantScope(s.qparams), s.qparams) <= r.diags
    decreases s, 0
  {
    var dup := CheckDuplicates(QuantScope(s.qparams), s.qparams);
    var rb := BindSign([QuantScope(s.qparams)] + chain, builtin, s.base);
    BindsAfterDuplicates(dup, RefsSign(s.base), RefsSign(rb.node), rb.diags);
    assert dup <= dup + rb.diags;
    Bound(QuantifiedSign(s.quantifier, s.qparams, rb.node), dup + rb.diags)
  }

  function BindSign(chain: seq<Scope>, builtin: Scope, s: TypeSign): (r: Bound<TypeSign>)
    requires |chain| >= 1
    ensures EraseSign(r.node) == EraseSign(s)
    ensures Binds(RefsSign(s), RefsSign(r.node), r.diags)
    decreases s, 1
  {
    match s
    case IdentSign(n, _) => BindIdentSign(chain, builtin, s)
    case LocSign(l) =>
      var rl := BindExpr(chain, builtin, l);
      Bound(LocSign(rl.node), rl.diags)
    case FuncSign(_, _) => BindFuncSign(chain, builtin, s)
    case TupleSign(ms) =>
      var rm := BindSigns(chain, builtin, ms);
      Bound(TupleSign(rm.node), rm.diags)
    case BundledSign(_, _) => BindBundledSign(chain, builtin, s)
    case QuantifiedSign(_, _, _) => BindQuantifiedSign(chain, builtin, s)
    case QualSign(qs, b) =>
      var rb := BindSign(chain, builtin, b);
      Bound(QualSign(qs, rb.node), rb.diags)
  }

  function BindSigns(chain: seq<Scope>, builtin: Scope, ss: seq<TypeSign>): (r: Bound<seq<TypeSign>>)
    requires |chain| >= 1
    ensures EraseSigns(r.node) == EraseSigns(ss)
    ensures Binds(RefsSigns(ss), RefsSigns(r.node), r.diags)
    decreases ss, 2
  {
    if |ss| == 0 then Bound([], [])
    else
      var h := BindSign(chain, builtin, ss[0]);
      var t := BindSigns(chain, builtin, ss[1..]);
      var node := [h.node] + t.node;
      assert node[0] == h.node && node[1..] == t.node;
      BindsConcat(RefsSign(ss[0]), RefsSign(h.node), h.diags, RefsSigns(ss[1..]), RefsSigns(t.node), t.diags);
      Bound(node, h.diags + t.diags)
  }

  function BindAssump(chain: seq<Scope>, builtin: Scope, a: AssumpSign): (r: Bound<AssumpSign>)
    requires |chain| >= 1
    ensures EraseAssump(r.node) == EraseAssump(a)
    ensures Binds(RefsAssump(a), RefsAssump(r.node), r.diags)
    decreases a, 2
  {
    var hi := BindExpr(chain, builtin, a.ident);
    var hs := BindSign(chain, builtin, a.sign);
    BindsConcat(RefsExpr(a.ident), RefsExpr(hi.node), hi.diags, RefsSign(a.sign), RefsSign(hs.node), hs.diags);
    Bound(AssumpSign(hi.node, hs.node), hi.diags + hs.diags)
  }

  function BindAssumps(chain: seq<Scope>, builtin: Scope, asms: seq<AssumpSign>): (r: Bound<seq<AssumpSign>>)
    requires |chain| >= 1
    ensures EraseAssumps(r.node) == EraseAssumps(asms)
    ensures Binds(RefsAssumps(asms), RefsAssumps(r.node), r.diags)
    decreases asms, 3
  {
    if |asms| == 0 then Bound([], [])
    else
      var h := BindAssump(chain, builtin, asms[0]);
      var t := BindAssumps(chain, builtin, asms[1..]);
      var node := [h.node] + t.node;
      assert node[0] == h.node && node[1..] == t.node;
      BindsConcat(RefsAssump(asms[0]), RefsAssump(h.node), h.diags, RefsAssumps(asms[1..]), RefsAssumps(t.node), t.diags);
      Bound(node, h.diags + t.diags)
  }

  /** An allocation declares its name in the current context. */
  function BindAlloc(chain: seq<Scope>, builtin: Scope, s: Stmt): (r: Bound<Stmt>)
    requires |chain| >= 1 && s.AllocStmt?
    ensures EraseStmt(r.node) == EraseStmt(s)
    ensures Binds(RefsStmt(s), RefsStmt(r.node), r.diags)
    ensures CheckDuplicate(chain[0], s.decl) <= r.diags
    decreases s, 0
  {
    var dup := CheckDuplicate(chain[0], s.decl);
    var rs := BindSign(chain, builtin, s.sign);
    BindsAfterDuplicates(dup, RefsSign(s.sign), RefsSign(rs.node), rs.diags);
    assert dup <= dup + rs.diags;
    Bound(AllocStmt(s.decl, s.segment, rs.node, s.loc), dup + rs.diags)
  }

  function BindStore(chain: seq<Scope>, builtin: Scope, s: Stmt): (r: Bound<Stmt>)
    requires |chain| >= 1 && s.StoreStmt?
    ensures EraseStmt(r.node) == EraseStmt(s)
    ensures Binds(RefsStmt(s), RefsStmt(r.node), r.diags)
    decreases s, 0
  {
    var rv := BindExpr(chain, builtin, s.rvalue);
    var rl := BindExpr(chain, builtin, s.lvalue);
    BindsConcat(RefsExpr(s.rvalue), RefsExpr(rv.node), rv.diags, RefsExpr(s.lvalue), RefsExpr(rl.node), rl.diags);
    Bound(StoreStmt(rv.node, rl.node), rv.diags + rl.diags)
  }

  /** A load declares its name in the current context. */
  function BindLoad(chain: seq<Scope>, builtin: Scope, s: Stmt): (r: Bound<Stmt>)
    requires |chain| >= 1 && s.LoadStmt?
    ensures EraseStmt(r.node) == EraseStmt(s)
    ensures Binds(RefsStmt(s), RefsStmt(r.node), r.diags)
    ensures CheckDuplicate(chain[0], s.decl) <= r.diags
    decreases s, 0
  {
    var dup := CheckDuplicate(chain[0], s.decl);
    var rl := BindExpr(chain, builtin, s.lvalue);
    BindsAfterDuplicates(dup, RefsExpr(s.lvalue), RefsExpr(rl.node), rl.diags);
    assert dup <= dup + rl.diags;
    Bound(LoadStmt(s.decl, rl.node), dup + rl.diags)
  }

  function BindFree(chain: seq<Scope>, builtin: Scope, s: Stmt): (r: Bound<Stmt>)
    requires |chain| >= 1 && s.FreeStmt?
    ensures EraseStmt(r.node) == EraseStmt(s)
    ensures Binds(RefsStmt(s), RefsStmt(r.node), r.diags)
    decreases s, 0
  {
    var re := BindExpr(chain, builtin, s.expr);
    Bound(FreeStmt(re.node), re.diags)
  }

  function BindReturn(chain: seq<Scope>, builtin: Scope, s: Stmt): (r: Bound<Stmt>)
    requires |chain| >= 1 && s.ReturnStmt?
    ensures EraseStmt(r.node) == EraseStmt(s)
    ensures Binds(RefsStmt(s), RefsStmt(r.node), r.diags)
    decreases s, 0
  {
    var rv := BindExpr(chain, builtin, s.value);
    Bound(ReturnStmt(rv.node), rv.diags)
  }

  function BindBraceStmt(chain: seq<Scope>, builtin: Scope, s: Stmt): (r: Bound<Stmt>)
    requires |chain| >= 1 && s.BraceS?
    ensures EraseStmt(r.node) == EraseStmt(s)
    ensures Binds(RefsStmt(s), RefsStmt(r.node), r.diags)
    decreases s, 0
  {
    var rb := BindBrace(chain, builtin, s.brace);
    Bound(BraceS(rb.node), rb.diags)
  }

  function BindCall(chain: seq<Scope>, builtin: Scope, s: Stmt): (r: Bound<Stmt>)
    requires |chain| >= 1 && s.CallStmt?
    ensures EraseStmt(r.node) == EraseStmt(s)
    ensures Binds(RefsStmt(s), RefsStmt(r.node), r.diags)
    ensures CheckDuplicate(chain[0], s.decl) <= r.diags
    decreases s, 0
  {
    var dup := CheckDuplicate(chain[0], s.decl);
    var rc := BindExpr(chain, builtin, s.callee);
    var ra := BindExprs(chain, builtin, s.args);
    BindsConcat(RefsExpr(s.callee), RefsExpr(rc.node), rc.diags, RefsExprs(s.args), RefsExprs(ra.node), ra.diags);
    BindsAfterDuplicates(dup, RefsExpr(s.callee) + RefsExprs(s.args), RefsExpr(rc.node) + RefsExprs(ra.node), rc.diags + ra.diags);
    assert dup <= dup + (rc.diags + ra.diags);
    Bound(CallStmt(s.decl, rc.node, ra.node), dup + (rc.diags + ra.diags))
  }

  function BindElse(chain: seq<Scope>, builtin: Scope, e: Option<Brace>): (r: Bound<Option<Brace>>)
    requires |chain| >= 1
    ensures EraseElse(r.node) == EraseElse(e)
    ensures Binds(RefsElse(e), RefsElse(r.node), r.diags)
    decreases e, 4
  {
    if e.Some? then
      var rb := BindBrace(chain, builtin, e.value);
      Bound(Some(rb.node), rb.diags)
    else Bound(None, [])
  }

  /** Both branches of a conditional are bound in the current context. */
  function BindIf(chain: seq<Scope>, builtin: Scope, s: Stmt): (r: Bound<Stmt>)
    requires |chain| >= 1 && s.IfStmt?
    ensures EraseStmt(r.node) == EraseStmt(s)
    ensures Binds(RefsStmt(s), RefsStmt(r.node), r.diags)
    decreases s, 0
  {
    var rc := BindExpr(chain, builtin, s.cond);
    var rt := BindBrace(chain, builtin, s.thenBody);
    var re := BindElse(chain, builtin, s.elseBody);
    BindsConcat(RefsExpr(s.cond), RefsExpr(rc.node), rc.diags, RefsBrace(s.thenBody), RefsBrace(rt.node), rt.diags);
    BindsConcat(RefsExpr(s.cond) + RefsBrace(s.thenBody), RefsExpr(rc.node) + RefsBrace(rt.node), rc.diags + rt.diags,
                RefsElse(s.elseBody), RefsElse(re.node), re.diags);
    Bound(IfStmt(rc.node, rt.node, re.node), rc.diags + rt.diags + re.diags)
  }

  /** A statement is bound in the context `chain[0]`; the declarations it
      introduces are checked for duplicates there. */
  function BindStmt(chain: seq<Scope>, builtin: Scope, s: Stmt): (r: Bound<Stmt>)
    requires |chain| >= 1
    ensures EraseStmt(r.node) == EraseStmt(s)
    ensures Binds(RefsStmt(s), RefsStmt(r.node), r.diags)
    ensures StmtDecl(s).Some? ==> CheckDuplicate(chain[0], StmtDecl(s).value) <= r.diags
    decreases s, 1
  {
    match s
    case AllocStmt(_, _, _, _) => BindAlloc(chain, builtin, s)
    case FreeStmt(_) => BindFree(chain, builtin, s)
    case StoreStmt(_, _) => BindStore(chain, builtin, s)
    case LoadStmt(_, _) => BindLoad(chain, builtin, s)
    case CallStmt(d, c, asms) =>
      BindCall(chain, builtin, s)
    case ReturnStmt(_) => BindReturn(chain, builtin, s)
    case IfStmt(c, t, e) =>
      BindIf(chain, builtin, s)
    case BraceS(_) => BindBraceStmt(chain, builtin, s)
  }

  function BindStmts(chain: seq<Scope>, builtin: Scope, ss: seq<Stmt>): (r: Bound<seq<Stmt>>)
    requires |chain| >= 1
    ensures EraseStmts(r.node) == EraseStmts(ss)
    ensures Binds(RefsStmts(ss), RefsStmts(r.node), r.diags)
    decreases ss, 2
  {
    if |ss| == 0 then Bound([], [])
    else
      var h := BindStmt(chain, builtin, ss[0]);
      var t := BindStmts(chain, builtin, ss[1..]);
      var node := [h.node] + t.node;
      assert node[0] == h.node && node[1..] == t.node;
      BindsConcat(RefsStmt(ss[0]), RefsStmt(h.node), h.diags, RefsStmts(ss[1..]), RefsStmts(t.node), t.diags);
      Bound(node, h.diags + t.diags)
  }

  /** A block opens a context whose parent is the current one. */
  function BindBrace(chain: seq<Scope>, builtin: Scope, b: Brace): (r: Bound<Brace>)
    requires |chain| >= 1
    ensures EraseBrace(r.node) == EraseBrace(b)
    ensures Binds(RefsBrace(b), RefsBrace(r.node), r.diags)
    decreases b, 3
  {
    var rs := BindStmts([BraceScope(NewBrace(b.stmts))] + chain, builtin, b.stmts);
    Bound(Brace(rs.node), rs.diags)
  }

  /** The signature and body of a function, bound in the function's own
      context `chain[0]`. */
  function BindFuncParts(chain: seq<Scope>, builtin: Scope, f: FuncDecl): (r: Bound<FuncDecl>)
    requires |chain| >= 1
    ensures EraseFunc(r.node) == EraseFunc(f)
    ensures Binds(RefsFunc(f), RefsFunc(r.node), r.diags)
  {
    var rs := BindSign(chain, builtin, f.sign);
    if f.body.Some? then
      var rb := BindBrace(chain, builtin, f.body.value);
      BindsConcat(RefsSign(f.sign), RefsSign(rs.node), rs.diags, RefsBrace(f.body.value), RefsBrace(rb.node), rb.diags);
      Bound(FuncDecl(f.decl, f.params, rs.node, Some(rb.node)), rs.diags + rb.diags)
    else
      assert RefsSign(f.sign) + [] == RefsSign(f.sign);
      assert RefsSign(rs.node) + [] == RefsSign(rs.node);
      Bound(FuncDecl(f.decl, f.params, rs.node, None), rs.diags)
  }

  /** A function is checked for duplicates in its enclosing context, then
      its signature and body are bound in its own context, where its
      parameters are visible. */
  function BindFunc(chain: seq<Scope>, builtin: Scope, f: FuncDecl): (r: Bound<FuncDecl>)
    requires |chain| >= 1
    ensures EraseFunc(r.node) == EraseFunc(f)
    ensures Binds(RefsFunc(f), RefsFunc(r.node), r.diags)
    ensures CheckDuplicate(chain[0], f.decl) <= r.diags
  {
    var dup := CheckDuplicate(chain[0], f.decl);
    var rp := BindFuncParts([FuncScope(f)] + chain, builtin, f);
    BindsAfterDuplicates(dup, RefsFunc(f), RefsFunc(rp.node), rp.diags);
    assert dup <= dup + rp.diags;
    Bound(rp.node, dup + rp.diags)
  }

  function BindFuncs(chain: seq<Scope>, builtin: Scope, fs: seq<FuncDecl>): (r: Bound<seq<FuncDecl>>)
    requires |chain| >= 1
    ensures EraseFuncs(r.node) == EraseFuncs(fs)
    ensures Binds(RefsFuncs(fs), RefsFuncs(r.node), r.diags)
  {
    if |fs| == 0 then Bound([], [])
    else
      var h := BindFunc(chain, builtin, fs[0]);
      var t := BindFuncs(chain, builtin, fs[1..]);
      var node := [h.node] + t.node;
      assert node[0] == h.node && node[1..] == t.node;
      BindsConcat(RefsFunc(fs[0]), RefsFunc(h.node), h.diags, RefsFuncs(fs[1..]), RefsFuncs(t.node), t.diags);
      Bound(node, h.diags + t.diags)
  }

  /** `visit(Module)`: clears the goals, binds every function in the
      module's context, and records `namesResolved` only when nothing was
      reported. */
  function BindModule(m: Module): (r: Bound<Module>)
    ensures r.node.goals == (if r.diags == [] then {NamesResolved} else {})
    ensures r.node.id == m.id && r.node.typeDecls == m.typeDecls && r.node.isBuiltin == m.isBuiltin
    ensures EraseFuncs(r.node.funcDecls) == EraseFuncs(m.funcDecls)
    ensures Binds(RefsFuncs(m.funcDecls), RefsFuncs(r.node.funcDecls), r.diags)
  {
    var cleared := m.(goals := {});
    var rf := BindFuncs([ModuleScope(cleared)], BuiltinScope(), m.funcDecls);
    Bound(cleared.(funcDecls := rf.node, goals := if rf.diags == [] then {NamesResolved} else {}), rf.diags)
  }

  /** A module whose identifiers were all unbound reaches `namesResolved`
      only with every identifier bound to a declaration of its own name, a
      type identifier to a type declaration. */
  lemma NamesResolvedMeansBound(m: Module)
    requires Fresh(RefsFuncs(m.funcDecls))
    ensures var r := BindModule(m);
      NamesResolved in r.node.goals ==> Resolved(RefsFuncs(r.node.funcDecls)) && WellBound(RefsFuncs(r.node.funcDecls))
  {
    var r := BindModule(m);
    var rs := RefsFuncs(m.funcDecls);
    assert WellBound(rs);
    if NamesResolved in r.node.goals {
      assert r.diags == [];
    }
  }
}
