/** Declaration contexts and name lookup. A context lists the declarations
    it introduces under each name; lookup walks from the innermost context
    outward and finally searches the built-in module. */
module Scopes {
  import opened Wrappers
  import opened Symbols
  import opened Types
  import opened Ast
  import opened Modules

  /** The declarations of a name, in declaration order. */
  function Named(es: seq<Entry>, name: string): (r: seq<Entry>)
    ensures forall e :: e in r <==> e in es && e.decl.name == name
    ensures |r| <= |es|
  {
    if |es| == 0 then []
    else if es[0].decl.name == name then [es[0]] + Named(es[1..], name)
    else Named(es[1..], name)
  }

  lemma {:induction false} NamedConcat(a: seq<Entry>, b: seq<Entry>, name: string)
    ensures Named(a + b, name) == Named(a, name) + Named(b, name)
  {
    if |a| == 0 {
      assert a + b == b;
    } else {
      assert (a + b)[0] == a[0];
      assert (a + b)[1..] == a[1..] + b;
      NamedConcat(a[1..], b, name);
    }
  }

  // ---------------------------------------------------------------------------
  // Brace statements and their declaration cache

  /** The entries a statement contributes to its block: the declaration it
      introduces, followed, for a stack allocation with an explicit location,
      by that location's declaration. */
  function StmtEntries(s: Stmt): seq<Entry> {
    match s
    case AllocStmt(d, Stack, _, Some(l)) => [Entry(d, None), Entry(l, None)]
    case AllocStmt(d, _, _, _) => [Entry(d, None)]
    case LoadStmt(d, _) => [Entry(d, None)]
    case CallStmt(d, _, _) => [Entry(d, None)]
    case _ => []
  }

  function AllEntries(stmts: seq<Stmt>): seq<Entry> {
    if |stmts| == 0 then [] else StmtEntries(stmts[0]) + AllEntries(stmts[1..])
  }

  /** A cache files each declaration under its own name. */
  type DeclCache = c: map<string, seq<Entry>> | forall n | n in c :: forall e | e in c[n] :: e.decl.name == n
    witness map[]

  function Lookup(cache: DeclCache, name: string): seq<Entry> {
    if name in cache then cache[name] else []
  }

  /** Files one more declaration under its name. */
  function AppendEntry(cache: DeclCache, e: Entry): (r: DeclCache)
    ensures forall n :: Lookup(r, n) == Lookup(cache, n) + (if e.decl.name == n then [e] else [])
  {
    var n := e.decl.name;
    var r := cache[n := Lookup(cache, n) + [e]];
    assert forall m | m in r :: forall x | x in r[m] :: x.decl.name == m by {
      forall m | m in r
        ensures forall x | x in r[m] :: x.decl.name == m
      {
        if m != n { assert r[m] == cache[m]; }
      }
    }
    r
  }

  lemma NamedCons(es: seq<Entry>, n: string)
    requires |es| > 0
    ensures Named(es, n) == (if es[0].decl.name == n then [es[0]] else []) + Named(es[1..], n)
  {
  }

  function AppendEntries(cache: DeclCache, es: seq<Entry>): DeclCache
    decreases |es|
  {
    if |es| == 0 then cache else AppendEntries(AppendEntry(cache, es[0]), es[1..])
  }

  lemma {:induction false} AppendEntriesFiles(cache: DeclCache, es: seq<Entry>, n: string)
    ensures Lookup(AppendEntries(cache, es), n) == Lookup(cache, n) + Named(es, n)
    decreases |es|
  {
    if |es| > 0 {
      var c1 := AppendEntry(cache, es[0]);
      AppendEntriesFiles(c1, es[1..], n);
      assert AppendEntries(cache, es) == AppendEntries(c1, es[1..]);
      var l, rest := Lookup(cache, n), Named(es[1..], n);
      var head: seq<Entry> := if es[0].decl.name == n then [es[0]] else [];
      NamedCons(es, n);
      assert Lookup(c1, n) == l + head;
      SeqAssoc(l, head, rest);
    }
  }

  lemma SeqAssoc<T>(a: seq<T>, b: seq<T>, c: seq<T>)
    ensures (a + b) + c == a + (b + c)
  {
  }

  /** `computeDeclCache()`: appends the declarations of the statements to the
      cache, which it does not clear first. */
  function ComputeDeclCache(cache: DeclCache, stmts: seq<Stmt>): (r: DeclCache)
    ensures forall n :: Lookup(r, n) == Lookup(cache, n) + Named(AllEntries(stmts), n)
  {
    var r := AppendEntries(cache, AllEntries(stmts));
    assert forall n :: Lookup(r, n) == Lookup(cache, n) + Named(AllEntries(stmts), n) by {
      forall n
        ensures Lookup(r, n) == Lookup(cache, n) + Named(AllEntries(stmts), n)
      {
        AppendEntriesFiles(cache, AllEntries(stmts), n);
      }
    }
    r
  }

  /** A brace statement as an object: its statements and its cache. */
  datatype BraceObj = BraceObj(stmts: seq<Stmt>, cache: DeclCache)

  /** `init(stmts:)` */
  function NewBrace(stmts: seq<Stmt>): (b: BraceObj)
    ensures b.stmts == stmts
    ensures forall n :: Lookup(b.cache, n) == Named(AllEntries(stmts), n)
  {
    BraceObj(stmts, ComputeDeclCache(map[], stmts))
  }

  /** Assigning `stmts` as written: `didSet` recomputes the cache on top of
      the old one. */
  function SetStmtsAsWritten(b: BraceObj, stmts: seq<Stmt>): (r: BraceObj)
    ensures r.stmts == stmts
    ensures forall n :: Lookup(r.cache, n) == Lookup(b.cache, n) + Named(AllEntries(stmts), n)
  {
    BraceObj(stmts, ComputeDeclCache(b.cache, stmts))
  }

  /** Assigning `stmts` with the cache rebuilt from scratch. */
  function SetStmts(b: BraceObj, stmts: seq<Stmt>): (r: BraceObj)
    ensures r.stmts == stmts
    ensures forall n :: Lookup(r.cache, n) == Named(AllEntries(stmts), n)
  {
    NewBrace(stmts)
  }

  /** The subscript setter of the collection view replaces one statement
      by assigning `stmts`, so the `didSet` as written runs: the cache
      keeps the old entries and files every statement again. */
  function SetStmtAt(b: BraceObj, i: nat, s: Stmt): (r: BraceObj)
    requires i < |b.stmts|
    ensures r.stmts == b.stmts[i := s]
    ensures forall n :: Lookup(r.cache, n) == Lookup(b.cache, n) + Named(AllEntries(b.stmts[i := s]), n)
  {
    SetStmtsAsWritten(b, b.stmts[i := s])
  }

  /** The subscript setter over the corrected assignment. */
  function SetStmtAtCorrected(b: BraceObj, i: nat, s: Stmt): (r: BraceObj)
    requires i < |b.stmts|
    ensures r.stmts == b.stmts[i := s]
    ensures forall n :: Lookup(r.cache, n) == Named(AllEntries(b.stmts[i := s]), n)
  {
    SetStmts(b, b.stmts[i := s])
  }

  /** The cache is a faithful index of the statements. */
  ghost predicate CacheCurrent(b: BraceObj) {
    forall n :: Lookup(b.cache, n) == Named(AllEntries(b.stmts), n)
  }

  lemma AssignmentsKeepCacheCurrent(b: BraceObj, stmts: seq<Stmt>, i: nat, s: Stmt)
    requires i < |stmts|
    ensures CacheCurrent(NewBrace(stmts))
    ensures CacheCurrent(SetStmts(b, stmts))
    ensures CacheCurrent(SetStmtAtCorrected(NewBrace(stmts), i, s))
  {
  }

  /** Replacing `x = salloc Int32` by another declaration of `x` leaves the
      old declaration in the cache as written, so the new one meets a
      declaration of the same name that is not itself. */
  lemma StaleCacheEntry(x1: Decl, x2: Decl, sign: TypeSign)
    requires x1.name == x2.name && x1 != x2
    ensures var b := SetStmtsAsWritten(NewBrace([AllocStmt(x1, Stack, sign, None)]), [AllocStmt(x2, Stack, sign, None)]);
      Lookup(b.cache, x2.name) == [Entry(x1, None), Entry(x2, None)] && !CacheCurrent(b)
    ensures var b := SetStmts(NewBrace([AllocStmt(x1, Stack, sign, None)]), [AllocStmt(x2, Stack, sign, None)]);
      Lookup(b.cache, x2.name) == [Entry(x2, None)]
  {
    var s2 := [AllocStmt(x2, Stack, sign, None)];
    assert AllEntries(s2) == [Entry(x2, None)];
    assert AllEntries([AllocStmt(x1, Stack, sign, None)]) == [Entry(x1, None)];
  }

  /** Writing a statement back through the subscript files its
      declaration a second time. */
  lemma SubscriptRefiles(x: Decl, sign: TypeSign)
    ensures var b := NewBrace([AllocStmt(x, Stack, sign, None)]);
      var r := SetStmtAt(b, 0, AllocStmt(x, Stack, sign, None));
      Lookup(r.cache, x.name) == [Entry(x, None), Entry(x, None)] && !CacheCurrent(r)
  {
    var ss := [AllocStmt(x, Stack, sign, None)];
    assert AllEntries(ss) == [Entry(x, None)];
    assert ss[0 := AllocStmt(x, Stack, sign, None)] == ss;
  }

  // ---------------------------------------------------------------------------
  // Declaration contexts

  datatype Scope =
    | ModuleScope(mod: Module)
    | BraceScope(brace: BraceObj)
    | FuncScope(func: FuncDecl)
    | QuantScope(qparams: seq<Decl>)

  function ParamEntries(ps: seq<Decl>): (r: seq<Entry>)
    ensures |r| == |ps| && forall i | 0 <= i < |ps| :: r[i] == Entry(ps[i], None)
  {
    seq(|ps|, i requires 0 <= i < |ps| => Entry(ps[i], None))
  }

  /** `decls(named:)` of each kind of context. */
  function DeclsNamed(s: Scope, name: string): (r: seq<Entry>)
    ensures forall e | e in r :: e.decl.name == name
  {
    match s
    case ModuleScope(m) => Named(Decls(m), name)
    case BraceScope(b) => Lookup(b.cache, name)
    case FuncScope(f) => Named(ParamEntries(f.params), name)
    case QuantScope(ps) => Named(ParamEntries(ps), name)
  }

  /** `firstDecl(named:)`: the first of those declarations. */
  function FirstDecl(s: Scope, name: string): (r: Option<Entry>)
    ensures r.None? <==> |DeclsNamed(s, name)| == 0
    ensures r.Some? ==> r.value == DeclsNamed(s, name)[0]
  {
    var ds := DeclsNamed(s, name);
    if |ds| == 0 then None else Some(ds[0])
  }

  function IsBuiltinScope(s: Scope): bool {
    s.ModuleScope? && s.mod.isBuiltin
  }

  /** `lookup(name:)` from `chain[0]`, whose parents are `chain[1]`,
      `chain[2]`, ...; the last context has no parent. Once the chain is
      exhausted the built-in module is searched, unless the chain already
      ended with it. */
  function LookupName(chain: seq<Scope>, builtin: Scope, name: string): (r: Option<Entry>)
    requires |chain| >= 1
    ensures r.Some? ==> r.value.decl.name == name
    decreases |chain|
  {
    match FirstDecl(chain[0], name)
    case Some(e) => Some(e)
    case None =>
      if |chain| > 1 then LookupName(chain[1..], builtin, name)
      else if !IsBuiltinScope(chain[0]) then FirstDecl(builtin, name)
      else None
  }

  /** The contexts a lookup visits, in order. */
  function Visited(chain: seq<Scope>, builtin: Scope): (r: seq<Scope>)
    requires |chain| >= 1
  {
    if IsBuiltinScope(chain[|chain| - 1]) then chain else chain + [builtin]
  }

  /** The first declaration of a name in a list of contexts. */
  function FirstMatch(scopes: seq<Scope>, name: string): Option<Entry> {
    if |scopes| == 0 then None
    else match FirstDecl(scopes[0], name)
      case Some(e) => Some(e)
      case None => FirstMatch(scopes[1..], name)
  }

  /** Reference definition of lookup: the first match among the visited
      contexts, innermost first. */
  lemma {:induction false} LookupIsFirstMatch(chain: seq<Scope>, builtin: Scope, name: string)
    requires |chain| >= 1
    ensures LookupName(chain, builtin, name) == FirstMatch(Visited(chain, builtin), name)
    decreases |chain|
  {
    var vs := Visited(chain, builtin);
    assert vs[0] == chain[0];
    if FirstDecl(chain[0], name).None? && |chain| > 1 {
      LookupIsFirstMatch(chain[1..], builtin, name);
      assert vs[1..] == Visited(chain[1..], builtin);
    } else if FirstDecl(chain[0], name).None? {
      if !IsBuiltinScope(chain[0]) {
        assert vs == [chain[0], builtin];
        assert FirstMatch(vs, name) == FirstMatch([builtin], name);
        assert [builtin][1..] == [];
      } else {
        assert vs == [chain[0]] && vs[1..] == [];
      }
    }
  }

  lemma {:induction false} FirstMatchNone(scopes: seq<Scope>, name: string)
    ensures FirstMatch(scopes, name).None? <==> forall i | 0 <= i < |scopes| :: |DeclsNamed(scopes[i], name)| == 0
  {
    if |scopes| > 0 {
      FirstMatchNone(scopes[1..], name);
      assert forall i | 1 <= i < |scopes| :: scopes[i] == scopes[1..][i - 1];
    }
  }

  /** Lookup fails exactly when no visited context declares the name. */
  lemma LookupFailsIffUndeclared(chain: seq<Scope>, builtin: Scope, name: string)
    requires |chain| >= 1
    ensures var vs := Visited(chain, builtin);
      LookupName(chain, builtin, name).None? <==> forall i | 0 <= i < |vs| :: |DeclsNamed(vs[i], name)| == 0
  {
    LookupIsFirstMatch(chain, builtin, name);
    FirstMatchNone(Visited(chain, builtin), name);
  }

  /** A declaration in an inner context shadows those further out. */
  lemma {:induction false} InnerShadowsOuter(chain: seq<Scope>, builtin: Scope, name: string, i: nat)
    requires i < |chain| && |DeclsNamed(chain[i], name)| > 0
    requires forall j | 0 <= j < i :: |DeclsNamed(chain[j], name)| == 0
    ensures LookupName(chain, builtin, name) == Some(DeclsNamed(chain[i], name)[0])
    decreases i
  {
    if i > 0 {
      InnerShadowsOuter(chain[1..], builtin, name, i - 1);
    }
  }

  /** The lookup loop of the source, walking contexts one at a time. */
  method LookupWalk(chain: seq<Scope>, builtin: Scope, name: string) returns (r: Option<Entry>)
    requires |chain| >= 1
    ensures r == FirstMatch(Visited(chain, builtin), name)
  {
    LookupIsFirstMatch(chain, builtin, name);
    var i := 0;
    var inBuiltin := false;
    while true
      invariant 0 <= i < |chain|
      invariant inBuiltin ==> i == |chain| - 1 && !IsBuiltinScope(chain[i])
      invariant !inBuiltin ==> LookupName(chain, builtin, name) == LookupName(chain[i..], builtin, name)
      invariant inBuiltin ==> LookupName(chain, builtin, name) == FirstDecl(builtin, name)
      decreases (if inBuiltin then 0 else 1), |chain| - i
    {
      var ctx := if inBuiltin then builtin else chain[i];
      var m := FirstDecl(ctx, name);
      if m.Some? {
        return m;
      } else if !inBuiltin && i + 1 < |chain| {
        assert chain[i..][1..] == chain[i + 1..];
        i := i + 1;
      } else if !inBuiltin && !IsBuiltinScope(chain[i]) {
        inBuiltin := true;
      } else {
        return None;
      }
    }
  }
}
