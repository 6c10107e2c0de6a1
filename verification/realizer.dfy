/** Type realization (`TypeRealizer`): computes, bottom-up, the semantic
    type of every type signature and the type of every function
    declaration. A sub-signature that cannot be realized becomes the error
    type inside function and tuple types, so a failure stays local. */
module Realizer {
  import opened Wrappers
  import opened Symbols
  import opened Types
  import opened Ast
  import opened Modules

  datatype RDiag =
    | NotAFunctionType          // "'…' is not a function type"
    | IncompatibleSignature     // "incompatible function signature"
    | InconsistentAssumption(sym: Symbol)

  /** The type of a signature, if it could be realized, and the
      diagnostics raised while realizing it. */
  datatype Realized = Realized(typ: Option<QualType>, diags: seq<RDiag>)

  const ErrorQual: QualType := Unqualified(Error)

  /** `sign.type ?? errorType` */
  function OrError(t: Option<QualType>): (r: QualType)
    ensures t.Some? ==> r == t.value
    ensures t.None? ==> r == ErrorQual
  {
    if t.Some? then t.value else ErrorQual
  }

  /** The symbol an assumption identifier was bound to, if any. */
  function AssumpSymbol(a: AssumpSign): (r: Option<Symbol>)
    ensures r.Some? <==> a.ident.IdentExpr? && a.ident.referred.Some?
  {
    if a.ident.IdentExpr? && a.ident.referred.Some? then Some(SymbolOf(a.ident.referred.value.decl)) else None
  }

  /** Bundles cannot nest: a bundled signature whose base realizes to a
      bundle would violate the precondition of the bundled type's
      initializer. */
  predicate NestOk(s: TypeSign)
    decreases s, 0
  {
    match s
    case IdentSign(_, _) => true
    case LocSign(_) => true
    case FuncSign(ps, o) => SignsNestOk(ps) && NestOk(o)
    case TupleSign(ms) => SignsNestOk(ms)
    case BundledSign(b, asms) =>
      NestOk(b) && AssumpsNestOk(asms) &&
      (var t := RealizeSign(b).typ; t.None? || !t.value.bare.Bundled?)
    case QuantifiedSign(_, _, b) => NestOk(b)
    case QualSign(_, b) => NestOk(b)
  }

  predicate SignsNestOk(ss: seq<TypeSign>)
    decreases ss, 0
  {
    forall i | 0 <= i < |ss| :: NestOk(ss[i])
  }

  predicate AssumpNestOk(a: AssumpSign)
    decreases a, 0
  {
    NestOk(a.sign)
  }

  predicate AssumpsNestOk(asms: seq<AssumpSign>)
    decreases asms, 0
  {
    forall i | 0 <= i < |asms| :: AssumpNestOk(asms[i])
  }

  function RealizeAssump(a: AssumpSign): (r: Realized)
    requires AssumpNestOk(a)
    ensures r == RealizeSign(a.sign)
    decreases a, 2
  {
    RealizeSign(a.sign)
  }

  /** The types of a list of signatures, the error type standing in for
      those that could not be realized. */
  function RealizeSigns(ss: seq<TypeSign>): (r: (seq<QualType>, seq<RDiag>))
    requires SignsNestOk(ss)
    ensures |r.0| == |ss|
    ensures forall i | 0 <= i < |ss| :: r.0[i] == OrError(RealizeSign(ss[i]).typ)
    decreases ss, 1
  {
    if |ss| == 0 then ([], [])
    else
      var h := RealizeSign(ss[0]);
      var t := RealizeSigns(ss[1..]);
      ([OrError(h.typ)] + t.0, h.diags + t.1)
  }

  /** The diagnostics of the signatures inside a list of assumptions. */
  function AssumpDiags(asms: seq<AssumpSign>): seq<RDiag>
    requires AssumpsNestOk(asms)
    decreases asms, 1
  {
    if |asms| == 0 then [] else RealizeAssump(asms[0]).diags + AssumpDiags(asms[1..])
  }

  /** Collects the assumptions of a bundled signature into a typing
      context: unresolved identifiers are skipped, a symbol seen before is
      reported and keeps its first type, and an unrealized type becomes the
      error type. */
  function CollectAssumptions(asms: seq<AssumpSign>, eta: map<Symbol, QualType>): (r: (map<Symbol, QualType>, seq<RDiag>))
    requires AssumpsNestOk(asms)
    ensures eta.Keys <= r.0.Keys
    ensures forall k | k in eta :: r.0[k] == eta[k]
    ensures forall k | k in r.0 && k !in eta :: exists i | 0 <= i < |asms| :: AssumpSymbol(asms[i]) == Some(k)
    decreases asms, 1
  {
    if |asms| == 0 then (eta, [])
    else
      var rest := asms[1..];
      assert forall i | 0 <= i < |rest| :: rest[i] == asms[i + 1];
      match AssumpSymbol(asms[0])
      case None => CollectAssumptions(rest, eta)
      case Some(k) =>
        if k in eta then
          var r := CollectAssumptions(rest, eta);
          (r.0, [InconsistentAssumption(k)] + r.1)
        else
          CollectAssumptions(rest, eta[k := OrError(RealizeAssump(asms[0]).typ)])
  }

  /** Realizes a signature. Every realized type is unqualified: no rule
      produces qualifiers, and qualified signatures have no rule at all. */
  function RealizeSign(s: TypeSign): (r: Realized)
    requires NestOk(s)
    ensures r.typ.Some? ==> r.typ.value.quals == {}
    ensures s.IdentSign? ==> r.typ == (if s.referred.Some? && s.referred.value.nominalType.Some?
      then Some(Unqualified(s.referred.value.nominalType.value)) else None)
    ensures s.LocSign? ==> r.typ == (if s.location.IdentExpr? && s.location.referred.Some?
      then Some(Unqualified(Location(SymbolOf(s.location.referred.value.decl)))) else None)
    ensures s.FuncSign? ==> (r.typ.Some? && r.typ.value.bare.Func? && |r.typ.value.bare.params| == |s.params| &&
      (forall i | 0 <= i < |s.params| :: NestOk(s.params[i]) && r.typ.value.bare.params[i] == OrError(RealizeSign(s.params[i]).typ)) &&
      NestOk(s.output) && r.typ.value.bare.output == OrError(RealizeSign(s.output).typ))
    ensures s.TupleSign? ==> (r.typ.Some? && r.typ.value.bare.Tuple? && |r.typ.value.bare.members| == |s.members| &&
      forall i | 0 <= i < |s.members| :: NestOk(s.members[i]) && r.typ.value.bare.members[i] == OrError(RealizeSign(s.members[i]).typ))
    ensures s.BundledSign? ==> (r.typ.Some? <==> RealizeSign(s.base).typ.Some?)
    ensures s.BundledSign? && r.typ.Some? ==>
      AssumpsNestOk(s.assumptions) &&
      r.typ.value.bare == Bundled(RealizeSign(s.base).typ.value.bare, CollectAssumptions(s.assumptions, map[]).0)
    ensures s.QuantifiedSign? ==> (r.typ.Some? <==> RealizeSign(s.base).typ.Some?)
    ensures s.QuantifiedSign? && r.typ.Some? ==>
      r.typ.value.bare.Quantified? && r.typ.value.bare.quantifier == s.quantifier &&
      |r.typ.value.bare.qparams| == |s.qparams| &&
      (forall i | 0 <= i < |s.qparams| :: r.typ.value.bare.qparams[i] == s.qparams[i].name) &&
      r.typ.value.bare.base == RealizeSign(s.base).typ.value.bare
    ensures s.QualSign? ==> r.typ.None?
    decreases s, 2
  {
    match s
    case IdentSign(_, ref) =>
      if ref.Some? && ref.value.nominalType.Some? then Realized(Some(Unqualified(ref.value.nominalType.value)), [])
      else Realized(None, [])
    case LocSign(l) =>
      if l.IdentExpr? && l.referred.Some? then Realized(Some(Unqualified(Location(SymbolOf(l.referred.value.decl)))), [])
      else Realized(None, [])
    case FuncSign(ps, o) =>
      var rp := RealizeSigns(ps);
      var ro := RealizeSign(o);
      Realized(Some(Unqualified(Func(rp.0, OrError(ro.typ)))), rp.1 + ro.diags)
    case TupleSign(ms) =>
      var rm := RealizeSigns(ms);
      Realized(Some(Unqualified(Tuple(rm.0))), rm.1)
    case BundledSign(b, asms) =>
      var rb := RealizeSign(b);
      var inner := rb.diags + AssumpDiags(asms);
      if rb.typ.None? then Realized(None, inner)
      else
        var (eta, ds) := CollectAssumptions(asms, map[]);
        Realized(Some(Unqualified(Bundled(rb.typ.value.bare, eta))), inner + ds)
    case QuantifiedSign(q, ps, b) =>
      var rb := RealizeSign(b);
      if rb.typ.None? then Realized(None, rb.diags)
      else
        var names := seq(|ps|, i requires 0 <= i < |ps| => ps[i].name);
        Realized(Some(Unqualified(Quantified(q, names, rb.typ.value.bare))), rb.diags)
    case QualSign(_, b) =>
      Realized(None, RealizeSign(b).diags)
  }

  // ---------------------------------------------------------------------------
  // Signatures that realize cleanly

  /** A type mentions the error type somewhere. */
  predicate HasError(t: BareType) {
    match t
    case Error => true
    case Func(ps, o) => (exists i | 0 <= i < |ps| :: HasError(ps[i].bare)) || HasError(o.bare)
    case Tuple(ms) => exists i | 0 <= i < |ms| :: HasError(ms[i].bare)
    case Junk(b) => HasError(b)
    case Bundled(b, eta) => HasError(b) || exists k | k in eta :: HasError(eta[k].bare)
    case Quantified(_, _, b) => HasError(b)
    case _ => false
  }

  /** Every identifier is bound to what the signature needs, no qualified
      signature occurs, and the assumptions of each bundle name distinct
      symbols. */
  predicate Clean(s: TypeSign) {
    match s
    case IdentSign(_, ref) => ref.Some? && ref.value.nominalType.Some? && !HasError(ref.value.nominalType.value)
    case LocSign(l) => l.IdentExpr? && l.referred.Some?
    case FuncSign(ps, o) => (forall i | 0 <= i < |ps| :: Clean(ps[i])) && Clean(o)
    case TupleSign(ms) => forall i | 0 <= i < |ms| :: Clean(ms[i])
    case BundledSign(b, asms) =>
      Clean(b) && !b.BundledSign? && !b.IdentSign? &&
      (forall i | 0 <= i < |asms| :: Clean(asms[i].sign) && AssumpSymbol(asms[i]).Some?) &&
      (forall i, j | 0 <= i < j < |asms| :: AssumpSymbol(asms[i]) != AssumpSymbol(asms[j]))
    case QuantifiedSign(_, _, b) => Clean(b)
    case QualSign(_, _) => false
  }

  /** Collecting distinct, resolved assumptions reports nothing and keeps
      every realized type. */
  lemma {:induction false} CollectClean(asms: seq<AssumpSign>, eta: map<Symbol, QualType>)
    requires AssumpsNestOk(asms)
    requires forall i | 0 <= i < |asms| :: Clean(asms[i].sign) && AssumpSymbol(asms[i]).Some? && AssumpSymbol(asms[i]).value !in eta
    requires forall i, j | 0 <= i < j < |asms| :: AssumpSymbol(asms[i]) != AssumpSymbol(asms[j])
    requires forall k | k in eta :: !HasError(eta[k].bare)
    ensures CollectAssumptions(asms, eta).1 == []
    ensures forall k | k in CollectAssumptions(asms, eta).0 :: !HasError(CollectAssumptions(asms, eta).0[k].bare)
    decreases asms
  {
    if |asms| > 0 {
      var k := AssumpSymbol(asms[0]).value;
      var rest := asms[1..];
      assert forall i | 0 <= i < |rest| :: rest[i] == asms[i + 1];
      CleanAssump(asms[0]);
      var eta' := eta[k := OrError(RealizeAssump(asms[0]).typ)];
      forall i | 0 <= i < |rest| ensures AssumpSymbol(rest[i]).value !in eta' {
        assert AssumpSymbol(asms[0]) != AssumpSymbol(asms[i + 1]);
      }
      CollectClean(rest, eta');
    }
  }

  /** A clean signature realizes, without diagnostics, to a type free of
      the error type. */
  lemma {:induction false} CleanRealizes(s: TypeSign)
    requires Clean(s)
    ensures NestOk(s)
    ensures var r := RealizeSign(s); r.typ.Some? && !HasError(r.typ.value.bare) && r.diags == []
    decreases s
  {
    match s
    case IdentSign(_, _) =>
    case LocSign(_) =>
    case FuncSign(ps, o) =>
      CleanSigns(ps);
      CleanRealizes(o);
    case TupleSign(ms) =>
      CleanSigns(ms);
    case BundledSign(b, asms) =>
      CleanRealizes(b);
      CleanAssumpDiags(asms);
      CollectClean(asms, map[]);
    case QuantifiedSign(_, _, b) =>
      CleanRealizes(b);
  }

  lemma {:induction false} CleanAssump(a: AssumpSign)
    requires Clean(a.sign)
    ensures AssumpNestOk(a)
    ensures var r := RealizeAssump(a); r.typ.Some? && !HasError(r.typ.value.bare) && r.diags == []
    decreases a
  {
    CleanRealizes(a.sign);
  }

  lemma {:induction false} CleanSigns(ss: seq<TypeSign>)
    requires forall i | 0 <= i < |ss| :: Clean(ss[i])
    ensures SignsNestOk(ss)
    ensures var r := RealizeSigns(ss); r.1 == [] && forall i | 0 <= i < |ss| :: !HasError(r.0[i].bare)
    decreases ss
  {
    forall i | 0 <= i < |ss| ensures NestOk(ss[i]) && RealizeSign(ss[i]).typ.Some? && !HasError(RealizeSign(ss[i]).typ.value.bare) && RealizeSign(ss[i]).diags == [] {
      CleanRealizes(ss[i]);
    }
    if |ss| > 0 {
      var rest := ss[1..];
      assert forall i | 0 <= i < |rest| :: rest[i] == ss[i + 1];
      CleanSigns(rest);
    }
  }

  lemma {:induction false} CleanAssumpDiags(asms: seq<AssumpSign>)
    requires forall i | 0 <= i < |asms| :: Clean(asms[i].sign)
    ensures AssumpsNestOk(asms)
    ensures AssumpDiags(asms) == []
    decreases asms
  {
    forall i | 0 <= i < |asms| ensures AssumpNestOk(asms[i]) && RealizeAssump(asms[i]).diags == [] {
      CleanAssump(asms[i]);
    }
    if |asms| > 0 {
      var rest := asms[1..];
      assert forall i | 0 <= i < |rest| :: rest[i] == asms[i + 1];
      CleanAssumpDiags(rest);
    }
  }

  /** An assumption whose identifier is unbound vanishes from the bundle
      without a report. */
  lemma UnboundAssumptionSkipped(base: TypeSign, a: AssumpSign)
    requires base.TupleSign? && |base.members| == 0
    requires a.ident.IdentExpr? && a.ident.referred.None? && Clean(a.sign)
    ensures NestOk(BundledSign(base, [a]))
    ensures RealizeSign(BundledSign(base, [a])) == Realized(Some(Unqualified(Bundled(Tuple([]), map[]))), [])
  {
    CleanAssumpDiags([a]);
    assert RealizeSigns([]) == ([], []);
    assert [a][1..] == [];
    assert CollectAssumptions([a], map[]) == CollectAssumptions([], map[]);
  }

  /** A repeated assumption symbol is reported and the first type kept. */
  lemma RepeatedAssumptionReported(a: AssumpSign, b: AssumpSign)
    requires AssumpNestOk(a) && AssumpNestOk(b)
    requires AssumpSymbol(a).Some? && AssumpSymbol(a) == AssumpSymbol(b)
    ensures AssumpsNestOk([a, b])
    ensures var k := AssumpSymbol(a).value;
      CollectAssumptions([a, b], map[]) == (map[k := OrError(RealizeAssump(a).typ)], [InconsistentAssumption(k)])
  {
    var k := AssumpSymbol(a).value;
    var eta := map[k := OrError(RealizeAssump(a).typ)];
    assert [a, b][1..] == [b];
    assert [b][1..] == [];
    assert CollectAssumptions([a, b], map[]) == CollectAssumptions([b], eta);
    assert CollectAssumptions([], eta) == (eta, []);
    assert CollectAssumptions([b], eta) == (eta, [InconsistentAssumption(k)] + []);
    assert [InconsistentAssumption(k)] + [] == [InconsistentAssumption(k)];
  }

  // ---------------------------------------------------------------------------
  // Function declarations

  /** `bareFuncType`: the function type of a declaration, looking through a
      universal quantifier. */
  function BareFuncType(t: BareType): (r: Option<BareType>)
    ensures r.Some? ==> r.value.Func?
    ensures r.Some? <==> t.Func? || (t.Quantified? && t.quantifier == Universal && t.base.Func?)
  {
    match t
    case Func(_, _) => Some(t)
    case Quantified(Universal, _, b) => if b.Func? then Some(b) else None
    case _ => None
  }

  /** What realization records about a function declaration: its type and
      the types of its parameters, the two lists zipped. */
  datatype FuncTyping = FuncTyping(typ: Option<QualType>, paramTypes: seq<QualType>)

  function Zip(n: nat, ts: seq<QualType>): (r: seq<QualType>)
    ensures |r| == if n < |ts| then n else |ts|
    ensures forall i | 0 <= i < |r| :: r[i] == ts[i]
  {
    ts[..if n < |ts| then n else |ts|]
  }

  /** Realizes a function's signature: a function type, possibly under a
      universal quantifier, is recorded with its parameter types; anything
      else is reported and leaves the declaration untyped. An arity
      mismatch is reported but the parameters are still typed pairwise. */
  function RealizeFuncSign(f: FuncDecl): (r: (FuncTyping, seq<RDiag>))
    requires NestOk(f.sign)
    ensures var t := RealizeSign(f.sign).typ;
      match (if t.Some? then BareFuncType(t.value.bare) else None)
      case None => r.0 == FuncTyping(None, []) && r.1 == RealizeSign(f.sign).diags + [NotAFunctionType]
      case Some(ft) =>
        r.0.typ == t && r.0.paramTypes == Zip(|f.params|, ft.params) &&
        (r.1 == RealizeSign(f.sign).diags + [IncompatibleSignature] <==> |f.params| != |ft.params|) &&
        (r.1 == RealizeSign(f.sign).diags <==> |f.params| == |ft.params|)
  {
    var rs := RealizeSign(f.sign);
    var ft := if rs.typ.Some? then BareFuncType(rs.typ.value.bare) else None;
    if ft.None? then (FuncTyping(None, []), rs.diags + [NotAFunctionType])
    else
      var mismatch := if |f.params| != |ft.value.params| then [IncompatibleSignature] else [];
      assert rs.diags + mismatch == rs.diags <==> mismatch == [] by {
        if rs.diags + mismatch == rs.diags { assert |mismatch| == 0; }
      }
      (FuncTyping(rs.typ, Zip(|f.params|, ft.value.params)), rs.diags + mismatch)
  }

  /** Statements carry signatures in allocations; the traversal realizes
      them all. */
  predicate StmtNestOk(s: Stmt) {
    match s
    case AllocStmt(_, _, sign, _) => NestOk(sign)
    case IfStmt(_, t, e) => BraceNestOk(t) && (e.Some? ==> BraceNestOk(e.value))
    case BraceS(b) => BraceNestOk(b)
    case _ => true
  }

  predicate BraceNestOk(b: Brace) {
    forall i | 0 <= i < |b.stmts| :: StmtNestOk(b.stmts[i])
  }

  function StmtDiags(s: Stmt): seq<RDiag>
    requires StmtNestOk(s)
  {
    match s
    case AllocStmt(_, _, sign, _) => RealizeSign(sign).diags
    case IfStmt(_, t, e) => BraceDiags(t) + (if e.Some? then BraceDiags(e.value) else [])
    case BraceS(b) => BraceDiags(b)
    case _ => []
  }

  function StmtsDiags(ss: seq<Stmt>): seq<RDiag>
    requires forall i | 0 <= i < |ss| :: StmtNestOk(ss[i])
  {
    if |ss| == 0 then [] else StmtDiags(ss[0]) + StmtsDiags(ss[1..])
  }

  function BraceDiags(b: Brace): seq<RDiag>
    requires BraceNestOk(b)
  {
    StmtsDiags(b.stmts)
  }

  predicate FuncNestOk(f: FuncDecl) {
    NestOk(f.sign) && (f.body.Some? ==> BraceNestOk(f.body.value))
  }

  /** `visit(FuncDecl)`: the signature, then the body. */
  function RealizeFunc(f: FuncDecl): (r: (FuncTyping, seq<RDiag>))
    requires FuncNestOk(f)
    ensures r.0 == RealizeFuncSign(f).0
    ensures RealizeFuncSign(f).1 <= r.1
  {
    var (t, ds) := RealizeFuncSign(f);
    (t, ds + if f.body.Some? then BraceDiags(f.body.value) else [])
  }

  /** `visit(Module)`: forgets `typesResolved` and `typeChecked`, realizes
      every function, and records `typesResolved` only when nothing was
      reported. The typings are listed in declaration order. */
  function RealizeModule(m: Module): (r: (Module, seq<FuncTyping>, seq<RDiag>))
    requires forall i | 0 <= i < |m.funcDecls| :: FuncNestOk(m.funcDecls[i])
    ensures r.0 == m.(goals := (m.goals - {TypesResolved, TypeChecked}) + (if r.2 == [] then {TypesResolved} else {}))
    ensures |r.1| == |m.funcDecls|
    ensures forall i | 0 <= i < |m.funcDecls| :: r.1[i] == RealizeFunc(m.funcDecls[i]).0
  {
    var (ts, ds) := RealizeFuncs(m.funcDecls);
    (m.(goals := (m.goals - {TypesResolved, TypeChecked}) + (if ds == [] then {TypesResolved} else {})), ts, ds)
  }

  function RealizeFuncs(fs: seq<FuncDecl>): (r: (seq<FuncTyping>, seq<RDiag>))
    requires forall i | 0 <= i < |fs| :: FuncNestOk(fs[i])
    ensures |r.0| == |fs|
    ensures forall i | 0 <= i < |fs| :: r.0[i] == RealizeFunc(fs[i]).0
  {
    if |fs| == 0 then ([], [])
    else
      var h := RealizeFunc(fs[0]);
      var t := RealizeFuncs(fs[1..]);
      ([h.0] + t.0, h.1 + t.1)
  }
}
