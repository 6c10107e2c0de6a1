/** Semantic types. A bare type is the shape of a value; a qualified type
    pairs a bare type with a set of qualifiers. Function, tuple and junk
    types are uniqued by the AST context (see module Interner), so for them
    the source's identity test `===` is structural equality, and the only
    override of equality, on location types, compares the symbols.
    Quantified types are uniqued by a key that runs the parameter names
    together, so `ab` and `a, b` over one base share an object there and
    are different values here. Built-in, bundled and error types are keyed
    by their own address instead: each built-in type is created once, but
    two bundles built alike are distinct objects in the source and equal
    values here. */
module Types {
  import opened Wrappers
  import opened Symbols

  datatype Qualifier = Unscoped | Copyable

  datatype Quantifier = Universal | Existential

  datatype BareType =
    | Builtin(name: string)
    | Func(params: seq<QualType>, output: QualType)
    | Tuple(members: seq<QualType>)
    | Location(loc: Symbol)
    | Junk(base: BareType)
    | Bundled(base: BareType, assumptions: map<Symbol, QualType>)
    | Quantified(quantifier: Quantifier, qparams: seq<string>, base: BareType)
    | Error

  datatype QualType = QualType(bare: BareType, quals: set<Qualifier>)

  const AnyType: BareType := Builtin("Any")
  const VoidType: BareType := Builtin("Void")
  const BoolType: BareType := Builtin("Bool")
  const Int32Type: BareType := Builtin("Int32")
  const Int64Type: BareType := Builtin("Int64")

  /** A bare type with no qualifier. */
  function Unqualified(t: BareType): (r: QualType)
    ensures r.bare == t && r.quals == {}
  {
    QualType(t, {})
  }

  // ---------------------------------------------------------------------------
  // Qualifiers

  /** The type with the given qualifiers added. */
  function With(t: QualType, qs: set<Qualifier>): (r: QualType)
    ensures r.bare == t.bare
    ensures forall q :: q in r.quals <==> q in t.quals || q in qs
  {
    QualType(t.bare, t.quals + qs)
  }

  /** The type with the given qualifiers removed. */
  function Without(t: QualType, qs: set<Qualifier>): (r: QualType)
    ensures r.bare == t.bare
    ensures forall q :: q in r.quals <==> q in t.quals && q !in qs
  {
    QualType(t.bare, t.quals - qs)
  }

  /** Removing what was just added restores a type that had none of it. */
  lemma WithThenWithout(t: QualType, qs: set<Qualifier>)
    requires t.quals !! qs
    ensures Without(With(t, qs), qs) == t
  {
    assert (t.quals + qs) - qs == t.quals;
  }

  // ---------------------------------------------------------------------------
  // Subtyping on bare types

  /** A bare type is a subtype of itself, of `Any`, and of any junk type
      whose base it is a subtype of. Nothing else holds. */
  predicate IsBareSubtype(a: BareType, b: BareType) {
    a == b || b == AnyType || (b.Junk? && IsBareSubtype(a, b.base))
  }

  /** The chain `b`, `b.base`, `b.base.base`, ... obtained by peeling junk. */
  function JunkSpine(b: BareType): (r: seq<BareType>)
    ensures |r| >= 1 && r[0] == b
  {
    if b.Junk? then [b] + JunkSpine(b.base) else [b]
  }

  /** Reference definition: `a <: b` exactly when peeling junk off `b`
      reaches `a` or `Any`. */
  lemma {:induction false} BareSubtypeBySpine(a: BareType, b: BareType)
    ensures IsBareSubtype(a, b) <==> a in JunkSpine(b) || AnyType in JunkSpine(b)
  {
    if b.Junk? {
      BareSubtypeBySpine(a, b.base);
      assert JunkSpine(b) == [b] + JunkSpine(b.base);
    }
  }

  lemma BareSubtypeReflexive(a: BareType)
    ensures IsBareSubtype(a, a)
  {
  }

  lemma AnyIsTop(a: BareType)
    ensures IsBareSubtype(a, AnyType)
  {
  }

  /** The junk rule, as an equivalence. */
  lemma JunkRule(a: BareType, b: BareType)
    ensures IsBareSubtype(a, Junk(b)) <==> a == Junk(b) || IsBareSubtype(a, b)
  {
  }

  /** A junk type is a subtype of its own base only when peeling the base
      reaches `Any`. */
  lemma {:induction false} JunkBelowItsBase(t: BareType)
    ensures IsBareSubtype(Junk(t), t) <==> AnyType in JunkSpine(t)
  {
    BareSubtypeBySpine(Junk(t), t);
    if Junk(t) in JunkSpine(t) {
      JunkSpineShrinks(t, Junk(t));
    }
  }

  lemma {:induction false} JunkSpineShrinks(t: BareType, u: BareType)
    requires u in JunkSpine(t)
    ensures u == t || u < t
  {
    if t.Junk? && u != t {
      assert u in JunkSpine(t.base);
      JunkSpineShrinks(t.base, u);
    }
  }

  lemma {:induction false} SpineSuffix(b: BareType, c: BareType, x: BareType)
    requires b in JunkSpine(c) && x in JunkSpine(b)
    ensures x in JunkSpine(c)
  {
    if c.Junk? && b != c {
      SpineSuffix(b, c.base, x);
    }
  }

  /** Bare subtyping is transitive. */
  lemma {:induction false} BareSubtypeTransitive(a: BareType, b: BareType, c: BareType)
    requires IsBareSubtype(a, b) && IsBareSubtype(b, c)
    ensures IsBareSubtype(a, c)
  {
    BareSubtypeBySpine(a, b);
    BareSubtypeBySpine(b, c);
    BareSubtypeBySpine(a, c);
    if AnyType !in JunkSpine(c) {
      if a in JunkSpine(b) {
        SpineSuffix(b, c, a);
      } else {
        SpineSuffix(b, c, AnyType);
      }
    }
  }

  /** It is not antisymmetric: `Any` and `Junk Any` are subtypes of each
      other. */
  lemma BareSubtypeNotAntisymmetric()
    ensures IsBareSubtype(AnyType, Junk(AnyType)) && IsBareSubtype(Junk(AnyType), AnyType)
    ensures AnyType != Junk(AnyType)
  {
  }

  /** The join of two bare types: the type itself when both are the same,
      `Any` otherwise. */
  function BareJoin(a: BareType, b: BareType): (r: BareType)
    ensures IsBareSubtype(a, r) && IsBareSubtype(b, r)
    ensures r == a || r == AnyType
  {
    if a == b then a else AnyType
  }

  lemma BareJoinIdempotentCommutative(a: BareType, b: BareType)
    ensures BareJoin(a, a) == a
    ensures BareJoin(a, b) == BareJoin(b, a)
  {
  }

  // ---------------------------------------------------------------------------
  // Subtyping on qualified types

  /** `a <= b`: `a` carries at least the qualifiers of `b` and its bare type
      is a subtype of `b`'s. */
  predicate IsSubtype(a: QualType, b: QualType) {
    b.quals <= a.quals && IsBareSubtype(a.bare, b.bare)
  }

  lemma SubtypePreorder(a: QualType, b: QualType, c: QualType)
    ensures IsSubtype(a, a)
    ensures IsSubtype(a, b) && IsSubtype(b, c) ==> IsSubtype(a, c)
  {
    if IsSubtype(a, b) && IsSubtype(b, c) {
      BareSubtypeTransitive(a.bare, b.bare, c.bare);
    }
  }

  /** The join of qualified types joins the bare types and keeps only the
      qualifiers both sides carry. */
  function Join(a: QualType, b: QualType): (r: QualType)
    ensures IsSubtype(a, r) && IsSubtype(b, r)
    ensures forall q :: q in r.quals <==> q in a.quals && q in b.quals
  {
    QualType(BareJoin(a.bare, b.bare), a.quals * b.quals)
  }

  lemma JoinIdempotentCommutative(a: QualType, b: QualType)
    ensures Join(a, a) == a
    ensures Join(a, b) == Join(b, a)
  {
    assert a.quals * a.quals == a.quals;
    assert a.quals * b.quals == b.quals * a.quals;
  }

  /** Among the upper bounds that keep `a`'s bare type, the join keeps the
      most qualifiers. */
  lemma JoinKeepsMostQualifiers(a: QualType, b: QualType, u: QualType)
    requires IsSubtype(a, u) && IsSubtype(b, u)
    ensures u.quals <= Join(a, b).quals
  {
  }

  // ---------------------------------------------------------------------------
  // Bundles

  /** Packs assumptions with a type: `τ + [η]`, keeping `τ`'s qualifiers. */
  function Bundle(t: QualType, eta: map<Symbol, QualType>): (r: QualType)
    ensures r.bare.Bundled? && r.quals == t.quals
  {
    QualType(Bundled(t.bare, eta), t.quals)
  }

  /** Opens a bundled type into its base (with the bundle's qualifiers) and
      its assumptions; other types do not open. */
  function Opened(t: QualType): (r: Option<(QualType, map<Symbol, QualType>)>)
    ensures r.Some? <==> t.bare.Bundled?
    ensures r.Some? ==> Bundle(r.value.0, r.value.1) == t
  {
    match t.bare
    case Bundled(base, eta) => Some((QualType(base, t.quals), eta))
    case _ => None
  }

  /** Opening undoes bundling. */
  lemma OpenBundle(t: QualType, eta: map<Symbol, QualType>)
    ensures Opened(Bundle(t, eta)) == Some((t, eta))
  {
  }
}
