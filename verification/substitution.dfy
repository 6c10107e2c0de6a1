/** Substitution of symbols in types (`substituting(_:)`). Location types
    rename their symbol, bundles rename their assumption keys, composite
    types recurse, and every other type, junk types included, is returned
    unchanged. */
module Substitution {
  import opened Symbols
  import opened Types

  type Renaming = map<Symbol, Symbol>

  /** `σ[s] ?? s` */
  function Rename(sigma: Renaming, s: Symbol): (r: Symbol)
    ensures s in sigma ==> r == sigma[s]
    ensures s !in sigma ==> r == s
  {
    if s in sigma then sigma[s] else s
  }

  predicate InjectiveOn(keys: set<Symbol>, sigma: Renaming) {
    forall a, b | a in keys && b in keys && Rename(sigma, a) == Rename(sigma, b) :: a == b
  }

  /** The keys of a bundle after renaming. */
  function RenamedKeys(eta: map<Symbol, QualType>, sigma: Renaming): set<Symbol> {
    set k | k in eta :: Rename(sigma, k)
  }

  /** The unique key a renamed key comes from. */
  function Preimage(eta: map<Symbol, QualType>, sigma: Renaming, k: Symbol): (k0: Symbol)
    requires InjectiveOn(eta.Keys, sigma) && k in RenamedKeys(eta, sigma)
    ensures k0 in eta && Rename(sigma, k0) == k
  {
    var k0 :| k0 in eta && Rename(sigma, k0) == k; k0
  }

  /** Substitution is defined when renaming never maps two keys of one
      bundle to the same symbol (the source builds the renamed dictionary
      with `uniqueKeysWithValues`, which traps on a duplicate key). */
  predicate Defined(t: BareType, sigma: Renaming) {
    match t
    case Func(ps, o) => (forall i | 0 <= i < |ps| :: Defined(ps[i].bare, sigma)) && Defined(o.bare, sigma)
    case Tuple(ms) => forall i | 0 <= i < |ms| :: Defined(ms[i].bare, sigma)
    case Bundled(b, eta) =>
      InjectiveOn(eta.Keys, sigma) && Defined(b, sigma) && forall k | k in eta :: Defined(eta[k].bare, sigma)
    case Quantified(_, _, b) => Defined(b, sigma)
    case _ => true
  }

  function SubstBare(t: BareType, sigma: Renaming): (r: BareType)
    requires Defined(t, sigma)
    ensures t.Builtin? || t.Junk? || t.Error? ==> r == t
    ensures t.Location? ==> r == Location(Rename(sigma, t.loc))
    ensures t.Func? ==> (r.Func? && |r.params| == |t.params| &&
      (forall i | 0 <= i < |t.params| :: Defined(t.params[i].bare, sigma) && r.params[i] == SubstQual(t.params[i], sigma)) &&
      Defined(t.output.bare, sigma) && r.output == SubstQual(t.output, sigma))
    ensures t.Tuple? ==> (r.Tuple? && |r.members| == |t.members| &&
      forall i | 0 <= i < |t.members| :: Defined(t.members[i].bare, sigma) && r.members[i] == SubstQual(t.members[i], sigma))
    ensures t.Bundled? ==> (r.Bundled? && r.assumptions.Keys == RenamedKeys(t.assumptions, sigma) &&
      Defined(t.base, sigma) && r.base == SubstBare(t.base, sigma) &&
      forall k | k in t.assumptions :: Defined(t.assumptions[k].bare, sigma) &&
        Rename(sigma, k) in r.assumptions && r.assumptions[Rename(sigma, k)] == SubstQual(t.assumptions[k], sigma))
    ensures t.Quantified? ==> (r.Quantified? && r.quantifier == t.quantifier && r.qparams == t.qparams &&
      Defined(t.base, sigma) && r.base == SubstBare(t.base, sigma))
    decreases t, 1
  {
    match t
    case Func(ps, o) =>
      Func(seq(|ps|, i requires 0 <= i < |ps| => SubstQual(ps[i], sigma)), SubstQual(o, sigma))
    case Tuple(ms) =>
      Tuple(seq(|ms|, i requires 0 <= i < |ms| => SubstQual(ms[i], sigma)))
    case Location(l) => Location(Rename(sigma, l))
    case Bundled(b, eta) => Bundled(SubstBare(b, sigma), SubstAssumptions(t, sigma))
    case Quantified(q, ps, b) => Quantified(q, ps, SubstBare(b, sigma))
    case _ => t
  }

  /** A bundle's assumptions, substituted and filed under the renamed keys. */
  function SubstAssumptions(t: BareType, sigma: Renaming): (r: map<Symbol, QualType>)
    requires t.Bundled? && Defined(t, sigma)
    ensures r.Keys == RenamedKeys(t.assumptions, sigma)
    ensures forall k | k in t.assumptions ::
      (Defined(t.assumptions[k].bare, sigma) && Rename(sigma, k) in r && r[Rename(sigma, k)] == SubstQual(t.assumptions[k], sigma))
    decreases t, 0
  {
    var eta := t.assumptions;
    var r := map k | k in RenamedKeys(eta, sigma) :: SubstQual(eta[Preimage(eta, sigma, k)], sigma);
    assert forall k | k in eta :: Rename(sigma, k) in RenamedKeys(eta, sigma) && Preimage(eta, sigma, Rename(sigma, k)) == k;
    r
  }

  /** Substitution on a qualified type keeps the qualifiers. */
  function SubstQual(t: QualType, sigma: Renaming): (r: QualType)
    requires Defined(t.bare, sigma)
    ensures r.quals == t.quals
    decreases t, 2
  {
    QualType(SubstBare(t.bare, sigma), t.quals)
  }

  /** The symbols a substitution can affect: location symbols and bundle
      keys, outside junk types. */
  function Touched(t: BareType): set<Symbol> {
    match t
    case Func(ps, o) => (set i, s | 0 <= i < |ps| && s in Touched(ps[i].bare) :: s) + Touched(o.bare)
    case Tuple(ms) => set i, s | 0 <= i < |ms| && s in Touched(ms[i].bare) :: s
    case Location(l) => {l}
    case Bundled(b, eta) => eta.Keys + Touched(b) + (set k, s | k in eta && s in Touched(eta[k].bare) :: s)
    case Quantified(_, _, b) => Touched(b)
    case _ => {}
  }

  predicate Fixes(sigma: Renaming, ss: set<Symbol>) {
    forall s | s in ss :: Rename(sigma, s) == s
  }

  /** A renaming that fixes every touched symbol is defined and changes
      nothing. */
  lemma {:induction false} SubstFixingTouched(t: BareType, sigma: Renaming)
    requires Fixes(sigma, Touched(t))
    ensures Defined(t, sigma) && SubstBare(t, sigma) == t
    decreases t, 1
  {
    match t
    case Func(ps, o) =>
      MembersFixed(ps, sigma, Touched(t), t);
      SubstFixingTouched(o.bare, sigma);
      assert SubstBare(t, sigma).params == ps;
    case Tuple(ms) =>
      MembersFixed(ms, sigma, Touched(t), t);
      assert SubstBare(t, sigma).members == ms;
    case Bundled(b, eta) =>
      BundleFixed(b, eta, sigma);
    case Quantified(q, ps, b) =>
      SubstFixingTouched(b, sigma);
    case _ =>
  }

  lemma {:induction false} MembersFixed(ms: seq<QualType>, sigma: Renaming, outer: set<Symbol>, t: BareType)
    requires (t.Func? && ms == t.params) || (t.Tuple? && ms == t.members)
    requires forall i, s | 0 <= i < |ms| && s in Touched(ms[i].bare) :: s in outer
    requires Fixes(sigma, outer)
    ensures forall i | 0 <= i < |ms| :: Defined(ms[i].bare, sigma) && SubstQual(ms[i], sigma) == ms[i]
    decreases t, 0
  {
    forall i | 0 <= i < |ms|
      ensures Defined(ms[i].bare, sigma) && SubstQual(ms[i], sigma) == ms[i]
    {
      SubstFixingTouched(ms[i].bare, sigma);
    }
  }

  lemma {:induction false} BundleFixed(b: BareType, eta: map<Symbol, QualType>, sigma: Renaming)
    requires Fixes(sigma, Touched(Bundled(b, eta)))
    ensures Defined(Bundled(b, eta), sigma) && SubstBare(Bundled(b, eta), sigma) == Bundled(b, eta)
    decreases Bundled(b, eta), 0
  {
    var t := Bundled(b, eta);
    assert Touched(b) <= Touched(t);
    SubstFixingTouched(b, sigma);
    forall k | k in eta
      ensures Defined(eta[k].bare, sigma) && SubstQual(eta[k], sigma) == eta[k]
    {
      assert Touched(eta[k].bare) <= Touched(t);
      SubstFixingTouched(eta[k].bare, sigma);
    }
    assert InjectiveOn(eta.Keys, sigma) by {
      forall a, c | a in eta.Keys && c in eta.Keys && Rename(sigma, a) == Rename(sigma, c)
        ensures a == c
      {
        assert a in Touched(t) && c in Touched(t);
      }
    }
    var r := SubstBare(t, sigma);
    assert r.base == b;
    forall k | k in eta
      ensures Rename(sigma, k) == k
    {
      assert k in Touched(t);
    }
    assert r.assumptions.Keys == eta.Keys;
    forall k | k in eta
      ensures r.assumptions[k] == eta[k]
    {
      assert Preimage(eta, sigma, k) == k;
    }
    assert r.assumptions == eta;
  }

  /** Each key of a bundle is renamed to a key of the substituted bundle,
      holding the substituted value. */
  lemma BundleKeyRenamed(b: BareType, eta: map<Symbol, QualType>, sigma: Renaming, k: Symbol)
    requires Defined(Bundled(b, eta), sigma) && k in eta
    ensures var r := SubstBare(Bundled(b, eta), sigma);
      Rename(sigma, k) in r.assumptions && r.assumptions[Rename(sigma, k)] == SubstQual(eta[k], sigma)
  {
    assert Rename(sigma, k) in RenamedKeys(eta, sigma);
    assert Preimage(eta, sigma, Rename(sigma, k)) == k;
  }

  /** The empty substitution is the identity. */
  lemma SubstEmpty(t: BareType)
    ensures Defined(t, map[]) && SubstBare(t, map[]) == t
  {
    SubstFixingTouched(t, map[]);
  }

  /** Renaming of a bundle is blocked exactly when two keys collide. */
  lemma CollidingKeysUndefined(b: BareType, eta: map<Symbol, QualType>, sigma: Renaming, k1: Symbol, k2: Symbol)
    requires k1 in eta && k2 in eta && k1 != k2 && Rename(sigma, k1) == Rename(sigma, k2)
    ensures !Defined(Bundled(b, eta), sigma)
  {
  }
}
