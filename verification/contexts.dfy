/** Typing contexts: the assumptions `symbol : type` that hold at a program
    point, with the operations on whole contexts. */
module Contexts {
  import opened Symbols
  import opened Types

  type Context = map<Symbol, QualType>

  /** Union of contexts with disjoint domains. */
  function Plus(l: Context, r: Context): (u: Context)
    requires l.Keys !! r.Keys
    ensures u.Keys == l.Keys + r.Keys
    ensures forall k | k in l :: u[k] == l[k]
    ensures forall k | k in r :: u[k] == r[k]
  {
    l + r
  }

  /** With disjoint domains the order of the operands does not matter. */
  lemma PlusCommutes(l: Context, r: Context)
    requires l.Keys !! r.Keys
    ensures Plus(l, r) == Plus(r, l)
  {
  }

  /** The join of the contexts two control-flow paths produce: only symbols
      bound on both paths survive, each with the join of its two types. Two
      empty contexts give the empty context. */
  function JoinContexts(l: Context, r: Context): (j: Context)
    ensures j.Keys == l.Keys * r.Keys
    ensures forall k | k in j :: IsSubtype(l[k], j[k]) && IsSubtype(r[k], j[k])
  {
    if l == map[] && r == map[] then l
    else map k | k in l.Keys * r.Keys :: Join(l[k], r[k])
  }

  /** Pointwise, the join of contexts is the join of types; the special case
      for two empty contexts agrees with the general rule. */
  lemma JoinContextsPointwise(l: Context, r: Context, k: Symbol)
    requires k in l && k in r
    ensures k in JoinContexts(l, r) && JoinContexts(l, r)[k] == Join(l[k], r[k])
  {
  }

  lemma JoinContextsIdempotentCommutative(l: Context, r: Context)
    ensures JoinContexts(l, l) == l
    ensures JoinContexts(l, r) == JoinContexts(r, l)
  {
    forall k | k in l ensures Join(l[k], l[k]) == l[k] {
      JoinIdempotentCommutative(l[k], l[k]);
    }
    forall k | k in l && k in r ensures Join(l[k], r[k]) == Join(r[k], l[k]) {
      JoinIdempotentCommutative(l[k], r[k]);
    }
    assert l.Keys * r.Keys == r.Keys * l.Keys;
  }

  // ---------------------------------------------------------------------------
  // Iteration order

  lemma MinimumExists(ks: set<Symbol>)
    requires ks != {}
    ensures exists k :: k in ks && forall j | j in ks :: RawValue(k) <= RawValue(j)
  {
    var k :| k in ks;
    if ks - {k} != {} {
      MinimumExists(ks - {k});
      var m :| m in ks - {k} && forall j | j in ks - {k} :: RawValue(m) <= RawValue(j);
      if RawValue(k) < RawValue(m) {
        assert forall j | j in ks :: RawValue(k) <= RawValue(j);
      } else {
        assert forall j | j in ks :: RawValue(m) <= RawValue(j);
      }
    } else {
      assert ks == {k};
    }
  }

  /** The order in which a dictionary's keys are visited. Swift leaves it
      unspecified; the model visits keys by increasing packed word. */
  ghost function Enumerate(ks: set<Symbol>): (r: seq<Symbol>)
    ensures |r| == |ks|
    ensures forall k :: k in r <==> k in ks
    ensures forall i, j | 0 <= i < j < |r| :: r[i] != r[j] && RawValue(r[i]) <= RawValue(r[j])
    decreases |ks|
  {
    if ks == {} then []
    else
      MinimumExists(ks);
      var k :| k in ks && forall j | j in ks :: RawValue(k) <= RawValue(j);
      [k] + Enumerate(ks - {k})
  }
}
