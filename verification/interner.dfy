/** The AST context's type table (`ASTContext`). Every structural type
    constructor builds a new object and then looks its byte key up in the
    table: an object already registered under the same key is returned
    instead, so building the same structure twice yields the same object.
    Objects are numbered by allocation order; a key is modelled as a sequence
    of machine words (and, for quantified parameter names, character codes).
    Built-in, bundled and error types have no key of their own: their key is
    their own address, so every such object is distinct. */
module Interner {
  import opened Wrappers
  import opened Symbols
  import opened Types

  type ObjId = nat
  type Key = seq<int>

  /** A qualified member of a function or tuple type: a reference to a bare
      type object and a qualifier set. */
  datatype Member = Member(obj: ObjId, quals: set<Qualifier>)

  /** A type object: its structure, with references to the objects it is
      built from. */
  datatype Node =
    | BuiltinNode(name: string)
    | FuncNode(params: seq<Member>, output: Member)
    | TupleNode(members: seq<Member>)
    | LocationNode(loc: Symbol)
    | JunkNode(base: ObjId)
    | BundledNode(bundleBase: ObjId, assumptions: map<Symbol, Member>)
    | UniversalNode(universalBase: ObjId, qparams: seq<string>)
    | ErrorNode

  /** The context: every object allocated so far, the key table, and the
      lazily created error type. */
  datatype Context = Context(objects: seq<Node>, table: map<Key, ObjId>, errorType: Option<ObjId>)

  // ---------------------------------------------------------------------------
  // Key layout

  /** Metatype words written first by the keyed types. Function types write
      the bundled type's metatype, and location types the junk type's. */
  const FuncTag: int := -1
  const TupleTag: int := -2
  const JunkTag: int := -3
  const UniversalTag: int := -4
  /** The address of the (single) context object. */
  const ContextWord: int := 8

  function ObjWord(id: ObjId): int {
    16 * (id + 1)
  }

  /** A qualifier set's raw bit mask. */
  function QualsWord(q: set<Qualifier>): int {
    (if Unscoped in q then 1 else 0) + (if Copyable in q then 2 else 0)
  }

  function MemberWords(m: Member): Key {
    [ObjWord(m.obj), QualsWord(m.quals)]
  }

  function Flat(ms: seq<Member>): (k: Key)
    ensures |k| == 2 * |ms|
  {
    if |ms| == 0 then [] else MemberWords(ms[0]) + Flat(ms[1..])
  }

  function Codes(s: string): (k: Key)
    ensures |k| == |s|
  {
    seq(|s|, i requires 0 <= i < |s| => s[i] as int)
  }

  /** Parameter names appended one after the other, as the source does. */
  function ConcatNames(ps: seq<string>): Key {
    if |ps| == 0 then [] else Codes(ps[0]) + ConcatNames(ps[1..])
  }

  /** The nodes whose key does not depend on their own address. */
  predicate Structural(n: Node) {
    n.FuncNode? || n.TupleNode? || n.LocationNode? || n.JunkNode? || n.UniversalNode?
  }

  /** The byte key of a node allocated as object `id`. */
  function KeyOf(n: Node, id: ObjId): (k: Key)
    ensures |k| >= 1
    ensures !Structural(n) ==> k == [ObjWord(id)]
    ensures Structural(n) <==> k[0] < 0
    ensures k[0] == FuncTag <==> n.FuncNode?
    ensures k[0] == TupleTag <==> n.TupleNode?
    ensures k[0] == UniversalTag <==> n.UniversalNode?
    ensures k[0] == JunkTag <==> n.LocationNode? || n.JunkNode?
    ensures n.LocationNode? ==> |k| == 3
    ensures n.JunkNode? ==> |k| == 2
  {
    match n
    case FuncNode(ps, o) => [FuncTag] + Flat(ps) + MemberWords(o) + [ContextWord]
    case TupleNode(ms) => [TupleTag] + Flat(ms)
    case LocationNode(l) => [JunkTag, RawValue(l), ContextWord]
    case JunkNode(b) => [JunkTag, ObjWord(b)]
    case UniversalNode(b, ps) => [UniversalTag, ObjWord(b)] + ConcatNames(ps)
    case _ => [ObjWord(id)]
  }

  /** Each table entry is an allocated object registered under its own key. */
  predicate Valid(c: Context) {
    (forall k | k in c.table :: c.table[k] < |c.objects| && KeyOf(c.objects[c.table[k]], c.table[k]) == k) &&
    (c.errorType.Some? ==> c.errorType.value < |c.objects| && c.objects[c.errorType.value] == ErrorNode)
  }

  /** `init()`: a fresh context with an empty type table. */
  function NewContext(): (c: Context)
    ensures Valid(c) && c.objects == [] && c.errorType.None?
  {
    Context([], map[], None)
  }

  /** `insert(type:)` applied to a freshly allocated object holding `n`. */
  function Insert(c: Context, n: Node): (r: (Context, ObjId))
    requires Valid(c)
    ensures Valid(r.0)
    ensures r.0.objects == c.objects + [n] && r.0.errorType == c.errorType
    ensures KeyOf(n, |c.objects|) in r.0.table && r.0.table[KeyOf(n, |c.objects|)] == r.1
    ensures forall k | k in c.table :: k in r.0.table && r.0.table[k] == c.table[k]
    ensures r.1 == |c.objects| <==> KeyOf(n, |c.objects|) !in c.table
  {
    var id := |c.objects|;
    var key := KeyOf(n, id);
    var objects := c.objects + [n];
    if key in c.table then (c.(objects := objects), c.table[key])
    else (Context(objects, c.table[key := id], c.errorType), id)
  }

  /** `builtinType(name:)`: registered unconditionally, under its address. */
  function BuiltinTypeObj(c: Context, name: string): (r: (Context, ObjId))
    requires Valid(c)
    ensures Valid(r.0) && r.1 == |c.objects| && r.0.objects == c.objects + [BuiltinNode(name)]
  {
    var id := |c.objects|;
    (Context(c.objects + [BuiltinNode(name)], c.table[[ObjWord(id)] := id], c.errorType), id)
  }

  /** The lazily created error type: made and registered on first use. */
  function ErrorTypeObj(c: Context): (r: (Context, ObjId))
    requires Valid(c)
    ensures Valid(r.0) && r.0.errorType == Some(r.1) && r.0.objects[r.1] == ErrorNode
    ensures c.errorType.Some? ==> r == (c, c.errorType.value)
  {
    match c.errorType
    case Some(e) => (c, e)
    case None =>
      var id := |c.objects|;
      (Context(c.objects + [ErrorNode], c.table[[ObjWord(id)] := id], Some(id)), id)
  }

  /** Asking twice for the error type yields the same object. */
  lemma ErrorTypeIsUnique(c: Context)
    requires Valid(c)
    ensures var (c1, e1) := ErrorTypeObj(c); ErrorTypeObj(c1) == (c1, e1)
  {
  }

  /** Identity-keyed objects are never merged with an existing one. */
  lemma IdentityKeyedIsFresh(c: Context, n: Node)
    requires Valid(c) && !Structural(n)
    ensures Insert(c, n).1 == |c.objects|
  {
  }

  /** Building the same structure twice yields the same object. */
  lemma InsertTwiceSameObject(c: Context, n: Node)
    requires Valid(c) && Structural(n)
    ensures var (c1, id1) := Insert(c, n); Insert(c1, n).1 == id1
  {
    var (c1, id1) := Insert(c, n);
    assert KeyOf(n, |c1.objects|) == KeyOf(n, |c.objects|);
  }

  // ---------------------------------------------------------------------------
  // Keys identify structure

  lemma {:induction false} FlatIndex(ms: seq<Member>, i: nat)
    requires i < |ms|
    ensures Flat(ms)[2 * i] == ObjWord(ms[i].obj) && Flat(ms)[2 * i + 1] == QualsWord(ms[i].quals)
  {
    var head := MemberWords(ms[0]);
    var tail := Flat(ms[1..]);
    assert Flat(ms) == head + tail;
    if i > 0 {
      FlatIndex(ms[1..], i - 1);
      assert ms[1..][i - 1] == ms[i];
      assert (head + tail)[2 * i] == tail[2 * (i - 1)];
      assert (head + tail)[2 * i + 1] == tail[2 * (i - 1) + 1];
    }
  }

  lemma QualsWordInjective(p: set<Qualifier>, q: set<Qualifier>)
    requires QualsWord(p) == QualsWord(q)
    ensures p == q
  {
    forall x ensures x in p <==> x in q {
      match x
      case Unscoped =>
      case Copyable =>
    }
  }

  lemma FlatInjective(ms: seq<Member>, ns: seq<Member>)
    requires |ms| == |ns| && Flat(ms) == Flat(ns)
    ensures ms == ns
  {
    forall i | 0 <= i < |ms| ensures ms[i] == ns[i] {
      FlatIndex(ms, i);
      FlatIndex(ns, i);
      QualsWordInjective(ms[i].quals, ns[i].quals);
    }
  }

  /** Apart from universal types, equal keys mean equal structure (for
      well-formed location symbols). */
  lemma KeyDeterminesStructure(n: Node, m: Node, i: ObjId, j: ObjId)
    requires Structural(n) && Structural(m) && !n.UniversalNode? && !m.UniversalNode?
    requires n.LocationNode? && m.LocationNode? ==> WellFormed({n.loc, m.loc})
    requires KeyOf(n, i) == KeyOf(m, j)
    ensures n == m
  {
    var k := KeyOf(n, i);
    match n {
      case FuncNode(ps, o) =>
        assert m.FuncNode?;
        assert |m.params| == |ps|;
        assert k[1..1 + 2 * |ps|] == Flat(ps) == Flat(m.params);
        FlatInjective(ps, m.params);
        assert k[1 + 2 * |ps| .. 3 + 2 * |ps|] == MemberWords(o) == MemberWords(m.output);
        QualsWordInjective(o.quals, m.output.quals);
      case TupleNode(ms) =>
        assert m.TupleNode?;
        assert k[1..] == Flat(ms) == Flat(m.members);
        FlatInjective(ms, m.members);
      case LocationNode(l) =>
        RawEqualityIsEquality(l, m.loc);
      case JunkNode(b) =>
    }
  }

  /** In a valid context, inserting a structural node other than a universal
      type yields an object with exactly that structure. */
  lemma InsertYieldsSameStructure(c: Context, n: Node)
    requires Valid(c) && Structural(n) && !n.UniversalNode?
    requires forall v | 0 <= v < |c.objects| && c.objects[v].LocationNode? && n.LocationNode? ::
      WellFormed({n.loc, c.objects[v].loc})
    ensures var (c1, id) := Insert(c, n); c1.objects[id] == n
  {
    var key := KeyOf(n, |c.objects|);
    if key in c.table {
      var v := c.table[key];
      var m := c.objects[v];
      assert KeyOf(m, v) == key;
      KeyDeterminesStructure(n, m, |c.objects|, v);
    }
  }

  // ---------------------------------------------------------------------------
  // Universal types

  /** `universalType(base:params:)` with the key as written: the parameter
      names are concatenated with nothing between them. */
  function UniversalTypeAsWritten(c: Context, base: ObjId, params: seq<string>): (r: (Context, ObjId))
    requires Valid(c)
    ensures Valid(r.0)
  {
    Insert(c, UniversalNode(base, params))
  }

  /** `\A ab . τ` followed by `\A a, b . τ`: the second request returns the
      first object, whose only parameter is `ab`. */
  lemma UniversalKeysCollide(base: ObjId)
    ensures var (c1, u1) := UniversalTypeAsWritten(NewContext(), base, ["ab"]);
      var (c2, u2) := UniversalTypeAsWritten(c1, base, ["a", "b"]);
      u2 == u1 && c2.objects[u2].qparams == ["ab"] && c2.objects[u2].qparams != ["a", "b"]
  {
    var (c1, u1) := UniversalTypeAsWritten(NewContext(), base, ["ab"]);
    assert ConcatNames(["ab"]) == ConcatNames(["a", "b"]) by {
      assert ConcatNames(["b"]) == Codes("b");
      assert ConcatNames(["a", "b"]) == Codes("a") + Codes("b");
    }
  }

  /** Each name preceded by its length, and the list by its count. */
  function EncodeNames(ps: seq<string>): Key {
    if |ps| == 0 then [] else [|ps[0]|] + Codes(ps[0]) + EncodeNames(ps[1..])
  }

  function UniversalKey(base: ObjId, ps: seq<string>): Key {
    [UniversalTag, ObjWord(base), |ps|] + EncodeNames(ps)
  }

  lemma CodesInjective(s: string, t: string)
    requires Codes(s) == Codes(t)
    ensures s == t
  {
    forall i | 0 <= i < |s| ensures s[i] == t[i] {
      assert Codes(s)[i] == Codes(t)[i];
    }
  }

  lemma {:induction false} EncodeNamesInjective(ps: seq<string>, qs: seq<string>)
    requires |ps| == |qs| && EncodeNames(ps) == EncodeNames(qs)
    ensures ps == qs
  {
    if |ps| > 0 {
      var e := EncodeNames(ps);
      var n := |ps[0]|;
      assert e[0] == n == |qs[0]|;
      assert e[1..1 + n] == Codes(ps[0]) == Codes(qs[0]);
      CodesInjective(ps[0], qs[0]);
      assert e[1 + n..] == EncodeNames(ps[1..]) == EncodeNames(qs[1..]);
      EncodeNamesInjective(ps[1..], qs[1..]);
      assert ps == [ps[0]] + ps[1..];
      assert qs == [qs[0]] + qs[1..];
    }
  }

  /** With length prefixes, a universal type's key determines its base and
      its parameter list. */
  lemma UniversalKeyInjective(b1: ObjId, ps: seq<string>, b2: ObjId, qs: seq<string>)
    requires UniversalKey(b1, ps) == UniversalKey(b2, qs)
    ensures b1 == b2 && ps == qs
  {
    var k := UniversalKey(b1, ps);
    assert k[1] == ObjWord(b1) == ObjWord(b2);
    assert k[2] == |ps| == |qs|;
    assert k[3..] == EncodeNames(ps) == EncodeNames(qs);
    EncodeNamesInjective(ps, qs);
  }

  /** Universal types registered under the length-prefixed key. */
  predicate ValidUniversal(c: Context, u: map<Key, ObjId>) {
    forall k | k in u :: u[k] < |c.objects| && c.objects[u[k]].UniversalNode? &&
      UniversalKey(c.objects[u[k]].universalBase, c.objects[u[k]].qparams) == k
  }

  /** `universalType(base:params:)` with length-prefixed keys, in a table of
      its own. The result always has the requested structure. */
  function UniversalType(c: Context, u: map<Key, ObjId>, base: ObjId, params: seq<string>): (r: (Context, map<Key, ObjId>, ObjId))
    requires Valid(c) && ValidUniversal(c, u)
    ensures Valid(r.0) && ValidUniversal(r.0, r.1) && r.2 < |r.0.objects|
    ensures r.0.objects[r.2] == UniversalNode(base, params)
  {
    var key := UniversalKey(base, params);
    var id := |c.objects|;
    var c1 := c.(objects := c.objects + [UniversalNode(base, params)]);
    if key in u then
      var v := u[key];
      UniversalKeyInjective(c.objects[v].universalBase, c.objects[v].qparams, base, params);
      (c1, u, v)
    else
      (c1, u[key := id], id)
  }
}
