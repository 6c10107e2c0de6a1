/** Access paths into qualified types: reading the type stored at a member
    path (`dereference(path:)`) and replacing it (`substituting(typeAt:with:)`).
    A path is a sequence of tuple member offsets; reading looks through junk
    wrappers, and writing into a junk tuple turns its members into junk. */
module Paths {
  import opened Wrappers
  import opened Types

  type Path = seq<int>

  function Member(ms: seq<QualType>, i: int): Option<QualType> {
    if 0 <= i < |ms| then Some(ms[i]) else None
  }

  /** The source indexes `members[path[0]]` without a bounds check, so an
      offset outside the tuple stops the program. */
  predicate DerefTraps(t: QualType, path: Path)
    decreases |path|, t.bare
  {
    if |path| == 0 then false
    else match t.bare
      case Tuple(ms) => !(0 <= path[0] < |ms|) || DerefTraps(ms[path[0]], path[1..])
      case Junk(b) => DerefTraps(Unqualified(b), path)
      case _ => false
  }

  /** `dereference(path:)` as written: defined only where it does not trap. */
  function DereferenceAsWritten(t: QualType, path: Path): (r: Option<QualType>)
    requires !DerefTraps(t, path)
    decreases |path|, t.bare
  {
    if |path| == 0 then Some(t)
    else match t.bare
      case Tuple(ms) => DereferenceAsWritten(ms[path[0]], path[1..])
      case Junk(b) => DereferenceAsWritten(Unqualified(b), path)
      case _ => None
  }

  /** A concrete store or load that reaches the trap: offset 5 of a one-member
      tuple that was just allocated, so still junk. */
  lemma DereferenceOutOfRangeTraps()
    ensures DerefTraps(Unqualified(Junk(Tuple([Unqualified(Int32Type)]))), [5])
  {
  }

  /** Dereferencing with the offset checked: an offset outside the tuple
      yields no type, as a scalar does. */
  function Dereference(t: QualType, path: Path): (r: Option<QualType>)
    ensures |path| == 0 ==> r == Some(t)
    ensures r.Some? && |path| > 0 ==> StripsTo(t.bare, path[0])
    decreases |path|, t.bare
  {
    if |path| == 0 then Some(t)
    else match t.bare
      case Tuple(ms) => if 0 <= path[0] < |ms| then Dereference(ms[path[0]], path[1..]) else None
      case Junk(b) => Dereference(Unqualified(b), path)
      case _ => None
  }

  /** Peeling junk wrappers off `b` reaches a tuple with member `i`. */
  predicate StripsTo(b: BareType, i: int) {
    match b
    case Tuple(ms) => 0 <= i < |ms|
    case Junk(c) => StripsTo(c, i)
    case _ => false
  }

  /** Wherever the source does not trap, the checked version computes what
      it computes. */
  lemma {:induction false} DereferenceAgrees(t: QualType, path: Path)
    requires !DerefTraps(t, path)
    ensures Dereference(t, path) == DereferenceAsWritten(t, path)
    decreases |path|, t.bare
  {
    if |path| > 0 {
      match t.bare
      case Tuple(ms) => DereferenceAgrees(ms[path[0]], path[1..]);
      case Junk(b) => DereferenceAgrees(Unqualified(b), path);
      case _ =>
    }
  }

  /** A tuple member turned into junk, keeping its qualifiers. */
  function JunkMember(m: QualType): (r: QualType)
    ensures r.quals == m.quals && r.bare == Junk(m.bare)
  {
    QualType(Junk(m.bare), m.quals)
  }

  /** Where `substituting(typeAt:with:)` neither hits `fatalError` (a path
      step through something other than a tuple or a junk tuple) nor an
      out-of-range offset. */
  predicate UpdateValid(t: QualType, path: Path)
    decreases |path|
  {
    if |path| == 0 then true
    else match t.bare
      case Tuple(ms) => 0 <= path[0] < |ms| && UpdateValid(ms[path[0]], path[1..])
      case Junk(Tuple(ms)) => 0 <= path[0] < |ms| && UpdateValid(JunkMember(ms[path[0]]), path[1..])
      case _ => false
  }

  /** The members a path step writes into: a tuple's own members, or a junk
      tuple's members turned into junk. */
  function StepMembers(t: QualType): seq<QualType>
    requires t.bare.Tuple? || (t.bare.Junk? && t.bare.base.Tuple?)
  {
    match t.bare
    case Tuple(ms) => ms
    case Junk(Tuple(ms)) => seq(|ms|, i requires 0 <= i < |ms| => JunkMember(ms[i]))
  }

  /** Replaces the type at `path` by `s`. Every step rebuilds a tuple with the
      qualifiers of the type it replaces. */
  function Update(t: QualType, path: Path, s: QualType): (r: QualType)
    requires UpdateValid(t, path)
    ensures |path| == 0 ==> r == s
    ensures |path| > 0 ==> r.quals == t.quals && r.bare.Tuple? && |r.bare.members| == |StepMembers(t)|
    decreases |path|
  {
    if |path| == 0 then s
    else
      var ms := StepMembers(t);
      QualType(Tuple(ms[path[0] := Update(ms[path[0]], path[1..], s)]), t.quals)
  }

  /** Reading back what was just written yields it, without trapping. */
  lemma {:induction false} UpdateThenDereference(t: QualType, path: Path, s: QualType)
    requires UpdateValid(t, path)
    ensures Dereference(Update(t, path, s), path) == Some(s)
    ensures !DerefTraps(Update(t, path, s), path)
    decreases |path|
  {
    if |path| > 0 {
      var ms := StepMembers(t);
      UpdateThenDereference(ms[path[0]], path[1..], s);
    }
  }

  /** Writing at one member leaves the others readable as before at any
      non-empty path below them; the empty path shows the junk marking. */
  lemma UpdateFrame(t: QualType, i: int, rest: Path, s: QualType, j: int, q: Path)
    requires UpdateValid(t, [i] + rest) && j != i && |q| > 0
    ensures Dereference(Update(t, [i] + rest, s), [j] + q) == Dereference(t, [j] + q)
  {
    var path := [i] + rest;
    assert path[1..] == rest;
    var ms := StepMembers(t);
    var u := Update(t, path, s);
    assert u.bare.members == ms[i := Update(ms[i], rest, s)];
    if 0 <= j < |ms| {
      assert ([j] + q)[1..] == q;
      match t.bare
      case Tuple(_) =>
      case Junk(Tuple(ns)) =>
        assert Dereference(t, [j] + q) == Dereference(Unqualified(Tuple(ns)), [j] + q);
        assert Dereference(JunkMember(ns[j]), q) == Dereference(Unqualified(ns[j].bare), q);
        DereferenceIgnoresQuals(ns[j], q);
    }
  }

  /** Below the top, dereferencing does not look at the qualifiers. */
  lemma DereferenceIgnoresQuals(t: QualType, q: Path)
    requires |q| > 0
    ensures Dereference(t, q) == Dereference(Unqualified(t.bare), q)
  {
  }

  // ---------------------------------------------------------------------------
  // Well-formedness that rules out the `fatalError` in updates

  /** No junk type anywhere inside. */
  predicate JunkFree(t: BareType) {
    match t
    case Junk(_) => false
    case Func(ps, o) => (forall i | 0 <= i < |ps| :: JunkFree(ps[i].bare)) && JunkFree(o.bare)
    case Tuple(ms) => forall i | 0 <= i < |ms| :: JunkFree(ms[i].bare)
    case Bundled(b, eta) => JunkFree(b) && forall k | k in eta :: JunkFree(eta[k].bare)
    case Quantified(_, _, b) => JunkFree(b)
    case _ => true
  }

  /** Junk only wraps junk-free types. The type checker establishes this for
      every type it binds: allocation wraps a realized (junk-free) type. */
  predicate WellJunked(t: BareType) {
    match t
    case Junk(b) => JunkFree(b)
    case Func(ps, o) => (forall i | 0 <= i < |ps| :: WellJunked(ps[i].bare)) && WellJunked(o.bare)
    case Tuple(ms) => forall i | 0 <= i < |ms| :: WellJunked(ms[i].bare)
    case Bundled(b, eta) => WellJunked(b) && forall k | k in eta :: WellJunked(eta[k].bare)
    case Quantified(_, _, b) => WellJunked(b)
    case _ => true
  }

  lemma JunkFreeIsWellJunked(t: BareType)
    ensures JunkFree(t) ==> WellJunked(t)
  {
  }

  /** On well-junked types, every path that can be read can be written. */
  lemma {:induction false} ReadableIsWritable(t: QualType, path: Path)
    requires WellJunked(t.bare) && Dereference(t, path).Some?
    ensures UpdateValid(t, path)
    decreases |path|
  {
    if |path| > 0 {
      match t.bare
      case Tuple(ms) =>
        ReadableIsWritable(ms[path[0]], path[1..]);
      case Junk(b) =>
        assert b.Tuple? by {
          assert Dereference(Unqualified(b), path).Some?;
        }
        var m := b.members[path[0]];
        assert Dereference(t, path) == Dereference(m, path[1..]);
        JunkFreeIsWellJunked(m.bare);
        if |path[1..]| > 0 {
          DereferenceIgnoresQuals(JunkMember(m), path[1..]);
          DereferenceIgnoresQuals(m, path[1..]);
        }
        ReadableIsWritable(JunkMember(m), path[1..]);
      case _ =>
    }
  }

  /** Writing a well-junked type into a well-junked type keeps it well-junked. */
  lemma {:induction false} UpdateKeepsWellJunked(t: QualType, path: Path, s: QualType)
    requires UpdateValid(t, path) && WellJunked(t.bare) && WellJunked(s.bare)
    ensures WellJunked(Update(t, path, s).bare)
    decreases |path|
  {
    if |path| > 0 {
      var ms := StepMembers(t);
      forall i | 0 <= i < |ms| ensures WellJunked(ms[i].bare) {
        if t.bare.Junk? {
          JunkFreeIsWellJunked(t.bare.base.members[i].bare);
        }
      }
      UpdateKeepsWellJunked(ms[path[0]], path[1..], s);
    }
  }

  /** What is read from a well-junked type is well-junked. */
  lemma {:induction false} DereferenceKeepsWellJunked(t: QualType, path: Path)
    requires WellJunked(t.bare) && Dereference(t, path).Some?
    ensures WellJunked(Dereference(t, path).value.bare)
    decreases |path|, t.bare
  {
    if |path| > 0 {
      match t.bare
      case Tuple(ms) => DereferenceKeepsWellJunked(ms[path[0]], path[1..]);
      case Junk(b) =>
        JunkFreeIsWellJunked(b);
        DereferenceKeepsWellJunked(Unqualified(b), path);
      case _ =>
    }
  }
}
