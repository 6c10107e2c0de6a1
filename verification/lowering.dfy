/** Type lowering in the code generator: the passing policy of a type at
    function boundaries, and the shape of the LLVM type each semantic type
    becomes. The LLVM library is not modelled; `IRType` keeps only the
    structure of the emitted types. A type the code generator cannot lower
    (the source stops with a fatal error) lowers to `None`. */
module Lowering {
  import opened Wrappers
  import opened Types

  /** How values of a type cross a function boundary: not at all, as a
      value, or behind a pointer. */
  datatype PassingPolicy = Skipped | Direct | Indirect

  /** The shapes of LLVM types the code generator builds. */
  datatype IRType =
    | AnyIR | VoidIR | BoolIR | Int32IR | Int64IR
    | PointerIR(pointee: IRType)
    | StructIR(elements: seq<IRType>)
    | FunctionIR(params: seq<IRType>, ret: IRType)

  // ---------------------------------------------------------------------------
  // Passing policy

  /** The type under all the bundle layers of `t`. */
  function Unbundled(t: BareType): (u: BareType)
    ensures !u.Bundled?
    ensures !t.Bundled? ==> u == t
  {
    if t.Bundled? then Unbundled(t.base) else t
  }

  /** `passingPolicy`: the empty tuple is skipped, other tuples go by
      pointer, a bundle goes as its base does, and the rest directly. */
  function PolicyOf(t: BareType): (p: PassingPolicy)
    ensures p == Skipped <==> Unbundled(t) == Tuple([])
    ensures p == Indirect <==> Unbundled(t).Tuple? && Unbundled(t).members != []
    ensures p == Direct <==> !Unbundled(t).Tuple?
  {
    match t
    case Tuple(ms) => if |ms| == 0 then Skipped else Indirect
    case Bundled(b, _) => PolicyOf(b)
    case _ => Direct
  }

  // ---------------------------------------------------------------------------
  // Function signatures

  /** The lowered parameter list: skipped parameters are dropped, direct
      ones kept, indirect ones passed as pointers. */
  function LowerParams(es: seq<IRType>, ps: seq<PassingPolicy>): (r: seq<IRType>)
    requires |es| == |ps|
    ensures |r| == |ps| - multiset(ps)[Skipped]
    ensures multiset(ps)[Skipped] == 0 && multiset(ps)[Indirect] == 0 ==> r == es
  {
    if |ps| == 0 then []
    else
      assert ps == [ps[0]] + ps[1..];
      var h := match ps[0]
        case Skipped => []
        case Direct => [es[0]]
        case Indirect => [PointerIR(es[0])];
      h + LowerParams(es[1..], ps[1..])
  }

  /** The lowered list of a concatenation is the concatenation of the
      lowered lists. */
  lemma {:induction false} LowerParamsAppend(es1: seq<IRType>, ps1: seq<PassingPolicy>, es2: seq<IRType>, ps2: seq<PassingPolicy>)
    requires |es1| == |ps1| && |es2| == |ps2|
    ensures LowerParams(es1 + es2, ps1 + ps2) == LowerParams(es1, ps1) + LowerParams(es2, ps2)
    decreases |ps1|
  {
    if |ps1| > 0 {
      assert (es1 + es2)[1..] == es1[1..] + es2;
      assert (ps1 + ps2)[1..] == ps1[1..] + ps2;
      LowerParamsAppend(es1[1..], ps1[1..], es2, ps2);
    } else {
      assert es1 + es2 == es2 && ps1 + ps2 == ps2;
    }
  }

  /** Every parameter that is not skipped appears in the lowered list, by
      value or behind a pointer as its policy says ... */
  lemma {:induction false} LowerParamsKeeps(es: seq<IRType>, ps: seq<PassingPolicy>)
    requires |es| == |ps|
    ensures forall k | 0 <= k < |ps| && ps[k] == Direct :: es[k] in LowerParams(es, ps)
    ensures forall k | 0 <= k < |ps| && ps[k] == Indirect :: PointerIR(es[k]) in LowerParams(es, ps)
    decreases |ps|
  {
    if |ps| > 0 {
      LowerParamsKeeps(es[1..], ps[1..]);
      assert forall k | 1 <= k < |ps| :: ps[k] == ps[1..][k - 1] && es[k] == es[1..][k - 1];
    }
  }

  /** ... and nothing else appears in it. */
  lemma {:induction false} LowerParamsOnly(es: seq<IRType>, ps: seq<PassingPolicy>)
    requires |es| == |ps|
    ensures forall x | x in LowerParams(es, ps) :: x in es || (x.PointerIR? && x.pointee in es)
    decreases |ps|
  {
    if |ps| > 0 {
      LowerParamsOnly(es[1..], ps[1..]);
      assert es == [es[0]] + es[1..];
    }
  }

  /** A function type from its lowered parameters and output: an indirect
      output becomes a leading pointer parameter, and the function then
      returns void, as it does for a skipped output. */
  function LowerFunc(params: seq<IRType>, ret: IRType, out: PassingPolicy): (r: IRType)
    ensures r.FunctionIR?
    ensures r.ret == (if out == Direct then ret else VoidIR)
    ensures out == Indirect ==> r.params == [PointerIR(ret)] + params
    ensures out != Indirect ==> r.params == params
  {
    match out
    case Skipped => FunctionIR(params, VoidIR)
    case Direct => FunctionIR(params, ret)
    case Indirect => FunctionIR([PointerIR(ret)] + params, VoidIR)
  }

  // ---------------------------------------------------------------------------
  // Emission

  /** All the values, when none is missing. */
  function AllPresent(os: seq<Option<IRType>>): (r: Option<seq<IRType>>)
    ensures r.Some? <==> forall k | 0 <= k < |os| :: os[k].Some?
    ensures r.Some? ==> |r.value| == |os| && forall k | 0 <= k < |os| :: r.value[k] == os[k].value
  {
    if |os| == 0 then Some([])
    else
      match AllPresent(os[1..])
      case None => None
      case Some(rest) => if os[0].None? then None else Some([os[0].value] + rest)
  }

  /** The built-in types, by name. */
  function BuiltinIR(name: string): Option<IRType> {
    match name
    case "Any" => Some(AnyIR)
    case "Void" => Some(VoidIR)
    case "Bool" => Some(BoolIR)
    case "Int32" => Some(Int32IR)
    case "Int64" => Some(Int64IR)
    case _ => None
  }

  /** `emit(in:)` on a bare type. A bundle whose base is a location with an
      assumption is a pointer to the assumed type; every other bundle is its
      base. Function parameters and the output are all emitted before the
      policies are applied, so a parameter that is then dropped still has to
      be lowerable. Junk and error types, and names that are not built-in
      types, cannot be lowered. A qualified type lowers as its bare type. */
  function Emit(t: BareType): (r: Option<IRType>)
    decreases t
  {
    match t
    case Builtin(n) => BuiltinIR(n)
    case Location(_) => Some(AnyIR)
    case Bundled(b, eta) =>
      if b.Location? && b.loc in eta then
        (match Emit(eta[b.loc].bare)
         case Some(p) => Some(PointerIR(p))
         case None => None)
      else Emit(b)
    case Tuple(ms) =>
      (match AllPresent(seq(|ms|, k requires 0 <= k < |ms| => Emit(ms[k].bare)))
       case Some(es) => Some(StructIR(es))
       case None => None)
    case Func(ps, o) =>
      var params := AllPresent(seq(|ps|, k requires 0 <= k < |ps| => Emit(ps[k].bare)));
      var ret := Emit(o.bare);
      if params.None? || ret.None? then None
      else
        var policies := seq(|ps|, k requires 0 <= k < |ps| => PolicyOf(ps[k].bare));
        Some(LowerFunc(LowerParams(params.value, policies), ret.value, PolicyOf(o.bare)))
    case Quantified(_, _, b) => Emit(b)
    case _ => None
  }

  /** The types the code generator can lower everywhere inside them. */
  predicate Supported(t: BareType) {
    match t
    case Builtin(n) => n in {"Any", "Void", "Bool", "Int32", "Int64"}
    case Location(_) => true
    case Bundled(b, eta) => Supported(b) && forall k | k in eta :: Supported(eta[k].bare)
    case Tuple(ms) => forall k | 0 <= k < |ms| :: Supported(ms[k].bare)
    case Func(ps, o) => (forall k | 0 <= k < |ps| :: Supported(ps[k].bare)) && Supported(o.bare)
    case Quantified(_, _, b) => Supported(b)
    case _ => false
  }

  /** Lowering never fails on a supported type. */
  lemma {:induction false} SupportedLowers(t: BareType)
    requires Supported(t)
    ensures Emit(t).Some?
    decreases t
  {
    match t
    case Bundled(b, eta) =>
      if b.Location? && b.loc in eta {
        SupportedLowers(eta[b.loc].bare);
      } else {
        SupportedLowers(b);
      }
    case Tuple(ms) =>
      forall k | 0 <= k < |ms| ensures Emit(ms[k].bare).Some? {
        SupportedLowers(ms[k].bare);
      }
    case Func(ps, o) =>
      forall k | 0 <= k < |ps| ensures Emit(ps[k].bare).Some? {
        SupportedLowers(ps[k].bare);
      }
      SupportedLowers(o.bare);
    case Quantified(_, _, b) =>
      SupportedLowers(b);
    case _ =>
  }

  /** Junk and error types stop the code generator, even when they sit in a
      parameter that the policy then drops. */
  lemma UnloweredParameterFails(o: QualType)
    ensures Emit(Junk(Int32Type)) == None && Emit(Error) == None
    ensures Emit(Func([Unqualified(Junk(Tuple([])))], o)) == None
  {
    var ps := [Unqualified(Junk(Tuple([])))];
    assert seq(|ps|, k requires 0 <= k < |ps| => Emit(ps[k].bare))[0] == None;
  }

  /** The lowered shape agrees with the policy: a skipped type is the empty
      struct, and an indirect one a non-empty struct. */
  lemma {:induction false} PolicyMatchesShape(t: BareType)
    ensures PolicyOf(t) == Skipped ==> Emit(t) == Some(StructIR([]))
    ensures PolicyOf(t) == Indirect && Emit(t).Some? ==>
      Emit(t).value.StructIR? && Emit(t).value.elements != []
  {
    match t
    case Bundled(b, eta) =>
      PolicyMatchesShape(b);
    case Tuple(ms) =>
      if ms == [] {
        assert AllPresent([]) == Some([]);
      }
    case _ =>
  }

  /** The lowered function type of `func(ps) -> o`, when every part
      lowers: its parameters are the lowered parameters, preceded by a
      pointer to the output when the output is indirect, and it returns the
      output only when the output is direct. */
  lemma FuncLowering(ps: seq<QualType>, o: QualType)
    requires forall k | 0 <= k < |ps| :: Emit(ps[k].bare).Some?
    requires Emit(o.bare).Some?
    ensures var r := Emit(Func(ps, o));
      var es := seq(|ps|, k requires 0 <= k < |ps| => Emit(ps[k].bare).value);
      var policies := seq(|ps|, k requires 0 <= k < |ps| => PolicyOf(ps[k].bare));
      && r.Some? && r.value.FunctionIR?
      && |r.value.params| == |ps| - multiset(policies)[Skipped] + (if PolicyOf(o.bare) == Indirect then 1 else 0)
      && (r.value.ret == VoidIR <==> PolicyOf(o.bare) != Direct || Emit(o.bare).value == VoidIR)
      && (PolicyOf(o.bare) == Indirect ==> r.value.params[0] == PointerIR(Emit(o.bare).value))
      && (PolicyOf(o.bare) != Indirect ==> r.value.params == LowerParams(es, policies))
  {
    var os := seq(|ps|, k requires 0 <= k < |ps| => Emit(ps[k].bare));
    var es := seq(|ps|, k requires 0 <= k < |ps| => Emit(ps[k].bare).value);
    var policies := seq(|ps|, k requires 0 <= k < |ps| => PolicyOf(ps[k].bare));
    var ap := AllPresent(os);
    assert ap.Some?;
    assert ap.value == es;
    var lowered := LowerParams(es, policies);
    assert Emit(Func(ps, o)) == Some(LowerFunc(lowered, Emit(o.bare).value, PolicyOf(o.bare)));
  }

  /** A quantified type lowers as its base, and a location as an opaque
      pointer, whatever it refers to. */
  lemma QuantifiedAndLocationLowering(q: Quantifier, qs: seq<string>, b: BareType, l: Symbols.Symbol)
    ensures Emit(Quantified(q, qs, b)) == Emit(b)
    ensures Emit(Location(l)) == Some(AnyIR)
  {
  }

  /** A bundle over a location lowers to a pointer to what the bundle
      assumes is stored there, and to an opaque pointer when it assumes
      nothing about that location. */
  lemma BundledLocationLowering(l: Symbols.Symbol, eta: map<Symbols.Symbol, QualType>)
    ensures l in eta && Emit(eta[l].bare).Some? ==>
      Emit(Bundled(Location(l), eta)) == Some(PointerIR(Emit(eta[l].bare).value))
    ensures l !in eta ==> Emit(Bundled(Location(l), eta)) == Some(AnyIR)
  {
  }
}
