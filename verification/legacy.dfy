/** The backtracking search of the older checker (`justify`): decides
    whether a typing context justifies a list of assumptions, guessing an
    instantiation for each universally quantified location and consuming
    every non-copyable capability it uses, so that a linear capability
    never justifies two assumptions.

    The search goes through the context's location symbols in dictionary
    order, so these are ghost functions (see `Contexts.Enumerate`). */
module Legacy {
  import opened Wrappers
  import opened Symbols
  import opened Types
  import opened Substitution
  import opened Contexts

  type Assumptions = seq<(Symbol, QualType)>

  datatype Justification =
    | Justified(subs: Renaming, consumed: seq<Symbol>)
    | Unjustified
    | JTrap    // a failed assertion, a duplicate renamed key, or an inverted range

  /** The source loops over `startIndex ..< count` of a slice that starts
      at `start`: the count of the slice is not its end index. The
      corrected loop runs to the end of the slice. */
  datatype Mode = AsWritten | Corrected

  function End(mode: Mode, start: nat, n: nat): int {
    if mode == AsWritten then n - start else n
  }

  /** `symbol.name ?? ""` */
  function QName(s: Symbol): string {
    if NameOf(s).Some? then NameOf(s).value else ""
  }

  /** `quantifiedParams.filter({ $0 != symbol.name })` */
  function Without(qs: seq<string>, s: Symbol): (r: seq<string>)
    ensures forall q | q in r :: q in qs && Some(q) != NameOf(s)
    ensures forall q | q in qs && Some(q) != NameOf(s) :: q in r
    ensures |r| <= |qs|
  {
    if |qs| == 0 then []
    else (if Some(qs[0]) == NameOf(s) then [] else [qs[0]]) + Without(qs[1..], s)
  }

  /** The keys of a context that refer to locations, in the given order. */
  function LocKeys(ks: seq<Symbol>): (r: seq<Symbol>)
    ensures forall c | c in r :: c in ks && c.isLocRef
    ensures forall c | c in ks && c.isLocRef :: c in r
  {
    if |ks| == 0 then []
    else (if ks[0].isLocRef then [ks[0]] else []) + LocKeys(ks[1..])
  }

  /** The context's location symbols in dictionary order: the candidates
      for a guess. */
  ghost function Locations(gamma: Context): (r: seq<Symbol>)
    ensures forall c | c in r :: c in gamma && c.isLocRef
    ensures forall c | c in gamma && c.isLocRef :: c in r
  {
    LocKeys(Enumerate(gamma.Keys))
  }

  /** Index `i`'s key already names a symbol of the context. */
  predicate Resolved(gamma: Context, subs: Renaming, asms: Assumptions, i: int) {
    0 <= i < |asms| && Rename(subs, asms[i].0) in gamma
  }

  /** Every guess maps a location onto a symbol of the context. */
  predicate Guesses(gamma: Context, subs: Renaming) {
    forall k | k in subs :: subs[k] in gamma
  }

  /** `r` keeps every guess of `subs` and guesses only for symbols the
      context does not hold. */
  predicate Extends(gamma: Context, subs: Renaming, r: Renaming) {
    (forall k | k in subs :: k in r && r[k] == subs[k]) &&
    (forall k | k in r && k !in subs :: k !in gamma)
  }

  predicate NoDup(s: seq<Symbol>) {
    forall i, j | 0 <= i < j < |s| :: s[i] != s[j]
  }

  /** The keys of the assumptions `lo` to `i`, both included. */
  function KeysUpTo(asms: Assumptions, lo: int, i: int): set<Symbol> {
    set j | lo <= j <= i && 0 <= j < |asms| :: asms[j].0
  }

  /** The guesses in force when index `i` is checked, recovered from the
      final ones: those given at the start and those made for the keys of
      indices `lo` to `i`. Guesses for later keys are made afterwards. */
  function InForce(final: Renaming, start: Renaming, asms: Assumptions, lo: int, i: int): Renaming {
    map k | k in final && (k in start || k in KeysUpTo(asms, lo, i)) :: final[k]
  }

  /** Index `i` is justified: its renamed symbol is in the context and
      holds a subtype of its assumed type, renamed by the guesses `s` in
      force when it was checked. */
  predicate Holds(gamma: Context, asms: Assumptions, i: int, final: Renaming, s: Renaming) {
    0 <= i < |asms| && Rename(final, asms[i].0) in gamma && Defined(asms[i].1.bare, s) &&
    IsSubtype(gamma[Rename(final, asms[i].0)], SubstQual(asms[i].1, s))
  }

  /** Every index from `lo` to `hi` is justified. */
  predicate HoldsFrom(gamma: Context, asms: Assumptions, lo: int, hi: int, start: Renaming, final: Renaming) {
    forall i | lo <= i < hi && 0 <= i < |asms| :: Holds(gamma, asms, i, final, InForce(final, start, asms, lo, i))
  }

  /** What a successful search promises for the indices `lo ..< hi`: the
      guesses extend the given ones, and every assumption names a symbol
      of the context once renamed that holds a subtype of the assumed type
      under the guesses made so far; linear capabilities are consumed at
      most once. */
  predicate Sound(gamma: Context, asms: Assumptions, lo: int, hi: int, subs: Renaming, consumed: seq<Symbol>, r: Justification) {
    r.Justified? ==>
      consumed <= r.consumed &&
      (Guesses(gamma, subs) ==>
         Extends(gamma, subs, r.subs) && Guesses(gamma, r.subs) && HoldsFrom(gamma, asms, lo, hi, subs, r.subs)) &&
      (NoDup(consumed) ==> NoDup(r.consumed))
  }

  /** At the index being checked, the guesses in force are the current
      ones: its key is either guessed already or a symbol of the context,
      which is never guessed. */
  lemma InForceNow(gamma: Context, final: Renaming, subs: Renaming, asms: Assumptions, i: int)
    requires 0 <= i < |asms| && Extends(gamma, subs, final)
    requires asms[i].0 in subs || asms[i].0 in gamma
    ensures InForce(final, subs, asms, i, i) == subs
  {
    var f := InForce(final, subs, asms, i, i);
    assert KeysUpTo(asms, i, i) == {asms[i].0};
    assert f.Keys == subs.Keys;
  }

  /** Checking an index whose key is guessed already or in the context
      adds no guess. */
  lemma InForceShift(gamma: Context, final: Renaming, subs: Renaming, asms: Assumptions, i: int, j: int)
    requires 0 <= i < j < |asms| && Extends(gamma, subs, final)
    requires asms[i].0 in subs || asms[i].0 in gamma
    ensures InForce(final, subs, asms, i, j) == InForce(final, subs, asms, i + 1, j)
  {
    assert KeysUpTo(asms, i, j) == KeysUpTo(asms, i + 1, j) + {asms[i].0};
  }

  /** A guess for index `i`'s key is one of the guesses in force from `i`
      on. */
  lemma InForceGuess(final: Renaming, subs: Renaming, c: Symbol, asms: Assumptions, i: int, j: int)
    requires 0 <= i <= j < |asms|
    ensures InForce(final, subs[asms[i].0 := c], asms, i, j) == InForce(final, subs, asms, i, j)
  {
    assert asms[i].0 in KeysUpTo(asms, i, j);
  }

  /** The step of the loop at a resolved index: what holds from `i + 1`
      on, with the check at `i`, holds from `i` on. */
  lemma HoldsStep(gamma: Context, asms: Assumptions, i: int, hi: int, subs: Renaming, final: Renaming)
    requires 0 <= i < |asms| && hi <= |asms| && Extends(gamma, subs, final)
    requires Rename(subs, asms[i].0) in gamma && Defined(asms[i].1.bare, subs)
    requires IsSubtype(gamma[Rename(subs, asms[i].0)], SubstQual(asms[i].1, subs))
    requires HoldsFrom(gamma, asms, i + 1, hi, subs, final)
    ensures HoldsFrom(gamma, asms, i, hi, subs, final)
  {
    var k := asms[i].0;
    assert k in subs || k in gamma;
    assert Rename(final, k) == Rename(subs, k);
    InForceNow(gamma, final, subs, asms, i);
    forall j | i < j < hi
      ensures Holds(gamma, asms, j, final, InForce(final, subs, asms, i, j))
    {
      InForceShift(gamma, final, subs, asms, i, j);
    }
  }

  /** The step of the search at a guessed index: what holds from `i` on
      with the guess holds from `i` on. */
  lemma HoldsGuess(gamma: Context, asms: Assumptions, i: int, hi: int, subs: Renaming, c: Symbol, final: Renaming)
    requires 0 <= i < |asms| && hi <= |asms|
    requires HoldsFrom(gamma, asms, i, hi, subs[asms[i].0 := c], final)
    ensures HoldsFrom(gamma, asms, i, hi, subs, final)
  {
    forall j | i <= j < hi
      ensures Holds(gamma, asms, j, final, InForce(final, subs, asms, i, j))
    {
      InForceGuess(final, subs, c, asms, i, j);
    }
  }

  lemma ExtendsTransitive(gamma: Context, a: Renaming, b: Renaming, c: Renaming)
    requires Extends(gamma, a, b) && Extends(gamma, b, c)
    ensures Extends(gamma, a, c)
  {
  }

  /** `justify(assumptions: assumptions[start...], …)`: the loop's range
      is built first, and an inverted range stops the program. */
  ghost function Justify(mode: Mode, gamma: Context, asms: Assumptions, start: nat, consumed: seq<Symbol>, qparams: seq<string>, subs: Renaming): (r: Justification)
    requires start <= |asms|
    ensures Sound(gamma, asms, start, if mode == Corrected then |asms| else start, subs, consumed, r)
    decreases |asms| - start, if Resolved(gamma, subs, asms, start) then 2 else 5
  {
    var end := End(mode, start, |asms|);
    if start > end then JTrap
    else Loop(mode, gamma, asms, start, end, consumed, qparams, subs)
  }

  /** The loop from index `i`: each assumption's symbol (renamed by the
      guesses so far) must be in the context, not consumed yet, and hold
      a subtype of the (renamed) assumed type; a quantified symbol outside
      the context is guessed. */
  ghost function Loop(mode: Mode, gamma: Context, asms: Assumptions, i: nat, end: nat, consumed: seq<Symbol>, qparams: seq<string>, subs: Renaming): (r: Justification)
    requires i <= end <= |asms| && (mode == Corrected ==> end == |asms|)
    ensures Sound(gamma, asms, i, if mode == Corrected then end else i, subs, consumed, r)
    decreases |asms| - i, if i < end && !Resolved(gamma, subs, asms, i) then 4 else 1
  {
    if i == end then Justified(subs, consumed)
    else
      var key := asms[i].0;
      var symbol := Rename(subs, key);
      if !Defined(asms[i].1.bare, subs) then JTrap
      else
        var rhs := SubstQual(asms[i].1, subs);
        if symbol in gamma then
          if QName(symbol) in qparams then JTrap
          else if symbol in consumed then Unjustified
          else if !IsSubtype(gamma[symbol], rhs) then Unjustified
          else
            var consumed' := consumed + (if Copyable in gamma[symbol].quals then [] else [symbol]);
            var r := Loop(mode, gamma, asms, i + 1, end, consumed', qparams, subs);
            assert r.Justified? && Guesses(gamma, subs) && mode == Corrected ==> HoldsFrom(gamma, asms, i, end, subs, r.subs) by {
              if r.Justified? && Guesses(gamma, subs) && mode == Corrected {
                HoldsStep(gamma, asms, i, end, subs, r.subs);
              }
            }
            assert NoDup(consumed) ==> NoDup(consumed') by {
              if NoDup(consumed) && consumed' != consumed {
                assert consumed' == consumed + [symbol];
              }
            }
            r
        else if QName(symbol) in qparams then
          Candidates(mode, gamma, asms, i, consumed, Without(qparams, symbol), subs, Locations(gamma))
        else Unjustified
  }

  /** Tries each location of the context as the guess for index `i`'s
      quantified symbol, in order, keeping the first that justifies the
      rest. */
  ghost function Candidates(mode: Mode, gamma: Context, asms: Assumptions, i: nat, consumed: seq<Symbol>, quant: seq<string>, subs: Renaming, cands: seq<Symbol>): (r: Justification)
    requires i < |asms| && Rename(subs, asms[i].0) !in gamma
    requires forall c | c in cands :: c in gamma
    ensures Sound(gamma, asms, i, if mode == Corrected then |asms| else i, subs, consumed, r)
    decreases |asms| - i, 3, |cands|
  {
    if |cands| == 0 then Unjustified
    else
      var subst := subs[asms[i].0 := cands[0]];
      assert Resolved(gamma, subst, asms, i);
      match Justify(mode, gamma, asms, i, consumed, quant, subst)
      case Justified(s, c) =>
        if Guesses(gamma, subs) then
          assert asms[i].0 !in subs;
          ExtendsTransitive(gamma, subs, subst, s);
          if mode == Corrected then
            HoldsGuess(gamma, asms, i, |asms|, subs, cands[0], s);
            Justified(s, c)
          else Justified(s, c)
        else Justified(s, c)
      case JTrap => JTrap
      case Unjustified => Candidates(mode, gamma, asms, i, consumed, quant, subs, cands[1..])
  }

  /** The search as the call rule starts it, corrected: every assumption
      of a justified list names a symbol of the context. */
  ghost function JustifyAll(gamma: Context, asms: Assumptions, qparams: seq<string>): (r: Justification)
    ensures r.Justified? ==> Guesses(gamma, r.subs) && NoDup(r.consumed)
    ensures r.Justified? ==> forall i | 0 <= i < |asms| :: Rename(r.subs, asms[i].0) in gamma
    ensures r.Justified? ==> forall i | 0 <= i < |asms| :: Holds(gamma, asms, i, r.subs, InForce(r.subs, map[], asms, 0, i))
  {
    var none: seq<Symbol> := [];
    assert Guesses(gamma, map[]) && NoDup(none);
    var r := Justify(Corrected, gamma, asms, 0, none, qparams, map[]);
    assert r.Justified? ==> HoldsFrom(gamma, asms, 0, |asms|, map[], r.subs);
    assert r.Justified? ==> forall i | 0 <= i < |asms| :: Rename(r.subs, asms[i].0) in gamma by {
      if r.Justified? {
        forall i | 0 <= i < |asms| ensures Rename(r.subs, asms[i].0) in gamma {
          assert Holds(gamma, asms, i, r.subs, InForce(r.subs, map[], asms, 0, i));
        }
      }
    }
    r
  }

  /** The search as written. At the top level its range is right; it is
      the recursive calls, on a suffix, that stop early. */
  ghost function JustifyAllAsWritten(gamma: Context, asms: Assumptions, qparams: seq<string>): (r: Justification)
    ensures r.Justified? ==> Guesses(gamma, r.subs) && NoDup(r.consumed)
  {
    var none: seq<Symbol> := [];
    assert Guesses(gamma, map[]) && NoDup(none);
    Justify(AsWritten, gamma, asms, 0, none, qparams, map[])
  }

  // ---------------------------------------------------------------------------
  // Scenarios

  /** A linear capability cannot justify two assumptions. */
  lemma LinearCapabilityUsedOnce(gamma: Context, k: Symbol, t: QualType)
    requires k in gamma && Copyable !in gamma[k].quals && IsSubtype(gamma[k], t) && k.AnonSym?
    requires Defined(t.bare, map[])
    ensures JustifyAll(gamma, [(k, t), (k, t)], []) == Unjustified
  {
    SubstEmpty(t.bare);
    var asms := [(k, t), (k, t)];
    var none: seq<Symbol> := [];
    assert SubstQual(t, map[]) == t;
    assert Loop(Corrected, gamma, asms, 1, 2, [k], [], map[]) == Unjustified;
    assert none + [k] == [k];
    assert Loop(Corrected, gamma, asms, 0, 2, none, [], map[]) == Unjustified;
    assert Justify(Corrected, gamma, asms, 0, none, [], map[]) == Unjustified;
  }

  /** A copyable capability can. */
  lemma CopyableCapabilityReused(gamma: Context, k: Symbol, t: QualType)
    requires k in gamma && Copyable in gamma[k].quals && IsSubtype(gamma[k], t) && k.AnonSym?
    ensures JustifyAll(gamma, [(k, t), (k, t)], []) == Justified(map[], [])
  {
    SubstEmpty(t.bare);
    var asms := [(k, t), (k, t)];
    var none: seq<Symbol> := [];
    assert none + [] == none;
    assert SubstQual(t, map[]) == t;
    assert Loop(Corrected, gamma, asms, 2, 2, none, [], map[]) == Justified(map[], none);
    assert Loop(Corrected, gamma, asms, 1, 2, none, [], map[]) == Justified(map[], none);
    assert Loop(Corrected, gamma, asms, 0, 2, none, [], map[]) == Justified(map[], none);
    assert Justify(Corrected, gamma, asms, 0, none, [], map[]) == Justified(map[], none);
  }

  // The slice-bound scenario: a register `K` holding `Int32` and one cell
  // `C` holding `Bool`; the assumptions ask for `Int32` at `K`, then at a
  // quantified location named "a".

  const K: Symbol := AnonSym(0, false)
  const C: Symbol := AnonSym(1, true)

  function ScenarioContext(): Context {
    map[K := Unqualified(Int32Type), C := Unqualified(BoolType)]
  }

  function ScenarioAssumptions(a: Decl): Assumptions {
    [(K, Unqualified(Int32Type)), (SymbolOf(a), Unqualified(Int32Type))]
  }

  lemma LocKeysOfPair(a: Symbol, b: Symbol)
    ensures LocKeys([a, b]) == (if a.isLocRef then [a] else []) + (if b.isLocRef then [b] else [])
  {
    assert [a, b][1..] == [b];
    assert [b][1..] == [];
    assert LocKeys([b]) == (if b.isLocRef then [b] else []) + LocKeys([]);
  }

  /** The scenario's context has one location to guess, whichever order its
      two keys are visited in. */
  lemma ScenarioCandidates()
    ensures Locations(ScenarioContext()) == [C]
  {
    var keys := ScenarioContext().Keys;
    assert keys == {K, C};
    assert |keys| == 2;
    var ks := Enumerate(keys);
    assert K in ks && C in ks && ks[0] != ks[1];
    PairIsDisplay(ks);
    LocKeysOfPair(ks[0], ks[1]);
  }

  lemma PairIsDisplay<T>(s: seq<T>)
    requires |s| == 2
    ensures s == [s[0], s[1]]
  {
  }

  /** Index 0 is justified by `K`, which is consumed; the search goes on
      at index 1 with the same guesses. */
  lemma ScenarioFirstStep(mode: Mode, a: Decl)
    requires a.kind == LocDeclKind && a.name == "a"
    ensures Loop(mode, ScenarioContext(), ScenarioAssumptions(a), 0, 2, [], ["a"], map[]) ==
            Loop(mode, ScenarioContext(), ScenarioAssumptions(a), 1, 2, [K], ["a"], map[])
  {
    var gamma := ScenarioContext();
    var asms := ScenarioAssumptions(a);
    SubstEmpty(Int32Type);
    var none: seq<Symbol> := [];
    assert none + [K] == [K];
    assert QName(K) == "";
    assert asms[0] == (K, Unqualified(Int32Type));
    assert Rename(map[], K) == K && K in gamma && gamma[K] == Unqualified(Int32Type);
    assert SubstQual(Unqualified(Int32Type), map[]) == Unqualified(Int32Type);
    assert IsSubtype(Unqualified(Int32Type), Unqualified(Int32Type)) by {
      BareSubtypeReflexive(Int32Type);
    }
  }

  /** One step of the loop at a symbol that is neither in the context nor
      yet guessed, but names a quantified parameter: the search turns to
      the candidate locations. */
  lemma LoopGuessStep(mode: Mode, gamma: Context, asms: Assumptions, i: nat, end: nat, consumed: seq<Symbol>, qparams: seq<string>, subs: Renaming)
    requires i < end <= |asms| && (mode == Corrected ==> end == |asms|)
    requires Defined(asms[i].1.bare, subs)
    requires Rename(subs, asms[i].0) !in gamma && QName(Rename(subs, asms[i].0)) in qparams
    ensures Loop(mode, gamma, asms, i, end, consumed, qparams, subs) ==
            Candidates(mode, gamma, asms, i, consumed, Without(qparams, Rename(subs, asms[i].0)), subs, Locations(gamma))
  {
  }

  /** At index 1 the quantified location is guessed to be `C`. */
  lemma ScenarioGuess(mode: Mode, a: Decl)
    requires a.kind == LocDeclKind && a.name == "a"
    ensures Loop(mode, ScenarioContext(), ScenarioAssumptions(a), 1, 2, [K], ["a"], map[]) ==
            Candidates(mode, ScenarioContext(), ScenarioAssumptions(a), 1, [K], [], map[], [C])
  {
    var q := SymbolOf(a);
    SubstEmpty(Int32Type);
    assert QName(q) == "a";
    LoopGuessStep(mode, ScenarioContext(), ScenarioAssumptions(a), 1, 2, [K], ["a"], map[]);
    ScenarioCandidates();
    assert Without(["a"], q) == [];
  }

  /** The slice-bound mistake: the recursive call that checks the guess
      for the quantified location loops over `1 ..< 1` and accepts the
      guess unchecked, although `C` holds `Bool` where `Int32` is
      assumed. */
  lemma SliceBoundSkipsAssumption(a: Decl)
    requires a.kind == LocDeclKind && a.name == "a"
    ensures JustifyAllAsWritten(ScenarioContext(), ScenarioAssumptions(a), ["a"]) == Justified(map[SymbolOf(a) := C], [K])
  {
    var gamma := ScenarioContext();
    var asms := ScenarioAssumptions(a);
    var subst := map[SymbolOf(a) := C];
    assert Justify(AsWritten, gamma, asms, 1, [K], [], subst) == Justified(subst, [K]);
    assert Candidates(AsWritten, gamma, asms, 1, [K], [], map[], [C]) == Justified(subst, [K]);
    ScenarioGuess(AsWritten, a);
    ScenarioFirstStep(AsWritten, a);
    var none: seq<Symbol> := [];
    assert JustifyAllAsWritten(gamma, asms, ["a"]) == Loop(AsWritten, gamma, asms, 0, 2, none, ["a"], map[]);
  }

  /** The guess fails the check the corrected search makes. */
  lemma ScenarioGuessFails(a: Decl)
    requires a.kind == LocDeclKind && a.name == "a"
    ensures Justify(Corrected, ScenarioContext(), ScenarioAssumptions(a), 1, [K], [], map[SymbolOf(a) := C]) == Unjustified
  {
    var subst := map[SymbolOf(a) := C];
    assert QName(C) == "";
    assert !IsBareSubtype(BoolType, Int32Type) by {
      assert JunkSpine(BoolType) == [BoolType];
    }
    SubstFixingTouched(Int32Type, subst);
  }

  /** The corrected search checks the guess and rejects it. */
  lemma CorrectedSearchRejectsBadGuess(a: Decl)
    requires a.kind == LocDeclKind && a.name == "a"
    ensures JustifyAll(ScenarioContext(), ScenarioAssumptions(a), ["a"]) == Unjustified
  {
    var gamma := ScenarioContext();
    var asms := ScenarioAssumptions(a);
    ScenarioGuessFails(a);
    assert [C][1..] == [];
    assert Candidates(Corrected, gamma, asms, 1, [K], [], map[], [C]) == Unjustified;
    ScenarioGuess(Corrected, a);
    ScenarioFirstStep(Corrected, a);
    var none: seq<Symbol> := [];
    assert JustifyAll(gamma, asms, ["a"]) == Loop(Corrected, gamma, asms, 0, 2, none, ["a"], map[]);
  }
}
