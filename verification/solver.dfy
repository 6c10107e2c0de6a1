/** The constraint solver used to check calls (`TypeSolver`). Each
    argument/parameter pair is a constraint; solving it may instantiate a
    universally quantified location of the callee with a concrete location
    of the caller. Bundles are unpacked and their assumptions become new
    constraints on the typing context.

    The solver visits a bundle's assumptions in dictionary order, so the
    functions here are ghost: they use `Contexts.Enumerate`. */
module Solver {
  import opened Wrappers
  import opened Symbols
  import opened Types
  import opened Substitution
  import opened Contexts

  datatype Operand = OfType(t: QualType) | OfRef(sym: Symbol)

  datatype Constraint = Constraint(lhs: Operand, rhs: Operand)

  datatype State = State(constraints: seq<Constraint>, assumptions: seq<(Symbol, QualType)>, subs: Renaming)

  datatype Outcome =
    | Solved(assumptions: seq<(Symbol, QualType)>, subs: Renaming)
    | Unsolvable    // `solve()` returned nil
    | Spins         // the source loops forever (or the fuel ran out)
    | Trap          // a failed assertion or a duplicate renamed key

  // ---------------------------------------------------------------------------
  // Following substitutions

  /** `substitution(for:)`: follows the substitution table until reaching a
      symbol it does not map. With a cycle in the table the source never
      returns; the model gives up after `fuel` steps. */
  function Walk(subs: Renaming, s: Symbol, fuel: nat): (r: Option<Symbol>)
    ensures r.Some? ==> r.value !in subs
    ensures s !in subs ==> r == Some(s)
    decreases fuel
  {
    if s !in subs then Some(s)
    else if fuel == 0 then None
    else Walk(subs, subs[s], fuel - 1)
  }

  /** More fuel does not change a walk that arrived. */
  lemma {:induction false} WalkMonotone(subs: Renaming, s: Symbol, fuel: nat, more: nat)
    requires fuel <= more && Walk(subs, s, fuel).Some?
    ensures Walk(subs, s, more) == Walk(subs, s, fuel)
    decreases fuel
  {
    if s in subs {
      WalkMonotone(subs, subs[s], fuel - 1, more - 1);
    }
  }

  /** A symbol mapped to itself is a cycle: the walk never arrives. */
  lemma {:induction false} SelfLoopNeverArrives(subs: Renaming, s: Symbol, fuel: nat)
    requires s in subs && subs[s] == s
    ensures Walk(subs, s, fuel).None?
    decreases fuel
  {
    if fuel > 0 {
      SelfLoopNeverArrives(subs, s, fuel - 1);
    }
  }

  /** Walks are given as many steps as the table has entries: an acyclic
      walk visits each entry at most once. */
  function Follow(subs: Renaming, s: Symbol): Option<Symbol> {
    Walk(subs, s, |subs|)
  }

  datatype Decoded = Known(t: QualType) | Unknown | Cycles

  /** `decode(_:)`: a type operand is itself; a reference is looked up in
      the typing context after following the substitutions. */
  function Decode(ctx: Context, subs: Renaming, op: Operand): (r: Decoded)
    ensures op.OfType? ==> r == Known(op.t)
    ensures op.OfRef? && r.Known? ==> exists s :: Follow(subs, op.sym) == Some(s) && s in ctx && ctx[s] == r.t
    ensures op.OfRef? && r.Unknown? ==> exists s :: Follow(subs, op.sym) == Some(s) && s !in ctx
  {
    match op
    case OfType(t) => Known(t)
    case OfRef(s) =>
      match Follow(subs, s)
      case None => Cycles
      case Some(w) => if w in ctx then Known(ctx[w]) else Unknown
  }

  // ---------------------------------------------------------------------------
  // Unification

  datatype Unified = Unifies(subs: Renaming) | Fails | Traps

  /** Whether a location may be instantiated: its name (or the empty name
      for an anonymous location) is one of the quantified parameters. */
  predicate Instantiable(qparams: seq<string>, s: Symbol) {
    (if NameOf(s).Some? then NameOf(s).value else "") in qparams
  }

  /** `unify(_:_:)`: a subtype needs nothing; otherwise a location on the
      right whose name is quantified is instantiated with the location on
      the left, which then must carry the right side's qualifiers. */
  function Unify(qparams: seq<string>, subs: Renaming, lhs: QualType, rhs: QualType): (r: Unified)
    ensures IsSubtype(lhs, rhs) ==> r == Unifies(subs)
    ensures r.Traps? <==> (!IsSubtype(lhs, rhs) && lhs.bare.Location? && rhs.bare.Location? &&
                           Instantiable(qparams, rhs.bare.loc) && rhs.bare.loc in subs)
    ensures r.Unifies? && !IsSubtype(lhs, rhs) ==>
      lhs.bare.Location? && rhs.bare.Location? && Instantiable(qparams, rhs.bare.loc) &&
      rhs.bare.loc !in subs && r.subs == subs[rhs.bare.loc := lhs.bare.loc] &&
      IsSubtype(lhs, QualType(Location(Rename(r.subs, rhs.bare.loc)), rhs.quals))
    ensures r.Unifies? <==> (IsSubtype(lhs, rhs) ||
      (lhs.bare.Location? && rhs.bare.Location? && Instantiable(qparams, rhs.bare.loc) &&
       rhs.bare.loc !in subs && IsSubtype(lhs, QualType(lhs.bare, rhs.quals))))
  {
    if IsSubtype(lhs, rhs) then Unifies(subs)
    else if lhs.bare.Location? && rhs.bare.Location? && Instantiable(qparams, rhs.bare.loc) then
      var b := rhs.bare.loc;
      if b in subs then Traps
      else if IsSubtype(lhs, QualType(lhs.bare, rhs.quals)) then Unifies(subs[b := lhs.bare.loc])
      else Fails
    else Fails
  }

  /** The substitution table only ever maps instantiable locations. */
  predicate KeysInstantiable(qparams: seq<string>, subs: Renaming) {
    forall k | k in subs :: Instantiable(qparams, k)
  }

  // ---------------------------------------------------------------------------
  // Solving

  /** The constraints an unpacked bundle adds: each assumption must hold of
      the location it is about, in dictionary order. */
  ghost function AssumptionConstraints(eta: map<Symbol, QualType>): (r: seq<Constraint>)
    ensures |r| == |eta|
    ensures forall c | c in r :: c.lhs.OfRef? && c.lhs.sym in eta && c.rhs == OfType(eta[c.lhs.sym])
    ensures forall k | k in eta :: Constraint(OfRef(k), OfType(eta[k])) in r
  {
    ConstraintsFor(eta, Enumerate(eta.Keys))
  }

  /** One constraint per listed location, in the order of the list. */
  function ConstraintsFor(eta: map<Symbol, QualType>, ks: seq<Symbol>): (r: seq<Constraint>)
    requires forall k | k in ks :: k in eta
    ensures |r| == |ks|
    ensures forall c | c in r :: c.lhs.OfRef? && c.lhs.sym in ks && c.rhs == OfType(eta[c.lhs.sym])
    ensures forall k | k in ks :: Constraint(OfRef(k), OfType(eta[k])) in r
  {
    if ks == [] then [] else [Constraint(OfRef(ks[0]), OfType(eta[ks[0]]))] + ConstraintsFor(eta, ks[1..])
  }

  /** A bundle's assumptions as a list of pairs, in dictionary order. */
  ghost function AssumptionPairs(eta: map<Symbol, QualType>): (r: seq<(Symbol, QualType)>)
    ensures |r| == |eta|
    ensures forall p | p in r :: p.0 in eta && p.1 == eta[p.0]
  {
    var ks := Enumerate(eta.Keys);
    seq(|ks|, i requires 0 <= i < |ks| => (ks[i], eta[ks[i]]))
  }

  datatype Stepped = Next(st: State) | StepFails | StepSpins | StepTraps

  /** One turn of the loop: pops the last constraint; requeues it at the
      front when an operand is not in the context yet; skips it when both
      sides are equal; otherwise unpacks bundles on either side (the
      right side's assumptions are collected for the caller) and unifies. */
  ghost function Step(ctx: Context, qparams: seq<string>, st: State): (r: Stepped)
    requires |st.constraints| > 0
    ensures r.Next? && KeysInstantiable(qparams, st.subs) ==> KeysInstantiable(qparams, r.st.subs)
    ensures r.Next? ==> st.assumptions <= r.st.assumptions
  {
    var c := st.constraints[|st.constraints| - 1];
    var rest := st.constraints[..|st.constraints| - 1];
    match Decode(ctx, st.subs, c.lhs)
    case Cycles => StepSpins
    case Unknown => Next(st.(constraints := [c] + rest))
    case Known(l) =>
      match Decode(ctx, st.subs, c.rhs)
      case Cycles => StepSpins
      case Unknown => Next(st.(constraints := [c] + rest))
      case Known(r) =>
        if l == r then Next(st.(constraints := rest))
        else Relate(qparams, st, rest, l, r)
  }

  /** The last part of a turn, for two different decoded sides: unpacks
      bundles on either side and unifies what is inside. */
  ghost function Relate(qparams: seq<string>, st: State, rest: seq<Constraint>, l: QualType, r: QualType): (res: Stepped)
    ensures res.Next? && KeysInstantiable(qparams, st.subs) ==> KeysInstantiable(qparams, res.st.subs)
    ensures res.Next? ==> st.assumptions <= res.st.assumptions
  {
    var (l', cl) := if Opened(l).Some? then (Opened(l).value.0, AssumptionConstraints(Opened(l).value.1)) else (l, []);
    var (r', cr, ar) := if Opened(r).Some? then
        (Opened(r).value.0, AssumptionConstraints(Opened(r).value.1), AssumptionPairs(Opened(r).value.1))
      else (r, [], []);
    match Unify(qparams, st.subs, l', r')
    case Fails => StepFails
    case Traps => StepTraps
    case Unifies(subs) =>
      Next(State(rest + cl + cr, st.assumptions + ar, subs))
  }

  /** Path compression after the loop: every key maps straight to the end
      of its walk. `None` when some walk never ends. */
  function Compact(subs: Renaming): (r: Option<Renaming>)
    ensures r.Some? ==> r.value.Keys == subs.Keys
    ensures r.Some? ==> forall k | k in subs :: Follow(subs, k) == Some(r.value[k])
    ensures r.Some? ==> forall k | k in r.value :: r.value[k] !in r.value
    ensures r.None? <==> exists k | k in subs :: Follow(subs, k).None?
  {
    if exists k | k in subs :: Follow(subs, k).None? then None
    else Some(map k | k in subs :: Follow(subs, k).value)
  }

  /** Renames the collected assumptions with the final table. */
  function RenameAssumptions(asms: seq<(Symbol, QualType)>, subs: Renaming): (r: Option<seq<(Symbol, QualType)>>)
    ensures r.Some? <==> forall i | 0 <= i < |asms| :: Defined(asms[i].1.bare, subs)
    ensures r.Some? ==> (|r.value| == |asms| &&
      forall i | 0 <= i < |asms| :: r.value[i].0 == Rename(subs, asms[i].0) && r.value[i].1 == SubstQual(asms[i].1, subs))
  {
    if |asms| == 0 then Some([])
    else if !Defined(asms[0].1.bare, subs) then None
    else match RenameAssumptions(asms[1..], subs)
      case None => None
      case Some(rest) => Some([(Rename(subs, asms[0].0), SubstQual(asms[0].1, subs))] + rest)
  }

  /** `solve()`, with `fuel` bounding the number of loop turns. */
  ghost function Solve(ctx: Context, qparams: seq<string>, st: State, fuel: nat): (r: Outcome)
    ensures r.Solved? && KeysInstantiable(qparams, st.subs) ==> KeysInstantiable(qparams, r.subs)
    ensures r.Solved? ==> forall k | k in r.subs :: r.subs[k] !in r.subs
    decreases fuel
  {
    if |st.constraints| == 0 then
      match Compact(st.subs)
      case None => Spins
      case Some(subs) =>
        match RenameAssumptions(st.assumptions, subs)
        case None => Trap
        case Some(asms) => Solved(asms, subs)
    else if fuel == 0 then Spins
    else
      match Step(ctx, qparams, st)
      case StepFails => Unsolvable
      case StepSpins => Spins
      case StepTraps => Trap
      case Next(st') => Solve(ctx, qparams, st', fuel - 1)
  }

  /** The solver as a call starts it: the given constraints, nothing
      collected, no substitution. */
  ghost function SolveCall(ctx: Context, qparams: seq<string>, cs: seq<Constraint>, fuel: nat): (r: Outcome)
    ensures r.Solved? ==> KeysInstantiable(qparams, r.subs)
  {
    Solve(ctx, qparams, State(cs, [], map[]), fuel)
  }

  // ---------------------------------------------------------------------------
  // Properties

  /** Without quantified parameters nothing is instantiated, so the
      collected assumptions come back unrenamed. */
  lemma NonGenericCallRenamesNothing(ctx: Context, cs: seq<Constraint>, fuel: nat)
    ensures var r := SolveCall(ctx, [], cs, fuel); r.Solved? ==> r.subs == map[]
  {
    var r := SolveCall(ctx, [], cs, fuel);
    if r.Solved? {
      assert r.subs.Keys == {};
    }
  }

  /** A constraint between two plain, unbundled types of a non-generic
      call is solved exactly when the left side is a subtype of the right
      (equal sides are skipped before unification). */
  lemma SingleConstraint(ctx: Context, l: QualType, r: QualType, fuel: nat)
    requires fuel > 0 && !l.bare.Bundled? && !r.bare.Bundled?
    ensures SolveCall(ctx, [], [Constraint(OfType(l), OfType(r))], fuel) ==
      if l == r || IsSubtype(l, r) then Solved([], map[]) else Unsolvable
  {
    var st := State([Constraint(OfType(l), OfType(r))], [], map[]);
    assert st.constraints[..0] == [];
    assert Compact(map[]) == Some(map[]);
    assert RenameAssumptions([], map[]) == Some([]);
    var done := State([], [], map[]);
    assert Solve(ctx, [], done, fuel - 1) == Solved([], map[]);
    if l == r {
      assert Step(ctx, [], st) == Next(done);
    } else if IsSubtype(l, r) {
      assert Step(ctx, [], st) == Next(State([] + [] + [], [] + [], map[]));
    } else {
      assert Unify([], map[], l, r) == Fails;
      assert Step(ctx, [], st) == StepFails;
    }
  }

  /** The loop never gives up on a constraint it cannot decode: a lone
      constraint about a location absent from the context is requeued
      forever. */
  lemma {:induction false} UndecodableSpins(ctx: Context, qparams: seq<string>, s: Symbol, t: QualType, fuel: nat)
    requires s !in ctx
    ensures Solve(ctx, qparams, State([Constraint(OfRef(s), OfType(t))], [], map[]), fuel) == Spins
    decreases fuel
  {
    var st := State([Constraint(OfRef(s), OfType(t))], [], map[]);
    if fuel > 0 {
      assert st.constraints[..0] == [];
      assert Step(ctx, qparams, st) == Next(st);
      UndecodableSpins(ctx, qparams, s, t, fuel - 1);
    }
  }

  /** Instantiation: a quantified location on the right is bound to the
      caller's location on the left. */
  lemma InstantiatesQuantifiedLocation(ctx: Context, a: Symbol, b: Decl, fuel: nat)
    requires fuel > 0 && a != DeclSym(b, true)
    ensures var r := SolveCall(ctx, [b.name], [Constraint(OfType(Unqualified(Location(a))), OfType(Unqualified(Location(DeclSym(b, true)))))], fuel);
      r == Solved([], map[DeclSym(b, true) := a])
  {
    var bs := DeclSym(b, true);
    var st := State([Constraint(OfType(Unqualified(Location(a))), OfType(Unqualified(Location(bs))))], [], map[]);
    assert st.constraints[..0] == [];
    assert !IsBareSubtype(Location(a), Location(bs)) by {
      assert JunkSpine(Location(a)) == [Location(a)];
    }
    var subs := map[bs := a];
    assert Step(ctx, [b.name], st) == Next(State([], [], subs));
    SingleBindingSolved(ctx, [b.name], bs, a, fuel - 1);
  }

  /** With nothing left to solve, one binding of a location to another
      location is the solution. */
  lemma SingleBindingSolved(ctx: Context, qparams: seq<string>, b: Symbol, a: Symbol, fuel: nat)
    requires a != b
    ensures Solve(ctx, qparams, State([], [], map[b := a]), fuel) == Solved([], map[b := a])
  {
    var subs := map[b := a];
    assert Walk(subs, a, 0) == Some(a);
    assert Follow(subs, b) == Some(a);
    assert !exists k | k in subs :: Follow(subs, k).None?;
    assert (map k | k in subs :: Follow(subs, k).value) == subs;
    assert Compact(subs) == Some(subs);
    assert RenameAssumptions([], subs) == Some([]);
  }
}
