/** The type checker (`TypeChecker`): walks each function body with a
    typing context Γ mapping register symbols to their types and location
    symbols to the capability on the cell they denote. Statements consume
    and produce capabilities; a statement that fails raises one diagnostic
    and leaves Γ as it was.

    Dictionary iteration and the call solver make these ghost functions. */
module Checker {
  import opened Wrappers
  import opened Symbols
  import opened Types
  import opened Substitution
  import opened Contexts
  import opened Paths
  import opened Ast
  import opened Modules
  import opened Realizer
  import Solver

  datatype CDiag =
    | UndefinedExprType
    | CallToNonFunctionType
    | InvalidCallArgTypes
    | InvalidTypeConversion
    | InvalidLValue
    | MissingCapability(sym: Symbol)
    | InvalidMemberOffset
    | FreeOnNonPointerType
    | MemberAccessInScalarType
    | InconsistentAssumption(sym: Symbol)
    | InvalidAssumptionConversion(sym: Symbol)

  /** What stays fixed while a function is checked: the realized types of
      function declarations (by declaration id), the output type of the
      function being checked, and the fuel given to each call's solver. */
  datatype Env = Env(funcTypes: map<nat, QualType>, output: QualType, fuel: nat)

  /** The checker's mutable state. */
  datatype St = St(gamma: Context, diags: seq<CDiag>, hasErrors: bool, nextId: int)

  /** A run either finishes, stops the program (a failed assertion or
      forced cast), or never ends (the solver loops). */
  datatype Out<T> = Done(v: T) | Trapped | Diverged

  /** A later state only adds diagnostics, keeps the error flag once set,
      sets it only alongside a new diagnostic, and never reuses a fresh
      symbol id. */
  predicate Extends(a: St, b: St) {
    a.diags <= b.diags &&
    (a.hasErrors ==> b.hasErrors) &&
    (b.hasErrors ==> a.hasErrors || |a.diags| < |b.diags|) &&
    a.nextId <= b.nextId
  }

  lemma ExtendsTransitive(a: St, b: St, c: St)
    requires Extends(a, b) && Extends(b, c)
    ensures Extends(a, c)
  {
  }

  /** A thrown type error: `visit(_:with:)` reports it and sets the flag. */
  function Throw(st: St, d: CDiag): (r: St)
    ensures Extends(st, r) && r.hasErrors && r.gamma == st.gamma && r.diags == st.diags + [d]
  {
    st.(diags := st.diags + [d], hasErrors := true)
  }

  // ---------------------------------------------------------------------------
  // Typing expressions

  datatype Typed = Typed(t: QualType) | Thrown(d: CDiag) | Traps

  /** `type(of:)`: literals have their built-in type; an identifier has
      the realized type of the function it names or its type in Γ; a
      member has the type of the tuple member, looking through one junk
      wrapper. A negative offset passes the bounds check and traps on the
      array access. */
  function TypeOf(env: Env, gamma: Context, e: Expr): (r: Typed)
    ensures e.BoolLit? ==> r == Typed(Unqualified(BoolType))
    ensures e.IntLit? ==> r == Typed(Unqualified(Int32Type))
    ensures e.VoidLit? ==> r == Typed(Unqualified(VoidType))
    ensures e.IdentExpr? ==> (r.Typed? || r == Thrown(UndefinedExprType))
    ensures e.IdentExpr? && r.Typed? ==> (e.referred.Some? &&
      var d := e.referred.value.decl;
      if d.kind == FuncDeclKind then d.id in env.funcTypes && r.t == env.funcTypes[d.id]
      else SymbolOf(d) in gamma && r.t == gamma[SymbolOf(d)])
    ensures r.Traps? ==> e.MemberExpr?
    decreases e
  {
    match e
    case BoolLit(_) => Typed(Unqualified(BoolType))
    case IntLit(_) => Typed(Unqualified(Int32Type))
    case VoidLit => Typed(Unqualified(VoidType))
    case IdentExpr(_, ref) =>
      if ref.None? then Thrown(UndefinedExprType)
      else
        var d := ref.value.decl;
        if d.kind == FuncDeclKind then
          if d.id in env.funcTypes then Typed(env.funcTypes[d.id]) else Thrown(UndefinedExprType)
        else if SymbolOf(d) in gamma then Typed(gamma[SymbolOf(d)])
        else Thrown(UndefinedExprType)
    case MemberExpr(b, off) =>
      match TypeOf(env, gamma, b)
      case Typed(t) =>
        var bare := if t.bare.Junk? then t.bare.base else t.bare;
        if !bare.Tuple? then Thrown(MemberAccessInScalarType)
        else if !(off < |bare.members|) then Thrown(InvalidMemberOffset)
        else if off < 0 then Traps
        else Typed(bare.members[off])
      case other => other
  }

  /** Reading a member path one step further. */
  lemma {:induction false} DereferenceSnoc(t: QualType, path: Path, i: int)
    requires Dereference(t, path).Some?
    ensures Dereference(t, path + [i]) == Dereference(Dereference(t, path).value, [i])
    decreases |path|, t.bare
  {
    if |path| > 0 {
      assert (path + [i])[0] == path[0] && (path + [i])[1..] == path[1..] + [i];
      match t.bare
      case Tuple(ms) => DereferenceSnoc(ms[path[0]], path[1..], i);
      case Junk(b) => DereferenceSnoc(Unqualified(b), path, i);
    } else {
      assert path + [i] == [i];
    }
  }

  /** Typing a chain of member accesses agrees with dereferencing the
      base's type along the chain's path: the expression `x.1.0` has the
      type stored at path `[1, 0]` of `x`'s type. */
  lemma {:induction false} MemberAccessIsDereference(env: Env, gamma: Context, base: Expr, path: Path)
    requires TypeOf(env, gamma, MemberChain(base, path)).Typed? && TypeOf(env, gamma, base).Typed?
    ensures Dereference(TypeOf(env, gamma, base).t, path) == Some(TypeOf(env, gamma, MemberChain(base, path)).t)
    decreases |path|
  {
    if |path| > 0 {
      var prefix := path[..|path| - 1];
      var off := path[|path| - 1];
      var inner := MemberChain(base, prefix);
      assert MemberChain(base, path) == MemberExpr(inner, off);
      MemberAccessIsDereference(env, gamma, base, prefix);
      var ti := TypeOf(env, gamma, inner).t;
      DereferenceSnoc(TypeOf(env, gamma, base).t, prefix, off);
      assert prefix + [off] == path;
      assert Dereference(ti, [off]) == Some(TypeOf(env, gamma, MemberChain(base, path)).t) by {
        assert [off][1..] == [];
        if ti.bare.Junk? {
          assert Dereference(ti, [off]) == Dereference(Unqualified(ti.bare.base), [off]);
        }
      }
    }
  }

  // ---------------------------------------------------------------------------
  // Statements without a body

  /** `typeCheck(AllocStmt)`: an unrealized signature is skipped; otherwise
      the register gets a fresh location (the declared one, or a new
      anonymous symbol) and Γ gets a junk capability on it. */
  function CheckAlloc(st: St, s: Stmt): (r: St)
    requires s.AllocStmt? && NestOk(s.sign)
    ensures Extends(st, r) && r.diags == st.diags && r.hasErrors == st.hasErrors
    ensures RealizeSign(s.sign).typ.None? ==> r == st
    ensures RealizeSign(s.sign).typ.Some? ==>
      var storage := RealizeSign(s.sign).typ.value;
      var loc := if s.loc.Some? then SymbolOf(s.loc.value) else AnonSym(st.nextId, true);
      r.gamma == st.gamma[SymbolOf(s.decl) := Unqualified(Location(loc))][loc := QualType(Junk(storage.bare), storage.quals)]
  {
    match RealizeSign(s.sign).typ
    case None => st
    case Some(storage) =>
      var (loc, next) := if s.loc.Some? then (SymbolOf(s.loc.value), st.nextId) else (AnonSym(st.nextId, true), st.nextId + 1);
      var g := st.gamma[SymbolOf(s.decl) := Unqualified(Location(loc))];
      st.(gamma := g[loc := QualType(Junk(storage.bare), storage.quals)], nextId := next)
  }

  /** `typeCheck(FreeStmt)`: consumes the capability on the freed
      location. */
  function CheckFree(env: Env, st: St, s: Stmt): (r: Out<St>)
    requires s.FreeStmt?
    ensures r.Done? ==> Extends(st, r.v)
    ensures r.Done? && !r.v.hasErrors ==>
      var te := TypeOf(env, st.gamma, s.expr);
      te.Typed? && te.t.bare.Location? && te.t.bare.loc in st.gamma && r.v.gamma == st.gamma - {te.t.bare.loc}
  {
    match TypeOf(env, st.gamma, s.expr)
    case Traps => Trapped
    case Thrown(d) => Done(Throw(st, d))
    case Typed(t) =>
      if !t.bare.Location? then Done(Throw(st, FreeOnNonPointerType))
      else if t.bare.loc !in st.gamma then Done(Throw(st, MissingCapability(t.bare.loc)))
      else Done(st.(gamma := st.gamma - {t.bare.loc}))
  }

  /** The location an l-value's base points to and the path into the
      cell, or the error `typeCheck` throws for it. */
  datatype LValue = LValue(loc: Symbol, cell: QualType, path: Path, storage: QualType)

  /** The cell is read with the unchecked `dereference(path:)`: an offset
      outside a tuple stops the program, and only a path that reaches a
      scalar is reported as an invalid member offset. */
  function ResolveLValue(env: Env, gamma: Context, lv: Expr): (r: Out<Result<LValue, CDiag>>)
    ensures r.Done? && r.v.Success? ==>
      var (base, path) := StorageRef(lv);
      var x := r.v.value;
      TypeOf(env, gamma, base).Typed? && TypeOf(env, gamma, base).t.bare == Location(x.loc) &&
      x.loc in gamma && x.cell == gamma[x.loc] && x.path == path &&
      Dereference(x.cell, path) == Some(x.storage)
    ensures var (base, path) := StorageRef(lv);
      var tb := TypeOf(env, gamma, base);
      tb.Typed? && tb.t.bare.Location? && tb.t.bare.loc in gamma ==>
        (r == Trapped <==> DerefTraps(gamma[tb.t.bare.loc], path)) &&
        (r == Done(Failure(InvalidMemberOffset)) <==> !DerefTraps(gamma[tb.t.bare.loc], path) && Dereference(gamma[tb.t.bare.loc], path).None?)
    ensures r != Diverged
  {
    var (base, path) := StorageRef(lv);
    match TypeOf(env, gamma, base)
    case Traps => Trapped
    case Thrown(d) => Done(Failure(d))
    case Typed(t) =>
      if !t.bare.Location? then Done(Failure(InvalidLValue))
      else if t.bare.loc !in gamma then Done(Failure(MissingCapability(t.bare.loc)))
      else if DerefTraps(gamma[t.bare.loc], path) then Trapped
      else
        DereferenceAgrees(gamma[t.bare.loc], path);
        match DereferenceAsWritten(gamma[t.bare.loc], path)
        case None => Done(Failure(InvalidMemberOffset))
        case Some(storage) => Done(Success(LValue(t.bare.loc, gamma[t.bare.loc], path, storage)))
  }

  /** `typeCheck(LoadStmt)`: the register gets the type stored at the
      l-value; the capability stays. */
  function CheckLoad(env: Env, st: St, s: Stmt): (r: Out<St>)
    requires s.LoadStmt?
    ensures r.Done? ==> Extends(st, r.v)
    ensures r.Done? && !r.v.hasErrors ==>
      var lv := ResolveLValue(env, st.gamma, s.lvalue);
      lv.Done? && lv.v.Success? && r.v.gamma == st.gamma[SymbolOf(s.decl) := lv.v.value.storage]
  {
    match ResolveLValue(env, st.gamma, s.lvalue)
    case Trapped => Trapped
    case Diverged => Diverged
    case Done(Failure(d)) => Done(Throw(st, d))
    case Done(Success(x)) => Done(st.(gamma := st.gamma[SymbolOf(s.decl) := x.storage]))
  }

  /** `typeCheck(StoreStmt)`: the value must be a subtype of the storage's
      type, and the capability then records the value's type at the path.
      Writing through a path the cell's type cannot take is `fatalError`. */
  function CheckStore(env: Env, st: St, s: Stmt): (r: Out<St>)
    requires s.StoreStmt?
    ensures r.Done? ==> Extends(st, r.v)
    ensures r.Done? && !r.v.hasErrors ==>
      var lv := ResolveLValue(env, st.gamma, s.lvalue);
      var rv := TypeOf(env, st.gamma, s.rvalue);
      rv.Typed? && lv.Done? && lv.v.Success? && IsSubtype(rv.t, lv.v.value.storage) &&
      UpdateValid(lv.v.value.cell, lv.v.value.path) &&
      r.v.gamma == st.gamma[lv.v.value.loc := Update(lv.v.value.cell, lv.v.value.path, rv.t)]
  {
    match TypeOf(env, st.gamma, s.rvalue)
    case Traps => Trapped
    case Thrown(d) => Done(Throw(st, d))
    case Typed(rv) =>
      match ResolveLValue(env, st.gamma, s.lvalue)
      case Trapped => Trapped
      case Diverged => Diverged
      case Done(Failure(d)) => Done(Throw(st, d))
      case Done(Success(x)) =>
        if !IsSubtype(rv, x.storage) then Done(Throw(st, InvalidTypeConversion))
        else if !UpdateValid(x.cell, x.path) then Trapped
        else Done(st.(gamma := st.gamma[x.loc := Update(x.cell, x.path, rv)]))
  }

  /** Storing a value and loading it back through the same l-value gives
      the stored value's type. */
  lemma StoreThenLoad(env: Env, st: St, v: Expr, lv: Expr, d: Decl)
    requires !st.hasErrors
    requires CheckStore(env, st, StoreStmt(v, lv)).Done? && !CheckStore(env, st, StoreStmt(v, lv)).v.hasErrors
    requires var g := CheckStore(env, st, StoreStmt(v, lv)).v.gamma; TypeOf(env, g, StorageRef(lv).0) == TypeOf(env, st.gamma, StorageRef(lv).0)
    ensures var st1 := CheckStore(env, st, StoreStmt(v, lv)).v;
      var r := CheckLoad(env, st1, LoadStmt(d, lv));
      r.Done? && !r.v.hasErrors && r.v.gamma[SymbolOf(d)] == TypeOf(env, st.gamma, v).t
  {
    var x := ResolveLValue(env, st.gamma, lv).v.value;
    var rv := TypeOf(env, st.gamma, v).t;
    UpdateThenDereference(x.cell, x.path, rv);
  }

  /** The return value must be a subtype of the declared output (opened,
      if bundled), and each assumption of the output must be held in Γ
      with a subtype. */
  function ReturnDiags(gamma: Context, keys: seq<Symbol>, eta: map<Symbol, QualType>): (r: seq<CDiag>)
    requires forall k | k in keys :: k in eta
    ensures |r| <= |keys|
    ensures r == [] <==> forall k | k in keys :: k in gamma && IsSubtype(gamma[k], eta[k])
  {
    if |keys| == 0 then []
    else
      var k := keys[0];
      var d := if k !in gamma then [MissingCapability(k)]
               else if !IsSubtype(gamma[k], eta[k]) then [InvalidAssumptionConversion(k)]
               else [];
      d + ReturnDiags(gamma, keys[1..], eta)
  }

  ghost function CheckReturn(env: Env, st: St, s: Stmt): (r: Out<St>)
    requires s.ReturnStmt?
    ensures r.Done? ==> Extends(st, r.v) && r.v.gamma == st.gamma
    ensures r.Done? && !r.v.hasErrors ==>
      var out := if Opened(env.output).Some? then Opened(env.output).value.0 else env.output;
      var eta := if Opened(env.output).Some? then Opened(env.output).value.1 else map[];
      TypeOf(env, st.gamma, s.value).Typed? && IsSubtype(TypeOf(env, st.gamma, s.value).t, out) &&
      forall k | k in eta :: k in st.gamma && IsSubtype(st.gamma[k], eta[k])
  {
    match TypeOf(env, st.gamma, s.value)
    case Traps => Trapped
    case Thrown(d) => Done(Throw(st, d))
    case Typed(t) =>
      var (out, eta) := if Opened(env.output).Some? then Opened(env.output).value else (env.output, map[]);
      if !IsSubtype(t, out) then Done(Throw(st, InvalidTypeConversion))
      else
        var keys := Enumerate(eta.Keys);
        var ds := ReturnDiags(st.gamma, keys, eta);
        Done(st.(diags := st.diags + ds, hasErrors := st.hasErrors || ds != []))
  }

  // ---------------------------------------------------------------------------
  // Calls

  /** The argument constraints, in order; an argument that cannot be typed
      is reported and dropped. */
  function ArgConstraints(env: Env, st: St, args: seq<Expr>, params: seq<QualType>): (r: Out<(St, seq<Solver.Constraint>)>)
    ensures r.Done? ==> Extends(st, r.v.0) && r.v.0.gamma == st.gamma && r.v.0.nextId == st.nextId
    ensures r.Done? ==> |r.v.1| <= |args| && |r.v.1| <= |params|
    decreases |args|
  {
    if |args| == 0 || |params| == 0 then Done((st, []))
    else
      match TypeOf(env, st.gamma, args[0])
      case Traps => Trapped
      case Thrown(d) => ArgConstraints(env, Throw(st, d), args[1..], params[1..])
      case Typed(t) =>
        match ArgConstraints(env, st, args[1..], params[1..])
        case Done((st', cs)) => Done((st', [Solver.Constraint(Solver.OfType(t), Solver.OfType(params[0]))] + cs))
        case Trapped => Trapped
        case Diverged => Diverged
  }

  /** Consumes the solver's assumptions on location references: each must
      be held in Γ with a subtype (an assertion), and is then removed. */
  function Consume(gamma: Context, asms: seq<(Symbol, QualType)>): (r: Option<Context>)
    ensures r.Some? ==> r.value.Keys <= gamma.Keys
    ensures r.Some? ==> forall i | 0 <= i < |asms| && asms[i].0.isLocRef :: asms[i].0 !in r.value
    ensures r.Some? ==> forall k | k in r.value :: r.value[k] == gamma[k]
  {
    if |asms| == 0 then Some(gamma)
    else
      var (k, v) := asms[0];
      if !k.isLocRef then Consume(gamma, asms[1..])
      else if k !in gamma || !IsSubtype(gamma[k], v) then None
      else Consume(gamma - {k}, asms[1..])
  }

  /** Adds the assumptions of the call's output; each must be new (an
      assertion). */
  function Produce(gamma: Context, keys: seq<Symbol>, eta: map<Symbol, QualType>): (r: Option<Context>)
    requires forall k | k in keys :: k in eta
    ensures r.Some? ==> forall k | k in keys :: k in r.value && r.value[k] == eta[k]
    ensures r.Some? ==> forall k | k in gamma :: k in r.value && r.value[k] == gamma[k]
    ensures r.Some? ==> r.value.Keys == gamma.Keys + set k | k in keys
    decreases |keys|
  {
    if |keys| == 0 then Some(gamma)
    else if keys[0] in gamma then None
    else Produce(gamma[keys[0] := eta[keys[0]]], keys[1..], eta)
  }

  /** `typeCheck(CallStmt)`: the callee must have a function type, possibly
      universally quantified over locations; the solver instantiates those
      from the arguments; the assumptions the parameters require are
      consumed and those of the (renamed) output produced. */
  ghost function CheckCall(env: Env, st: St, s: Stmt): (r: Out<St>)
    requires s.CallStmt?
    ensures r.Done? ==> Extends(st, r.v)
  {
    match TypeOf(env, st.gamma, s.callee)
    case Traps => Trapped
    case Thrown(d) => Done(Throw(st, d))
    case Typed(ct) =>
      match BareFuncType(ct.bare)
      case None => Done(Throw(st, CallToNonFunctionType))
      case Some(ft) =>
        var qparams := if ct.bare.Quantified? then ct.bare.qparams else [];
        match ArgConstraints(env, st, s.args, ft.params)
        case Trapped => Trapped
        case Diverged => Diverged
        case Done((st1, cs)) =>
          match Solver.SolveCall(st1.gamma, qparams, cs, env.fuel)
          case Unsolvable => Done(Throw(st1, InvalidCallArgTypes))
          case Spins => Diverged
          case Trap => Trapped
          case Solved(asms, subs) =>
            match Consume(st1.gamma, asms)
            case None => Trapped
            case Some(g1) =>
              if !Defined(ft.output.bare, subs) then Trapped
              else
                var output := SubstQual(ft.output, subs);
                var sym := SymbolOf(s.decl);
                match Opened(output)
                case None => Done(st1.(gamma := g1[sym := output]))
                case Some((tau, eta)) =>
                  match Produce(g1[sym := tau], Enumerate(eta.Keys), eta)
                  case None => Trapped
                  case Some(g2) => Done(st1.(gamma := g2))
  }

  /** Calling a function that takes nothing and returns a plain type binds
      the result register to that type and leaves every capability as it
      was. */
  lemma CallWithoutArguments(env: Env, st: St, d: Decl, f: Decl, out: QualType)
    requires f.kind == FuncDeclKind && env.fuel > 0 && !out.bare.Bundled?
    requires f.id in env.funcTypes && env.funcTypes[f.id] == Unqualified(Func([], out))
    ensures var r := CheckCall(env, st, CallStmt(d, IdentExpr(f.name, Some(Entry(f, None))), []));
      r == Done(st.(gamma := st.gamma[SymbolOf(d) := out]))
  {
    var callee := IdentExpr(f.name, Some(Entry(f, None)));
    assert ArgConstraints(env, st, [], []) == Done((st, []));
    var s0 := Solver.State([], [], map[]);
    assert Solver.Compact(map[]) == Some(map[]);
    assert Solver.RenameAssumptions([], map[]) == Some([]);
    assert Solver.SolveCall(st.gamma, [], [], env.fuel) == Solver.Solved([], map[]);
    SubstEmpty(out.bare);
  }

  // ---------------------------------------------------------------------------
  // Statements with a body

  predicate StmtsNestOk(ss: seq<Stmt>) {
    forall i | 0 <= i < |ss| :: StmtNestOk(ss[i])
  }

  /** After a statement, the brace records the symbols it must drop on
      exit and, for a stack allocation, the location whose capability must
      be released; the location is read with a forced cast. */
  datatype Scope = Scope(st: St, locals: seq<Symbol>, stacks: seq<Symbol>)

  function Track(sc: Scope, s: Stmt): (r: Out<Scope>)
    ensures r.Done? ==> r.v.st == sc.st && sc.locals <= r.v.locals && sc.stacks <= r.v.stacks
    ensures r.Done? && StmtDecl(s).Some? ==> SymbolOf(StmtDecl(s).value) in r.v.locals
    ensures r.Done? ==> forall x | x in r.v.stacks && x !in sc.stacks :: s.AllocStmt? && s.segment == Stack
  {
    match s
    case AllocStmt(d, seg, _, _) =>
      var sym := SymbolOf(d);
      var locals := sc.locals + [sym];
      if seg == Stack && sym in sc.st.gamma then
        var t := sc.st.gamma[sym].bare;
        if t.Location? then Done(Scope(sc.st, locals, sc.stacks + [t.loc])) else Trapped
      else Done(sc.(locals := locals))
    case LoadStmt(d, _) => Done(sc.(locals := sc.locals + [SymbolOf(d)]))
    case CallStmt(d, _, _) => Done(sc.(locals := sc.locals + [SymbolOf(d)]))
    case _ => Done(sc)
  }

  /** Releases the stack cells: a cell whose capability is gone is
      reported, without setting the error flag. */
  function ReleaseStack(st: St, stacks: seq<Symbol>): (r: St)
    ensures Extends(st, r) && r.hasErrors == st.hasErrors
    ensures r.gamma == st.gamma - set x | x in stacks
    ensures |r.diags| == |st.diags| <==> forall i | 0 <= i < |stacks| :: stacks[i] in st.gamma && stacks[i] !in stacks[..i]
    decreases |stacks|
  {
    if |stacks| == 0 then st
    else
      var x := stacks[0];
      var st' := if x !in st.gamma then st.(diags := st.diags + [MissingCapability(x)]) else st.(gamma := st.gamma - {x});
      var r := ReleaseStack(st', stacks[1..]);
      assert forall i | 1 <= i < |stacks| :: stacks[..i] == [x] + stacks[1..][..i - 1];
      assert forall i | 1 <= i < |stacks| :: stacks[i] == stacks[1..][i - 1];
      r
  }

  /** Leaving a brace drops its local symbols, then releases its stack
      cells. */
  function CloseScope(sc: Scope): (r: St)
    ensures Extends(sc.st, r) && r.hasErrors == sc.st.hasErrors
    ensures r.gamma == sc.st.gamma - (set x | x in sc.locals) - (set x | x in sc.stacks)
  {
    var st := sc.st.(gamma := sc.st.gamma - set x | x in sc.locals);
    ReleaseStack(st, sc.stacks)
  }

  ghost function CheckStmt(env: Env, st: St, s: Stmt): (r: Out<St>)
    requires StmtNestOk(s)
    ensures r.Done? ==> Extends(st, r.v)
    decreases s, 1
  {
    match s
    case AllocStmt(_, _, _, _) => Done(CheckAlloc(st, s))
    case FreeStmt(_) => CheckFree(env, st, s)
    case StoreStmt(_, _) => CheckStore(env, st, s)
    case LoadStmt(_, _) => CheckLoad(env, st, s)
    case CallStmt(_, _, _) => CheckCall(env, st, s)
    case ReturnStmt(_) => CheckReturn(env, st, s)
    case IfStmt(_, _, _) => CheckIf(env, st, s)
    case BraceS(b) => CheckBrace(env, st, b)
  }

  /** `typeCheck(IfStmt)`: the condition must be a subtype of `Bool`; both
      branches start from the same Γ, and only what both keep survives,
      joined. */
  ghost function CheckIf(env: Env, st: St, s: Stmt): (r: Out<St>)
    requires s.IfStmt? && StmtNestOk(s)
    ensures r.Done? ==> Extends(st, r.v)
    ensures r.Done? && !r.v.hasErrors ==>
      TypeOf(env, st.gamma, s.cond).Typed? && IsSubtype(TypeOf(env, st.gamma, s.cond).t, Unqualified(BoolType))
    decreases s, 0
  {
    match TypeOf(env, st.gamma, s.cond)
    case Traps => Trapped
    case Thrown(d) => Done(Throw(st, d))
    case Typed(t) =>
      if !IsSubtype(t, Unqualified(BoolType)) then Done(Throw(st, InvalidTypeConversion))
      else
        match CheckBrace(env, st, s.thenBody)
        case Trapped => Trapped
        case Diverged => Diverged
        case Done(st1) =>
          var restored := st1.(gamma := st.gamma);
          var elseOut := if s.elseBody.Some? then CheckBrace(env, restored, s.elseBody.value) else Done(restored);
          match elseOut
          case Trapped => Trapped
          case Diverged => Diverged
          case Done(st2) => Done(st2.(gamma := JoinContexts(st1.gamma, st2.gamma)))
  }

  /** `typeCheck(BraceStmt)`: the statements in order, then the scope is
      closed. */
  ghost function CheckBrace(env: Env, st: St, b: Brace): (r: Out<St>)
    requires BraceNestOk(b)
    ensures r.Done? ==> Extends(st, r.v)
    ensures r.Done? ==> forall i | 0 <= i < |b.stmts| && StmtDecl(b.stmts[i]).Some? :: SymbolOf(StmtDecl(b.stmts[i]).value) !in r.v.gamma
    decreases b, 2
  {
    match CheckStmts(env, Scope(st, [], []), b.stmts)
    case Trapped => Trapped
    case Diverged => Diverged
    case Done(sc) => Done(CloseScope(sc))
  }

  ghost function CheckStmts(env: Env, sc: Scope, ss: seq<Stmt>): (r: Out<Scope>)
    requires StmtsNestOk(ss)
    ensures r.Done? ==> Extends(sc.st, r.v.st) && sc.locals <= r.v.locals
    ensures r.Done? ==> forall i | 0 <= i < |ss| && StmtDecl(ss[i]).Some? :: SymbolOf(StmtDecl(ss[i]).value) in r.v.locals
    decreases ss, 2
  {
    if |ss| == 0 then Done(sc)
    else
      match CheckStmt(env, sc.st, ss[0])
      case Trapped => Trapped
      case Diverged => Diverged
      case Done(st1) =>
        match Track(sc.(st := st1), ss[0])
        case Trapped => Trapped
        case Diverged => Diverged
        case Done(sc1) =>
          var rest := ss[1..];
          assert forall i | 0 <= i < |rest| :: rest[i] == ss[i + 1];
          var r := CheckStmts(env, sc1, rest);
          if r.Done? then
            ExtendsTransitive(sc.st, st1, r.v.st);
            r
          else r
  }

  // ---------------------------------------------------------------------------
  // Functions and modules

  /** Binds the parameters: a bundled parameter type is opened and each of
      its assumptions must agree with what Γ already holds; a disagreement
      is reported and the earlier type kept. */
  function BindAssumptions(st: St, keys: seq<Symbol>, eta: map<Symbol, QualType>): (r: St)
    requires forall k | k in keys :: k in eta
    ensures Extends(st, r) && r.nextId == st.nextId
    ensures forall k | k in keys :: k in r.gamma
    ensures r.gamma.Keys == st.gamma.Keys + set k | k in keys
    ensures !r.hasErrors ==> forall k | k in keys :: r.gamma[k] == eta[k]
    ensures !r.hasErrors ==> forall k | k in st.gamma :: r.gamma[k] == st.gamma[k]
    decreases |keys|
  {
    if |keys| == 0 then st
    else
      var k := keys[0];
      var st' := if k in st.gamma && st.gamma[k] != eta[k] then Throw(st, CDiag.InconsistentAssumption(k))
                 else st.(gamma := st.gamma[k := eta[k]]);
      BindAssumptions(st', keys[1..], eta)
  }

  /** How many parameters are bound: the parameters and their types are
      zipped. */
  function Bound(params: seq<Decl>, types: seq<QualType>): (n: nat)
    ensures n <= |params| && n <= |types| && (n == |params| || n == |types|)
  {
    if |params| < |types| then |params| else |types|
  }

  /** What a parameter's own symbol is bound to: the opened base of a
      bundled type, otherwise the type itself. */
  function ParamBinding(t: QualType): (r: QualType)
    ensures t.bare.Bundled? ==> Bundle(r, t.bare.assumptions) == t
    ensures !t.bare.Bundled? ==> r == t
  {
    if Opened(t).Some? then Opened(t).value.0 else t
  }

  /** No parameter among `params[lo..n]` has the symbol `k`. */
  predicate Kept(params: seq<Decl>, lo: int, n: int, k: Symbol) {
    forall j | lo <= j < n && 0 <= j < |params| :: SymbolOf(params[j]) != k
  }

  /** Binds the parameters in order: each parameter's symbol gets its type
      (opened, if bundled), and a bundle's assumptions are bound as well.
      When no inconsistency is reported, every parameter and every
      assumption not overwritten by a later parameter of the same symbol
      keeps what it was bound to, and so does every earlier binding. */
  ghost function BindParams(st: St, params: seq<Decl>, types: seq<QualType>): (r: St)
    ensures Extends(st, r) && r.nextId == st.nextId
    ensures st.gamma.Keys <= r.gamma.Keys
    ensures forall i | 0 <= i < Bound(params, types) :: SymbolOf(params[i]) in r.gamma
    ensures !r.hasErrors ==> forall i | 0 <= i < Bound(params, types) && Kept(params, i + 1, Bound(params, types), SymbolOf(params[i])) ::
      r.gamma[SymbolOf(params[i])] == ParamBinding(types[i])
    ensures !r.hasErrors ==> forall i | 0 <= i < Bound(params, types) && types[i].bare.Bundled? ::
      HoldsAssumptions(r.gamma, types[i].bare.assumptions, params, i + 1, Bound(params, types))
    ensures !r.hasErrors ==> forall k | k in st.gamma && Kept(params, 0, Bound(params, types), k) :: r.gamma[k] == st.gamma[k]
    decreases |params|
  {
    if |params| == 0 || |types| == 0 then st
    else
      var st' := BindParam(st, params[0], types[0]);
      var ps, ts := params[1..], types[1..];
      var r := BindParams(st', ps, ts);
      ExtendsTransitive(st, st', r);
      assert forall i | 1 <= i < Bound(params, types) :: params[i] == ps[i - 1];
      BindParamsOwn(st, st', r, params, types, ps, ts);
      BindParamsAssumptions(st, st', r, params, types, ps, ts);
      BindParamsFrame(st, st', r, params, types, ps, ts);
      r
  }

  /** What the steps of `BindParams` start from: the first parameter is
      bound in `st'`, and `r` binds the rest on top of it. */
  ghost predicate StepFrom(st: St, st': St, r: St, params: seq<Decl>, types: seq<QualType>, ps: seq<Decl>, ts: seq<QualType>) {
    |params| > 0 && |types| > 0 && ps == params[1..] && ts == types[1..] &&
    st' == BindParam(st, params[0], types[0]) && Extends(st', r) && st'.gamma.Keys <= r.gamma.Keys &&
    (forall i | 0 <= i < Bound(params, types) :: SymbolOf(params[i]) in r.gamma)
  }

  /** The step of `BindParams` for the parameters' own symbols. */
  lemma BindParamsOwn(st: St, st': St, r: St, params: seq<Decl>, types: seq<QualType>, ps: seq<Decl>, ts: seq<QualType>)
    requires StepFrom(st, st', r, params, types, ps, ts)
    requires !r.hasErrors ==> forall i | 0 <= i < Bound(ps, ts) && Kept(ps, i + 1, Bound(ps, ts), SymbolOf(ps[i])) ::
      r.gamma[SymbolOf(ps[i])] == ParamBinding(ts[i])
    requires !r.hasErrors ==> forall k | k in st'.gamma && Kept(ps, 0, Bound(ps, ts), k) :: r.gamma[k] == st'.gamma[k]
    ensures !r.hasErrors ==> forall i | 0 <= i < Bound(params, types) && Kept(params, i + 1, Bound(params, types), SymbolOf(params[i])) ::
      r.gamma[SymbolOf(params[i])] == ParamBinding(types[i])
  {
    var n := Bound(params, types);
    if !r.hasErrors {
      KeptTail(params, n);
      forall i | 0 <= i < n && Kept(params, i + 1, n, SymbolOf(params[i]))
        ensures r.gamma[SymbolOf(params[i])] == ParamBinding(types[i])
      {
        if i == 0 {
          assert Kept(ps, 0, n - 1, SymbolOf(params[0]));
        } else {
          assert params[i] == ps[i - 1] && types[i] == ts[i - 1];
          assert Kept(ps, i, n - 1, SymbolOf(ps[i - 1]));
        }
      }
    }
  }

  /** The step of `BindParams` for the assumptions of bundled parameters. */
  lemma BindParamsAssumptions(st: St, st': St, r: St, params: seq<Decl>, types: seq<QualType>, ps: seq<Decl>, ts: seq<QualType>)
    requires StepFrom(st, st', r, params, types, ps, ts)
    requires !r.hasErrors ==> forall i | 0 <= i < Bound(ps, ts) && ts[i].bare.Bundled? ::
      HoldsAssumptions(r.gamma, ts[i].bare.assumptions, ps, i + 1, Bound(ps, ts))
    requires !r.hasErrors ==> forall k | k in st'.gamma && Kept(ps, 0, Bound(ps, ts), k) :: r.gamma[k] == st'.gamma[k]
    ensures !r.hasErrors ==> forall i | 0 <= i < Bound(params, types) && types[i].bare.Bundled? ::
      HoldsAssumptions(r.gamma, types[i].bare.assumptions, params, i + 1, Bound(params, types))
  {
    var n := Bound(params, types);
    if !r.hasErrors {
      KeptTail(params, n);
      forall i | 0 <= i < n && types[i].bare.Bundled?
        ensures HoldsAssumptions(r.gamma, types[i].bare.assumptions, params, i + 1, n)
      {
        if i == 0 {
          var eta := types[0].bare.assumptions;
          forall k | k in eta && Kept(params, 1, n, k)
            ensures k in r.gamma && r.gamma[k] == eta[k]
          {
            assert Kept(ps, 0, n - 1, k);
          }
        } else {
          assert types[i] == ts[i - 1];
          assert HoldsAssumptions(r.gamma, ts[i - 1].bare.assumptions, ps, i, n - 1);
        }
      }
    }
  }

  /** The step of `BindParams` for bindings made before it. */
  lemma BindParamsFrame(st: St, st': St, r: St, params: seq<Decl>, types: seq<QualType>, ps: seq<Decl>, ts: seq<QualType>)
    requires StepFrom(st, st', r, params, types, ps, ts)
    requires !r.hasErrors ==> forall k | k in st'.gamma && Kept(ps, 0, Bound(ps, ts), k) :: r.gamma[k] == st'.gamma[k]
    ensures !r.hasErrors ==> forall k | k in st.gamma && Kept(params, 0, Bound(params, types), k) :: k in r.gamma && r.gamma[k] == st.gamma[k]
  {
    var n := Bound(params, types);
    if !r.hasErrors {
      KeptTail(params, n);
      forall k | k in st.gamma && Kept(params, 0, n, k)
        ensures k in r.gamma && r.gamma[k] == st.gamma[k]
      {
        assert k != SymbolOf(params[0]) && Kept(params, 1, n, k);
      }
    }
  }

  /** Every assumption of `eta` that no parameter among `params[lo..n]`
      overwrites is held in Γ as assumed. */
  predicate HoldsAssumptions(gamma: Context, eta: map<Symbol, QualType>, params: seq<Decl>, lo: int, n: int) {
    forall k | k in eta && Kept(params, lo, n, k) :: k in gamma && gamma[k] == eta[k]
  }

  /** Dropping the first parameter shifts the indices `Kept` speaks of. */
  lemma KeptTail(params: seq<Decl>, n: int)
    requires 1 <= n <= |params|
    ensures forall lo, k | 1 <= lo :: Kept(params, lo, n, k) == Kept(params[1..], lo - 1, n - 1, k)
  {
    forall lo, k | 1 <= lo
      ensures Kept(params, lo, n, k) == Kept(params[1..], lo - 1, n - 1, k)
    {
      assert forall j | 0 <= j < |params| - 1 :: params[1..][j] == params[j + 1];
    }
  }

  /** Binds one parameter: its symbol gets its binding, and a bundle's
      assumptions are bound, unless an inconsistency is reported; other
      bindings stay. */
  ghost function BindParam(st: St, p: Decl, t: QualType): (r: St)
    ensures Extends(st, r) && r.nextId == st.nextId
    ensures st.gamma.Keys <= r.gamma.Keys && SymbolOf(p) in r.gamma
    ensures !r.hasErrors ==> r.gamma[SymbolOf(p)] == ParamBinding(t)
    ensures !r.hasErrors && t.bare.Bundled? ==> forall k | k in t.bare.assumptions :: k in r.gamma && r.gamma[k] == t.bare.assumptions[k]
    ensures !r.hasErrors ==> forall k | k in st.gamma && k != SymbolOf(p) :: r.gamma[k] == st.gamma[k]
  {
    match t.bare
    case Bundled(b, eta) => BindBundle(st, SymbolOf(p), QualType(b, t.quals), eta)
    case _ => st.(gamma := st.gamma[SymbolOf(p) := t])
  }

  /** A bundled parameter: the symbol gets the opened base, then the
      assumptions are bound in dictionary order. */
  ghost function BindBundle(st: St, sym: Symbol, tau: QualType, eta: map<Symbol, QualType>): (r: St)
    ensures Extends(st, r) && r.nextId == st.nextId
    ensures st.gamma.Keys <= r.gamma.Keys && sym in r.gamma
    ensures !r.hasErrors ==> r.gamma[sym] == tau
    ensures !r.hasErrors ==> forall k | k in eta :: k in r.gamma && r.gamma[k] == eta[k]
    ensures !r.hasErrors ==> forall k | k in st.gamma && k != sym :: r.gamma[k] == st.gamma[k]
  {
    var ks := Enumerate(eta.Keys);
    var st1 := st.(gamma := st.gamma[sym := tau]);
    var r := BindAssumptions(st1, ks, eta);
    ExtendsTransitive(st, st1, r);
    assert forall k | k in eta :: k in ks;
    assert !r.hasErrors ==> r.gamma[sym] == tau && forall k | k in st.gamma && k != sym :: r.gamma[k] == st.gamma[k] by {
      if !r.hasErrors {
        assert sym in st1.gamma && r.gamma[sym] == st1.gamma[sym];
        forall k | k in st.gamma && k != sym
          ensures r.gamma[k] == st.gamma[k]
        {
          assert k in st1.gamma && st1.gamma[k] == st.gamma[k];
        }
      }
    }
    r
  }

  /** `typeCheck(FuncDecl)`: bodiless functions and functions without a
      function type are skipped; otherwise the parameters are bound in an
      empty Γ and the body checked. */
  ghost function CheckFunc(funcTypes: map<nat, QualType>, fuel: nat, st: St, f: FuncDecl, typing: FuncTyping): (r: Out<St>)
    requires FuncNestOk(f)
    ensures r.Done? ==> Extends(st, r.v)
    ensures f.body.None? || typing.typ.None? || BareFuncType(typing.typ.value.bare).None? ==> r == Done(st)
  {
    if f.body.None? || typing.typ.None? then Done(st)
    else match BareFuncType(typing.typ.value.bare)
      case None => Done(st)
      case Some(ft) =>
        var env := Env(funcTypes, ft.output, fuel);
        var st1 := BindParams(st.(gamma := map[]), f.params, typing.paramTypes);
        CheckBrace(env, st1, f.body.value)
  }

  ghost function CheckFuncs(funcTypes: map<nat, QualType>, fuel: nat, st: St, fs: seq<FuncDecl>, typings: seq<FuncTyping>): (r: Out<St>)
    requires |typings| == |fs| && forall i | 0 <= i < |fs| :: FuncNestOk(fs[i])
    ensures r.Done? ==> Extends(st, r.v)
    decreases |fs|
  {
    if |fs| == 0 then Done(st)
    else
      match CheckFunc(funcTypes, fuel, st, fs[0], typings[0])
      case Trapped => Trapped
      case Diverged => Diverged
      case Done(st1) =>
        var r := CheckFuncs(funcTypes, fuel, st1, fs[1..], typings[1..]);
        if r.Done? then
          ExtendsTransitive(st, st1, r.v);
          r
        else r
  }

  /** `visit(Module)`: clears `typeChecked`, checks every function from an
      empty Γ, and records `typeChecked` only when no error was raised.
      Function types are looked up among `funcTypes` (the module's own,
      from realization, and the built-in ones). The result holds the
      module, the reports, and whether one of the reports was an error: a
      stack cell released without its capability is reported without
      being one. */
  ghost function CheckModule(m: Module, typings: seq<FuncTyping>, funcTypes: map<nat, QualType>, fuel: nat): (r: Out<(Module, seq<CDiag>, bool)>)
    requires |typings| == |m.funcDecls| && forall i | 0 <= i < |m.funcDecls| :: FuncNestOk(m.funcDecls[i])
    ensures r.Done? ==> r.v.0.goals - {TypeChecked} == m.goals - {TypeChecked}
    ensures r.Done? ==> r.v.0 == m.(goals := r.v.0.goals)
    ensures r.Done? ==> (TypeChecked in r.v.0.goals <==> !r.v.2)
    ensures r.Done? && r.v.2 ==> r.v.1 != []
  {
    match CheckFuncs(funcTypes, fuel, St(map[], [], false, 0), m.funcDecls, typings)
    case Trapped => Trapped
    case Diverged => Diverged
    case Done(st) =>
      var goals := (m.goals - {TypeChecked}) + (if st.hasErrors then {} else {TypeChecked});
      assert goals - {TypeChecked} == m.goals - {TypeChecked};
      assert st.diags == [] ==> !st.hasErrors;
      Done((m.(goals := goals), st.diags, st.hasErrors))
  }

  // ---------------------------------------------------------------------------
  // Scenarios

  /** Freeing the same cell twice: the second `free` finds no capability. */
  lemma DoubleFreeReported(env: Env, st: St, x: Decl, l: Symbol)
    requires x.kind != FuncDeclKind && SymbolOf(x) != l && !st.hasErrors
    requires SymbolOf(x) in st.gamma && st.gamma[SymbolOf(x)] == Unqualified(Location(l)) && l in st.gamma
    ensures var e := IdentExpr(x.name, Some(Entry(x, None)));
      var r1 := CheckFree(env, st, FreeStmt(e));
      r1.Done? && !r1.v.hasErrors && l !in r1.v.gamma &&
      CheckFree(env, r1.v, FreeStmt(e)) == Done(Throw(r1.v, MissingCapability(l)))
  {
    var e := IdentExpr(x.name, Some(Entry(x, None)));
    var st1 := st.(gamma := st.gamma - {l});
    assert CheckFree(env, st, FreeStmt(e)) == Done(st1);
    assert TypeOf(env, st1.gamma, e) == Typed(Unqualified(Location(l)));
  }

  /** A stack cell freed inside its brace is reported when the brace
      closes, but the error flag stays clear, so the module can still be
      marked type-checked. */
  lemma FreedStackCellOnlyWarns(env: Env, st: St, x: Decl, l: Decl)
    requires x.kind == AllocKind && l.kind == LocDeclKind && x != l && !st.hasErrors
    ensures var body := Brace([AllocStmt(x, Stack, TupleSign([]), Some(l)), FreeStmt(IdentExpr(x.name, Some(Entry(x, None))))]);
      BraceNestOk(body) &&
      var r := CheckBrace(env, st, body);
      r.Done? && !r.v.hasErrors && r.v.diags == st.diags + [MissingCapability(SymbolOf(l))]
  {
    var alloc := AllocStmt(x, Stack, TupleSign([]), Some(l));
    var free := FreeStmt(IdentExpr(x.name, Some(Entry(x, None))));
    var body := Brace([alloc, free]);
    assert RealizeSigns([]) == ([], []);
    assert RealizeSign(TupleSign([])).typ == Some(Unqualified(Tuple([])));
    var st1 := CheckAlloc(st, alloc);
    assert SymbolOf(x) != SymbolOf(l);
    assert st1.gamma[SymbolOf(x)] == Unqualified(Location(SymbolOf(l)));
    var sc1 := Scope(st1, [SymbolOf(x)], [SymbolOf(l)]);
    assert [] + [SymbolOf(x)] == [SymbolOf(x)] && [] + [SymbolOf(l)] == [SymbolOf(l)];
    assert Track(Scope(st1, [], []), alloc) == Done(sc1);
    var st2 := st1.(gamma := st1.gamma - {SymbolOf(l)});
    assert CheckFree(env, st1, free) == Done(st2);
    assert [alloc, free][1..] == [free];
    assert [free][1..] == [];
    assert CheckStmts(env, Scope(st2, [SymbolOf(x)], [SymbolOf(l)]), []) == Done(Scope(st2, [SymbolOf(x)], [SymbolOf(l)]));
    assert CheckStmts(env, sc1, [free]) == Done(Scope(st2, [SymbolOf(x)], [SymbolOf(l)]));
    assert CheckStmts(env, Scope(st, [], []), [alloc, free]) == Done(Scope(st2, [SymbolOf(x)], [SymbolOf(l)]));
  }

  /** A module whose only function frees a stack cell inside its block is
      still marked type-checked: the report at the block's end is not an
      error. */
  lemma WarningOnlyModuleTypeChecked(m: Module, f: FuncDecl, x: Decl, l: Decl, out: QualType, funcTypes: map<nat, QualType>, fuel: nat)
    requires x.kind == AllocKind && l.kind == LocDeclKind && x != l
    requires f.params == [] && NestOk(f.sign) && !out.bare.Bundled?
    requires f.body == Some(Brace([AllocStmt(x, Stack, TupleSign([]), Some(l)), FreeStmt(IdentExpr(x.name, Some(Entry(x, None))))]))
    requires m.funcDecls == [f]
    ensures FuncNestOk(f)
    ensures var r := CheckModule(m, [FuncTyping(Some(Unqualified(Func([], out))), [])], funcTypes, fuel);
      r.Done? && TypeChecked in r.v.0.goals && r.v.1 == [MissingCapability(SymbolOf(l))] && !r.v.2
  {
    var st0 := St(map[], [], false, 0);
    var body := f.body.value;
    var env := Env(funcTypes, out, fuel);
    FreedStackCellOnlyWarns(env, st0, x, l);
    var typing := FuncTyping(Some(Unqualified(Func([], out))), []);
    assert BindParams(st0, [], []) == st0;
    var st1 := CheckBrace(env, st0, body).v;
    assert CheckFunc(funcTypes, fuel, st0, f, typing) == Done(st1);
    assert [f][1..] == [] && [typing][1..] == [];
    assert CheckFuncs(funcTypes, fuel, st0, [f], [typing]) == Done(st1);
  }
}
