/** The built-in module (`BuiltinModule`): the built-in types and the
    arithmetic and comparison functions on the integer types. */
module Builtins {
  import opened Wrappers
  import opened Symbols
  import opened Types
  import opened Ast
  import opened Numerals
  import opened Modules

  const BuiltinTypeNames: seq<string> := ["Any", "Void", "Bool", "Int32", "Int64"]
  const BinaryOps: seq<string> := ["add_", "sub_", "mul_", "div_"]
  const PredicateOps: seq<string> := ["eq_", "ne_", "gt_", "ge_", "lt_", "le_"]
  const IntegerTypes: seq<string> := ["Int32", "Int64"]

  /** Declaration ids of the built-in module: the five type declarations
      come first, then each function with its two parameters. */
  function BuiltinTypeDecl(i: nat): (t: TypeDecl)
    requires i < 5
    ensures t.decl.name == BuiltinTypeNames[i] && t.declared == Builtin(BuiltinTypeNames[i])
    ensures t.decl.kind == NominalTypeKind
  {
    TypeDecl(Decl(i, BuiltinTypeNames[i], NominalTypeKind), Builtin(BuiltinTypeNames[i]))
  }

  function TypeIndex(name: string): nat
    requires name in BuiltinTypeNames
    ensures TypeIndex(name) < 5 && BuiltinTypeNames[TypeIndex(name)] == name
  {
    if name == "Any" then 0 else if name == "Void" then 1 else if name == "Bool" then 2
    else if name == "Int32" then 3 else 4
  }

  function NamedSign(name: string): TypeSign
    requires name in BuiltinTypeNames
  {
    var t := BuiltinTypeDecl(TypeIndex(name));
    IdentSign(name, Some(TypeDeclEntry(t)))
  }

  /** `function(_:_:_:)`: a body-less function with parameters `x0`, `x1`,
      ... whose signature names the built-in types. */
  function BuiltinFunction(id: nat, name: string, inputs: seq<string>, output: string): (f: FuncDecl)
    requires forall i | 0 <= i < |inputs| :: inputs[i] in BuiltinTypeNames
    requires output in BuiltinTypeNames
    ensures f.decl == Decl(id, name, FuncDeclKind) && f.body.None?
    ensures |f.params| == |inputs|
    ensures forall i | 0 <= i < |inputs| :: f.params[i].name == "x" + NatToString(i) && f.params[i].kind == FuncParamKind
  {
    FuncDecl(
      Decl(id, name, FuncDeclKind),
      seq(|inputs|, i requires 0 <= i < |inputs| => Decl(id + 1 + i, "x" + NatToString(i), FuncParamKind)),
      FuncSign(seq(|inputs|, i requires 0 <= i < |inputs| => NamedSign(inputs[i])), NamedSign(output)),
      None)
  }

  /** The type given to a built-in function: its inputs and output, all
      unqualified. */
  function BuiltinFunctionType(inputs: seq<string>, output: string): (t: QualType)
    ensures t.quals == {} && t.bare.Func? && |t.bare.params| == |inputs|
    ensures forall i | 0 <= i < |inputs| :: t.bare.params[i] == Unqualified(Builtin(inputs[i]))
    ensures t.bare.output == Unqualified(Builtin(output))
  {
    Unqualified(Func(seq(|inputs|, i requires 0 <= i < |inputs| => Unqualified(Builtin(inputs[i]))),
                     Unqualified(Builtin(output))))
  }

  /** One built-in function: its declaration and type. */
  datatype BuiltinOp = BuiltinOp(decl: FuncDecl, funcType: QualType)

  /** The operations on one integer type, binary ones first. */
  function IntegerOps(firstId: nat, ty: string): (r: seq<BuiltinOp>)
    requires ty in IntegerTypes
    ensures |r| == 10
    ensures forall j | 0 <= j < 4 ::
      (r[j].decl.decl.name == BinaryOps[j] + ty && r[j].funcType == BuiltinFunctionType([ty, ty], ty))
    ensures forall j | 4 <= j < 10 ::
      (r[j].decl.decl.name == PredicateOps[j - 4] + ty && r[j].funcType == BuiltinFunctionType([ty, ty], "Bool"))
    ensures forall j | 0 <= j < 10 :: r[j].decl.decl.id == firstId + 3 * j
  {
    seq(10, j requires 0 <= j < 10 =>
      if j < 4 then
        BuiltinOp(BuiltinFunction(firstId + 3 * j, BinaryOps[j] + ty, [ty, ty], ty), BuiltinFunctionType([ty, ty], ty))
      else
        BuiltinOp(BuiltinFunction(firstId + 3 * j, PredicateOps[j - 4] + ty, [ty, ty], "Bool"),
                  BuiltinFunctionType([ty, ty], "Bool")))
  }

  /** All built-in functions: those on `Int32`, then those on `Int64`. */
  function BuiltinOps(): (r: seq<BuiltinOp>)
    ensures |r| == 20
  {
    IntegerOps(5, "Int32") + IntegerOps(35, "Int64")
  }

  /** The built-in module, which has already reached every goal. */
  function BuiltinModule(): (m: Module)
    ensures m.isBuiltin && m.id == "_Builtin"
    ensures m.goals == {NamesResolved, TypesResolved, TypeChecked}
    ensures |m.typeDecls| == 5 && |m.funcDecls| == 20
  {
    var ops := BuiltinOps();
    Module("_Builtin",
      seq(5, i requires 0 <= i < 5 => BuiltinTypeDecl(i)),
      seq(|ops|, i requires 0 <= i < |ops| => ops[i].decl),
      {NamesResolved, TypesResolved, TypeChecked},
      true)
  }

  /** The types of the built-in functions, by declaration id. */
  function BuiltinFuncTypes(): (r: map<nat, QualType>)
    ensures forall i | 0 <= i < 20 :: BuiltinOps()[i].decl.decl.id in r
  {
    var ops := BuiltinOps();
    map i | 0 <= i < |ops| :: ops[i].decl.decl.id := ops[i].funcType
  }

  /** Every integer type gets four binary operations `(T, T) -> T` and six
      predicates `(T, T) -> Bool`, named by the operation and the type. */
  lemma BuiltinOperationsTyped(ty: string, j: nat)
    requires ty in IntegerTypes && j < 10
    ensures var op := BuiltinOps()[(if ty == "Int32" then 0 else 10) + j];
      (j < 4 ==> op.decl.decl.name == BinaryOps[j] + ty && op.funcType.bare == Func([Unqualified(Builtin(ty)), Unqualified(Builtin(ty))], Unqualified(Builtin(ty)))) &&
      (j >= 4 ==> op.decl.decl.name == PredicateOps[j - 4] + ty && op.funcType.bare == Func([Unqualified(Builtin(ty)), Unqualified(Builtin(ty))], Unqualified(BoolType)))
  {
    var ops := BuiltinOps();
    var k := (if ty == "Int32" then 0 else 10) + j;
    var t := ops[k].funcType;
    assert t.bare.params == [Unqualified(Builtin(ty)), Unqualified(Builtin(ty))];
  }

  /** The built-in functions have pairwise distinct declaration ids. */
  lemma BuiltinIdsDistinct(i: nat, j: nat)
    requires i < 20 && j < 20 && i != j
    ensures BuiltinOps()[i].decl.decl.id != BuiltinOps()[j].decl.decl.id
  {
    var ops := BuiltinOps();
    assert forall k | 0 <= k < 10 :: ops[k].decl.decl.id == 5 + 3 * k;
    assert forall k | 10 <= k < 20 :: ops[k].decl.decl.id == 35 + 3 * (k - 10);
  }
}
