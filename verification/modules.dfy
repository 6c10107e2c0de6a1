/** Modules (`Module`). A module holds type and function declarations and
    the set of analysis goals it has reached; replacing either list of
    declarations forgets every goal. */
module Modules {
  import opened Wrappers
  import opened Symbols
  import opened Types
  import opened Ast

  datatype Goal = NamesResolved | TypesResolved | TypeChecked

  /** A nominal type declaration and the type it declares. */
  datatype TypeDecl = TypeDecl(decl: Decl, declared: BareType)

  datatype Module = Module(
    id: string,
    typeDecls: seq<TypeDecl>,
    funcDecls: seq<FuncDecl>,
    goals: set<Goal>,
    isBuiltin: bool)

  /** A new module has reached no goal. */
  function NewModule(id: string, typeDecls: seq<TypeDecl>, funcDecls: seq<FuncDecl>): (m: Module)
    ensures m.goals == {} && !m.isBuiltin
    ensures m.typeDecls == typeDecls && m.funcDecls == funcDecls
  {
    Module(id, typeDecls, funcDecls, {}, false)
  }

  function SetTypeDecls(m: Module, ds: seq<TypeDecl>): (r: Module)
    ensures r.typeDecls == ds && r.goals == {}
    ensures r.funcDecls == m.funcDecls && r.id == m.id && r.isBuiltin == m.isBuiltin
  {
    m.(typeDecls := ds, goals := {})
  }

  function SetFuncDecls(m: Module, fs: seq<FuncDecl>): (r: Module)
    ensures r.funcDecls == fs && r.goals == {}
    ensures r.typeDecls == m.typeDecls && r.id == m.id && r.isBuiltin == m.isBuiltin
  {
    m.(funcDecls := fs, goals := {})
  }

  function TypeDeclEntry(t: TypeDecl): Entry {
    Entry(t.decl, Some(t.declared))
  }

  function FuncDeclEntry(f: FuncDecl): Entry {
    Entry(f.decl, None)
  }

  /** All declarations: the type declarations, then the function ones. */
  function Decls(m: Module): (r: seq<Entry>)
    ensures |r| == |m.typeDecls| + |m.funcDecls|
    ensures forall i | 0 <= i < |m.typeDecls| :: r[i] == TypeDeclEntry(m.typeDecls[i])
    ensures forall i | 0 <= i < |m.funcDecls| :: r[|m.typeDecls| + i] == FuncDeclEntry(m.funcDecls[i])
  {
    seq(|m.typeDecls|, i requires 0 <= i < |m.typeDecls| => TypeDeclEntry(m.typeDecls[i])) +
    seq(|m.funcDecls|, i requires 0 <= i < |m.funcDecls| => FuncDeclEntry(m.funcDecls[i]))
  }
}
