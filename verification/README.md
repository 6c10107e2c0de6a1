# Fuel semantic core, modelled in Dafny

Fuel is a small typed intermediate language whose type system tracks, at
compile time, which memory locations hold readable or writable data. A
location is named by a symbol; a *capability* (an entry of the typing
context Γ, a map from symbols to qualified types) says what a location
currently holds; allocation creates a capability, a store updates it
strongly, a load reads it, `free` and calls consume it, and leaving a
block drops the capabilities of its stack cells. Functions may be
quantified over locations and may require or return *assumptions*
(bundled capabilities), which a unification-based solver instantiates at
every call site.

This project models the compiler's front end and semantic pipeline as
immutable datatypes and pure functions, and proves properties of them:

| module | file | what it models |
|---|---|---|
| `Wrappers`, `Characters`, `Texts`, `Numerals` | wrappers.dfy, characters.dfy, texts.dfy, numerals.dfy | `Option`/`Result`, the character classes the lexer asks about, joining and splitting strings, decimal printing |
| `Symbols` | symbols.dfy | declaration-backed and anonymous symbols, their location flag, and the tagged raw value that orders and compares them |
| `Types`, `Contexts`, `Substitution`, `Paths` | types.dfy, contexts.dfy, substitution.dfy, paths.dfy | bare and qualified types, subtyping and join, typing contexts and their disjoint union, symbol substitution, `opened`, path dereference and path update |
| `Interner` | interner.dfy | the hash-consing table of `ASTContext` |
| `Ast`, `Modules`, `Builtins`, `Scopes` | ast.dfy, modules.dfy, builtins.dfy, scopes.dfy | the syntax tree, a module's pass goals, the built-in module and its operator table, declaration caches and outward name lookup |
| `NameBinder`, `Realizer`, `Solver`, `Checker` | namebinder.dfy, realizer.dfy, solver.dfy, checker.dfy | the three passes (name binding, type realization, flow-sensitive type checking) and the call-site constraint solver |
| `Legacy` | legacy.dfy | the backtracking `justify` search of the older checker under Sources/Fuel |
| `Streams`, `Iterators`, `SourceFiles`, `Tokens`, `Lexer`, `Parser` | streams.dfy, iterators.dfy, sourcefile.dfy, tokens.dfy, lexer.dfy, parser.dfy | stream `peek`/`take`, iterator combinators, line and column computation, tokens, the lexer and the recursive-descent parser |
| `RelativePaths`, `Lowering`, `Descriptions` | relpath.dfy, lowering.dfy, descriptions.dfy | `path(relativeTo:)`, the code generator's passing policy and the shape of lowered types, and the textual descriptions of types, expressions, signatures and declarations |

Modelling conventions:

- Type identity (`===` on interned objects) is structural equality of the
  datatypes. This is exact for function, tuple and junk types, which the
  AST context uniques by their byte keys, and for built-in types, each
  created once. Quantified types are uniqued too, but their key runs the
  parameter names together, so two different quantified types can share
  one object (see `Types.BareType` under "Left out" and the Findings). Bundled types are keyed by their own address, so the
  source never shares them; the model compares them structurally (see
  `Types.Bundle` under "Left out"). The `Interner` module models the table
  itself, object identities included.
- Mutable passes (`hasErrors`, the visitor's current context, Γ) are
  threaded explicitly as state values; diagnostics are lists of tags with
  the message text where the source fixes it.
- A Swift trap (`!` on nil, an out-of-range subscript, `fatalError`, a
  failed `assert`) in the middle of an algorithm becomes an explicit
  `Trap`/`None` outcome; a documented precondition of a constructor (no
  nested bundles, no collapsed assumption keys) becomes a `requires`.
- Dictionary iteration order, where the outcome depends on it, is taken
  to be ascending raw-symbol order.
- Where the prose design of the system and the code disagree, the model
  follows the code: the name binder never visits function parameters or
  location declarations, so it reports no duplicates among them; the
  `Error` type has no subtyping rule of its own, so it is a subtype only
  of `Any` and of itself; a qualified signature has no realization rule,
  so it realizes to nothing; and `free`, `store` and `load` accept only
  member expressions, because a plain identifier does not conform to
  `LValueExpr`, although the parser test cases and the grammar of l-values
  accept `free foo`, `store 1337, foo` and `foo = load bar` (the parser
  models both rules; see the Findings).

## Model

| member | source | states |
|---|---|---|
| Symbols.SymbolOf | Sources/AST/Symbol.swift:18-29 | the symbol of a declaration refers to that declaration, and refers to a location exactly for location declarations |
| Symbols.DeclOf | Sources/AST/Symbol.swift:47-52 | a symbol has a declaration exactly when bit 0 of its packed word is set |
| Symbols.NameOf | Sources/AST/Symbol.swift:55-57 | a symbol has a name exactly when it is backed by a declaration, and the name is that declaration's |
| Symbols.ShiftIsTruncation | Sources/AST/Symbol.swift:37-41 | shifting an identifier left by two bits in a signed 64-bit word is four times the identifier truncated to 62 signed bits |
| Symbols.RawParity | Sources/AST/Symbol.swift:22-23 | the packed word is odd exactly for declaration-backed symbols |
| Symbols.LocRefIsBitOne | Sources/AST/Symbol.swift:59-62 | `isLocRef` holds exactly when bit 1 of the packed word is set, for both kinds of symbol |
| Symbols.DeclAndAnonNeverCollide | Sources/AST/Symbol.swift:18-41 | a declaration-backed symbol never has the packed word of an anonymous one |
| Symbols.AnonRawInjective | Sources/AST/Symbol.swift:37-41 | two anonymous symbols with identifiers in the 62-bit range have equal words exactly when identifier and flag agree |
| Symbols.AnonOverflowCollides | Sources/AST/Symbol.swift:37-41 | outside that range the shift drops high bits: identifiers 0 and 2^62 give the same word |
| Symbols.DeclRawInjective | Sources/AST/Symbol.swift:18-29 | declaration-backed words are equal exactly for the same declaration and flag |
| Symbols.RawEqualityIsEquality | Sources/AST/Symbol.swift:44 | on well-formed symbols, equality of the stored raw value (which `Hashable` compares) is equality of symbols |
| Symbols.LessIsStrictTotalOrder | Sources/AST/Symbol.swift:71-73 | ordering by raw value is irreflexive, transitive, total and asymmetric on well-formed symbols |
| Symbols.HexRoundTrip | Sources/AST/Symbol.swift:83 | the lower-case hexadecimal digits of a number read back as the number |
| Symbols.SignedHex | Sources/AST/Symbol.swift:83 | a negative word prints with a minus sign, any other as its hexadecimal digits |
| Symbols.Description | Sources/AST/Symbol.swift:79-86 | a declaration-backed symbol prints as its name, an anonymous one as `#` and more text |
| Symbols.AnonDescriptionReadsBack | Sources/AST/Symbol.swift:83-84 | the text after `#` reads back as the word with its two flag bits cleared |
| Types.Unqualified | Sources/AST/Type/BareType.swift:22-24 | the bare type qualified by the empty set keeps the bare type and has no qualifier |
| Types.With | Sources/AST/Type/QualType.swift:23-25 | adds the given qualifiers to the type's, keeping its bare type |
| Types.Without | Sources/AST/Type/QualType.swift:30-32 | removes the given qualifiers from the type's, keeping its bare type |
| Types.WithThenWithout | Sources/AST/Type/QualType.swift:23-32 | removing qualifiers just added restores a type that had none of them |
| Types.BareSubtypeBySpine | Sources/AST/Type/BareType.swift:34-46 | `a <: b` exactly when `a` or `Any` occurs in the chain obtained by peeling `Junk` off `b` |
| Types.BareSubtypeReflexive | Sources/AST/Type/BareType.swift:36-38 | every bare type is a subtype of itself |
| Types.AnyIsTop | Sources/AST/Type/BareType.swift:36-38 | every bare type is a subtype of `Any` |
| Types.JunkRule | Sources/AST/Type/BareType.swift:40-43 | `a <: Junk b` exactly when `a` is that junk type or `a <: b` |
| Types.JunkBelowItsBase | Sources/AST/Type/BareType.swift:34-46 | a junk type is a subtype of its base only when `Any` is on the base's junk chain |
| Types.BareSubtypeTransitive | Sources/AST/Type/BareType.swift:34-46 | bare subtyping is transitive |
| Types.BareSubtypeNotAntisymmetric | Sources/AST/Type/BareType.swift:34-46 | `Any` and `Junk Any` are subtypes of each other but different |
| Types.BareJoin | Sources/AST/Type/BareType.swift:51-55 | the join is an upper bound of both types and is either the first type or `Any` |
| Types.BareJoinIdempotentCommutative | Sources/AST/Type/BareType.swift:51-55 | the bare join is idempotent and commutative |
| Types.SubtypePreorder | Sources/AST/Type/QualType.swift:109-111 | qualified subtyping is reflexive and transitive |
| Types.Join | Sources/AST/Type/QualType.swift:116-120 | the join is an upper bound of both types and keeps exactly the qualifiers both have |
| Types.JoinIdempotentCommutative | Sources/AST/Type/QualType.swift:116-120 | the qualified join is idempotent and commutative |
| Types.JoinKeepsMostQualifiers | Sources/AST/Type/QualType.swift:116-120 | every upper bound with the first type's bare type has no more qualifiers than the join |
| Types.Bundle | Sources/AST/ASTContext.swift:50-51 | a bundled type with the given base and assumptions, keeping the base's qualifiers |
| Types.Opened | Sources/AST/Type/QualType.swift:35-41 | opening succeeds exactly on bundled types, and re-bundling what it returns gives the type back |
| Types.OpenBundle | Sources/AST/Type/QualType.swift:35-41 | opening undoes bundling |
| Contexts.Plus | Sources/AST/Type/TypingContext.swift:9-16 | requires disjoint domains; the result's domain is the union of both, every left binding is kept and every right binding is present |
| Contexts.PlusCommutes | Sources/AST/Type/TypingContext.swift:9-16 | with disjoint domains the order of the operands does not matter |
| Contexts.JoinContexts | Sources/Sema/TypeChecker.swift:477-499 | the joined context's domain is the intersection of both domains, and each binding is an upper bound of the two sides' types |
| Contexts.JoinContextsPointwise | Sources/Sema/TypeChecker.swift:489-493 | a symbol bound on both sides is bound to the join of its two types |
| Contexts.JoinContextsIdempotentCommutative | Sources/Sema/TypeChecker.swift:477-499 | joining a context with itself gives it back, and the join does not depend on the order of the operands |
| Contexts.Enumerate | Sources/Sema/TypeChecker.swift:131 | the order in which a dictionary's keys are visited: every key exactly once, in increasing raw-value order (Swift leaves the order unspecified) |
| Substitution.Rename | Sources/AST/Type/LocationType.swift:29-32 | a symbol mapped by the renaming becomes its image, an unmapped one is kept |
| Substitution.Preimage | Sources/AST/Type/BundledType.swift:30-33 | under a renaming injective on a bundle's keys, each renamed key comes from a key of the bundle |
| Substitution.SubstBare | Sources/AST/Type/BareType.swift:27-29 | built-in, junk and error types are unchanged; a location is renamed; each parameter and the output of a function type, and each member of a tuple type, is that component substituted; a quantified type keeps its quantifier and parameter names and substitutes its base; a bundle substitutes its base and files each assumption, substituted, under the renamed key |
| Substitution.SubstAssumptions | Sources/AST/Type/BundledType.swift:29-33 | the substituted assumptions are filed exactly under the renamed keys, each holding the substituted type of the assumption it comes from |
| Substitution.SubstQual | Sources/AST/Type/QualType.swift:102-104 | substitution on a qualified type keeps the qualifiers |
| Substitution.SubstFixingTouched | Sources/AST/Type/QuantifiedType.swift:28-35 | a renaming that fixes every location and bundle-key symbol in a type is defined on it and leaves it unchanged |
| Substitution.BundleKeyRenamed | Sources/AST/Type/BundledType.swift:29-41 | each key of a bundle appears renamed in the result, bound to its value substituted with the same renaming |
| Substitution.SubstEmpty | Sources/AST/Type/LocationType.swift:31 | the empty renaming is defined on every type and is the identity |
| Substitution.CollidingKeysUndefined | Sources/AST/Type/BundledType.swift:30-33 | a renaming that sends two keys of one bundle to the same symbol is outside the defined case (the dictionary rebuild traps) |
| Interner.KeyOf | Sources/AST/Type/LocationType.swift:11-17 | built-in, bundled and error types are keyed by their own address; every other key starts with a metatype word naming its kind, location types sharing the junk type's word, with three words for a location and two for a junk type |
| Interner.Flat | Sources/AST/Type/TupleType.swift:9-16 | a member list's key has two words per member |
| Interner.NewContext | Sources/AST/ASTContext.swift:8-20 | a new context has an empty type table and no error type yet |
| Interner.Insert | Sources/AST/ASTContext.swift:28-36 | the table only grows and keeps every earlier entry; the key ends up bound to the returned object, which is the new object exactly when the key was not registered before |
| Interner.BuiltinTypeObj | Sources/AST/ASTContext.swift:39-43 | a built-in type is registered unconditionally as a new object |
| Interner.ErrorTypeObj | Sources/AST/ASTContext.swift:22-26 | the error type is created and registered on first use, and returned unchanged afterwards |
| Interner.ErrorTypeIsUnique | Sources/AST/ASTContext.swift:22-26 | asking twice for the error type yields the same object and leaves the context as it was |
| Interner.IdentityKeyedIsFresh | Sources/AST/ASTContext.swift:50-53 | a type keyed by its own address is never merged with an existing one |
| Interner.InsertTwiceSameObject | Sources/AST/ASTContext.swift:28-33 | building the same structure twice yields the identical object |
| Interner.QualsWordInjective | Sources/AST/Type/TypeQualSet.swift:14 | qualifier sets with the same bit mask are equal |
| Interner.FlatInjective | Sources/AST/Type/TupleType.swift:9-16 | member lists of the same length with equal keys are equal |
| Interner.KeyDeterminesStructure | Sources/AST/Type/FuncType.swift:10-18 | apart from universal types, equal keys mean equal structure |
| Interner.InsertYieldsSameStructure | Sources/AST/ASTContext.swift:28-36 | interning a structural type other than a universal one returns an object with exactly that structure |
| Interner.UniversalTypeAsWritten | Sources/AST/ASTContext.swift:94-97 | the universal type keyed as the source keys it: parameter names written one after another |
| Interner.UniversalKeysCollide | Sources/AST/Type/UniversalType.swift:14-16 | asking for `\A a, b . τ` after `\A ab . τ` returns the first object, whose only parameter is `ab` |
| Interner.UniversalKeyInjective | Sources/AST/Type/UniversalType.swift:10-18 | with a count and length prefixes, a universal type's key determines its base and its parameter list |
| Interner.UniversalType | Sources/AST/ASTContext.swift:94-97 | with length-prefixed keys the returned object always has the requested base and parameters |
| Modules.NewModule | Sources/AST/Module.swift:35-39 | a new module holds the given declarations, has reached no goal and is not the built-in module |
| Modules.SetTypeDecls | Sources/AST/Module.swift:26-28 | assigning the type declarations clears every goal and changes nothing else |
| Modules.SetFuncDecls | Sources/AST/Module.swift:31-33 | assigning the function declarations clears every goal and changes nothing else |
| Modules.Decls | Sources/AST/Module.swift:60-62 | the declarations are the type declarations, in order, followed by the function declarations |
| Builtins.BuiltinTypeDecl | Sources/AST/BuiltinModule.swift:5-21 | the five built-in type declarations, one per name among Any, Void, Bool, Int32 and Int64, each declaring the built-in type of that name |
| Builtins.TypeIndex | Sources/AST/BuiltinModule.swift:15-21 | every built-in type name has exactly one declaration index |
| Builtins.BuiltinFunction | Sources/AST/BuiltinModule.swift:78-111 | a generated function has no body and one parameter per input, named `x0`, `x1`, ... |
| Builtins.BuiltinFunctionType | Sources/AST/BuiltinModule.swift:94-103 | its type is the unqualified function type from the inputs' built-in types to the output's |
| Builtins.IntegerOps | Sources/AST/BuiltinModule.swift:24-35 | ten operations per integer type, the four binary ones first, with distinct declaration ids |
| Builtins.BuiltinOps | Sources/AST/BuiltinModule.swift:24-36 | twenty operations: those on Int32, then those on Int64 |
| Builtins.BuiltinModule | Sources/AST/BuiltinModule.swift:1-40 | the built-in module `_Builtin` has five type and twenty function declarations and has reached all three goals |
| Builtins.BuiltinFuncTypes | Sources/AST/BuiltinModule.swift:103 | every built-in function's declaration has a type |
| Builtins.BuiltinOperationsTyped | Sources/AST/BuiltinModule.swift:62-75 | for each integer type T, `add_T`, `sub_T`, `mul_T` and `div_T` have type (T, T) -> T and the six comparisons have type (T, T) -> Bool |
| Builtins.BuiltinIdsDistinct | Sources/AST/BuiltinModule.swift:24-36 | the built-in functions have pairwise distinct declaration ids |
| Ast.StmtDecl | Sources/AST/Statement/BraceStmt.swift:38 | a statement is a named declaration exactly when it is an allocation, a load or a call |
| Ast.StorageRef | Sources/AST/Expression/MemberExpr.swift:22-31 | the base is the first non-member expression down the chain; a member expression's path is non-empty and ends with its own offset, and any other expression is its own base with the empty path |
| Ast.StorageRefRoundTrip | Sources/AST/Expression/MemberExpr.swift:22-31 | rebuilding the member chain from the base and the path gives the expression back, so the path has one offset per projection, innermost first |
| Ast.MemberChainRoundTrip | Sources/AST/Expression/MemberExpr.swift:22-31 | the storage reference of a chain built over a non-member base is that base and the path it was built from |
| Scopes.Named | Sources/AST/Declaration/FuncDecl.swift:45-47 | the declarations with a given name are exactly those of the list that carry it |
| Scopes.NamedConcat | Sources/AST/Module.swift:60-62 | filtering by name distributes over concatenation, so a module's declarations of a name are its type declarations of that name followed by its function declarations of it |
| Scopes.AppendEntry | Sources/AST/Statement/BraceStmt.swift:39 | filing a declaration appends it to the list of its own name and leaves every other name's list unchanged |
| Scopes.AppendEntriesFiles | Sources/AST/Statement/BraceStmt.swift:37-46 | filing a list of declarations appends, for each name, the declarations of that name in order |
| Scopes.ComputeDeclCache | Sources/AST/Statement/BraceStmt.swift:37-46 | recomputing the cache appends every named statement's declaration, and a stack allocation's location declaration after it, under its name, in statement order, to what the cache held |
| Scopes.NewBrace | Sources/AST/Statement/BraceStmt.swift:6-9 | a new block's cache lists, under each name, exactly the block's declarations of that name in order |
| Scopes.SetStmtsAsWritten | Sources/AST/Statement/BraceStmt.swift:12-14 | assigning the statements appends the new declarations to the old cache without clearing it |
| Scopes.SetStmts | Sources/AST/Statement/BraceStmt.swift:12-14 | with the cache cleared first, the cache indexes exactly the new statements |
| Scopes.SetStmtAt | Sources/AST/Statement/BraceStmt.swift:60-63 | the collection subscript replaces one statement and, through the assignment as written, files the updated statements' declarations on top of the old cache |
| Scopes.SetStmtAtCorrected | Sources/AST/Statement/BraceStmt.swift:60-63 | with the corrected assignment, the subscript leaves a cache that indexes exactly the updated statements |
| Scopes.SubscriptRefiles | Sources/AST/Statement/BraceStmt.swift:12-14 | writing an allocation back through the subscript files it twice, so the cache no longer matches the statements |
| Scopes.AssignmentsKeepCacheCurrent | Sources/AST/Statement/BraceStmt.swift:6-14 | creating a block, assigning its statements or one of them keeps the cache an exact index of the statements |
| Scopes.StaleCacheEntry | Sources/AST/Statement/BraceStmt.swift:12-14 | replacing `x = salloc T` by another declaration of `x` leaves both declarations filed under `x` as written, and only the new one when the cache is cleared |
| Scopes.ParamEntries | Sources/AST/TypeSignature/QuantifiedSign.swift:28-30 | one entry per parameter, in order |
| Scopes.DeclsNamed | Sources/AST/Statement/BraceStmt.swift:25-27 | every declaration a context lists under a name carries that name |
| Scopes.FirstDecl | Sources/AST/Declaration/DeclContext.swift:21-24 | `firstDecl` is the first declaration of the name, and is absent exactly when there is none |
| Scopes.LookupName | Sources/Sema/NameLookup.swift:14-33 | a found declaration carries the looked-up name |
| Scopes.LookupIsFirstMatch | Sources/Sema/NameLookup.swift:14-33 | lookup returns the first declaration of the name among the contexts from the innermost outward, followed by the built-in module unless the chain already ended with it |
| Scopes.FirstMatchNone | Sources/Sema/NameLookup.swift:28-31 | the first match is absent exactly when no context in the list declares the name |
| Scopes.LookupFailsIffUndeclared | Sources/Sema/NameLookup.swift:25-31 | lookup fails exactly when no visited context, the built-in module included, declares the name |
| Scopes.InnerShadowsOuter | Sources/Sema/NameLookup.swift:18-24 | the first declaration in the innermost context that has one is returned, shadowing those further out |
| Scopes.LookupWalk | Sources/Sema/NameLookup.swift:14-33 | the loop that walks contexts one at a time returns the same declaration as the reference definition |
| Paths.DereferenceOutOfRangeTraps | Sources/AST/Type/QualType.swift:53-54 | offset 5 into a junk one-member tuple, as `store v, x.5` reaches, indexes the member array out of bounds |
| Paths.Dereference | Sources/AST/Type/QualType.swift:46-62 | an empty path gives the type itself; a non-empty path is readable only when peeling junk off the type reaches a tuple that has the first offset as a member |
| Paths.DereferenceAgrees | Sources/AST/Type/QualType.swift:46-62 | wherever the unchecked source does not trap, the checked dereference returns what the source returns |
| Paths.JunkMember | Sources/AST/Type/QualType.swift:87-89 | a member of a junk tuple becomes junk of its bare type and keeps its qualifiers |
| Paths.Update | Sources/AST/Type/QualType.swift:74-97 | an empty path gives the substitute itself; otherwise the result is a tuple with as many members as the stepped-into tuple and the outer qualifiers |
| Paths.UpdateThenDereference | Sources/AST/Type/QualType.swift:74-97 | dereferencing the updated type at the updated path yields the substitute, and the unchecked dereference does not trap there |
| Paths.UpdateFrame | Sources/AST/Type/QualType.swift:79-96 | writing at one member leaves every path through another member reading as before, junk members reading through their junk |
| Paths.DereferenceIgnoresQuals | Sources/AST/Type/QualType.swift:51-57 | below the top level, dereferencing does not depend on the qualifiers |
| Paths.JunkFreeIsWellJunked | Sources/AST/Type/QualType.swift:85-92 | a type with no junk inside satisfies the invariant that junk only wraps junk-free types |
| Paths.ReadableIsWritable | Sources/AST/Type/QualType.swift:71-72 | on well-junked types every path that dereferences can be updated without a fatal error |
| Paths.UpdateKeepsWellJunked | Sources/AST/Type/QualType.swift:74-97 | writing a well-junked type into a well-junked type keeps it well-junked |
| Paths.DereferenceKeepsWellJunked | Sources/AST/Type/QualType.swift:46-62 | what is read from a well-junked type is well-junked |
| NameBinder.CheckDuplicate | Sources/Sema/NameBinder.swift:126-133 | a declaration is reported as a duplicate exactly when its context holds another declaration of the same name, and then by a single report of that name |
| NameBinder.BindExpr | Sources/Sema/NameBinder.swift:91-102 | an identifier is bound to what lookup finds from the current context, or left unbound with a "cannot find" report; the tree's shape is unchanged and well-bound identifiers stay well bound |
| NameBinder.BindIdentSign | Sources/Sema/NameBinder.swift:104-124 | a type identifier is bound only to a nominal type declaration; a value declaration of that name gives "is not a type", no declaration gives "cannot find" |
| NameBinder.BindQuantifiedSign | Sources/Sema/NameBinder.swift:44-49 | a quantified signature opens a context holding its parameters, each checked for duplicates there, and binds its base inside it |
| NameBinder.BindAlloc | Sources/Sema/NameBinder.swift:73-77 | an allocation is checked for duplicates in the current context before its signature is bound |
| NameBinder.BindLoad | Sources/Sema/NameBinder.swift:79-83 | a load is checked for duplicates in the current context before its operand is bound |
| NameBinder.BindCall | Sources/Sema/NameBinder.swift:85-89 | a call is checked for duplicates in the current context before its callee and arguments are bound |
| NameBinder.BindStmt | Sources/Sema/NameBinder.swift:73-89 | every statement keeps its shape, and one that declares a name is checked for duplicates in the current context |
| NameBinder.BindBrace | Sources/Sema/NameBinder.swift:37-42 | a block is bound in a new context whose parent is the current one, keeping its shape |
| NameBinder.BindFunc | Sources/Sema/NameBinder.swift:51-59 | a function is checked for duplicates in its enclosing context, then bound in its own context |
| NameBinder.BindModule | Sources/Sema/NameBinder.swift:25-35 | the goals are cleared and `namesResolved` is recorded exactly when nothing was reported; the module's identity and type declarations are kept |
| NameBinder.NamesResolvedMeansBound | Sources/Sema/NameBinder.swift:25-35 | on a freshly parsed module, `namesResolved` implies that every identifier is bound to a declaration of its own name, and every type identifier to a type declaration |
| NameBinder.BindsConcat | Sources/Sema/NameBinder.swift:30 | the binding guarantee of two subtrees traversed in turn holds for their concatenation |
| Realizer.RealizeSign | Sources/Sema/TypeRealizer.swift:71-151 | realized types are unqualified; an identifier realizes to the nominal type it names, a location to the bound symbol's location type; a function or tuple signature always realizes, each parameter, output or member being that sub-signature's type or the error type; a bundle realizes exactly when its base does, to the bundle of the base's type and the collected assumptions; a quantified signature realizes exactly when its base does, keeping its quantifier and parameter names |
| Realizer.RealizeSigns | Sources/Sema/TypeRealizer.swift:87 | each sub-signature contributes its type, or the error type when it could not be realized |
| Realizer.CollectAssumptions | Sources/Sema/TypeRealizer.swift:109-129 | collecting assumptions only adds keys, never changes one already present, and every new key is the symbol of one of the assumptions |
| Realizer.RepeatedAssumptionReported | Sources/Sema/TypeRealizer.swift:118-124 | a second assumption about the same symbol is reported as inconsistent and the first one's type is kept |
| Realizer.UnboundAssumptionSkipped | Sources/Sema/TypeRealizer.swift:111-114 | an assumption whose identifier is unbound is dropped from the bundle without a report |
| Realizer.CollectClean | Sources/Sema/TypeRealizer.swift:109-129 | distinct, bound assumptions with clean signatures are collected without reports and without the error type |
| Realizer.CleanRealizes | Sources/Sema/TypeRealizer.swift:71-151 | a signature whose identifiers are bound to what it needs realizes, without reports, to a type that nowhere mentions the error type |
| Realizer.BareFuncType | Sources/Sema/TypeRealizer.swift:38-52 | a declaration's function type is found exactly for a function type or a universally quantified function type, and it is always a function type |
| Realizer.RealizeFuncSign | Sources/Sema/TypeRealizer.swift:34-66 | a non-function signature is reported and leaves the declaration untyped; a function signature types it and its parameters pairwise, and an arity mismatch is reported exactly when the counts differ |
| Realizer.RealizeFunc | Sources/Sema/TypeRealizer.swift:34-69 | the declaration gets its signature's typing, and the body's reports follow the signature's |
| Realizer.RealizeModule | Sources/Sema/TypeRealizer.swift:23-32 | `typesResolved` and `typeChecked` are forgotten and `typesResolved` recorded again exactly when nothing was reported; every function is realized |
| Solver.Walk | Sources/Sema/TypeSolver.swift:29-35 | a walk that arrives ends at a symbol the table does not map, and a symbol the table does not map is its own end |
| Solver.WalkMonotone | Sources/Sema/TypeSolver.swift:31-33 | once a walk arrives, more steps do not change where it ends |
| Solver.SelfLoopNeverArrives | Sources/Sema/TypeSolver.swift:31-33 | a symbol the table maps to itself is a cycle on which the walk never ends |
| Solver.Decode | Sources/Sema/TypeSolver.swift:37-49 | a type operand decodes to itself; a reference decodes to the context's type at the end of its walk, or to nothing when that end is not in the context |
| Solver.Unify | Sources/Sema/TypeSolver.swift:105-121 | unification succeeds with nothing new exactly when the left side is a subtype of the right one; otherwise it succeeds exactly for a location against a quantified location not mapped yet, mapping the right one to the left one, after which the left side is a subtype of the renamed right side; mapping an already mapped location fails the assertion |
| Solver.Step | Sources/Sema/TypeSolver.swift:58-91 | one turn of the loop keeps the table's keys instantiable and never forgets a collected assumption |
| Solver.Relate | Sources/Sema/TypeSolver.swift:74-90 | unpacking bundles and unifying what they hold keeps the table's keys instantiable and only adds assumptions |
| Solver.AssumptionConstraints | Sources/Sema/TypeSolver.swift:77-78 | unpacking a bundle adds exactly one constraint per assumption, requiring the assumed type of its symbol |
| Solver.AssumptionPairs | Sources/Sema/TypeSolver.swift:82 | the right side's assumptions are collected as they are in the bundle, one pair per key |
| Solver.Compact | Sources/Sema/TypeSolver.swift:93-98 | after compression every key maps straight to the end of its walk, so no value is itself a key; it fails exactly when some walk never ends |
| Solver.RenameAssumptions | Sources/Sema/TypeSolver.swift:100-102 | each collected assumption is renamed in its key and its type, and the renaming fails exactly when some type cannot be substituted |
| Solver.Solve | Sources/Sema/TypeSolver.swift:55-103 | a solved system's table maps only instantiable locations and is fully compressed |
| Solver.SolveCall | Sources/Sema/TypeSolver.swift:55-103 | solving from no substitution yields a table whose keys are all quantified locations |
| Solver.NonGenericCallRenamesNothing | Sources/Sema/TypeSolver.swift:110-118 | without quantified parameters nothing is instantiated |
| Solver.SingleConstraint | Sources/Sema/TypeSolver.swift:70-90 | one constraint between plain types of a non-generic call is solved exactly when the sides are equal or the left is a subtype of the right |
| Solver.UndecodableSpins | Sources/Sema/TypeSolver.swift:60-66 | a lone constraint about a location absent from the context is requeued forever |
| Solver.InstantiatesQuantifiedLocation | Sources/Sema/TypeSolver.swift:110-118 | a quantified location on the right is instantiated with the caller's location on the left |
| Checker.ExtendsTransitive | Sources/Sema/TypeChecker.swift:36 | the pass only ever adds diagnostics and never clears its error flag, across any number of steps |
| Checker.Throw | Sources/Sema/TypeChecker.swift:56-63 | a thrown type error is appended to the reports and sets the error flag, leaving the typing context alone |
| Checker.TypeOf | Sources/Sema/TypeChecker.swift:426-475 | literals have their built-in types; an identifier has its function's realized type or its symbol's type in the context, and is otherwise an undefined expression; only a member access can trap |
| Checker.DereferenceSnoc | Sources/AST/Type/QualType.swift:46-62 | dereferencing one step further is dereferencing the result of the shorter path by that step |
| Checker.MemberAccessIsDereference | Sources/Sema/TypeChecker.swift:454-470 | typing a chain of member accesses gives what dereferencing the base's type along the chain's offsets gives |
| Checker.CheckAlloc | Sources/Sema/TypeChecker.swift:348-369 | an unrealized signature is skipped; otherwise the register points to the declared or a fresh location, whose capability is junk of the storage type with its qualifiers; nothing is reported |
| Checker.CheckFree | Sources/Sema/TypeChecker.swift:371-386 | a successful free needs a pointer whose capability is held and consumes exactly that capability |
| Checker.ResolveLValue | Sources/Sema/TypeChecker.swift:280-296 | a resolved l-value's base has a location type, the capability for that location is held, and the storage is that capability dereferenced along the l-value's path; an out-of-range tuple offset traps, as the unchecked dereference does, and a path into a non-tuple is reported |
| Checker.CheckLoad | Sources/Sema/TypeChecker.swift:280-299 | a successful load binds the register to the type of the storage the l-value denotes; a load through an out-of-range offset traps |
| Checker.CheckStore | Sources/Sema/TypeChecker.swift:388-416 | a successful store needs the value to be a subtype of the storage type, and replaces the capability by one whose storage at the path is the value's type; a store through an out-of-range offset traps |
| Checker.StoreThenLoad | Sources/Sema/TypeChecker.swift:280-416 | loading through the l-value just stored to gives the stored value's type |
| Checker.ReturnDiags | Sources/Sema/TypeChecker.swift:325-345 | no report exactly when every assumption of the output is held at a subtype of its promised type, and at most one report per assumption |
| Checker.CheckReturn | Sources/Sema/TypeChecker.swift:301-346 | a clean return has a value whose type is a subtype of the opened output and holds every promised assumption; the context is unchanged |
| Checker.ArgConstraints | Sources/Sema/TypeChecker.swift:218-229 | arguments are paired with parameters up to the shorter list; an untypable argument is reported and skipped, and the context is unchanged |
| Checker.Consume | Sources/Sema/TypeChecker.swift:237-241 | consuming removes every location-reference assumption and changes nothing else |
| Checker.Produce | Sources/Sema/TypeChecker.swift:244-253 | producing adds every assumption of the output with its type and keeps every existing binding |
| Checker.CheckCall | Sources/Sema/TypeChecker.swift:194-253 | checking a call only adds reports |
| Checker.CallWithoutArguments | Sources/Sema/TypeChecker.swift:194-253 | calling a function that takes nothing and returns a plain type binds the call's register to that type and nothing else |
| Checker.Track | Sources/Sema/TypeChecker.swift:155-173 | after a statement the brace remembers the symbol it declares, and a new stack cell only after a stack allocation |
| Checker.ReleaseStack | Sources/Sema/TypeChecker.swift:182-192 | releasing drops every stack cell, and reports nothing exactly when each cell is still held and listed once |
| Checker.CloseScope | Sources/Sema/TypeChecker.swift:176-192 | leaving a brace drops its local symbols and its stack cells from the context |
| Checker.CheckStmt | Sources/Sema/TypeChecker.swift:67-99 | checking a statement only adds reports |
| Checker.CheckIf | Sources/Sema/TypeChecker.swift:255-278 | a clean conditional has a condition typed as a subtype of `Bool` |
| Checker.CheckBrace | Sources/Sema/TypeChecker.swift:148-192 | no symbol declared by a statement of the brace remains in the context after it |
| Checker.CheckStmts | Sources/Sema/TypeChecker.swift:152-174 | every symbol the statements declare is recorded as local to the brace |
| Checker.BindAssumptions | Sources/Sema/TypeChecker.swift:128-139 | every assumption of a bundled parameter ends up in the context; with no inconsistency reported, each has its assumed type and earlier bindings are kept |
| Checker.BindParams | Sources/Sema/TypeChecker.swift:118-142 | every parameter with a type is bound; without an inconsistency, a parameter not rebound later holds its opened type (a bundle's base, or the type itself), a bundled parameter's assumptions hold in the context unless a later parameter rebinds them, and every other binding is kept |
| Checker.BindParam | Sources/Sema/TypeChecker.swift:120-140 | one parameter is bound to its opened type, a bundle's assumptions are bound too, and every other binding is kept, unless an inconsistency is reported |
| Checker.BindBundle | Sources/Sema/TypeChecker.swift:125-137 | a bundled parameter's symbol holds the base and each assumption holds its type, unless an assumption disagrees with the context, which is reported |
| Checker.CheckFunc | Sources/Sema/TypeChecker.swift:101-145 | a function without a body or without a function type is skipped silently |
| Checker.CheckModule | Sources/Sema/TypeChecker.swift:38-51 | only the `typeChecked` goal may change, and it is recorded exactly when no error was raised; a raised error always comes with a report |
| Checker.WarningOnlyModuleTypeChecked | Sources/Sema/TypeChecker.swift:38-51 | a module whose only report is a stack cell released without its capability is still recorded as type-checked |
| Checker.DoubleFreeReported | Sources/Sema/TypeChecker.swift:380-383 | freeing the same cell twice reports the missing capability on the second free |
| Checker.FreedStackCellOnlyWarns | Sources/Sema/TypeChecker.swift:182-187 | a stack cell freed inside its brace is reported when the brace closes, without setting the error flag |
| Legacy.Without | Sources/Fuel/Sema/TypeChecker.swift:183 | the remaining quantified parameters are exactly those other than the guessed symbol's name |
| Legacy.LocKeys | Sources/Fuel/Sema/TypeChecker.swift:184 | the candidates are exactly the keys that refer to locations |
| Legacy.Locations | Sources/Fuel/Sema/TypeChecker.swift:184 | every location symbol of the context is a candidate, and nothing else is |
| Legacy.Justify | Sources/Fuel/Sema/TypeChecker.swift:146-209 | a corrected search that succeeds extends the guesses it was given, only with context locations; every assumption of the slice names a symbol of the context once renamed, and that symbol holds a subtype of the assumed type renamed by the guesses in force when it was checked; no capability is consumed twice |
| Legacy.Loop | Sources/Fuel/Sema/TypeChecker.swift:156-206 | the same promise, subtyping included, for the loop from a given index |
| Legacy.Candidates | Sources/Fuel/Sema/TypeChecker.swift:180-201 | the first candidate whose guess justifies the rest is kept, and the promise, subtyping included, holds of it without the guess among the given ones |
| Legacy.ExtendsTransitive | Sources/Fuel/Sema/TypeChecker.swift:186-187 | guesses extended twice extend the original ones |
| Legacy.JustifyAll | Sources/Fuel/Sema/TypeChecker.swift:146-209 | a justified list names only symbols of the context once renamed, each holding a subtype of its assumed type under the guesses in force, consumes each capability at most once, and guesses only context locations |
| Legacy.HoldsStep | Sources/Fuel/Sema/TypeChecker.swift:159-178 | a resolved index that passes the subtype check, followed by a justified rest, gives a justified loop from that index |
| Legacy.HoldsGuess | Sources/Fuel/Sema/TypeChecker.swift:186-194 | what holds with a guess for the current key holds without it among the given guesses |
| Legacy.InForceNow | Sources/Fuel/Sema/TypeChecker.swift:159-160 | at the index being checked, the guesses in force are exactly the current ones |
| Legacy.JustifyAllAsWritten | Sources/Fuel/Sema/TypeChecker.swift:156 | the search with the slice bound as written still guesses only context locations and never consumes twice |
| Legacy.LinearCapabilityUsedOnce | Sources/Fuel/Sema/TypeChecker.swift:166-179 | a non-copyable capability cannot justify two assumptions |
| Legacy.CopyableCapabilityReused | Sources/Fuel/Sema/TypeChecker.swift:176-179 | a copyable capability justifies any number of assumptions and is never consumed |
| Legacy.LoopGuessStep | Sources/Fuel/Sema/TypeChecker.swift:180-201 | at a quantified symbol outside the context, the loop tries the context's locations as guesses |
| Legacy.SliceBoundSkipsAssumption | Sources/Fuel/Sema/TypeChecker.swift:156 | the search as written accepts a guess that leaves a cell holding `Bool` where `Int32` is assumed, because the recursive call loops over an empty range |
| Legacy.ScenarioGuessFails | Sources/Fuel/Sema/TypeChecker.swift:190-197 | the same guess fails when the recursive call checks the whole slice |
| Legacy.CorrectedSearchRejectsBadGuess | Sources/Fuel/Sema/TypeChecker.swift:146-209 | the corrected search rejects that list of assumptions |
| Streams.RunEnd | Sources/Basic/StreamProcessor.swift:80-85 | the run from the position holds only elements satisfying the predicate and stops at the end of the input or at the first element that does not |
| Streams.RunEndUnique | Sources/Basic/StreamProcessor.swift:82-84 | any position with those two properties is the run's end |
| Streams.PrefixWhile | Sources/Basic/StreamProcessor.swift:58 | the longest prefix whose elements all satisfy the predicate |
| Streams.Peek | Sources/Basic/StreamProcessor.swift:49-51 | nothing exactly at the end of the input, otherwise the next element |
| Streams.TakeN | Sources/Basic/StreamProcessor.swift:73-77 | up to `n` elements ahead are consumed, as many as remain when fewer do, and the index advances by their count |
| Streams.PeekN | Sources/Basic/StreamProcessor.swift:53-55 | what taking `n` elements would return, without moving |
| Streams.PeekWhile | Sources/Basic/StreamProcessor.swift:57-59 | the elements from the position to the end of the run that satisfies the predicate |
| Streams.Take | Sources/Basic/StreamProcessor.swift:61-70 | returns what peeking returns; advances by one unless at the end, where nothing changes |
| Streams.TakeWhile | Sources/Basic/StreamProcessor.swift:79-89 | consumes exactly the run that peeking with the same predicate returns |
| Iterators.MapOption | Sources/Basic/IteratorProtocol+Extensions.swift:13 | a value is transformed and an absent value stays absent |
| Iterators.MappedRun | Sources/Basic/IteratorProtocol+Extensions.swift:1-16 | a mapped iterator yields the transform of each element of its base, in order, and is exhausted exactly when its base is |
| Iterators.ConcatenatedFirstPhase | Sources/Basic/IteratorProtocol+Extensions.swift:33-35 | while the first iterator yields, the concatenation yields the same and leaves the second untouched |
| Iterators.ConcatenatedSecondPhase | Sources/Basic/IteratorProtocol+Extensions.swift:33-35 | once the first iterator stays exhausted, the concatenation yields what the second does |
| Iterators.ConcatenatedRun | Sources/Basic/IteratorProtocol+Extensions.swift:49-58 | the concatenation yields all elements of the first iterator, then all of the second, then ends |
| Iterators.RunSplit | Sources/Basic/IteratorProtocol+Extensions.swift:12-14 | running `m + n` steps is running `m`, then `n` from where those stopped |
| SourceFiles.Occurrences | Sources/Basic/SourceFile.swift:38-44 | the count is the number of occurrences of the character |
| SourceFiles.LastIndexOf | Sources/Basic/SourceFile.swift:28 | nothing exactly when the character is absent; otherwise a position holding it with none after it |
| SourceFiles.CaretPositionAsWritten | Sources/Basic/SourceFile.swift:23-32 | the line is one more than the newlines before the offset; on the first line the column is the offset plus one, and just after a newline it is 2 |
| SourceFiles.LineStart | Sources/Basic/SourceFile.swift:28 | the start of the offset's line: no newline between it and the offset, and a newline or the file's start just before it |
| SourceFiles.CaretPosition | Sources/Basic/SourceFile.swift:23-32 | the 1-based line and the 1-based column counted from the first character after the last newline before the offset |
| SourceFiles.CaretColumnOffByOne | Sources/Basic/SourceFile.swift:27-29 | both computations agree on the line and on the first line's column; past the first line the source's column is one too large |
| SourceFiles.CaretAfterNewline | Sources/Basic/SourceFile.swift:27-31 | in "a\nb" the `b` is at line 2, column 1, where the source computes column 2 |
| Tokens.Range | Sources/Lexer/Token.swift:15-17 | the range covers exactly the token's text in its file |
| Tokens.NewlineCountAppend | Sources/Lexer/Token.swift:31-34 | newline counts add up over concatenation |
| Tokens.Lines | Sources/Lexer/Token.swift:30-36 | the lines spanned go from the count of newlines before the token to the count before its end |
| Tokens.Segments | Sources/Lexer/Token.swift:20-21 | the non-empty pieces between line feeds, each ending at a line feed or the end of the text |
| Tokens.Start | Sources/Lexer/Token.swift:19-28 | a token starts at the 1-based line and column of its first character |
| Tokens.StartOnFirstLine | Sources/Lexer/Token.swift:19-28 | on the first line the source's computation and the corrected one both give line 1 and the offset plus one |
| Tokens.LineStartColumnAsWritten | Sources/Lexer/Token.swift:26-27 | a token at the start of a later line gets column 2 or more from the source, while it is in column 1 |
| Tokens.StartAfterNewline | Sources/Lexer/Token.swift:19-28 | in "a\nb" the source puts `b` at line 1, column 3, where it is at line 2, column 1 |
| Lexer.Init | Sources/Lexer/Lexer.swift:10-14 | a new lexer reads its file's contents from the start and is not depleted |
| Lexer.RunEndIsMaximal | Sources/Lexer/Lexer.swift:185-195 | `take(while:)` consumes a maximal run of characters satisfying its predicate |
| Lexer.KeywordsSpelled | Sources/Lexer/Lexer.swift:59-92 | a word that lexes as a keyword is that keyword's spelling |
| Lexer.SpellingsLex | Sources/Lexer/Lexer.swift:59-92 | each keyword's spelling lexes back to that keyword |
| Lexer.OperatorKind | Sources/Lexer/Lexer.swift:111-116 | a two-character operator is recognised only when two characters remain, and an arrow exactly at `->` |
| Lexer.SkipTrivia | Sources/Lexer/Lexer.swift:32-38 | horizontal whitespace and a comment are skipped without crossing a line break, stopping at a line break, the end, or a character that starts a token |
| Lexer.Scan | Sources/Lexer/Lexer.swift:46-147 | a token is never empty; a line break is a newline token whose text is the break alone but which swallows the whitespace after it; identifiers, qualifiers and integers are maximal runs, identifiers classified as keywords; operators are tried before punctuation, and anything else is one unknown character |
| Lexer.Next | Sources/Lexer/Lexer.swift:28-148 | a depleted lexer returns nothing; otherwise a token cut from the contents after the skipped trivia, which never holds a line break; the end-of-file token is empty, at the end of the contents, and depletes the lexer; every other token is non-empty and the lexer advances |
| Lexer.NothingAfterEof | Sources/Lexer/Lexer.swift:29-30 | after the end-of-file token the lexer returns nothing and no longer changes |
| Lexer.ConsTokens | Sources/Lexer/Lexer.swift:28-148 | a proper token followed by proper tokens cut later from the same contents is a proper list |
| Lexer.TokenizeFrom | Sources/Lexer/Lexer.swift:28-148 | a depleted lexer yields no tokens; otherwise the tokens end with exactly one end-of-file token, every other token is non-empty, and all are cut from the contents at or after the current offset |
| Lexer.TokensOrdered | Sources/Lexer/Lexer.swift:28-148 | each token ends before the next one starts |
| Lexer.Tokenize | Sources/Lexer/Lexer.swift:5-148 | a file's tokens are ordered, non-overlapping, non-empty and end with exactly one end-of-file token |
| Parser.Lexemes | Sources/Parser/Parser.swift:236 | the parser's input holds no line-break tokens; a token keeps its kind and text and is marked when a line break followed it; without line breaks nothing is dropped |
| Parser.IntValue | Sources/Parser/Parser.swift:366 | only texts that spell a signed 64-bit integer have a value; a string of digits has its decimal value exactly when that fits, and the empty text has none |
| Parser.DigitsOfDecimal | Sources/Parser/Parser.swift:366 | a natural number's decimal spelling is all digits and reads back as that number |
| Parser.IntValueOfDecimal | Sources/Parser/Parser.swift:320 | the decimal spelling of an offset that fits in 64 bits converts back to that offset |
| Parser.MatchingDelimiter | Sources/Parser/Parser.swift:614-632 | the result is the first closing delimiter that balances the opening one before the start, or the end of the input when there is none |
| Parser.OpenUpToAll | Sources/Parser/Parser.swift:618-629 | the delimiter is still open at every index the scan passed |
| Parser.OpenStep | Sources/Parser/Parser.swift:619-626 | the open count after a lexeme is one more than the nesting depth up to it |
| Parser.MatchFromBalances | Sources/Parser/Parser.swift:618-629 | the scan's result balances the delimiters and nothing before it closes the opening one |
| Parser.StepMatch | Sources/Parser/Parser.swift:619-628 | one turn of the scan keeps the count positive and the result unchanged |
| Parser.MatchFromFlat | Sources/Parser/Parser.swift:614-632 | with no opening or closing delimiter in between, the first closing delimiter is the match |
| Parser.MatchingDelimiterFlat | Sources/Parser/Parser.swift:614-632 | the same, stated for the delimiter search as the parser calls it |
| Parser.FirstOf | Sources/Parser/Parser.swift:68-69 | the first lexeme of the kind from the index, or the end of the input when there is none |
| Parser.LineEnd | Sources/Parser/Parser.swift:235-239 | a call's arguments end just past the first lexeme followed by a line break, or at the end of the input |
| Parser.DeclsCons | Sources/Parser/Parser.swift:102-121 | a declaration made from an earlier name lexeme can be put in front of later ones, keeping identities increasing |
| Parser.ParseParamDecl | Sources/Parser/Parser.swift:102-121 | a parameter is parsed exactly from a name lexeme, consuming it; otherwise "expected parameter name" is thrown there |
| Parser.ParseDeclList | Sources/Parser/Parser.swift:567-585 | an empty range parses to nothing; otherwise at least one declaration, read up to the end of the range, each made from a distinct name lexeme in order |
| Parser.ParseIdentExpr | Sources/Parser/Parser.swift:329-337 | a value identifier is parsed exactly from a name lexeme; otherwise "expected value identifier" is thrown there |
| Parser.ParsePrimary | Sources/Parser/Parser.swift:298-312 | a literal or identifier consumes exactly one lexeme that can start an expression; anything else throws "expected expression" there |
| Parser.ParseMemberSuffix | Sources/Parser/Parser.swift:315-323 | offsets are read while a dot follows; the base of the storage reference is unchanged and its path only grows; the result is a member expression exactly when something was read |
| Parser.ParseExpr | Sources/Parser/Parser.swift:296-326 | an expression always consumes a lexeme; it is an l-value exactly when member suffixes follow its first lexeme, and one starting with a name has that identifier as its storage base |
| Parser.ParseExprList | Sources/Parser/Parser.swift:567-585 | an empty range parses to no expressions; otherwise at least one, read up to the end of the range |
| Parser.QualifierOf | Sources/Parser/TypeQual+Extensions.swift:9-15 | exactly `@const` and `@unscoped` name qualifiers, and `@unscoped` exactly the unscoped one |
| Parser.ParseQualifiers | Sources/Parser/Parser.swift:378-390 | every qualifier lexeme read names a qualifier of the set, the set is empty exactly when none was read, and an unknown one is reported with its spelling |
| Parser.ParseTypeSign | Sources/Parser/Parser.swift:378-400 | a signature always consumes a lexeme, and one that starts with qualifiers keeps them |
| Parser.ParseBareTypeSign | Sources/Parser/Parser.swift:403-450 | a bare signature always consumes a lexeme and stops before any further `+` |
| Parser.ParseBaseSign | Sources/Parser/Parser.swift:403-434 | a name lexeme is a type identifier that consumes only itself |
| Parser.ParseParenthesizedSign | Sources/Parser/Parser.swift:406-425 | a parenthesised signature starts at an opening parenthesis |
| Parser.ParseParenthesizedSignList | Sources/Parser/Parser.swift:453-468 | the list runs from an opening parenthesis to the parenthesis that closes it |
| Parser.ParseQuantifiedSign | Sources/Parser/Parser.swift:471-494 | a quantified signature is universal exactly when it starts with `\A`, and holds the parameters read up to the dot |
| Parser.ParseLocSign | Sources/Parser/Parser.swift:508-519 | a location signature is parsed exactly from `!` followed by a name, consuming both |
| Parser.ParseTupleSign | Sources/Parser/Parser.swift:522-539 | a tuple signature runs from an opening brace to the brace that closes it |
| Parser.ParseSignList | Sources/Parser/Parser.swift:567-585 | an empty range parses to no signatures; otherwise at least one, read up to the end of the range |
| Parser.ParseAssumptions | Sources/Parser/Parser.swift:436-447 | assumptions are read while a `+` follows, and none exactly when nothing was read |
| Parser.ParseAssumpSign | Sources/Parser/Parser.swift:542-562 | an assumption runs from an opening bracket over a name and a colon to its closing bracket |
| Parser.CloseAssumpSign | Sources/Parser/Parser.swift:555-561 | the closing bracket is required after the assumption's signature |
| Parser.OpenAssumpSign | Sources/Parser/Parser.swift:542-550 | an error is reported exactly when the opening bracket, the name or the colon is missing, at or after the start |
| Parser.ParseAlloc | Sources/Parser/Parser.swift:190-212 | an allocation declares the bound name, in the segment its keyword selects, at the location named after `at` when there is one |
| Parser.ParseLoad | Sources/Parser/Parser.swift:214-226 | a load declares the bound name and reads an expression the l-value rule accepts: a member expression as written, or also a plain identifier under the intended rule |
| Parser.ParseCall | Sources/Parser/Parser.swift:228-246 | a call declares the bound name and names its callee after the keyword; arguments follow only after a comma |
| Parser.ParseStmtTail | Sources/Parser/Parser.swift:188-251 | what follows `name =` is an allocation, load or call, each passing the l-value rule; anything else throws "expected value-binding statement keyword" |
| Parser.ParseBinding | Sources/Parser/Parser.swift:128-134 | a binding statement declares a name and passes the l-value rule |
| Parser.ParseFree | Sources/Parser/Parser.swift:136-148 | a free statement's target is accepted by the l-value rule: a member expression as written, or also a plain identifier under the intended rule |
| Parser.ParseStore | Sources/Parser/Parser.swift:150-167 | a store statement reads a value, then a comma and a target accepted by the l-value rule |
| Parser.ParseStoreTarget | Sources/Parser/Parser.swift:154-167 | after the value, a comma and a target the l-value rule accepts make the store of that value into that target |
| Parser.ParseReturn | Sources/Parser/Parser.swift:169-174 | a return statement is parsed from the `return` keyword |
| Parser.ParseStmt | Sources/Parser/Parser.swift:126-185 | every statement passes the l-value rule, and a lexeme that cannot start one throws "expected statement" there |
| Parser.ParseIfStmt | Sources/Parser/Parser.swift:254-273 | a conditional passes the l-value rule in its condition and both branches |
| Parser.ParseBraceStmt | Sources/Parser/Parser.swift:276-291 | a block runs from an opening to a closing brace and all its statements pass the l-value rule |
| Parser.ChecksCons | Sources/Parser/Parser.swift:283-286 | a checked statement in front of checked statements keeps the list checked |
| Parser.ParseBlockStmts | Sources/Parser/Parser.swift:282-286 | the statements of a block are read up to and including its closing brace and all pass the l-value rule |
| Parser.BlockAfterStmt | Sources/Parser/Parser.swift:283-286 | the block continues with the statement just parsed as its first |
| Parser.ParseFuncParams | Sources/Parser/Parser.swift:66-77 | without an opening parenthesis there are no parameters; otherwise each is made from a distinct name lexeme in order |
| Parser.ParseFuncDecl | Sources/Parser/Parser.swift:58-99 | a function is parsed from a `func` keyword and its name, whose lexeme gives the declaration's identity; its body passes the l-value rule; an error at the start means there was no `func` |
| Parser.SkipToFunc | Sources/Parser/Parser.swift:49 | recovery resumes at the first `func` keyword from where the error left the parser, or at the end |
| Parser.ParseTopLevelDecl | Sources/Parser/Parser.swift:33-55 | the next declaration comes from a `func` keyword after the reported errors, each of which accounts for at least one lexeme; none is returned only at the end of the input; the only failure is the trap of an offset that does not fit |
| Parser.FuncsCons | Sources/Parser/Parser.swift:33-55 | a function parsed before others keeps the identities increasing |
| Parser.ParseDecls | Sources/Parser/Parser.swift:33-55 | a file's functions come from `func` keywords in source order, and each function and each diagnostic accounts for at least one lexeme; the only failure is the trap of an offset that does not fit |
| Parser.MemberChainCons | Sources/Parser/Parser.swift:319-321 | wrapping the base first and then following the rest of the path is following the whole path |
| Parser.SuffixStep | Sources/Parser/Parser.swift:315-323 | one `.offset` suffix wraps the base in a member expression and moves two lexemes on |
| Parser.MemberChainHead | Sources/Parser/Parser.swift:319-321 | a member chain is its first offset applied to the base, then the rest |
| Parser.OffsetsFitAll | Sources/Parser/Parser.swift:320 | offsets that each fit in 64 bits satisfy the recursive form of that condition |
| Parser.MemberSuffixReadsOffsets | Sources/Parser/Parser.swift:315-323 | reading spelled offsets after a base gives the member chain along those offsets |
| Parser.OffsetLexemesCons | Sources/Parser/Parser.swift:315-318 | the spelling of a path is a dot and its first offset, then the spelling of the rest |
| Parser.ExprOfName | Sources/Parser/Parser.swift:299-300 | an expression starting with a name is that identifier followed by its member suffixes |
| Parser.ParseMemberChain | Sources/Parser/Parser.swift:296-326 | spelling an identifier and a path of offsets, then parsing them, gives back that member chain, whose storage reference is the identifier and the path, and consumes exactly the spelled lexemes |
| Parser.TypeSignOfName | Sources/Parser/Parser.swift:378-450 | a name with no qualifier before it and no assumption after it is the type identifier of that name |
| Parser.InvalidQualifierExample | Sources/Parser/Parser.swift:378-390 | an unknown qualifier is reported with its spelling |
| Parser.QualifiedSignExample | Sources/Parser/Parser.swift:378-400 | `@unscoped T` qualifies `T` |
| Parser.FreeIdentifierExample | Sources/Parser/Parser.swift:139-144 | a plain identifier is not an l-value, so `free foo` is rejected |
| Parser.IdentsTooExtendsFree | Sources/Parser/Parser.swift:139-144 | accepting identifiers too parses everything the code accepts alike, and accepts in addition exactly the targets that are plain identifiers |
| Parser.IdentsTooExtendsStore | Sources/Parser/Parser.swift:154-163 | the same for the target of a store |
| Parser.IdentsTooExtendsLoad | Sources/Parser/Parser.swift:217-222 | the same for the argument of a load |
| Parser.FreeIdentifierParses | Sources/Parser/Parser.swift:136-148 | with identifiers accepted, `free foo` parses to the free of `foo` |
| Parser.StoreIdentifierParses | Sources/Parser/Parser.swift:150-167 | with identifiers accepted, `store 1337, foo` parses to a store into `foo` |
| Parser.StoreIntoIdentifier | Sources/Parser/Parser.swift:154-163 | a comma and a plain identifier not followed by `.` complete a store when identifiers are accepted |
| Parser.LoadIdentifierParses | Sources/Parser/Parser.swift:214-226 | with identifiers accepted, `foo = load bar` parses to a load from `bar` |
| Parser.LiteralValue1337 | Sources/Parser/Parser.swift:366 | the literal `1337` converts to 1337 |
| Parser.EndOfFileExample | Sources/Parser/Parser.swift:33-60 | the end-of-file lexeme does not start a declaration: it is reported as "expected 'func'" and the file has no functions |
| Lowering.Unbundled | Sources/LLVMCodeGen/AST+Emit/Type+Emit.swift:14-15 | peeling bundles ends at a type that is not a bundle, and leaves any other type as it is |
| Lowering.PolicyOf | Sources/LLVMCodeGen/AST+Emit/Type+Emit.swift:7-20 | under its bundles, a type is skipped exactly when it is the empty tuple, indirect exactly when it is a non-empty tuple, and direct exactly when it is not a tuple |
| Lowering.LowerParams | Sources/LLVMCodeGen/AST+Emit/Type+Emit.swift:66-74 | one lowered parameter per parameter that is not skipped; with nothing skipped or indirect the emitted types are kept as they are |
| Lowering.LowerParamsAppend | Sources/LLVMCodeGen/AST+Emit/Type+Emit.swift:66-74 | lowering a concatenation of parameter lists is concatenating their lowerings |
| Lowering.LowerParamsKeeps | Sources/LLVMCodeGen/AST+Emit/Type+Emit.swift:70-72 | every direct parameter's type, and a pointer to every indirect parameter's type, appear in the lowered list |
| Lowering.LowerParamsOnly | Sources/LLVMCodeGen/AST+Emit/Type+Emit.swift:66-74 | everything in the lowered list is an emitted parameter type or a pointer to one |
| Lowering.LowerFunc | Sources/LLVMCodeGen/AST+Emit/Type+Emit.swift:76-90 | the function returns its output only when that is passed directly, otherwise void; an indirect output comes first in the parameters as a pointer, and otherwise the parameters are unchanged |
| Lowering.AllPresent | Sources/LLVMCodeGen/AST+Emit/Type+Emit.swift:63 | emitting a list of types succeeds exactly when every element does, and keeps them in order |
| Lowering.SupportedLowers | Sources/LLVMCodeGen/AST+Emit/Type+Emit.swift:42-98 | a type made only of built-ins, locations, bundles, tuples, functions and quantified types always lowers |
| Lowering.UnloweredParameterFails | Sources/LLVMCodeGen/AST+Emit/Type+Emit.swift:66-96 | junk and error types have no lowering, even as a parameter whose policy would drop it, because parameters are emitted before their policies are applied |
| Lowering.PolicyMatchesShape | Sources/LLVMCodeGen/AST+Emit/Type+Emit.swift:7-20 | a skipped type lowers to the empty struct, and an indirect one to a non-empty struct |
| Lowering.FuncLowering | Sources/LLVMCodeGen/AST+Emit/Type+Emit.swift:65-90 | a function type lowers to a function with one parameter per parameter not skipped, plus a leading pointer to an indirect output; it returns void exactly when the output is not direct or is itself void |
| Lowering.QuantifiedAndLocationLowering | Sources/LLVMCodeGen/AST+Emit/Type+Emit.swift:50-51 | a quantified type lowers as its base, and a location to the opaque pointer |
| Lowering.BundledLocationLowering | Sources/LLVMCodeGen/AST+Emit/Type+Emit.swift:53-60 | a bundle over a location lowers to a pointer to the type assumed there, and to the opaque pointer when nothing is assumed there |
| RelativePaths.CommonPrefix | Sources/fuelc/URL+Extensions.swift:12-15 | the components agree up to the result, and the next pair, when both exist, differs |
| RelativePaths.CommonPrefixIsLongest | Sources/fuelc/URL+Extensions.swift:12-15 | no longer prefix is common to both paths |
| RelativePaths.CommonPrefixLength | Sources/fuelc/URL+Extensions.swift:12-15 | the loop stops at the length of the longest common prefix |
| RelativePaths.Climb | Sources/fuelc/URL+Extensions.swift:17 | the given number of ".." components |
| RelativePaths.RelativeParts | Sources/fuelc/URL+Extensions.swift:17-18 | one ".." per directory component past the common prefix, then the file's components past it |
| RelativePaths.RelativePath | Sources/fuelc/URL+Extensions.swift:8-24 | "." when there is nothing to climb or descend, otherwise those components joined with "/" |
| RelativePaths.SamePath | Sources/fuelc/URL+Extensions.swift:19-20 | a path relative to itself is "." |
| RelativePaths.InsideDirectory | Sources/fuelc/URL+Extensions.swift:12-18 | a file below the directory is reached by descending only, through the components past the directory |
| RelativePaths.StrictPrefixOnlyClimbs | Sources/fuelc/URL+Extensions.swift:12-18 | when the file's path is a strict prefix of the directory's, the result only climbs, once per extra component |
| RelativePaths.ResolveJoined | Sources/fuelc/URL+Extensions.swift:22 | components without "/" joined with "/" split back into those components |
| RelativePaths.FollowClimb | Sources/fuelc/URL+Extensions.swift:17 | each ".." moves up one directory |
| RelativePaths.FollowDescend | Sources/fuelc/URL+Extensions.swift:18 | components other than ".." descend into the directory |
| RelativePaths.RelativePathResolves | Sources/fuelc/URL+Extensions.swift:8-24 | resolving the result against the directory gives back the file's path, when both share the root and the file's components are plain |
| Numerals.NatToString | Sources/AST/Expression/MemberExpr.swift:43 | a natural number prints as a non-empty string of decimal digits |
| Numerals.NatRoundTrip | Sources/AST/Expression/MemberExpr.swift:43 | reading a printed natural number gives it back |
| Numerals.IntToString | Sources/AST/Expression/MemberExpr.swift:43 | an integer prints non-empty, starting with "-" exactly when it is negative, and without "." or "," |
| Numerals.IntRoundTrip | Sources/AST/Expression/MemberExpr.swift:43 | reading a printed integer gives it back |
| Texts.Join | Sources/AST/Type/TupleType.swift:31 | joining no parts gives the empty string, and one part gives that part |
| Texts.JoinLength | Sources/fuelc/URL+Extensions.swift:22 | a join is as long as its parts plus one separator between each two |
| Texts.JoinSnoc | Sources/fuelc/URL+Extensions.swift:22 | appending a part appends the separator and the part |
| Texts.Split | Sources/AST/Statement/BraceStmt.swift:72 | splitting gives at least one part, none holding the separator |
| Texts.FirstIndex | Sources/AST/Statement/BraceStmt.swift:72 | the first occurrence of a character |
| Texts.SplitStep | Sources/AST/Statement/BraceStmt.swift:72 | splitting at the first separator gives the text before it and the split of the rest |
| Texts.SplitJoin | Sources/AST/Statement/BraceStmt.swift:71-74 | parts without the separator character, joined by it, split back into those parts |
| Descriptions.EmptyTupleDescription | Sources/AST/Type/TupleType.swift:30-32 | when no member prints as the empty string, a tuple's description is "{}" exactly for the empty tuple |
| Descriptions.UnspacedSpaced | Sources/AST/Type/TupleType.swift:31 | dropping the space the ", " separator puts before each later member gives the members back |
| Descriptions.TupleMembersReadBack | Sources/AST/Type/TupleType.swift:30-32 | members whose descriptions are non-empty and hold no comma are read back from the tuple's description |
| Descriptions.PathDescription | Sources/AST/Expression/MemberExpr.swift:43-45 | an l-value has a description exactly when its storage base is an identifier |
| Descriptions.PathDescriptionJoins | Sources/AST/Expression/MemberExpr.swift:43-45 | an l-value prints as its base name and its offsets, innermost first, joined with "." |
| Descriptions.PathDescriptionReadsBack | Sources/AST/Expression/MemberExpr.swift:22-45 | the description reads back as the storage reference: the base name and the path of offsets |
| Descriptions.BraceLines | Sources/AST/Statement/BraceStmt.swift:68-80 | the lines of a block's description are "{", then every statement's non-empty lines indented by two spaces, in order, then "}" |
| Descriptions.FuncBodyShown | Sources/AST/Declaration/FuncDecl.swift:57-64 | the description with a body is the one without it followed by a space and the body, and is longer exactly when there is a body |
| Descriptions.FuncNameReadsBack | Sources/AST/Declaration/FuncDecl.swift:57-62 | a name without "(" is read back as the text between "func " and the first "(" |
| Descriptions.DebugDescriptionNames | Sources/AST/Declaration/FuncDecl.swift:70-72 | two declarations have the same debug description exactly when they have the same name |
| Descriptions.QuantifierReadsBack | Sources/AST/TypeSignature/QuantifiedSign.swift:40-49 | the quantifier is read back from the first two characters, `\A` or `\E` |
| Descriptions.QuantifiedBaseGrouping | Sources/AST/TypeSignature/QuantifiedSign.swift:51-56 | a function or quantified base ends the description inside parentheses, any other base ends it as printed |

## Left out

- Diagnostic delivery, message ranges and consoles: diagnostics are kept as tags and texts in a list, without source ranges.
- Unicode: `isLetter`, `isNumber` and `isNewline` are modelled on ASCII, and strings are sequences of characters without normalisation.
- The source managers, the command-line driver, `CompilerContext` and the Diesel-based `FuelParser`: file I/O and a library outside this model.
- The superseded duplicates under Sources/Fuel other than `justify`; each concept is modelled once, after Sources/AST and Sources/Sema.
- LLVM emission beyond the passing policy and the shape of lowered types: the LLVM library is foreign code.
- Foundation's `pathComponents`: the component lists are inputs of `RelativePaths`.
- The parser's newline handling: the model's parser takes the token list with newline tokens removed and a per-token "followed by a line break" flag, which is what the source's skipping and `isFollowedByNewline` amount to.
- The `@const` qualifier is modelled as the `Copyable` qualifier the older checker consults.
- The `at` token kind that the parser expects after an allocation exists in the model, but the lexer never produces it, as in the source.
- Solver.Solve: the source loops without bound when a constraint can never be decoded; the model runs on a `fuel` budget and reports `Spins` when it runs out, so its contract speaks only of solved outcomes.
- Solver.Walk: following the substitution table is bounded by `fuel`, and the table's acyclicity, which the source assumes, is not required.
- Checker.CheckCall: its contract states only that reports are appended; the effect of a call on Γ is stated by Checker.Consume, Checker.Produce and Checker.CallWithoutArguments.
- Realizer.RealizeSign: qualified signatures realize to nothing, because the realizer has no rule for them.
- Realizer.RealizeSign: a bundle whose base is itself a bundle, `(T + [a: U]) + [b: V]`, is excluded by the precondition `NestOk`; the source traps on it in the bundled type's initializer (Sources/AST/Type/BundledType.swift:18), and the model does not represent that trap.
- Checker.CheckModule: like the members it calls (CheckFuncs, CheckFunc, CheckStmts, CheckBrace, CheckIf, CheckStmt, CheckAlloc), requires every function's signature to be free of nested bundles (`FuncNestOk`), for the same reason; a module that nests bundles traps in the source during realization, before type checking.
- Types.BareType: a universal type over `ab` and one over `a, b` with the same base are one object in the source, because their interning keys collide, but two different values in the model. Where the source compares types by identity (subtyping and join through `===`, and the solver's discard of a constraint whose sides are identical), the source treats them as one type and the model as two.
- Types.Bundle: two bundled types built from the same base and assumptions are one value in the model but two objects in the source, because the AST context keys a bundle by its address. Where the source compares bundles by identity (subtyping and join through `===`, and the solver's discard of a constraint whose sides are identical), the model accepts separately built, identical bundles that the source rejects.
- Lowering.LowerParamsOnly: states membership of the lowered parameters, not their order; the order is stated by Lowering.LowerParamsAppend.
- Descriptions of node kinds outside the core (literals, the dumper, `TypeError` texts), which depend on runtime type names.

## Findings

| source | as written | input that shows it | evidently intended | confidence | as-written member | corrected member |
|---|---|---|---|---|---|---|
| Sources/Fuel/Sema/TypeChecker.swift:156 | the loop runs over `startIndex ..< assumptions.count`, so on a recursive call with a suffix slice it stops before the slice's end and skips assumptions | a quantified location `a` guessed as a cell `C` holding `Bool` where `Int32` is assumed: the recursive check loops over `1 ..< 1` and accepts the guess | loop over `startIndex ..< endIndex` | not executed | Legacy.SliceBoundSkipsAssumption | Legacy.JustifyAll |
| Sources/Basic/SourceFile.swift:27-29 | the column is measured from the last newline itself, so the first character of a later line is in column 2 | `"a\nb"` at offset 2: line 2, column 2 | column 1 for the first character of every line | not executed | SourceFiles.CaretColumnOffByOne | SourceFiles.CaretPosition |
| Sources/Lexer/Token.swift:19-28 | lines are counted as non-empty `\n`-separated pieces before the token, so empty lines and a trailing newline are not counted and a token at a line start is placed on the previous line | `b` in `"a\nb"`: line 1, column 3 | line 2, column 1 | not executed | Tokens.StartAfterNewline | Tokens.Start |
| Sources/AST/Statement/BraceStmt.swift:12-14 | assigning `stmts` recomputes the declaration cache on top of the old one, so replaced declarations stay in it | replacing `x = salloc T` by another declaration of `x` leaves both filed under `x` | clear the cache before recomputing it | not executed | Scopes.StaleCacheEntry | Scopes.SetStmts |
| Sources/AST/Type/QualType.swift:53-54 | a tuple offset is used as an array subscript without a bounds check, so an out-of-range offset traps | `store v, x.5` after `x = salloc {Int32}` | an out-of-range offset yields no type, as for a non-tuple | not executed | Paths.DereferenceOutOfRangeTraps | Paths.Dereference |
| Sources/Parser/Parser.swift:139-144 | the target of `free` (and of `store`, lines 158-163, and the argument of `load`, lines 217-222) must conform to `LValueExpr`, which only member expressions do, so a plain identifier is rejected | `free foo`: "target of free statement must be an l-value" | accept a plain identifier, as the parser test cases of the repository expect for `free foo`, `store 1337, foo` and `foo = load bar` | not executed | Parser.FreeIdentifierExample | Parser.FreeIdentifierParses |
| Sources/AST/Type/UniversalType.swift:14-16 | the interning key of a universal type concatenates its parameter names with nothing between them | `\A ab . τ` then `\A a, b . τ`: the second request returns the first object | parameter names delimited in the key | not executed | Interner.UniversalKeysCollide | Interner.UniversalType |

The statement parser keeps the rule as written (`MembersOnly`); the intended rule (`IdentsToo`) is stated by `Parser.IdentsTooExtendsFree`, `Parser.IdentsTooExtendsStore` and `Parser.IdentsTooExtendsLoad`. The type checker and the block subscript keep the behaviour as written for the fourth and fifth kinds of input above: `Checker.ResolveLValue` traps on an out-of-range offset, and `Scopes.SetStmtAt` leaves the stale entry. The corrected members state what was evidently intended, and `Scopes.SetStmtAtCorrected` and `Scopes.AssignmentsKeepCacheCurrent` build on the corrected assignment.
