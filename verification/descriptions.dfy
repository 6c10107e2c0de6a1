/** The printed forms (`description`) of tuple types, l-value expressions,
    brace statements, function declarations and quantified signatures.
    Where a part is described by a node this model does not print (a member
    type, a statement, a signature), its description is an input. */
module Descriptions {
  import opened Wrappers
  import opened Symbols
  import Types
  import opened Ast
  import opened Texts
  import Numerals

  // ---------------------------------------------------------------------------
  // Tuple types

  /** `{`, the members' descriptions joined with ", ", then `}`. */
  function TupleDescription(members: seq<string>): string {
    "{" + Join(members, ", ") + "}"
  }

  /** The description is "{}" exactly for the empty tuple, given that no
      member is described by the empty string. */
  lemma EmptyTupleDescription(members: seq<string>)
    requires forall k | 0 <= k < |members| :: members[k] != ""
    ensures TupleDescription(members) == "{}" <==> members == []
  {
    if members != [] {
      JoinLength(members, ", ");
      assert |Join(members, ", ")| >= |members[0]| > 0;
    }
  }

  /** Each part with a space in front. */
  function Spaced(parts: seq<string>): (r: seq<string>)
    ensures |r| == |parts|
    ensures forall k | 0 <= k < |r| :: r[k] == " " + parts[k]
    decreases |parts|
  {
    if parts == [] then [] else [" " + parts[0]] + Spaced(parts[1..])
  }

  /** Each part without its first character when that is a space. */
  function Unspaced(parts: seq<string>): (r: seq<string>)
    ensures |r| == |parts|
    ensures forall k | 0 <= k < |r| :: r[k] == if |parts[k]| > 0 && parts[k][0] == ' ' then parts[k][1..] else parts[k]
    decreases |parts|
  {
    if parts == [] then []
    else [if |parts[0]| > 0 && parts[0][0] == ' ' then parts[0][1..] else parts[0]] + Unspaced(parts[1..])
  }

  /** Joining with ", " is joining with "," after spacing all parts but the
      first. */
  lemma {:induction false} JoinWithSpace(parts: seq<string>)
    requires parts != []
    ensures " " + Join(parts, ", ") == Join(Spaced(parts), ",")
    decreases |parts|
  {
    if |parts| > 1 {
      JoinWithSpace(parts[1..]);
      assert Spaced(parts)[1..] == Spaced(parts[1..]);
    }
  }

  /** Reads the members back from a tuple description: the text between the
      braces, split at ",", with the space after each comma dropped. */
  function ReadMembers(s: string): seq<string> {
    if |s| < 2 || s[1..|s| - 1] == "" then []
    else
      var parts := Split(s[1..|s| - 1], ',');
      [parts[0]] + Unspaced(parts[1..])
  }

  /** A tuple's inner text, joined with ", ", is the first member and the
      spaced rest joined with ",". */
  lemma InnerIsSpacedJoin(members: seq<string>)
    requires members != []
    ensures Join(members, ", ") == Join([members[0]] + Spaced(members[1..]), ",")
  {
    var rest := members[1..];
    if rest != [] {
      var x := Join(rest, ", ");
      assert members == [members[0]] + rest;
      JoinCons(members[0], rest, ", ");
      JoinCons(members[0], Spaced(rest), ",");
      JoinWithSpace(rest);
      CommaSpace(members[0], x);
    }
  }

  /** A comma and a space before `x` are a comma before the spaced `x`. */
  lemma CommaSpace(a: string, x: string)
    ensures a + ", " + x == a + "," + (" " + x)
  {
  }

  /** Dropping the leading space undoes adding it. */
  lemma UnspacedSpaced(parts: seq<string>)
    ensures Unspaced(Spaced(parts)) == parts
  {
    var u := Unspaced(Spaced(parts));
    forall k | 0 <= k < |parts| ensures u[k] == parts[k] {
      assert Spaced(parts)[k] == " " + parts[k];
      assert (" " + parts[k])[1..] == parts[k];
    }
  }

  /** The first member and the spaced rest hold no comma when no member
      does. */
  lemma SpacedHasNoComma(members: seq<string>)
    requires members != []
    requires forall k | 0 <= k < |members| :: ',' !in members[k]
    ensures var spaced := [members[0]] + Spaced(members[1..]);
      forall k | 0 <= k < |spaced| :: ',' !in spaced[k]
  {
    var rest := members[1..];
    var spaced := [members[0]] + Spaced(rest);
    forall k | 0 <= k < |spaced| ensures ',' !in spaced[k] {
      if k > 0 {
        assert spaced[k] == " " + rest[k - 1];
        assert ',' !in members[k];
      }
    }
  }

  /** Round trip: members whose descriptions are non-empty and hold no comma
      are read back from the tuple's description. */
  lemma TupleMembersReadBack(members: seq<string>)
    requires forall k | 0 <= k < |members| :: members[k] != "" && ',' !in members[k]
    ensures ReadMembers(TupleDescription(members)) == members
  {
    var s := TupleDescription(members);
    var inner := Join(members, ", ");
    assert s[1..|s| - 1] == inner;
    if members != [] {
      JoinLength(members, ", ");
      assert inner != "";
      var rest := members[1..];
      var spaced := [members[0]] + Spaced(rest);
      InnerIsSpacedJoin(members);
      SpacedHasNoComma(members);
      SplitJoin(spaced, ',');
      assert Split(inner, ',') == spaced;
      assert spaced[1..] == Spaced(rest);
      UnspacedSpaced(rest);
      assert members == [members[0]] + rest;
    }
  }

  // ---------------------------------------------------------------------------
  // Identifiers and member expressions

  /** `description` of an l-value: the identifier's name, then `.offset` for
      each member access. Literals are printed by nodes outside this model,
      so a member chain over a literal has no description here. */
  function PathDescription(e: Expr): (r: Option<string>)
    ensures r.Some? <==> StorageRef(e).0.IdentExpr?
  {
    match e
    case IdentExpr(name, _) => Some(name)
    case MemberExpr(base, offset) =>
      (match PathDescription(base)
       case Some(d) => Some(d + "." + Numerals.IntToString(offset))
       case None => None)
    case _ => None
  }

  /** The offsets as printed. */
  function Printed(path: seq<int>): (r: seq<string>)
    ensures |r| == |path|
    ensures forall k | 0 <= k < |r| :: r[k] == Numerals.IntToString(path[k])
  {
    seq(|path|, k requires 0 <= k < |path| => Numerals.IntToString(path[k]))
  }

  /** The integers the strings print. */
  function Parsed(parts: seq<string>): (r: seq<int>)
    ensures |r| == |parts|
    ensures forall k | 0 <= k < |r| :: r[k] == Numerals.ParseInt(parts[k])
  {
    seq(|parts|, k requires 0 <= k < |parts| => Numerals.ParseInt(parts[k]))
  }

  lemma ParsedPrinted(path: seq<int>)
    ensures Parsed(Printed(path)) == path
  {
    forall k | 0 <= k < |path| ensures Parsed(Printed(path))[k] == path[k] {
      Numerals.IntRoundTrip(path[k]);
    }
  }

  /** Reads an l-value description back: the name before the first ".", and
      the integers between the following ones. */
  function ReadPath(s: string): (string, seq<int>) {
    var parts := Split(s, '.');
    (parts[0], Parsed(parts[1..]))
  }

  /** The description is the name and the printed offsets joined with ".". */
  lemma {:induction false} PathDescriptionJoins(e: Expr)
    requires StorageRef(e).0.IdentExpr?
    ensures PathDescription(e) == Some(Join([StorageRef(e).0.name] + Printed(StorageRef(e).1), "."))
  {
    if e.MemberExpr? {
      PathDescriptionJoins(e.base);
      var (base, path) := StorageRef(e.base);
      JoinSnoc([base.name] + Printed(path), ".", Numerals.IntToString(e.offset));
      assert [base.name] + Printed(path) + [Numerals.IntToString(e.offset)]
          == [base.name] + Printed(path + [e.offset]);
    } else {
      assert Printed([]) == [];
    }
  }

  /** Round trip: an l-value's description reads back as its storage
      reference (`storageRef`), the base name and the member path, when the
      name holds no ".". */
  lemma PathDescriptionReadsBack(e: Expr)
    requires StorageRef(e).0.IdentExpr? && '.' !in StorageRef(e).0.name
    ensures ReadPath(PathDescription(e).value) == (StorageRef(e).0.name, StorageRef(e).1)
  {
    var (base, path) := StorageRef(e);
    PathDescriptionJoins(e);
    var parts := [base.name] + Printed(path);
    var d := PathDescription(e).value;
    assert d == Join(parts, ".");
    forall k | 0 <= k < |parts| ensures '.' !in parts[k] {
      if k > 0 {
        assert parts[k] == Printed(path)[k - 1];
      }
    }
    SplitJoin(parts, '.');
    var split := Split(d, '.');
    assert split == parts;
    assert split[1..] == Printed(path);
    ParsedPrinted(path);
  }

  // ---------------------------------------------------------------------------
  // Brace statements

  /** Swift's `split(separator: "\n")`: the pieces between line feeds, with
      the empty ones omitted. */
  function Lines(s: string): (r: seq<string>)
    ensures forall k | 0 <= k < |r| :: r[k] != "" && '\n' !in r[k]
  {
    NonEmpty(Split(s, '\n'))
  }

  function NonEmpty(parts: seq<string>): (r: seq<string>)
    ensures forall k | 0 <= k < |r| :: r[k] != "" && r[k] in parts
    decreases |parts|
  {
    if parts == [] then []
    else if parts[0] == "" then NonEmpty(parts[1..])
    else [parts[0]] + NonEmpty(parts[1..])
  }

  /** Each line with two spaces in front. */
  function Indent(lines: seq<string>): (r: seq<string>)
    ensures |r| == |lines|
    ensures forall k | 0 <= k < |r| :: r[k] == "  " + lines[k]
  {
    seq(|lines|, k requires 0 <= k < |lines| => "  " + lines[k])
  }

  /** One statement's share of a brace description: its non-empty lines,
      indented, each ended by a line feed (a lone line feed when there are
      none). */
  function StmtBlock(d: string): string {
    Join(Indent(Lines(d)), "\n") + "\n"
  }

  function Blocks(stmts: seq<string>): string
    decreases |stmts|
  {
    if stmts == [] then "" else StmtBlock(stmts[0]) + Blocks(stmts[1..])
  }

  /** `description` of a brace statement, from its statements'
      descriptions. */
  function BraceDescription(stmts: seq<string>): string {
    "{\n" + Blocks(stmts) + "}"
  }

  /** All statements' lines, indented, in order. */
  function IndentedLines(stmts: seq<string>): seq<string>
    decreases |stmts|
  {
    if stmts == [] then [] else Indent(Lines(stmts[0])) + IndentedLines(stmts[1..])
  }

  lemma LinesCons(x: string, y: string)
    requires x != "" && '\n' !in x
    ensures Lines(x + "\n" + y) == [x] + Lines(y)
  {
    SplitStep(x, '\n', y);
    var parts := [x] + Split(y, '\n');
    assert parts[1..] == Split(y, '\n');
  }

  lemma LinesSkip(y: string)
    ensures Lines("\n" + y) == Lines(y)
  {
    SplitStep("", '\n', y);
    assert "" + "\n" + y == "\n" + y;
    var parts := [""] + Split(y, '\n');
    assert parts[1..] == Split(y, '\n');
  }

  /** Lines joined with line feeds and ended by one come back as lines. */
  lemma {:induction false} LinesJoined(lines: seq<string>, y: string)
    requires forall k | 0 <= k < |lines| :: lines[k] != "" && '\n' !in lines[k]
    ensures Lines(Join(lines, "\n") + "\n" + y) == lines + Lines(y)
    decreases |lines|
  {
    if lines == [] {
      assert Join(lines, "\n") + "\n" + y == "\n" + y;
      LinesSkip(y);
    } else if |lines| == 1 {
      LinesCons(lines[0], y);
    } else {
      var rest := Join(lines[1..], "\n") + "\n" + y;
      assert Join(lines, "\n") + "\n" + y == lines[0] + "\n" + rest;
      LinesCons(lines[0], rest);
      LinesJoined(lines[1..], y);
      assert lines == [lines[0]] + lines[1..];
    }
  }

  lemma {:induction false} BlocksLines(stmts: seq<string>)
    ensures Lines(Blocks(stmts) + "}") == IndentedLines(stmts) + ["}"]
    decreases |stmts|
  {
    if stmts == [] {
      assert Blocks(stmts) + "}" == "}";
      assert Split("}", '\n') == ["}"];
      assert NonEmpty(["}"][1..]) == [];
    } else {
      var ind := Indent(Lines(stmts[0]));
      assert Blocks(stmts) + "}" == Join(ind, "\n") + "\n" + (Blocks(stmts[1..]) + "}");
      LinesJoined(ind, Blocks(stmts[1..]) + "}");
      BlocksLines(stmts[1..]);
    }
  }

  /** The lines of a brace description are "{", then every statement's
      non-empty lines indented by two spaces, in order, then "}". */
  lemma BraceLines(stmts: seq<string>)
    ensures Lines(BraceDescription(stmts)) == ["{"] + IndentedLines(stmts) + ["}"]
  {
    assert BraceDescription(stmts) == "{" + "\n" + (Blocks(stmts) + "}");
    LinesCons("{", Blocks(stmts) + "}");
    BlocksLines(stmts);
  }

  // ---------------------------------------------------------------------------
  // Function declarations

  function ParamNames(params: seq<Decl>): (r: seq<string>)
    ensures |r| == |params|
    ensures forall k | 0 <= k < |r| :: r[k] == params[k].name
  {
    seq(|params|, k requires 0 <= k < |params| => params[k].name)
  }

  /** `description` of a function declaration, from the descriptions of its
      signature and of its body: "func name(params) : sign", then a space
      and the body when there is one. */
  function FuncDescription(f: FuncDecl, sign: string, body: string): string {
    "func " + f.decl.name + "(" + AfterName(f, sign, body)
  }

  /** What follows the name's "(": the parameter names joined with ", ",
      ") : ", the signature, and the body after a space when there is one. */
  function AfterName(f: FuncDecl, sign: string, body: string): string {
    var head := Join(ParamNames(f.params), ", ") + ") : " + sign;
    if f.body.Some? then head + " " + body else head
  }

  /** The body is part of the description exactly when the declaration has
      one: the description with a body extends the one without by a space
      and the body. */
  lemma FuncBodyShown(f: FuncDecl, sign: string, body: string)
    ensures f.body.Some? ==> FuncDescription(f, sign, body) == FuncDescription(f.(body := None), sign, body) + " " + body
    ensures |FuncDescription(f, sign, body)| > |FuncDescription(f.(body := None), sign, body)| <==> f.body.Some?
  {
  }

  /** Reads the function's name back: the text between "func " and the
      first "(". */
  function ReadFuncName(s: string): Option<string> {
    if |s| >= 5 && s[..5] == "func " then Some(Split(s[5..], '(')[0]) else None
  }

  /** Round trip: a name without "(" is read back from the description. */
  lemma FuncNameReadsBack(f: FuncDecl, sign: string, body: string)
    requires '(' !in f.decl.name
    ensures ReadFuncName(FuncDescription(f, sign, body)) == Some(f.decl.name)
  {
    var s := FuncDescription(f, sign, body);
    var rest := AfterName(f, sign, body);
    assert s[5..] == f.decl.name + "(" + rest;
    SplitStep(f.decl.name, '(', rest);
  }

  /** `debugDescription`: "FuncDecl(name)". */
  function FuncDebugDescription(f: FuncDecl): string {
    "FuncDecl(" + f.decl.name + ")"
  }

  /** Two declarations have the same debug description exactly when they
      have the same name. */
  lemma DebugDescriptionNames(f: FuncDecl, g: FuncDecl)
    ensures FuncDebugDescription(f) == FuncDebugDescription(g) <==> f.decl.name == g.decl.name
  {
    var s, t := FuncDebugDescription(f), FuncDebugDescription(g);
    assert s[9..|s| - 1] == f.decl.name;
    assert t[9..|t| - 1] == g.decl.name;
  }

  // ---------------------------------------------------------------------------
  // Quantified signatures

  /** `\A` for the universal quantifier, `\E` for the existential one. */
  function QuantifierMark(q: Types.Quantifier): string {
    match q
    case Universal => "\\A"
    case Existential => "\\E"
  }

  /** `description` of a quantified signature, from its parameters' and its
      base's descriptions: the quantifier, the parameters joined with ", ",
      " . ", then the base, in parentheses when it is a function or another
      quantified signature. */
  function QuantifiedDescription(s: TypeSign, params: seq<string>, base: string): string
    requires s.QuantifiedSign?
  {
    var head := QuantifierMark(s.quantifier) + " " + Join(params, ", ") + " . ";
    if s.base.FuncSign? || s.base.QuantifiedSign? then head + "(" + base + ")" else head + base
  }

  /** Reads the quantifier back from the first two characters. */
  function ReadQuantifier(d: string): Option<Types.Quantifier> {
    if |d| >= 2 && d[..2] == "\\A" then Some(Types.Universal)
    else if |d| >= 2 && d[..2] == "\\E" then Some(Types.Existential)
    else None
  }

  /** Round trip: the quantifier is read back from the description. */
  lemma QuantifierReadsBack(s: TypeSign, params: seq<string>, base: string)
    requires s.QuantifiedSign?
    ensures ReadQuantifier(QuantifiedDescription(s, params, base)) == Some(s.quantifier)
  {
    var d := QuantifiedDescription(s, params, base);
    assert d[..2] == QuantifierMark(s.quantifier);
  }

  /** A function or quantified base ends the description inside
      parentheses, any other base ends it as is. */
  lemma QuantifiedBaseGrouping(s: TypeSign, params: seq<string>, base: string)
    requires s.QuantifiedSign?
    ensures var d := QuantifiedDescription(s, params, base);
      if s.base.FuncSign? || s.base.QuantifiedSign?
      then |d| >= |base| + 2 && d[|d| - |base| - 2..] == "(" + base + ")"
      else |d| >= |base| && d[|d| - |base|..] == base
  {
  }
}
