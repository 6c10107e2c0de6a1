/** The recursive-descent parser: from the lexemes of a file to function
    declarations. Every parse function starts at an index into the input
    and returns the node it built together with the index just past it, or
    the error it throws. A thrown error records the index at which the
    parser stood when it threw: the parser never rewinds, and recovery
    resumes from there. */
module Parser {
  import opened Wrappers
  import opened Symbols
  import opened Tokens
  import opened Ast
  import Ty = Types
  import Characters
  import Streams
  import Numerals

  /** A token as the parser sees it: its kind, its text, and whether a line
      break follows it. */
  datatype Lexeme = Lexeme(kind: Kind, text: string, followedByNewline: bool)

  /** The lexemes, and the identity of the declaration made from the lexeme
      at index 0; the declaration made from the lexeme at index `k` gets
      identity `firstId + k`, so distinct lexemes make distinct objects. */
  datatype Input = Input(toks: seq<Lexeme>, firstId: nat)

  datatype Fault =
    | ParseError(message: string, at: nat)
      /** A forced unwrap that fails: the program stops. */
    | Trap

  type Parsed<T> = Result<(T, nat), Fault>

  function Fail<T>(message: string, at: nat): Parsed<T> {
    Failure(ParseError(message, at))
  }

  predicate Is(toks: seq<Lexeme>, i: nat, k: Kind) {
    i < |toks| && toks[i].kind == k
  }

  /** The lexeme just before `j` is of kind `k`: a parse that ended at `j`
      ended with it. */
  predicate ClosedBy(toks: seq<Lexeme>, j: nat, k: Kind) {
    j >= 1 && Is(toks, j - 1, k)
  }

  /** A successful parse consumed at least one lexeme; an error was thrown
      at or after the start. */
  predicate Consumes<T>(r: Parsed<T>, i: nat, n: nat) {
    && (r.Success? ==> i < r.value.1 <= n)
    && (r.Failure? && r.error.ParseError? ==> i <= r.error.at <= n)
  }

  /** Like `Consumes`, for parses that may succeed without consuming. */
  predicate Within<T>(r: Parsed<T>, i: nat, n: nat) {
    && (r.Success? ==> i <= r.value.1 <= n)
    && (r.Failure? && r.error.ParseError? ==> i <= r.error.at <= n)
  }

  /** The declaration made from the lexeme at index `k`. */
  function DeclAt(src: Input, k: nat, kind: DeclKind): Decl
    requires k < |src.toks|
  {
    Decl(src.firstId + k, src.toks[k].text, kind)
  }

  // ---------------------------------------------------------------------------
  // From tokens to lexemes

  /** The lexer's tokens as the parser reads them: line-break tokens are
      dropped, and the token before one is marked as followed by a line
      break. */
  function Lexemes(tokens: seq<Token>): (r: seq<Lexeme>)
    requires forall k | 0 <= k < |tokens| :: Tokens.Valid(tokens[k])
    ensures |r| <= |tokens|
    ensures forall k | 0 <= k < |r| :: r[k].kind != Newline
    ensures tokens != [] && tokens[0].kind != Newline ==>
      r != [] && r[0] == Lexeme(tokens[0].kind, Value(tokens[0]), |tokens| > 1 && tokens[1].kind == Newline)
    ensures (forall k | 0 <= k < |tokens| :: tokens[k].kind != Newline) ==> |r| == |tokens|
  {
    if tokens == [] then []
    else if tokens[0].kind == Newline then Lexemes(tokens[1..])
    else
      [Lexeme(tokens[0].kind, Value(tokens[0]), |tokens| > 1 && tokens[1].kind == Newline)]
        + Lexemes(tokens[1..])
  }

  // ---------------------------------------------------------------------------
  // Integer literals

  const IntMax: int := 0x7fff_ffff_ffff_ffff
  const IntMin: int := -0x8000_0000_0000_0000

  predicate AllDigits(s: string) {
    forall k | 0 <= k < |s| :: Characters.IsDigit(s[k])
  }

  /** The value of a string of decimal digits. */
  function DigitsValue(s: string): nat
    requires AllDigits(s)
    decreases |s|
  {
    if s == [] then 0 else 10 * DigitsValue(s[..|s| - 1]) + (s[|s| - 1] as int - '0' as int)
  }

  /** `Int(_: String)`: an optional sign followed by decimal digits, whose
      value fits in a signed 64-bit integer. */
  function IntValue(text: string): (r: Option<int>)
    ensures r.Some? ==> IntMin <= r.value <= IntMax
    ensures text != [] && AllDigits(text) ==>
      (r.Some? <==> DigitsValue(text) <= IntMax) && (r.Some? ==> r.value == DigitsValue(text))
    ensures text == [] ==> r.None?
  {
    var signed := |text| > 0 && (text[0] == '+' || text[0] == '-');
    var digits := if signed then text[1..] else text;
    if digits == [] || !AllDigits(digits) then None
    else
      var v: int := if signed && text[0] == '-' then -(DigitsValue(digits) as int) else DigitsValue(digits);
      if IntMin <= v <= IntMax then Some(v) else None
  }

  lemma {:induction false} DigitsOfDecimal(n: nat)
    ensures AllDigits(Numerals.NatToString(n)) && DigitsValue(Numerals.NatToString(n)) == n
    decreases n
  {
    var s := Numerals.NatToString(n);
    if n >= 10 {
      DigitsOfDecimal(n / 10);
      assert s[..|s| - 1] == Numerals.NatToString(n / 10);
    }
  }

  /** The decimal spelling of a 64-bit natural number reads back as that
      number. */
  lemma IntValueOfDecimal(n: nat)
    requires n <= IntMax
    ensures IntValue(Numerals.NatToString(n)) == Some(n)
  {
    DigitsOfDecimal(n);
  }

  // ---------------------------------------------------------------------------
  // Scanning ahead

  /** Opening minus closing delimiters among `toks[i..j]`. */
  function Depth(toks: seq<Lexeme>, i: nat, j: nat, open: Kind, close: Kind): int
    requires i <= j <= |toks|
    decreases j - i
  {
    if j == i then 0
    else
      Depth(toks, i, j - 1, open, close)
        + (if toks[j - 1].kind == close then -1 else if toks[j - 1].kind == open then 1 else 0)
  }

  function MatchFrom(toks: seq<Lexeme>, j: nat, open: Kind, close: Kind, count: nat): (r: nat)
    requires j <= |toks| && count >= 1
    ensures j <= r <= |toks|
    decreases |toks| - j
  {
    if j == |toks| then j
    else if toks[j].kind == close then
      if count == 1 then j else MatchFrom(toks, j + 1, open, close, count - 1)
    else if toks[j].kind == open then MatchFrom(toks, j + 1, open, close, count + 1)
    else MatchFrom(toks, j + 1, open, close, count)
  }

  /** Scanning `toks[i..k]` has not yet met the delimiter that closes the
      one opened before `i`, and the lexeme at `k` does not close it either. */
  predicate StillOpen(toks: seq<Lexeme>, i: nat, k: nat, open: Kind, close: Kind)
    requires i <= k < |toks|
  {
    var d := Depth(toks, i, k, open, close);
    d >= 0 && !(toks[k].kind == close && d == 0)
  }

  /** `indexOfMatchingDelimiter`: from just after an opening delimiter, the
      index of the closing delimiter that balances it, or the end of the
      input. */
  function MatchingDelimiter(toks: seq<Lexeme>, i: nat, open: Kind, close: Kind): (r: nat)
    requires i <= |toks|
    ensures i <= r <= |toks|
    ensures r < |toks| ==> toks[r].kind == close && Depth(toks, i, r, open, close) == 0
    ensures forall k | i <= k < r :: StillOpen(toks, i, k, open, close)
  {
    MatchFromBalances(toks, i, i, open, close, 1);
    var r := MatchFrom(toks, i, open, close, 1);
    OpenUpToAll(toks, i, r, open, close);
    r
  }

  /** `StillOpen` holds at every index of `[i, j)`, stated by recursion on
      `j` so that extending the range by one is a single unfolding. */
  predicate OpenUpTo(toks: seq<Lexeme>, i: nat, j: nat, open: Kind, close: Kind)
    requires i <= j <= |toks|
    decreases j - i
  {
    j == i || (OpenUpTo(toks, i, j - 1, open, close) && StillOpen(toks, i, j - 1, open, close))
  }

  lemma {:induction false} OpenUpToAll(toks: seq<Lexeme>, i: nat, j: nat, open: Kind, close: Kind)
    requires i <= j <= |toks|
    requires OpenUpTo(toks, i, j, open, close)
    ensures forall k | i <= k < j :: StillOpen(toks, i, k, open, close)
    decreases j - i
  {
    if j > i {
      OpenUpToAll(toks, i, j - 1, open, close);
    }
  }

  /** The count after the lexeme at `j`: one less after a closing
      delimiter, one more after an opening one. */
  function NextCount(toks: seq<Lexeme>, j: nat, open: Kind, close: Kind, count: nat): nat
    requires j < |toks|
  {
    if toks[j].kind == close then (if count == 0 then 0 else count - 1)
    else if toks[j].kind == open then count + 1
    else count
  }

  lemma OpenStep(toks: seq<Lexeme>, i: nat, j: nat, open: Kind, close: Kind, count: nat)
    requires i <= j < |toks| && count >= 1
    requires count == 1 + Depth(toks, i, j, open, close)
    requires !(toks[j].kind == close && count == 1)
    ensures StillOpen(toks, i, j, open, close)
    ensures NextCount(toks, j, open, close, count) == 1 + Depth(toks, i, j + 1, open, close) >= 1
  {
  }

  lemma {:induction false} MatchFromBalances(toks: seq<Lexeme>, i: nat, j: nat, open: Kind, close: Kind, count: nat)
    requires i <= j <= |toks| && count >= 1
    requires count == 1 + Depth(toks, i, j, open, close)
    requires OpenUpTo(toks, i, j, open, close)
    ensures var r := MatchFrom(toks, j, open, close, count);
      && (r < |toks| ==> toks[r].kind == close && Depth(toks, i, r, open, close) == 0)
      && OpenUpTo(toks, i, r, open, close)
    decreases |toks| - j
  {
    if j < |toks| && !(toks[j].kind == close && count == 1) {
      OpenStep(toks, i, j, open, close, count);
      var next := NextCount(toks, j, open, close, count);
      MatchFromBalances(toks, i, j + 1, open, close, next);
      StepMatch(toks, j, open, close, count);
    }
  }

  lemma StepMatch(toks: seq<Lexeme>, j: nat, open: Kind, close: Kind, count: nat)
    requires j < |toks| && count >= 1
    requires !(toks[j].kind == close && count == 1)
    ensures NextCount(toks, j, open, close, count) >= 1
    ensures MatchFrom(toks, j, open, close, count) == MatchFrom(toks, j + 1, open, close, NextCount(toks, j, open, close, count))
  {
  }

  /** `firstIndex(where: { $0.kind == k })` from `i`, or the end. */
  function FirstOf(toks: seq<Lexeme>, i: nat, k: Kind): (r: nat)
    requires i <= |toks|
    ensures i <= r <= |toks|
    ensures forall m | i <= m < r :: toks[m].kind != k
    ensures r == |toks| || toks[r].kind == k
  {
    Streams.RunEnd(toks, i, (t: Lexeme) => t.kind != k)
  }

  /** Where a call's argument list ends: just past the first lexeme from `i`
      that a line break follows, or the end of the input. */
  function LineEnd(toks: seq<Lexeme>, i: nat): (r: nat)
    requires i <= |toks|
    ensures i <= r <= |toks|
    ensures forall m | i <= m < r - 1 :: !toks[m].followedByNewline
    ensures r < |toks| ==> i < r && toks[r - 1].followedByNewline
  {
    var e := Streams.RunEnd(toks, i, (t: Lexeme) => !t.followedByNewline);
    if e < |toks| then e + 1 else |toks|
  }

  // ---------------------------------------------------------------------------
  // Declarations made of one name

  /** Every declaration in `ds` was made from a name lexeme in `[i, j)`. */
  predicate DeclsFrom(src: Input, ds: seq<Decl>, i: nat, j: nat, kind: DeclKind) {
    forall d | d in ds ::
      && src.firstId + i <= d.id < src.firstId + j
      && d.id - src.firstId < |src.toks|
      && Is(src.toks, d.id - src.firstId, Name)
      && d == DeclAt(src, d.id - src.firstId, kind)
  }

  /** Identities strictly increase along `ds`: distinct objects, in source
      order. */
  predicate IdsIncreasing(ds: seq<Decl>) {
    |ds| <= 1 || (ds[0].id < ds[1].id && IdsIncreasing(ds[1..]))
  }

  lemma DeclsCons(src: Input, i: nat, kind: DeclKind, rest: seq<Decl>, j: nat, k: nat)
    requires Is(src.toks, i, Name) && i < j <= k
    requires DeclsFrom(src, rest, j, k, kind) && IdsIncreasing(rest)
    ensures DeclsFrom(src, [DeclAt(src, i, kind)] + rest, i, k, kind)
    ensures IdsIncreasing([DeclAt(src, i, kind)] + rest)
  {
    var ds := [DeclAt(src, i, kind)] + rest;
    assert ds[1..] == rest;
    if rest != [] {
      assert rest[0] in rest;
    }
  }

  /** `parseFuncParamDecl` and `parseQuantParamDecl`. */
  function ParseParamDecl(src: Input, i: nat, kind: DeclKind): (r: Parsed<Decl>)
    requires i <= |src.toks|
    ensures r.Success? <==> Is(src.toks, i, Name)
    ensures r.Success? ==> r.value == (DeclAt(src, i, kind), i + 1)
    ensures r.Failure? ==> r.error == ParseError("expected parameter name", i)
  {
    if Is(src.toks, i, Name) then Success((DeclAt(src, i, kind), i + 1))
    else Fail("expected parameter name", i)
  }

  /** `parseList` of parameter declarations: comma-separated, read until the
      parser reaches `end`. */
  function ParseDeclList(src: Input, i: nat, end: nat, kind: DeclKind): (r: Parsed<seq<Decl>>)
    requires i <= |src.toks|
    ensures Within(r, i, |src.toks|)
    ensures i >= end ==> r == Success(([], i))
    ensures r.Success? && i < end ==> r.value.1 >= end && |r.value.0| >= 1
    ensures r.Success? ==> DeclsFrom(src, r.value.0, i, r.value.1, kind) && IdsIncreasing(r.value.0)
    decreases |src.toks| - i
  {
    if i >= end then Success(([], i))
    else
      var p :- ParseParamDecl(src, i, kind);
      var (d, j) := p;
      if j >= end then Success(([d], j))
      else if Is(src.toks, j, Comma) then
        var l :- ParseDeclList(src, j + 1, end, kind);
        DeclsCons(src, i, kind, l.0, j + 1, l.1);
        Success(([d] + l.0, l.1))
      else Fail("expected ',' separator", j)
  }

  // ---------------------------------------------------------------------------
  // Expressions

  /** The expressions that conform to `LValueExpr`: member expressions only. */
  predicate IsLValue(e: Expr) {
    e.MemberExpr?
  }

  /** Which expressions `free`, `store` and `load` accept. The code accepts
      only what conforms to `LValueExpr` (`MembersOnly`); the parser's tests
      and the grammar of l-values also accept a plain identifier
      (`IdentsToo`). */
  datatype LValueRule = MembersOnly | IdentsToo

  predicate Accepts(rule: LValueRule, e: Expr) {
    IsLValue(e) || (rule == IdentsToo && e.IdentExpr?)
  }

  /** `parseIdentExpr`. */
  function ParseIdentExpr(src: Input, i: nat): (r: Parsed<Expr>)
    requires i <= |src.toks|
    ensures r.Success? <==> Is(src.toks, i, Name)
    ensures r.Success? ==> r.value == (IdentExpr(src.toks[i].text, None), i + 1)
    ensures r.Failure? ==> r.error == ParseError("expected value identifier", i)
  {
    if Is(src.toks, i, Name) then Success((IdentExpr(src.toks[i].text, None), i + 1))
    else Fail("expected value identifier", i)
  }

  /** The lexeme kinds an expression starts with. */
  predicate StartsExpr(k: Kind) {
    k == Name || k == Void || k == TrueKeyword || k == FalseKeyword || k == Integer
  }

  /** The literal or identifier an expression starts with. */
  function ParsePrimary(src: Input, i: nat): (r: Parsed<Expr>)
    requires i <= |src.toks|
    ensures r.Success? ==> i < |src.toks| && r.value.1 == i + 1 && !r.value.0.MemberExpr?
    ensures r.Success? ==> StartsExpr(src.toks[i].kind)
    ensures r.Success? && src.toks[i].kind == Name ==> r.value.0 == IdentExpr(src.toks[i].text, None)
    ensures r.Success? && src.toks[i].kind == Integer ==>
      r.value.0.IntLit? && IntMin <= r.value.0.v <= IntMax
    ensures r.Failure? ==> r.error.ParseError? && i <= r.error.at <= |src.toks|
    ensures !(i < |src.toks| && StartsExpr(src.toks[i].kind)) ==> r == Fail("expected expression", i)
  {
    if i == |src.toks| then Fail("expected expression", i)
    else
      var t := src.toks[i];
      match t.kind
      case Name => Success((IdentExpr(t.text, None), i + 1))
      case Void => Success((VoidLit, i + 1))
      case TrueKeyword => Success((BoolLit(t.text == "true"), i + 1))
      case FalseKeyword => Success((BoolLit(t.text == "true"), i + 1))
      case Integer =>
        (match IntValue(t.text)
         case Some(v) => Success((IntLit(v), i + 1))
         case None => Fail("invalid integer literal '" + t.text + "'", i + 1))
      case _ => Fail("expected expression", i)
  }

  /** The `.offset` suffixes after an expression, each wrapping what came
      before in a member expression. An offset too large for a 64-bit
      integer traps. */
  function ParseMemberSuffix(src: Input, base: Expr, i: nat): (r: Parsed<Expr>)
    requires i <= |src.toks|
    ensures Within(r, i, |src.toks|)
    ensures r.Success? ==> !Is(src.toks, r.value.1, Dot)
    ensures r.Success? ==> StorageRef(r.value.0).0 == StorageRef(base).0
    ensures r.Success? ==> StorageRef(base).1 <= StorageRef(r.value.0).1
    ensures r.Success? ==> (r.value.1 == i <==> r.value.0 == base)
    ensures r.Success? && r.value.1 > i ==> r.value.0.MemberExpr?
    ensures r.Failure? ==> r.error == Trap || r.error == ParseError("expected offset", r.error.at)
    decreases |src.toks| - i
  {
    if !Is(src.toks, i, Dot) then Success((base, i))
    else if !Is(src.toks, i + 1, Integer) then Fail("expected offset", i + 1)
    else
      match IntValue(src.toks[i + 1].text)
      case None => Failure(Trap)
      case Some(v) =>
        var r := ParseMemberSuffix(src, MemberExpr(base, v), i + 2);
        assert r.Success? ==> StorageRef(MemberExpr(base, v)).1 == StorageRef(base).1 + [v];
        r
  }

  /** `parseExpr`: a literal or identifier, then member suffixes. */
  function ParseExpr(src: Input, i: nat): (r: Parsed<Expr>)
    requires i <= |src.toks|
    ensures Consumes(r, i, |src.toks|)
    ensures !(i < |src.toks| && StartsExpr(src.toks[i].kind)) ==> r == Fail("expected expression", i)
    // An expression is an l-value exactly when member suffixes follow its
    // first lexeme.
    ensures r.Success? ==> (IsLValue(r.value.0) <==> r.value.1 > i + 1)
    ensures r.Success? && src.toks[i].kind == Name ==>
      StorageRef(r.value.0).0 == IdentExpr(src.toks[i].text, None)
  {
    var p :- ParsePrimary(src, i);
    ParseMemberSuffix(src, p.0, p.1)
  }

  /** `parseList` of expressions. */
  function ParseExprList(src: Input, i: nat, end: nat): (r: Parsed<seq<Expr>>)
    requires i <= |src.toks|
    ensures Within(r, i, |src.toks|)
    ensures i >= end ==> r == Success(([], i))
    ensures r.Success? && i < end ==> r.value.1 >= end && |r.value.0| >= 1
    decreases |src.toks| - i
  {
    if i >= end then Success(([], i))
    else
      var e :- ParseExpr(src, i);
      var (x, j) := e;
      if j >= end then Success(([x], j))
      else if Is(src.toks, j, Comma) then
        var l :- ParseExprList(src, j + 1, end);
        Success(([x] + l.0, l.1))
      else Fail("expected ',' separator", j)
  }

  // ---------------------------------------------------------------------------
  // Type signatures

  /** `TypeQual(token:)`: the qualifier a `@word` names. */
  function QualifierOf(text: string): (r: Option<Ty.Qualifier>)
    ensures r.Some? <==> text == "@const" || text == "@unscoped"
    ensures r == Some(Ty.Unscoped) <==> text == "@unscoped"
  {
    match text
    case "@const" => Some(Ty.Copyable)
    case "@unscoped" => Some(Ty.Unscoped)
    case _ => None
  }

  /** The qualifiers in front of a signature. */
  function ParseQualifiers(src: Input, i: nat): (r: Parsed<set<Ty.Qualifier>>)
    requires i <= |src.toks|
    ensures r.Success? ==> i <= r.value.1 <= |src.toks| && !Is(src.toks, r.value.1, Qualifier)
    ensures r.Success? ==> forall m | i <= m < r.value.1 ::
      src.toks[m].kind == Qualifier && QualifierOf(src.toks[m].text).Some?
      && QualifierOf(src.toks[m].text).value in r.value.0
    ensures r.Success? ==> (r.value.0 == {} <==> r.value.1 == i)
    ensures r.Failure? ==>
      && r.error.ParseError? && i < r.error.at <= |src.toks|
      && src.toks[r.error.at - 1].kind == Qualifier && QualifierOf(src.toks[r.error.at - 1].text).None?
      && r.error.message == "invalid type qualifier '" + src.toks[r.error.at - 1].text + "'"
    decreases |src.toks| - i
  {
    if !Is(src.toks, i, Qualifier) then Success(({}, i))
    else
      match QualifierOf(src.toks[i].text)
      case None => Fail("invalid type qualifier '" + src.toks[i].text + "'", i + 1)
      case Some(q) =>
        var l :- ParseQualifiers(src, i + 1);
        Success(({q} + l.0, l.1))
  }

  /** `parseTypeSign`: qualifiers, then a bare signature. */
  function ParseTypeSign(src: Input, i: nat): (r: Parsed<TypeSign>)
    requires i <= |src.toks|
    ensures Consumes(r, i, |src.toks|)
    ensures r.Success? && Is(src.toks, i, Qualifier) ==> r.value.0.QualSign? && r.value.0.quals != {}
    decreases |src.toks| - i, 5
  {
    var q :- ParseQualifiers(src, i);
    var (quals, j) := q;
    var b :- ParseBareTypeSign(src, j);
    var (base, k) := b;
    if quals != {} then Success((QualSign(quals, base), k)) else Success((base, k))
  }

  /** `parseBareTypeSign`: a base signature, then its `+ [a: τ]`
      assumptions, which bundle it when there is at least one. */
  function ParseBareTypeSign(src: Input, i: nat): (r: Parsed<TypeSign>)
    requires i <= |src.toks|
    ensures Consumes(r, i, |src.toks|)
    ensures r.Success? ==> !Is(src.toks, r.value.1, Plus)
    decreases |src.toks| - i, 4
  {
    var b :- ParseBaseSign(src, i);
    var (base, j) := b;
    var a :- ParseAssumptions(src, j);
    var (assumps, k) := a;
    if assumps != [] then Success((BundledSign(base, assumps), k)) else Success((base, k))
  }

  /** The signature a bare signature starts with, chosen by its first
      lexeme. */
  function ParseBaseSign(src: Input, i: nat): (r: Parsed<TypeSign>)
    requires i <= |src.toks|
    ensures Consumes(r, i, |src.toks|)
    ensures i < |src.toks| && src.toks[i].kind == Name ==> r == Success((IdentSign(src.toks[i].text, None), i + 1))
    decreases |src.toks| - i, 3
  {
    if i == |src.toks| then Fail("expected type signature", i)
    else
      match src.toks[i].kind
      case LeftParen => ParseParenthesizedSign(src, i)
      case Universal => ParseQuantifiedSign(src, i)
      case Existential => ParseQuantifiedSign(src, i)
      case Name => Success((IdentSign(src.toks[i].text, None), i + 1))
      case Exclamation => ParseLocSign(src, i)
      case LeftBrace => ParseTupleSign(src, i)
      case _ => Fail("expected type signature", i)
  }

  /** A parenthesised list is a function's parameters when an arrow
      follows, and otherwise must hold exactly one signature. */
  function ParseParenthesizedSign(src: Input, i: nat): (r: Parsed<TypeSign>)
    requires i <= |src.toks|
    ensures Consumes(r, i, |src.toks|)
    ensures r.Success? ==> Is(src.toks, i, LeftParen)
    decreases |src.toks| - i, 2
  {
    var p :- ParseParenthesizedSignList(src, i);
    var (params, j) := p;
    if Is(src.toks, j, Arrow) then
      var o :- ParseTypeSign(src, j + 1);
      Success((FuncSign(params, o.0), o.1))
    else if |params| == 1 then Success((params[0], j))
    else Fail("expected '->' separator", j)
  }

  /** `parseParenthesizedSignList`: the signatures up to the parenthesis
      that balances the opening one. */
  function ParseParenthesizedSignList(src: Input, i: nat): (r: Parsed<seq<TypeSign>>)
    requires i <= |src.toks|
    ensures Consumes(r, i, |src.toks|)
    ensures r.Success? ==> Is(src.toks, i, LeftParen) && ClosedBy(src.toks, r.value.1, RightParen)
    decreases |src.toks| - i, 1
  {
    if !Is(src.toks, i, LeftParen) then Fail("expected '(' delimiter", i)
    else
      var end := MatchingDelimiter(src.toks, i + 1, LeftParen, RightParen);
      var l :- ParseSignList(src, i + 1, end);
      var (signs, j) := l;
      if Is(src.toks, j, RightParen) then Success((signs, j + 1))
      else Fail("expected ')' delimiter", j)
  }

  /** `parseQuantifiedSign`: a quantifier, parameter names up to the first
      dot, and the quantified bare signature. */
  function ParseQuantifiedSign(src: Input, i: nat): (r: Parsed<TypeSign>)
    requires i <= |src.toks|
    ensures Consumes(r, i, |src.toks|)
    ensures r.Success? ==> r.value.0.QuantifiedSign?
    ensures r.Success? ==> (r.value.0.quantifier == Ty.Universal <==> src.toks[i].kind == Kind.Universal)
    ensures r.Success? ==>
      DeclsFrom(src, r.value.0.qparams, i + 1, r.value.1, QuantParamKind) && IdsIncreasing(r.value.0.qparams)
    decreases |src.toks| - i, 1
  {
    if !(Is(src.toks, i, Kind.Universal) || Is(src.toks, i, Kind.Existential)) then Fail("expected quantifier", i)
    else
      var end := FirstOf(src.toks, i + 1, Dot);
      var l :- ParseDeclList(src, i + 1, end, QuantParamKind);
      var (params, j) := l;
      if !Is(src.toks, j, Dot) then Fail("expected '.' separator", j)
      else
        var b :- ParseBareTypeSign(src, j + 1);
        var q := if src.toks[i].kind == Kind.Universal then Ty.Universal else Ty.Existential;
        Success((QuantifiedSign(q, params, b.0), b.1))
  }

  /** `parseLocSign`: `!` and the identifier of a location. */
  function ParseLocSign(src: Input, i: nat): (r: Parsed<TypeSign>)
    requires i <= |src.toks|
    ensures Consumes(r, i, |src.toks|)
    ensures r.Success? <==> Is(src.toks, i, Exclamation) && Is(src.toks, i + 1, Name)
    ensures r.Success? ==> r.value == (LocSign(IdentExpr(src.toks[i + 1].text, None)), i + 2)
  {
    if !Is(src.toks, i, Exclamation) then Fail("expected '!'", i)
    else
      match ParseIdentExpr(src, i + 1)
      case Success((ident, j)) => Success((LocSign(ident), j))
      case Failure(_) => Fail("expected location identifier folowing '!'", i + 1)
  }

  /** `parseTupleSign`: member signatures up to the brace that balances the
      opening one. */
  function ParseTupleSign(src: Input, i: nat): (r: Parsed<TypeSign>)
    requires i <= |src.toks|
    ensures Consumes(r, i, |src.toks|)
    ensures r.Success? ==> r.value.0.TupleSign? && Is(src.toks, i, LeftBrace) && ClosedBy(src.toks, r.value.1, RightBrace)
    decreases |src.toks| - i, 1
  {
    if !Is(src.toks, i, LeftBrace) then Fail("expected '{' delimiter", i)
    else
      var end := MatchingDelimiter(src.toks, i + 1, LeftBrace, RightBrace);
      var l :- ParseSignList(src, i + 1, end);
      var (members, j) := l;
      if Is(src.toks, j, RightBrace) then Success((TupleSign(members), j + 1))
      else Fail("expected '}' delimiter", j)
  }

  /** `parseList` of type signatures. */
  function ParseSignList(src: Input, i: nat, end: nat): (r: Parsed<seq<TypeSign>>)
    requires i <= |src.toks|
    ensures Within(r, i, |src.toks|)
    ensures i >= end ==> r == Success(([], i))
    ensures r.Success? && i < end ==> r.value.1 >= end && |r.value.0| >= 1
    decreases |src.toks| - i, 6
  {
    if i >= end then Success(([], i))
    else
      var e :- ParseTypeSign(src, i);
      var (s, j) := e;
      if j >= end then Success(([s], j))
      else if Is(src.toks, j, Comma) then
        var l :- ParseSignList(src, j + 1, end);
        Success(([s] + l.0, l.1))
      else Fail("expected ',' separator", j)
  }

  /** The `+ [a: τ]` assumptions after a base signature. */
  function ParseAssumptions(src: Input, i: nat): (r: Parsed<seq<AssumpSign>>)
    requires i <= |src.toks|
    ensures Within(r, i, |src.toks|)
    ensures r.Success? ==> !Is(src.toks, r.value.1, Plus)
    ensures r.Success? ==> (r.value.0 == [] <==> r.value.1 == i)
    decreases |src.toks| - i, 0
  {
    if !Is(src.toks, i, Plus) then Success(([], i))
    else
      var a :- ParseAssumpSign(src, i + 1);
      var l :- ParseAssumptions(src, a.1);
      Success(([a.0] + l.0, l.1))
  }

  /** `parseAssumpSign`: `[a: τ]`. */
  function ParseAssumpSign(src: Input, i: nat): (r: Parsed<AssumpSign>)
    requires i <= |src.toks|
    ensures Consumes(r, i, |src.toks|)
    ensures r.Success? ==> Bracketed(src.toks, i, r.value.0, r.value.1)
    decreases |src.toks| - i, 0
  {
    match OpenAssumpSign(src.toks, i)
    case Some(e) => Failure(e)
    case None => CloseAssumpSign(src, i, ParseTypeSign(src, i + 3))
  }

  /** The error for the first of `[`, a name and `:` that is missing, if
      any. */
  function OpenAssumpSign(toks: seq<Lexeme>, i: nat): (r: Option<Fault>)
    requires i <= |toks|
    ensures r.None? <==> Is(toks, i, LeftBracket) && Is(toks, i + 1, Name) && Is(toks, i + 2, Colon)
    ensures r.Some? ==> r.value.ParseError? && i <= r.value.at <= |toks|
  {
    if !Is(toks, i, LeftBracket) then Some(ParseError("expected '[' delimiter", i))
    else if !Is(toks, i + 1, Name) then Some(ParseError("expected value identifier", i + 1))
    else if !Is(toks, i + 2, Colon) then Some(ParseError("expected ':' separator", i + 2))
    else None
  }

  /** An assumption read from `i` up to `j`: it opens with a bracket and
      the name it is about, and closes with a bracket. */
  predicate Bracketed(toks: seq<Lexeme>, i: nat, a: AssumpSign, j: nat) {
    && Is(toks, i, LeftBracket) && Is(toks, i + 1, Name)
    && a.ident == IdentExpr(toks[i + 1].text, None)
    && ClosedBy(toks, j, RightBracket)
  }

  /** The closing bracket after the signature of an assumption. */
  function CloseAssumpSign(src: Input, i: nat, sign: Parsed<TypeSign>): (r: Parsed<AssumpSign>)
    requires i + 3 <= |src.toks| && Is(src.toks, i + 1, Name)
    requires Consumes(sign, i + 3, |src.toks|)
    ensures Consumes(r, i, |src.toks|)
    ensures r.Success? ==>
      && sign.Success? && r.value == (AssumpSign(IdentExpr(src.toks[i + 1].text, None), sign.value.0), sign.value.1 + 1)
      && Is(src.toks, sign.value.1, RightBracket)
    ensures r.Success? && Is(src.toks, i, LeftBracket) ==> Bracketed(src.toks, i, r.value.0, r.value.1)
  {
    match sign
    case Failure(e) => Failure(e)
    case Success((t, k)) =>
      if !Is(src.toks, k, RightBracket) then Fail("expected ']' delimiter", k)
      else Success((AssumpSign(IdentExpr(src.toks[i + 1].text, None), t), k + 1))
  }

  // ---------------------------------------------------------------------------
  // Statements

  /** The l-value rule the parser enforces: the target of `free` and `store`
      and the argument of `load` are member expressions, in every nested
      block. */
  predicate LValuesChecked(s: Stmt) {
    match s
    case FreeStmt(e) => IsLValue(e)
    case StoreStmt(_, lv) => IsLValue(lv)
    case LoadStmt(_, lv) => IsLValue(lv)
    case IfStmt(_, t, e) => BlockChecked(t) && (e.Some? ==> BlockChecked(e.value))
    case BraceS(b) => BlockChecked(b)
    case _ => true
  }

  predicate BlockChecked(b: Brace) {
    AllChecked(b.stmts)
  }

  /** Every statement of `ss` passes the l-value rule. */
  predicate AllChecked(ss: seq<Stmt>) {
    ss == [] || (LValuesChecked(ss[0]) && AllChecked(ss[1..]))
  }

  /** The lexeme kinds a statement starts with. */
  predicate StartsStmt(k: Kind) {
    k == Name || k == Free || k == Store || k == ReturnKeyword || k == IfKeyword || k == LeftBrace
  }

  /** The lexeme kinds that follow `name =` in a value-binding statement. */
  predicate StartsStmtTail(k: Kind) {
    k == Salloc || k == Halloc || k == Load || k == Call
  }

  /** `x = salloc τ at l` and `x = halloc τ`: the allocation keyword is at
      `i`, the name at `n`. */
  function ParseAlloc(src: Input, n: nat, i: nat, segment: Segment): (r: Parsed<Stmt>)
    requires n < i < |src.toks|
    ensures Consumes(r, i, |src.toks|)
    ensures r.Success? ==> r.value.0.AllocStmt? && r.value.0.segment == segment
    ensures r.Success? ==> r.value.0.decl == DeclAt(src, n, AllocKind)
    ensures r.Success? && r.value.0.loc.Some? ==>
      && i + 3 <= r.value.1
      && Is(src.toks, r.value.1 - 2, At)
      && r.value.0.loc.value == DeclAt(src, r.value.1 - 1, LocDeclKind)
  {
    var s :- ParseTypeSign(src, i + 1);
    var (sign, j) := s;
    if Is(src.toks, j, At) then
      if Is(src.toks, j + 1, Name) then
        Success((AllocStmt(DeclAt(src, n, AllocKind), segment, sign, Some(DeclAt(src, j + 1, LocDeclKind))), j + 2))
      else Fail("expected location identifier", j + 1)
    else Success((AllocStmt(DeclAt(src, n, AllocKind), segment, sign, None), j))
  }

  /** `x = load e`: the name is at `n`, the keyword at `i`. */
  function ParseLoad(src: Input, n: nat, i: nat, rule: LValueRule): (r: Parsed<Stmt>)
    requires n < i < |src.toks|
    ensures Consumes(r, i, |src.toks|)
    ensures r.Success? ==> r.value.0.LoadStmt? && r.value.0.decl == DeclAt(src, n, LoadKind)
    ensures r.Success? ==> Accepts(rule, r.value.0.lvalue)
  {
    var e :- ParseExpr(src, i + 1);
    if Accepts(rule, e.0) then Success((LoadStmt(DeclAt(src, n, LoadKind), e.0), e.1))
    else Fail("argument of load statement must be an l-value", e.1)
  }

  /** `x = call f, a, b`: the arguments are read up to the end of the line.
      The name is at `n`, the keyword at `i`. */
  function ParseCall(src: Input, n: nat, i: nat): (r: Parsed<Stmt>)
    requires n < i < |src.toks|
    ensures Consumes(r, i, |src.toks|)
    ensures r.Success? ==> r.value.0.CallStmt? && r.value.0.decl == DeclAt(src, n, CallKind)
    ensures r.Success? ==> i + 1 < |src.toks| && r.value.0.callee == IdentExpr(src.toks[i + 1].text, None)
    ensures r.Success? && r.value.0.args != [] ==> Is(src.toks, i + 2, Comma)
  {
    if !Is(src.toks, i + 1, Name) then Fail("expected value identifier", i + 1)
    else
      var callee := IdentExpr(src.toks[i + 1].text, None);
      if Is(src.toks, i + 2, Comma) then
        var a :- ParseExprList(src, i + 3, LineEnd(src.toks, i + 3));
        Success((CallStmt(DeclAt(src, n, CallKind), callee, a.0), a.1))
      else Success((CallStmt(DeclAt(src, n, CallKind), callee, []), i + 2))
  }

  /** `parseStmtTail`: what follows `name =`, the name being at `n`. */
  function ParseStmtTail(src: Input, n: nat, i: nat): (r: Parsed<Stmt>)
    requires n < i <= |src.toks|
    ensures Consumes(r, i, |src.toks|)
    ensures r.Success? ==> LValuesChecked(r.value.0)
    ensures r.Success? ==>
      && StmtDecl(r.value.0).Some?
      && StmtDecl(r.value.0).value.id == src.firstId + n
      && StmtDecl(r.value.0).value.name == src.toks[n].text
    ensures !(i < |src.toks| && StartsStmtTail(src.toks[i].kind)) ==>
      r == Fail("expected value-binding statement keyword", i)
  {
    if i == |src.toks| then Fail("expected value-binding statement keyword", i)
    else
      var k := src.toks[i].kind;
      if k == Salloc then ParseAlloc(src, n, i, Stack)
      else if k == Halloc then ParseAlloc(src, n, i, Heap)
      else if k == Load then ParseLoad(src, n, i, MembersOnly)
      else if k == Call then ParseCall(src, n, i)
      else Fail("expected value-binding statement keyword", i)
  }

  /** `name = …`: a value-binding statement. */
  function ParseBinding(src: Input, i: nat): (r: Parsed<Stmt>)
    requires i < |src.toks|
    ensures Consumes(r, i, |src.toks|)
    ensures r.Success? ==> LValuesChecked(r.value.0) && StmtDecl(r.value.0).Some?
  {
    if !Is(src.toks, i + 1, Equal) then Fail("expected '='", i + 1)
    else ParseStmtTail(src, i, i + 2)
  }

  /** `free e`, with `free` at `i`. */
  function ParseFree(src: Input, i: nat, rule: LValueRule): (r: Parsed<Stmt>)
    requires i < |src.toks|
    ensures Consumes(r, i, |src.toks|)
    ensures r.Success? ==> r.value.0.FreeStmt? && Accepts(rule, r.value.0.expr)
  {
    var e :- ParseExpr(src, i + 1);
    if Accepts(rule, e.0) then Success((FreeStmt(e.0), e.1))
    else Fail("target of free statement must be an l-value", e.1)
  }

  /** `store v, e`, with `store` at `i`. */
  function ParseStore(src: Input, i: nat, rule: LValueRule): (r: Parsed<Stmt>)
    requires i < |src.toks|
    ensures Consumes(r, i, |src.toks|)
    ensures r.Success? ==> r.value.0.StoreStmt? && Accepts(rule, r.value.0.lvalue)
  {
    var v :- ParseExpr(src, i + 1);
    ParseStoreTarget(src, v.0, v.1, rule)
  }

  /** What follows the stored value `value`, which ends at `j`: a comma and
      the target. */
  function ParseStoreTarget(src: Input, value: Expr, j: nat, rule: LValueRule): (r: Parsed<Stmt>)
    requires j <= |src.toks|
    ensures Consumes(r, j, |src.toks|)
    ensures r.Success? ==> r.value.0.StoreStmt? && r.value.0.rvalue == value && Accepts(rule, r.value.0.lvalue)
  {
    if !Is(src.toks, j, Comma) then Fail("expected ',' separator", j)
    else
      var e :- ParseExpr(src, j + 1);
      if Accepts(rule, e.0) then Success((StoreStmt(value, e.0), e.1))
      else Fail("target of store statement must be an l-value", e.1)
  }

  /** `return e`, with `return` at `i`. */
  function ParseReturn(src: Input, i: nat): (r: Parsed<Stmt>)
    requires i < |src.toks|
    ensures Consumes(r, i, |src.toks|)
    ensures r.Success? ==> r.value.0.ReturnStmt?
  {
    var v :- ParseExpr(src, i + 1);
    Success((ReturnStmt(v.0), v.1))
  }

  /** `parseStmt`: the statement's first lexeme chooses its form. */
  function ParseStmt(src: Input, i: nat): (r: Parsed<Stmt>)
    requires i <= |src.toks|
    ensures Consumes(r, i, |src.toks|)
    ensures r.Success? ==> LValuesChecked(r.value.0)
    ensures !(i < |src.toks| && StartsStmt(src.toks[i].kind)) ==> r == Fail("expected statement", i)
    decreases |src.toks| - i, 2
  {
    if i == |src.toks| then Fail("expected statement", i)
    else
      var k := src.toks[i].kind;
      if k == Name then ParseBinding(src, i)
      else if k == Free then ParseFree(src, i, MembersOnly)
      else if k == Store then ParseStore(src, i, MembersOnly)
      else if k == ReturnKeyword then ParseReturn(src, i)
      else if k == IfKeyword then ParseIfStmt(src, i)
      else if k == LeftBrace then
        var b :- ParseBraceStmt(src, i);
        Success((BraceS(b.0), b.1))
      else Fail("expected statement", i)
  }

  /** `parseIfStmt`. */
  function ParseIfStmt(src: Input, i: nat): (r: Parsed<Stmt>)
    requires i <= |src.toks|
    ensures Consumes(r, i, |src.toks|)
    ensures r.Success? ==> r.value.0.IfStmt? && LValuesChecked(r.value.0)
    decreases |src.toks| - i, 1
  {
    if !Is(src.toks, i, IfKeyword) then Fail("expected 'if'", i)
    else
      var c :- ParseExpr(src, i + 1);
      var t :- ParseBraceStmt(src, c.1);
      if Is(src.toks, t.1, ElseKeyword) then
        var e :- ParseBraceStmt(src, t.1 + 1);
        Success((IfStmt(c.0, t.0, Some(e.0)), e.1))
      else Success((IfStmt(c.0, t.0, None), t.1))
  }

  /** `parseBraceStmt`: statements up to a closing brace. */
  function ParseBraceStmt(src: Input, i: nat): (r: Parsed<Brace>)
    requires i <= |src.toks|
    ensures Consumes(r, i, |src.toks|)
    ensures r.Success? ==>
      Is(src.toks, i, LeftBrace) && ClosedBy(src.toks, r.value.1, RightBrace) && BlockChecked(r.value.0)
    decreases |src.toks| - i, 1
  {
    if !Is(src.toks, i, LeftBrace) then Fail("expected '{' delimiter", i)
    else
      var l :- ParseBlockStmts(src, i + 1);
      Success((Brace(l.0), l.1))
  }

  lemma ChecksCons(s: Stmt, rest: seq<Stmt>)
    requires LValuesChecked(s) && AllChecked(rest)
    ensures AllChecked([s] + rest)
  {
    assert ([s] + rest)[1..] == rest;
  }

  /** The statements of a block, up to and including its closing brace. */
  function ParseBlockStmts(src: Input, i: nat): (r: Parsed<seq<Stmt>>)
    requires i <= |src.toks|
    ensures Consumes(r, i, |src.toks|)
    ensures r.Success? ==> ClosedBy(src.toks, r.value.1, RightBrace)
    ensures r.Success? ==> AllChecked(r.value.0)
    decreases |src.toks| - i, 3
  {
    if Is(src.toks, i, RightBrace) then Success(([], i + 1))
    else
      var s := ParseStmt(src, i);
      assert Consumes(s, i, |src.toks|) && (s.Success? ==> LValuesChecked(s.value.0));
      BlockAfterStmt(src, i, s)
  }

  /** The rest of a block after its statement at index `i`. */
  function BlockAfterStmt(src: Input, i: nat, s: Parsed<Stmt>): (r: Parsed<seq<Stmt>>)
    requires i <= |src.toks| && Consumes(s, i, |src.toks|)
    requires s.Success? ==> LValuesChecked(s.value.0)
    ensures Consumes(r, i, |src.toks|)
    ensures r.Success? ==> s.Success? && r.value.0 != [] && r.value.0[0] == s.value.0
    ensures r.Success? ==> ClosedBy(src.toks, r.value.1, RightBrace)
    ensures r.Success? ==> AllChecked(r.value.0)
    decreases |src.toks| - i, 0
  {
    match s
    case Failure(e) => Failure(e)
    case Success((st, k)) =>
      match ParseBlockStmts(src, k)
      case Failure(e) => Failure(e)
      case Success((l, e)) =>
        ChecksCons(st, l);
        Success(([st] + l, e))
  }

  // ---------------------------------------------------------------------------
  // Function declarations

  /** `f` was parsed from the `func` keyword at index `k`: its declaration
      is made from the name after the keyword. */
  predicate FuncAt(src: Input, f: FuncDecl, k: nat) {
    && Is(src.toks, k, FuncKeyword) && Is(src.toks, k + 1, Name)
    && f.decl == DeclAt(src, k + 1, FuncDeclKind)
  }

  /** The optional parenthesised parameter names of a function, read up to
      the first closing parenthesis. */
  function ParseFuncParams(src: Input, i: nat): (r: Parsed<seq<Decl>>)
    requires i <= |src.toks|
    ensures Within(r, i, |src.toks|)
    ensures !Is(src.toks, i, LeftParen) ==> r == Success(([], i))
    ensures r.Success? ==> DeclsFrom(src, r.value.0, i + 1, r.value.1, FuncParamKind) && IdsIncreasing(r.value.0)
  {
    if !Is(src.toks, i, LeftParen) then Success(([], i))
    else
      var l :- ParseDeclList(src, i + 1, FirstOf(src.toks, i + 1, RightParen), FuncParamKind);
      if Is(src.toks, l.1, RightParen) then Success((l.0, l.1 + 1))
      else Fail("expected ')' delimiter", l.1)
  }

  /** `parseFuncDecl`: `func name(params): τ`, then a body if a brace
      follows. */
  function ParseFuncDecl(src: Input, i: nat): (r: Parsed<FuncDecl>)
    requires i <= |src.toks|
    ensures Consumes(r, i, |src.toks|)
    ensures r.Success? ==> FuncAt(src, r.value.0, i) && i + 4 <= r.value.1
    ensures r.Success? ==> r.value.0.decl.id == src.firstId + i + 1
    ensures r.Success? ==>
      DeclsFrom(src, r.value.0.params, i + 3, r.value.1, FuncParamKind) && IdsIncreasing(r.value.0.params)
    ensures r.Success? && r.value.0.body.Some? ==> BlockChecked(r.value.0.body.value)
    // Failing before consuming anything happens only away from a `func`.
    ensures r.Failure? && r.error.ParseError? && r.error.at == i ==> !Is(src.toks, i, FuncKeyword)
  {
    if !Is(src.toks, i, FuncKeyword) then Fail("expected 'func'", i)
    else if !Is(src.toks, i + 1, Name) then Fail("expected function name", i + 1)
    else
      var p :- ParseFuncParams(src, i + 2);
      var (params, k) := p;
      if !Is(src.toks, k, Colon) then Fail("expected ':' delimiter", k)
      else
        var s :- ParseTypeSign(src, k + 1);
        var (sign, m) := s;
        if Is(src.toks, m, LeftBrace) then
          var b :- ParseBraceStmt(src, m);
          Success((FuncDecl(DeclAt(src, i + 1, FuncDeclKind), params, sign, Some(b.0)), b.1))
        else Success((FuncDecl(DeclAt(src, i + 1, FuncDeclKind), params, sign, None), m))
  }

  /** One call of `parseTopLevelDecl`: the next function declaration (none
      at the end of the input) and the index of its `func` keyword, the
      messages of the errors reported on the way, and the index where the
      parser stops. */
  datatype TopLevel = TopLevel(decl: Option<FuncDecl>, start: nat, diagnostics: seq<string>, next: nat)

  /** Where recovery resumes: the first `func` keyword from `at`, or the
      end of the input. */
  function SkipToFunc(toks: seq<Lexeme>, at: nat): (r: nat)
    requires at <= |toks|
    ensures at <= r <= |toks|
    ensures r == |toks| || toks[r].kind == FuncKeyword
    ensures forall k | at <= k < r :: toks[k].kind != FuncKeyword
  {
    Streams.RunEnd(toks, at, (t: Lexeme) => t.kind != FuncKeyword)
  }

  /** `parseTopLevelDecl`: after an error, the parser reports it and skips
      to the next `func` keyword from where the error left it. */
  function ParseTopLevelDecl(src: Input, i: nat): (r: Result<TopLevel, Fault>)
    requires i <= |src.toks|
    ensures r.Failure? ==> r.error == Trap
    ensures r.Success? ==> i <= r.value.next <= |src.toks| && |r.value.diagnostics| <= r.value.next - i
    ensures r.Success? && r.value.decl.None? ==> r.value.next == |src.toks|
    ensures r.Success? && r.value.decl.Some? ==>
      && i + |r.value.diagnostics| <= r.value.start && r.value.start + 1 < r.value.next
      && FuncAt(src, r.value.decl.value, r.value.start)
    decreases |src.toks| - i
  {
    if i == |src.toks| then Success(TopLevel(None, i, [], i))
    else
      var d := ParseFuncDecl(src, i);
      if d.Success? then Success(TopLevel(Some(d.value.0), i, [], d.value.1))
      else if d.error.Trap? then Failure(Trap)
      else
        var resume := SkipToFunc(src.toks, d.error.at);
        assert resume > i;
        var t :- ParseTopLevelDecl(src, resume);
        Success(TopLevel(t.decl, t.start, [d.error.message] + t.diagnostics, t.next))
  }

  /** The declarations of a file and the diagnostics reported while parsing
      it. */
  datatype ParsedFile = ParsedFile(decls: seq<FuncDecl>, diagnostics: seq<string>)

  predicate FuncIdsIncreasing(fs: seq<FuncDecl>) {
    |fs| <= 1 || (fs[0].decl.id < fs[1].decl.id && FuncIdsIncreasing(fs[1..]))
  }

  /** Every function in `fs` was parsed from a `func` keyword, and its
      declaration was made from a lexeme at or after `i`. */
  predicate FuncsFrom(src: Input, fs: seq<FuncDecl>, i: nat) {
    forall f | f in fs :: src.firstId + i <= f.decl.id && exists k: nat | 0 <= k < |src.toks| :: FuncAt(src, f, k)
  }

  lemma FuncsCons(src: Input, f: FuncDecl, start: nat, rest: seq<FuncDecl>, j: nat)
    requires FuncAt(src, f, start) && start + 1 < j
    requires FuncsFrom(src, rest, j) && FuncIdsIncreasing(rest)
    ensures FuncIdsIncreasing([f] + rest)
    ensures FuncsFrom(src, [f] + rest, start)
  {
    var fs := [f] + rest;
    assert fs[1..] == rest;
    if rest != [] {
      assert rest[0] in rest;
    }
  }

  /** The driver's loop: `parseTopLevelDecl` until it returns nothing. Every
      declaration comes from a `func` keyword followed by its name, in
      source order, and each declaration and each diagnostic accounts for
      at least one lexeme. */
  function ParseDecls(src: Input, i: nat): (r: Result<ParsedFile, Fault>)
    requires i <= |src.toks|
    ensures r.Failure? ==> r.error == Trap
    ensures r.Success? ==> FuncsFrom(src, r.value.decls, i)
    ensures r.Success? ==> FuncIdsIncreasing(r.value.decls)
    ensures r.Success? ==> |r.value.decls| + |r.value.diagnostics| <= |src.toks| - i
    decreases |src.toks| - i
  {
    var t :- ParseTopLevelDecl(src, i);
    match t.decl
    case None => Success(ParsedFile([], t.diagnostics))
    case Some(f) =>
      var rest :- ParseDecls(src, t.next);
      FuncsCons(src, f, t.start, rest.decls, t.next);
      Success(ParsedFile([f] + rest.decls, t.diagnostics + rest.diagnostics))
  }

  // ---------------------------------------------------------------------------
  // Reading back member chains

  /** The lexemes `.o1.o2…` spelling the offsets of `path`. */
  function OffsetLexemes(path: seq<nat>): (r: seq<Lexeme>)
    ensures |r| == 2 * |path|
  {
    if path == [] then []
    else [Lexeme(Dot, ".", false), Lexeme(Integer, Numerals.NatToString(path[0]), false)] + OffsetLexemes(path[1..])
  }

  /** Wrapping the base first and then following the rest of the path is
      following the whole path. */
  lemma {:induction false} MemberChainCons(base: Expr, o: int, rest: seq<int>)
    ensures MemberChain(MemberExpr(base, o), rest) == MemberChain(base, [o] + rest)
    decreases |rest|
  {
    if rest != [] {
      var n := |rest|;
      MemberChainCons(base, o, rest[..n - 1]);
      assert ([o] + rest)[..n] == [o] + rest[..n - 1];
    }
  }

  /** One `.offset` suffix read from `i`. */
  lemma SuffixStep(src: Input, base: Expr, i: nat, v: int)
    requires i + 2 <= |src.toks| && Is(src.toks, i, Dot) && Is(src.toks, i + 1, Integer)
    requires IntValue(src.toks[i + 1].text) == Some(v)
    ensures ParseMemberSuffix(src, base, i) == ParseMemberSuffix(src, MemberExpr(base, v), i + 2)
  {
  }

  lemma MemberChainHead(base: Expr, path: seq<int>)
    requires path != []
    ensures MemberChain(MemberExpr(base, path[0]), path[1..]) == MemberChain(base, path)
  {
    MemberChainCons(base, path[0], path[1..]);
    assert [path[0]] + path[1..] == path;
  }

  /** Every offset of `path` fits in a 64-bit integer, stated by recursion
      on the path. */
  predicate OffsetsFit(path: seq<nat>) {
    path == [] || (path[0] <= IntMax && OffsetsFit(path[1..]))
  }

  lemma {:induction false} OffsetsFitAll(path: seq<nat>)
    requires forall k | 0 <= k < |path| :: path[k] <= IntMax
    ensures OffsetsFit(path)
    decreases |path|
  {
    if path != [] {
      var rest := path[1..];
      assert forall k | 0 <= k < |rest| :: rest[k] == path[k + 1];
      OffsetsFitAll(rest);
    }
  }

  /** Reading the spelled offsets `src.toks[i..e]` after `base` follows
      the whole path and stops at `e`. */
  lemma {:induction false} MemberSuffixReadsOffsets(src: Input, base: Expr, i: nat, e: nat, path: seq<nat>)
    requires e == i + 2 * |path| <= |src.toks|
    requires src.toks[i..e] == OffsetLexemes(path)
    requires !Is(src.toks, e, Dot)
    requires OffsetsFit(path)
    ensures ParseMemberSuffix(src, base, i) == Success((MemberChain(base, path), e))
    decreases |path|
  {
    if path != [] {
      var rest := path[1..];
      OffsetLexemesCons(path);
      SliceTail(src.toks, i, e, 2);
      IntValueOfDecimal(path[0]);
      SuffixStep(src, base, i, path[0]);
      MemberSuffixReadsOffsets(src, MemberExpr(base, path[0]), i + 2, e, rest);
      MemberChainHead(base, path);
    } else {
      assert ParseMemberSuffix(src, base, i) == Success((base, i));
    }
  }

  lemma OffsetLexemesCons(path: seq<nat>)
    requires path != []
    ensures var o := OffsetLexemes(path);
      && o[0] == Lexeme(Dot, ".", false)
      && o[1] == Lexeme(Integer, Numerals.NatToString(path[0]), false)
      && o[2..] == OffsetLexemes(path[1..])
  {
  }

  lemma SliceTail<T>(s: seq<T>, i: nat, e: nat, k: nat)
    requires i + k <= e <= |s|
    ensures s[i + k..e] == s[i..e][k..]
    ensures forall m | 0 <= m < k :: s[i + m] == s[i..e][m]
  {
  }

  /** An expression starting with a name is that identifier followed by
      member suffixes. */
  lemma ExprOfName(src: Input, i: nat)
    requires Is(src.toks, i, Name)
    ensures ParseExpr(src, i) == ParseMemberSuffix(src, IdentExpr(src.toks[i].text, None), i + 1)
  {
    assert ParsePrimary(src, i) == Success((IdentExpr(src.toks[i].text, None), i + 1));
  }

  /** Spelling an identifier and a path of offsets, then parsing the
      lexemes, gives back the member chain with that base and path, and
      consumes exactly the spelled lexemes. */
  lemma ParseMemberChain(name: string, path: seq<nat>, rest: seq<Lexeme>, firstId: nat)
    requires forall k | 0 <= k < |path| :: path[k] <= IntMax
    requires rest == [] || rest[0].kind != Dot
    ensures var src := Input([Lexeme(Name, name, false)] + OffsetLexemes(path) + rest, firstId);
      && ParseExpr(src, 0) == Success((MemberChain(IdentExpr(name, None), path), 1 + 2 * |path|))
      && StorageRef(MemberChain(IdentExpr(name, None), path)) == (IdentExpr(name, None), path)
  {
    var spelled := OffsetLexemes(path);
    var toks := [Lexeme(Name, name, false)] + spelled + rest;
    var src := Input(toks, firstId);
    var e := 1 + 2 * |path|;
    assert toks[1..e] == spelled;
    assert !Is(toks, e, Dot) by {
      if e < |toks| { assert toks[e] == rest[0]; }
    }
    ExprOfName(src, 0);
    OffsetsFitAll(path);
    MemberSuffixReadsOffsets(src, IdentExpr(name, None), 1, e, path);
    Ast.MemberChainRoundTrip(IdentExpr(name, None), path);
  }

  // ---------------------------------------------------------------------------
  // Reading signatures

  /** With no nested delimiter before it, the first closing delimiter is
      the matching one. */
  lemma {:induction false} MatchFromFlat(toks: seq<Lexeme>, j: nat, r: nat, open: Kind, close: Kind)
    requires j <= r < |toks| && toks[r].kind == close
    requires forall k | j <= k < r :: toks[k].kind != open && toks[k].kind != close
    ensures MatchFrom(toks, j, open, close, 1) == r
    decreases r - j
  {
    if j < r {
      MatchFromFlat(toks, j + 1, r, open, close);
    }
  }

  lemma MatchingDelimiterFlat(toks: seq<Lexeme>, i: nat, r: nat, open: Kind, close: Kind)
    requires i <= r < |toks| && toks[r].kind == close
    requires forall k | i <= k < r :: toks[k].kind != open && toks[k].kind != close
    ensures MatchingDelimiter(toks, i, open, close) == r
  {
    MatchFromFlat(toks, i, r, open, close);
  }

  /** A name with no qualifier before it and no assumption after it is the
      signature naming that type. */
  lemma TypeSignOfName(src: Input, i: nat)
    requires Is(src.toks, i, Name) && !Is(src.toks, i + 1, Plus)
    ensures ParseTypeSign(src, i) == Success((IdentSign(src.toks[i].text, None), i + 1))
  {
    assert ParseQualifiers(src, i) == Success(({}, i));
    assert ParseAssumptions(src, i + 1) == Success(([], i + 1));
    assert ParseBareTypeSign(src, i) == Success((IdentSign(src.toks[i].text, None), i + 1));
  }

  // ---------------------------------------------------------------------------
  // Examples

  function Lx(kind: Kind, text: string): Lexeme {
    Lexeme(kind, text, false)
  }

  /** An unknown qualifier is reported with its spelling. */
  lemma InvalidQualifierExample()
    ensures ParseTypeSign(Input([Lx(Qualifier, "@foo"), Lx(Name, "T")], 0), 0)
      == Fail("invalid type qualifier '@foo'", 1)
  {
    var src := Input([Lx(Qualifier, "@foo"), Lx(Name, "T")], 0);
    assert QualifierOf("@foo") == None;
    assert "invalid type qualifier '" + "@foo" + "'" == "invalid type qualifier '@foo'";
    assert ParseQualifiers(src, 0) == Fail("invalid type qualifier '@foo'", 1);
  }

  /** `@unscoped T` qualifies `T`. */
  lemma QualifiedSignExample()
    ensures ParseTypeSign(Input([Lx(Qualifier, "@unscoped"), Lx(Name, "T")], 0), 0)
      == Success((QualSign({Ty.Unscoped}, IdentSign("T", None)), 2))
  {
    var src := Input([Lx(Qualifier, "@unscoped"), Lx(Name, "T")], 0);
    assert QualifierOf("@unscoped") == Some(Ty.Unscoped);
    assert ParseQualifiers(src, 1) == Success(({}, 1));
    assert {Ty.Unscoped} + {} == {Ty.Unscoped};
    assert ParseQualifiers(src, 0) == Success(({Ty.Unscoped}, 1));
    assert ParseAssumptions(src, 2) == Success(([], 2));
    assert ParseBareTypeSign(src, 1) == Success((IdentSign("T", None), 2));
  }

  /** A plain identifier is not an l-value: `free foo` is rejected once the
      expression has been read. */
  lemma FreeIdentifierExample()
    ensures ParseStmt(Input([Lx(Free, "free"), Lx(Name, "foo")], 0), 0)
      == Fail("target of free statement must be an l-value", 2)
  {
    var src := Input([Lx(Free, "free"), Lx(Name, "foo")], 0);
    assert ParseExpr(src, 1) == Success((IdentExpr("foo", None), 2));
  }

  /** Accepting identifiers too changes only the inputs whose target is a
      plain identifier: everything the code accepts is parsed alike, and
      the rest is accepted exactly when the target read is an identifier. */
  lemma IdentsTooExtendsFree(src: Input, i: nat)
    requires i < |src.toks|
    ensures ParseFree(src, i, MembersOnly).Success? ==> ParseFree(src, i, IdentsToo) == ParseFree(src, i, MembersOnly)
    ensures ParseFree(src, i, IdentsToo).Success? <==>
      (ParseFree(src, i, MembersOnly).Success? || (ParseExpr(src, i + 1).Success? && ParseExpr(src, i + 1).value.0.IdentExpr?))
  {
  }

  /** The same for `store`. */
  lemma IdentsTooExtendsStore(src: Input, value: Expr, j: nat)
    requires j <= |src.toks|
    ensures ParseStoreTarget(src, value, j, MembersOnly).Success? ==>
      ParseStoreTarget(src, value, j, IdentsToo) == ParseStoreTarget(src, value, j, MembersOnly)
    ensures ParseStoreTarget(src, value, j, IdentsToo).Success? <==>
      (ParseStoreTarget(src, value, j, MembersOnly).Success? ||
       (Is(src.toks, j, Comma) && ParseExpr(src, j + 1).Success? && ParseExpr(src, j + 1).value.0.IdentExpr?))
  {
  }

  /** The same for `load`. */
  lemma IdentsTooExtendsLoad(src: Input, n: nat, i: nat)
    requires n < i < |src.toks|
    ensures ParseLoad(src, n, i, MembersOnly).Success? ==> ParseLoad(src, n, i, IdentsToo) == ParseLoad(src, n, i, MembersOnly)
    ensures ParseLoad(src, n, i, IdentsToo).Success? <==>
      (ParseLoad(src, n, i, MembersOnly).Success? || (ParseExpr(src, i + 1).Success? && ParseExpr(src, i + 1).value.0.IdentExpr?))
  {
  }

  /** With identifiers accepted, `free foo` frees the cell `foo`. */
  lemma FreeIdentifierParses()
    ensures ParseFree(Input([Lx(Free, "free"), Lx(Name, "foo")], 0), 0, IdentsToo)
      == Success((FreeStmt(IdentExpr("foo", None)), 2))
  {
    var src := Input([Lx(Free, "free"), Lx(Name, "foo")], 0);
    assert ParseExpr(src, 1) == Success((IdentExpr("foo", None), 2));
  }

  /** The literal `1337` reads as 1337. */
  lemma LiteralValue1337()
    ensures IntValue("1337") == Some(1337)
  {
    var t := "1337";
    assert AllDigits(t);
    assert t[..3] == "133" && t[..3][..2] == "13" && t[..3][..2][..1] == "1" && t[..3][..2][..1][..0] == "";
    assert DigitsValue("1") == 1;
    assert DigitsValue("13") == 13;
    assert DigitsValue("133") == 133;
    assert DigitsValue(t) == 1337;
  }

  /** With identifiers accepted, `store 1337, foo` stores into `foo`. */
  lemma StoreIdentifierParses()
    ensures var src := Input([Lx(Store, "store"), Lx(Integer, "1337"), Lx(Comma, ","), Lx(Name, "foo")], 0);
      var r := ParseStore(src, 0, IdentsToo);
      r.Success? && r.value.0.lvalue == IdentExpr("foo", None) && r.value.1 == 4
  {
    var src := Input([Lx(Store, "store"), Lx(Integer, "1337"), Lx(Comma, ","), Lx(Name, "foo")], 0);
    LiteralValue1337();
    assert ParsePrimary(src, 1) == Success((IntLit(1337), 2));
    assert ParseExpr(src, 1) == Success((IntLit(1337), 2));
    StoreIntoIdentifier(src, IntLit(1337), 2);
  }

  /** A comma and a plain identifier not followed by `.` complete a store
      when identifiers are accepted. */
  lemma StoreIntoIdentifier(src: Input, value: Expr, j: nat)
    requires Is(src.toks, j, Comma) && Is(src.toks, j + 1, Name) && !Is(src.toks, j + 2, Dot)
    ensures ParseStoreTarget(src, value, j, IdentsToo) == Success((StoreStmt(value, IdentExpr(src.toks[j + 1].text, None)), j + 2))
  {
    assert ParseExpr(src, j + 1) == Success((IdentExpr(src.toks[j + 1].text, None), j + 2));
  }

  /** With identifiers accepted, `foo = load bar` loads from `bar`. */
  lemma LoadIdentifierParses()
    ensures var src := Input([Lx(Name, "foo"), Lx(Equal, "="), Lx(Load, "load"), Lx(Name, "bar")], 0);
      var r := ParseLoad(src, 0, 2, IdentsToo);
      r.Success? && r.value.0.lvalue == IdentExpr("bar", None) && r.value.1 == 4
  {
    var src := Input([Lx(Name, "foo"), Lx(Equal, "="), Lx(Load, "load"), Lx(Name, "bar")], 0);
    assert ParseExpr(src, 3) == Success((IdentExpr("bar", None), 4));
  }

  /** The end-of-file lexeme does not start a declaration: parsing it
      reports "expected 'func'" and skips it. */
  lemma EndOfFileExample()
    ensures ParseDecls(Input([Lx(Eof, "")], 0), 0) == Success(ParsedFile([], ["expected 'func'"]))
  {
    var src := Input([Lx(Eof, "")], 0);
    assert ParseFuncDecl(src, 0) == Fail("expected 'func'", 0);
    assert SkipToFunc(src.toks, 0) == 1;
    assert ParseTopLevelDecl(src, 1) == Success(TopLevel(None, 1, [], 1));
    assert ["expected 'func'"] + [] == ["expected 'func'"];
    assert ParseTopLevelDecl(src, 0) == Success(TopLevel(None, 1, ["expected 'func'"], 1));
  }
}
