/** The lexer: an iterator over the tokens of a source file's contents.
    Each call of `Next` skips horizontal whitespace and a line comment,
    then cuts one token; at the end of the contents it returns a single
    end-of-file token and nothing afterwards. */
module Lexer {
  import opened Wrappers
  import opened Characters
  import opened Tokens
  import Streams

  /** The contents, the offset of the next character to read, and whether
      the end-of-file token has been returned. */
  datatype LexState = LexState(contents: string, index: nat, depleted: bool)

  predicate Valid(lx: LexState) {
    lx.index <= |lx.contents|
  }

  function Init(contents: string): (lx: LexState)
    ensures Valid(lx)
  {
    LexState(contents, 0, false)
  }

  /** `c[s..e]` is a maximal run of characters satisfying `pred`. */
  predicate MaximalRun(c: string, s: nat, e: nat, pred: char -> bool) {
    s <= e <= |c|
    && (forall k :: s <= k < e ==> pred(c[k]))
    && (e == |c| || !pred(c[e]))
  }

  lemma RunEndIsMaximal(c: string, s: nat, pred: char -> bool)
    requires s <= |c|
    ensures MaximalRun(c, s, Streams.RunEnd(c, s, pred), pred)
  {
  }

  // ---------------------------------------------------------------------------
  // Keywords and operators

  /** The kind of a word made of identifier characters: one of the keywords,
      or a plain name. */
  function KeywordKind(word: string): Kind {
    match word
    case "return" => ReturnKeyword
    case "func" => FuncKeyword
    case "salloc" => Salloc
    case "halloc" => Halloc
    case "call" => Call
    case "free" => Free
    case "store" => Store
    case "load" => Load
    case "if" => IfKeyword
    case "else" => ElseKeyword
    case "while" => WhileKeyword
    case "junk" => Junk
    case "void" => Void
    case "true" => TrueKeyword
    case "false" => FalseKeyword
    case _ => Name
  }

  /** The spelling of a keyword kind. */
  function Spelling(k: Kind): Option<string> {
    match k
    case ReturnKeyword => Some("return")
    case FuncKeyword => Some("func")
    case Salloc => Some("salloc")
    case Halloc => Some("halloc")
    case Call => Some("call")
    case Free => Some("free")
    case Store => Some("store")
    case Load => Some("load")
    case IfKeyword => Some("if")
    case ElseKeyword => Some("else")
    case WhileKeyword => Some("while")
    case Junk => Some("junk")
    case Void => Some("void")
    case TrueKeyword => Some("true")
    case FalseKeyword => Some("false")
    case _ => None
  }

  /** Keywords and their spellings are inverse: a word lexes as a keyword
      exactly when it is that keyword's spelling ... */
  lemma KeywordsSpelled(word: string)
    ensures KeywordKind(word) != Name ==> Spelling(KeywordKind(word)) == Some(word)
  {
  }

  /** ... and each keyword's spelling lexes back to it. */
  lemma SpellingsLex(k: Kind)
    ensures Spelling(k).Some? ==> KeywordKind(Spelling(k).value) == k
  {
  }

  /** The two-character operators `\A`, `\E` and `->` starting at `s`. */
  function OperatorKind(c: string, s: nat): (r: Option<Kind>)
    ensures r.Some? ==> s + 2 <= |c|
    ensures r == Some(Arrow) <==> s + 2 <= |c| && c[s] == '-' && c[s + 1] == '>'
  {
    if s + 2 > |c| then None
    else if c[s] == '\\' && c[s + 1] == 'A' then Some(Universal)
    else if c[s] == '\\' && c[s + 1] == 'E' then Some(Existential)
    else if c[s] == '-' && c[s + 1] == '>' then Some(Arrow)
    else None
  }

  /** The one-character punctuation tokens. */
  function PunctuationKind(ch: char): Option<Kind> {
    match ch
    case '&' => Some(And)
    case '+' => Some(Plus)
    case '=' => Some(Equal)
    case '.' => Some(Dot)
    case ',' => Some(Comma)
    case ':' => Some(Colon)
    case '!' => Some(Exclamation)
    case '?' => Some(Question)
    case '(' => Some(LeftParen)
    case ')' => Some(RightParen)
    case '[' => Some(LeftBracket)
    case ']' => Some(RightBracket)
    case '{' => Some(LeftBrace)
    case '}' => Some(RightBrace)
    case _ => None
  }

  // ---------------------------------------------------------------------------
  // Trivia

  predicate StartsComment(c: string, i: nat) {
    i + 2 <= |c| && c[i] == '/' && c[i + 1] == '/'
  }

  /** Skips horizontal whitespace, then a `//` comment up to (not including)
      the end of its line. Line breaks are never skipped. */
  function SkipTrivia(c: string, i: nat): (j: nat)
    requires i <= |c|
    ensures i <= j <= |c|
    ensures forall k :: i <= k < j ==> !IsNewline(c[k])
    ensures j == |c| || IsNewline(c[j]) || (!IsHorizontalSpace(c[j]) && !StartsComment(c, j))
  {
    var w := Streams.RunEnd(c, i, IsHorizontalSpace);
    if StartsComment(c, w) then Streams.RunEnd(c, w, NotNewline) else w
  }

  // ---------------------------------------------------------------------------
  // Tokens

  /** One token cut at offset `s`: its kind, the end of its text, and the
      offset at which lexing resumes. */
  datatype Lexed = Lexed(kind: Kind, valueEnd: nat, next: nat)

  function Scan(c: string, s: nat): (r: Lexed)
    requires s < |c|
    ensures s < r.valueEnd <= r.next <= |c|
    ensures r.kind != Eof && r.kind != At
    // A line break merges with the whitespace after it, but its text is
    // the line break alone.
    ensures IsNewline(c[s]) <==> r.kind == Newline
    ensures IsNewline(c[s]) ==> r.valueEnd == s + 1 && MaximalRun(c, s, r.next, IsWhitespace)
    ensures !IsNewline(c[s]) ==> r.valueEnd == r.next
    // Identifiers and keywords.
    ensures !IsNewline(c[s]) && (IsLetter(c[s]) || c[s] == '_') ==>
      MaximalRun(c, s, r.next, IsIdentChar) && r.kind == KeywordKind(c[s..r.next])
    // Qualifiers: `@` and the letters after it.
    ensures c[s] == '@' ==> r.kind == Qualifier && MaximalRun(c, s + 1, r.next, IsLetter)
    // Integers.
    ensures IsDigit(c[s]) ==> r.kind == Integer && MaximalRun(c, s, r.next, IsDigit)
    // Operators before punctuation, and anything else is unknown.
    ensures !IsNewline(c[s]) && !IsIdentChar(c[s]) && c[s] != '@' ==>
      if OperatorKind(c, s).Some? then r.kind == OperatorKind(c, s).value && r.next == s + 2
      else if PunctuationKind(c[s]).Some? then r.kind == PunctuationKind(c[s]).value && r.next == s + 1
      else r.kind == Unknown && r.next == s + 1
  {
    var ch := c[s];
    if IsNewline(ch) then
      Lexed(Newline, s + 1, Streams.RunEnd(c, s, IsWhitespace))
    else if IsLetter(ch) || ch == '_' then
      var e := Streams.RunEnd(c, s, IsIdentChar);
      Lexed(KeywordKind(c[s..e]), e, e)
    else if ch == '@' then
      var e := Streams.RunEnd(c, s + 1, IsLetter);
      Lexed(Qualifier, e, e)
    else if IsDigit(ch) then
      var e := Streams.RunEnd(c, s, IsDigit);
      Lexed(Integer, e, e)
    else if OperatorKind(c, s).Some? then
      Lexed(OperatorKind(c, s).value, s + 2, s + 2)
    else if PunctuationKind(ch).Some? then
      Lexed(PunctuationKind(ch).value, s + 1, s + 1)
    else
      Lexed(Unknown, s + 1, s + 1)
  }

  /** `next()`: the next token, or nothing once the end-of-file token has
      been returned. */
  function Next(lx: LexState): (r: (Option<Token>, LexState))
    requires Valid(lx)
    ensures Valid(r.1) && r.1.contents == lx.contents
    ensures lx.depleted ==> r == (None, lx)
    ensures !lx.depleted ==> r.0.Some?
    ensures r.0.Some? ==>
      var t := r.0.value;
      && Tokens.Valid(t) && t.base == lx.contents
      && lx.index <= t.start && t.end <= r.1.index
      // What is skipped before a token never holds a line break.
      && (forall k :: lx.index <= k < t.start ==> !IsNewline(lx.contents[k]))
      && (t.kind == Eof <==> r.1.depleted)
      && (t.kind == Eof ==> t.start == t.end == |lx.contents|)
      && (t.kind != Eof ==> t.start < t.end && lx.index < r.1.index)
  {
    if lx.depleted then (None, lx)
    else
      var c := lx.contents;
      var s := SkipTrivia(c, lx.index);
      if s == |c| then (Some(Token(Eof, c, s, s)), LexState(c, s, true))
      else
        var l := Scan(c, s);
        (Some(Token(l.kind, c, s, l.valueEnd)), LexState(c, l.next, false))
  }

  /** Once the end-of-file token has been returned, `next()` returns nothing
      and the lexer no longer changes. */
  lemma NothingAfterEof(lx: LexState)
    requires Valid(lx) && !lx.depleted
    requires Next(lx).0.value.kind == Eof
    ensures Next(Next(lx).1) == (None, Next(lx).1)
  {
  }

  // ---------------------------------------------------------------------------
  // Whole files

  /** Every token is cut from `contents`, at or after offset `from`. */
  predicate CutFrom(r: seq<Token>, contents: string, from: nat) {
    forall k | 0 <= k < |r| :: Tokens.Valid(r[k]) && r[k].base == contents && from <= r[k].start
  }

  /** Every token but the last is a non-empty token other than end-of-file. */
  predicate ProperBeforeLast(r: seq<Token>) {
    forall k | 0 <= k < |r| - 1 :: r[k].kind != Eof && r[k].start < r[k].end
  }

  lemma ConsTokens(t: Token, rest: seq<Token>, contents: string, from: nat, from': nat)
    requires Tokens.Valid(t) && t.base == contents && from <= t.start && from <= from'
    requires CutFrom(rest, contents, from') && ProperBeforeLast(rest)
    requires rest != [] ==> t.kind != Eof && t.start < t.end
    ensures CutFrom([t] + rest, contents, from) && ProperBeforeLast([t] + rest)
  {
    var r := [t] + rest;
    assert forall k | 1 <= k < |r| :: r[k] == rest[k - 1];
  }

  /** The tokens the lexer returns from `lx` until it returns nothing. */
  function TokenizeFrom(lx: LexState): (r: seq<Token>)
    requires Valid(lx)
    ensures lx.depleted <==> r == []
    ensures r != [] ==> r[|r| - 1].kind == Eof
    ensures ProperBeforeLast(r)
    ensures CutFrom(r, lx.contents, lx.index)
    decreases if lx.depleted then 0 else 1, |lx.contents| - lx.index
  {
    var (t, next) := Next(lx);
    if t.None? then []
    else
      var rest := TokenizeFrom(next);
      ConsTokens(t.value, rest, lx.contents, lx.index, next.index);
      [t.value] + rest
  }

  /** Each token ends before the next one starts. */
  predicate Ordered(r: seq<Token>) {
    |r| <= 1 || (r[0].end <= r[1].start && Ordered(r[1..]))
  }

  /** The tokens come in the order of the text and do not overlap. */
  lemma {:induction false} TokensOrdered(lx: LexState)
    requires Valid(lx)
    ensures Ordered(TokenizeFrom(lx))
    decreases if lx.depleted then 0 else 1, |lx.contents| - lx.index
  {
    var (t, next) := Next(lx);
    if t.Some? {
      var rest := TokenizeFrom(next);
      TokensOrdered(next);
      var r := [t.value] + rest;
      assert TokenizeFrom(lx) == r;
      assert r[1..] == rest;
      if rest != [] {
        assert t.value.end <= next.index <= rest[0].start;
      }
    }
  }

  /** The tokens of a whole file: ordered, non-overlapping, non-empty, and
      ending with exactly one end-of-file token. */
  function Tokenize(contents: string): (r: seq<Token>)
    ensures |r| >= 1 && r[|r| - 1].kind == Eof
    ensures forall k :: 0 <= k < |r| - 1 ==> r[k].kind != Eof && r[k].start < r[k].end
    ensures forall k :: 0 <= k < |r| ==> Tokens.Valid(r[k]) && r[k].base == contents
    ensures Ordered(r)
  {
    TokensOrdered(Init(contents));
    TokenizeFrom(Init(contents))
  }
}
