/** Tokens: a kind and a slice of the source text. A token keeps the whole
    contents it was cut from (`base`) and the bounds of its text, so that
    its position in the file can be recovered. */
module Tokens {
  import opened Characters
  import Streams
  import SourceFiles

  datatype Kind =
    | Name | Qualifier | Junk | Void | TrueKeyword | FalseKeyword | Integer
    | FuncKeyword | Salloc | Halloc | Call | Addr | Free | Store | Load
    | ReturnKeyword | IfKeyword | ElseKeyword | WhileKeyword
    | And | Plus | Universal | Existential | Arrow | Dot | Equal | Colon | Comma
    | Exclamation | Question | LeftParen | RightParen | LeftBracket | RightBracket
    | LeftBrace | RightBrace | Newline | Eof | Unknown
    /** The `at` of `x = salloc T at l`, which the parser expects; the lexer
        never produces it. */
    | At

  datatype Token = Token(kind: Kind, base: string, start: nat, end: nat)

  predicate Valid(t: Token) {
    t.start <= t.end <= |t.base|
  }

  /** The token's text. */
  function Value(t: Token): string
    requires Valid(t)
  {
    t.base[t.start..t.end]
  }

  /** `range`: from the location of the first character of the text to the
      location just past its last. */
  function Range(t: Token): (r: (nat, nat))
    requires Valid(t)
    ensures r.0 <= r.1 <= |t.base|
    ensures t.base[r.0..r.1] == Value(t)
    ensures r.1 - r.0 == |Value(t)|
  {
    (t.start, t.end)
  }

  // ---------------------------------------------------------------------------
  // Lines

  /** The number of newline characters in `s`. */
  function NewlineCount(s: string): (n: nat)
    ensures n <= |s|
  {
    if s == [] then 0 else (if IsNewline(s[|s| - 1]) then 1 else 0) + NewlineCount(s[..|s| - 1])
  }

  lemma {:induction false} NewlineCountAppend(a: string, b: string)
    ensures NewlineCount(a + b) == NewlineCount(a) + NewlineCount(b)
    decreases |b|
  {
    if b != [] {
      assert (a + b)[..|a + b| - 1] == a + b[..|b| - 1];
      NewlineCountAppend(a, b[..|b| - 1]);
    } else {
      assert a + b == a;
    }
  }

  /** `lines`: the 0-based range of lines the token spans. The lower bound
      counts the newlines before the token, the upper bound those before
      its end. */
  function Lines(t: Token): (r: (nat, nat))
    requires Valid(t)
    ensures r.0 == NewlineCount(t.base[..t.start])
    ensures r.1 == NewlineCount(t.base[..t.end])
    ensures r.0 <= r.1
  {
    var lower := NewlineCount(t.base[..t.start]);
    assert t.base[..t.end] == t.base[..t.start] + Value(t);
    NewlineCountAppend(t.base[..t.start], Value(t));
    (lower, lower + NewlineCount(Value(t)))
  }

  // ---------------------------------------------------------------------------
  // Start position

  /** The bounds of the non-empty pieces of `s[i..]` between line feeds,
      which is what `split(separator: "\n")` returns: empty pieces are
      omitted. */
  function Segments(s: string, i: nat): (r: seq<(nat, nat)>)
    requires i <= |s|
    ensures forall k :: 0 <= k < |r| ==> i <= r[k].0 < r[k].1 <= |s|
    ensures forall k :: 0 <= k < |r| ==> r[k].1 == |s| || s[r[k].1] == '\n'
    ensures forall k :: 0 <= k < |r| ==> s[r[k].1 - 1] != '\n'
    decreases |s| - i
  {
    if i == |s| then []
    else if s[i] == '\n' then Segments(s, i + 1)
    else
      var j := Streams.RunEnd(s, i, NotLineFeed);
      [(i, j)] + Segments(s, j)
  }

  /** `start` as the source computes it: with no non-empty segment before
      the token, (1, 1); otherwise the number of such segments, and one
      plus the distance from the last segment's start. */
  function StartAsWritten(t: Token): (r: (nat, nat))
    requires Valid(t)
  {
    var lines := Segments(t.base[..t.start], 0);
    if lines == [] then (1, 1)
    else (|lines|, t.start - lines[|lines| - 1].0 + 1)
  }

  /** The 1-based line and column at which the token starts. */
  function Start(t: Token): (r: (nat, nat))
    requires Valid(t)
    ensures r == SourceFiles.CaretPosition(t.base, t.start)
    ensures r.0 >= 1 && r.1 >= 1
  {
    SourceFiles.CaretPosition(t.base, t.start)
  }

  /** On the first line both computations give line 1 and the offset plus
      one as column. */
  lemma StartOnFirstLine(t: Token)
    requires Valid(t)
    requires '\n' !in t.base[..t.start]
    ensures StartAsWritten(t) == Start(t) == (1, t.start + 1)
  {
    var p := t.base[..t.start];
    if t.start > 0 {
      assert forall k :: 0 <= k < |p| ==> NotLineFeed(p[k]);
      Streams.RunEndUnique(p, 0, NotLineFeed, |p|);
      assert Segments(p, |p|) == [];
      assert Segments(p, 0) == [(0, |p|)];
    } else {
      assert Segments(p, 0) == [];
    }
    assert multiset(p)['\n'] == 0;
  }

  /** A token that starts a line after some text gets a column of at least
      2 from the source's computation, while it is in column 1. */
  lemma LineStartColumnAsWritten(t: Token)
    requires Valid(t)
    requires t.start > 0 && t.base[t.start - 1] == '\n'
    requires Segments(t.base[..t.start], 0) != []
    ensures StartAsWritten(t).1 >= 2
    ensures Start(t).1 == 1
  {
    var lines := Segments(t.base[..t.start], 0);
    var last := lines[|lines| - 1];
    assert last.1 < t.start;
  }

  lemma SegmentsOfFirstLine()
    ensures Segments(['a', '\n'], 0) == [(0, 1)]
  {
    var p := ['a', '\n'];
    Streams.RunEndUnique(p, 0, NotLineFeed, 1);
    assert Segments(p, 2) == [];
    assert Segments(p, 1) == [];
  }

  /** In "a\nb", the token `b` starts at line 2, column 1; the source
      reports line 1, column 3. */
  lemma StartAfterNewline()
    ensures StartAsWritten(Token(Name, "a\nb", 2, 3)) == (1, 3)
    ensures Start(Token(Name, "a\nb", 2, 3)) == (2, 1)
  {
    var t := Token(Name, "a\nb", 2, 3);
    assert t.base[..2] == ['a', '\n'];
    SegmentsOfFirstLine();
    SourceFiles.CaretAfterNewline();
  }
}
