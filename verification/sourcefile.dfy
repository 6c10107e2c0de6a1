/** Source positions: turning an offset into a file's contents into the
    1-based line and column a diagnostic shows. Offsets count characters
    from the start of the contents. */
module SourceFiles {
  import opened Wrappers

  /** `Substring.occurences(of:)`: how many characters of `s` equal `c`. */
  function Occurrences(s: string, c: char): (n: nat)
    ensures n == multiset(s)[c]
    ensures n <= |s|
  {
    if s == [] then 0
    else
      assert s == [s[0]] + s[1..];
      (if s[0] == c then 1 else 0) + Occurrences(s[1..], c)
  }

  /** `lastIndex(of:)`: the position of the last `c` in `s`, if any. */
  function LastIndexOf(s: string, c: char): (r: Option<nat>)
    ensures r.None? <==> c !in s
    ensures r.Some? ==> r.value < |s| && s[r.value] == c
    ensures r.Some? ==> forall k :: r.value < k < |s| ==> s[k] != c
  {
    if s == [] then None
    else if s[|s| - 1] == c then Some(|s| - 1)
    else
      var r := LastIndexOf(s[..|s| - 1], c);
      assert c in s[..|s| - 1] ==> c in s;
      assert c in s && s[|s| - 1] != c ==> c in s[..|s| - 1];
      r
  }

  /** The `caretPosition(at:)` computation as the source writes it: the
      column is the distance from the last newline before the location
      (or from the start), plus one. */
  function CaretPositionAsWritten(contents: string, i: nat): (r: (nat, nat))
    requires i <= |contents|
    ensures r.0 == multiset(contents[..i])['\n'] + 1
    ensures '\n' !in contents[..i] ==> r.1 == i + 1
    ensures i > 0 && contents[i - 1] == '\n' ==> r.1 == 2
  {
    var prefix := contents[..i];
    var lineIndex := Occurrences(prefix, '\n');
    var from := LastIndexOf(prefix, '\n').GetOr(0);
    (lineIndex + 1, i - from + 1)
  }

  /** The start of the line holding offset `i`: just after the last
      newline before it, or the start of the contents. */
  function LineStart(contents: string, i: nat): (b: nat)
    requires i <= |contents|
    ensures b <= i
    ensures forall k :: b <= k < i ==> contents[k] != '\n'
    ensures b == 0 || contents[b - 1] == '\n'
  {
    match LastIndexOf(contents[..i], '\n')
    case Some(k) => k + 1
    case None => 0
  }

  /** The 1-based line and column of offset `i`: the column counts the
      characters of the line before `i`, plus one. */
  function CaretPosition(contents: string, i: nat): (r: (nat, nat))
    requires i <= |contents|
    ensures r.0 == multiset(contents[..i])['\n'] + 1
    ensures 1 <= r.1 <= i + 1
    ensures forall k :: i - (r.1 - 1) <= k < i ==> contents[k] != '\n'
    ensures i - (r.1 - 1) == 0 || contents[i - r.1] == '\n'
  {
    (Occurrences(contents[..i], '\n') + 1, i - LineStart(contents, i) + 1)
  }

  /** The two computations agree on the first line and differ by exactly
      one on every later line. */
  lemma CaretColumnOffByOne(contents: string, i: nat)
    requires i <= |contents|
    ensures CaretPositionAsWritten(contents, i).0 == CaretPosition(contents, i).0
    ensures '\n' !in contents[..i] ==>
      CaretPositionAsWritten(contents, i).1 == CaretPosition(contents, i).1
    ensures '\n' in contents[..i] ==>
      CaretPositionAsWritten(contents, i).1 == CaretPosition(contents, i).1 + 1
  {
  }

  /** In "a\nb", the `b` is on line 2, column 1; the source reports
      column 2. */
  lemma CaretAfterNewline()
    ensures CaretPositionAsWritten("a\nb", 2) == (2, 2)
    ensures CaretPosition("a\nb", 2) == (2, 1)
  {
    var s := "a\nb";
    assert s[..2] == ['a', '\n'];
    assert multiset(s[..2])['\n'] == 1;
  }
}
