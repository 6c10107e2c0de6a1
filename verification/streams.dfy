/** The stream-processing helpers shared by the lexer and the parser: a
    cursor over a finite input that can look ahead without moving and
    consume while moving. */
module Streams {
  import opened Wrappers

  /** An input and the position from which the next element is read. */
  datatype Processor<T> = Processor(input: seq<T>, index: nat)

  predicate Valid<T>(p: Processor<T>) {
    p.index <= |p.input|
  }

  /** The elements not consumed yet. */
  function Rest<T>(p: Processor<T>): seq<T>
    requires Valid(p)
  {
    p.input[p.index..]
  }

  function Min(a: nat, b: nat): nat {
    if a <= b then a else b
  }

  // ---------------------------------------------------------------------------
  // Runs of elements satisfying a predicate

  /** The end of the longest run of elements of `s`, from position `i`,
      that satisfy `pred`. */
  function RunEnd<T>(s: seq<T>, i: nat, pred: T -> bool): (j: nat)
    requires i <= |s|
    ensures i <= j <= |s|
    ensures forall k :: i <= k < j ==> pred(s[k])
    ensures j == |s| || !pred(s[j])
    decreases |s| - i
  {
    if i < |s| && pred(s[i]) then RunEnd(s, i + 1, pred) else i
  }

  /** A run end is determined by its two defining properties: every element
      before it satisfies the predicate and the one at it does not. */
  lemma {:induction false} RunEndUnique<T>(s: seq<T>, i: nat, pred: T -> bool, j: nat)
    requires i <= j <= |s|
    requires forall k :: i <= k < j ==> pred(s[k])
    requires j == |s| || !pred(s[j])
    ensures RunEnd(s, i, pred) == j
    decreases j - i
  {
    if i < j {
      RunEndUnique(s, i + 1, pred, j);
    }
  }

  /** Swift's `prefix(while:)`: the longest prefix whose elements all
      satisfy `pred`. */
  function PrefixWhile<T>(s: seq<T>, pred: T -> bool): (r: seq<T>)
    ensures |r| <= |s| && r == s[..|r|]
    ensures forall k :: 0 <= k < |r| ==> pred(r[k])
    ensures |r| == |s| || !pred(s[|r|])
  {
    if |s| > 0 && pred(s[0]) then [s[0]] + PrefixWhile(s[1..], pred) else []
  }

  // ---------------------------------------------------------------------------
  // Looking ahead

  /** `peek()`: the next element, or nothing at the end of the input. */
  function Peek<T>(p: Processor<T>): (r: Option<T>)
    requires Valid(p)
    ensures r.None? <==> Rest(p) == []
    ensures r.Some? ==> r.value == Rest(p)[0]
  {
    if p.index < |p.input| then Some(p.input[p.index]) else None
  }

  /** `take(n:)`: consumes up to `n` elements. */
  function TakeN<T>(p: Processor<T>, n: nat): (r: (seq<T>, Processor<T>))
    requires Valid(p)
    ensures Valid(r.1) && r.1.input == p.input
    ensures |r.0| == Min(n, |Rest(p)|)
    ensures r.0 == Rest(p)[..|r.0|]
    ensures r.1.index == p.index + |r.0|
  {
    var k := Min(n, |p.input| - p.index);
    (p.input[p.index..p.index + k], Processor(p.input, p.index + k))
  }

  /** `peek(n:)`: what `take(n:)` would return, without moving. */
  function PeekN<T>(p: Processor<T>, n: nat): (r: seq<T>)
    requires Valid(p)
    ensures r == TakeN(p, n).0
  {
    Rest(p)[..Min(n, |Rest(p)|)]
  }

  /** `peek(while:)`: the longest run ahead satisfying `pred`. */
  function PeekWhile<T>(p: Processor<T>, pred: T -> bool): (r: seq<T>)
    requires Valid(p)
    ensures r == p.input[p.index..RunEnd(p.input, p.index, pred)]
  {
    var r := PrefixWhile(Rest(p), pred);
    RunEndUnique(p.input, p.index, pred, p.index + |r|);
    r
  }

  // ---------------------------------------------------------------------------
  // Consuming

  /** `take()`: consumes the next element if there is one; at the end of
      the input nothing moves. */
  method Take<T>(p: Processor<T>) returns (e: Option<T>, q: Processor<T>)
    requires Valid(p)
    ensures Valid(q) && q.input == p.input
    ensures e == Peek(p)
    ensures e.Some? ==> q.index == p.index + 1
    ensures e.None? ==> q == p
  {
    if p.index < |p.input| {
      e := Some(p.input[p.index]);
      q := Processor(p.input, p.index + 1);
    } else {
      e := None;
      q := p;
    }
  }

  /** `take(while:)`: consumes the longest run ahead satisfying `pred`; it
      returns the same elements `peek(while:)` shows. */
  method TakeWhile<T>(p: Processor<T>, pred: T -> bool) returns (xs: seq<T>, q: Processor<T>)
    requires Valid(p)
    ensures Valid(q) && q.input == p.input
    ensures q.index == RunEnd(p.input, p.index, pred)
    ensures xs == PeekWhile(p, pred)
  {
    var end := p.index;
    while end < |p.input| && pred(p.input[end])
      invariant p.index <= end <= |p.input|
      invariant forall k :: p.index <= k < end ==> pred(p.input[k])
      decreases |p.input| - end
    {
      end := end + 1;
    }
    RunEndUnique(p.input, p.index, pred, end);
    xs := p.input[p.index..end];
    q := Processor(p.input, end);
  }
}
