/** Iterator combinators. An iterator is a state together with a step
    function returning the next element (or nothing) and the next state, the
    shape of Swift's `IteratorProtocol.next()`. */
module Iterators {
  import opened Wrappers

  type Step<!S, T> = S -> (Option<T>, S)

  /** The results of `n` successive calls of `next()` from state `s`. */
  function Run<S, T>(step: Step<S, T>, s: S, n: nat): (r: seq<Option<T>>)
    ensures |r| == n
    ensures n > 0 ==> r[0] == step(s).0
  {
    if n == 0 then [] else [step(s).0] + Run(step, step(s).1, n - 1)
  }

  /** The state after `n` calls of `next()`. */
  function After<S, T>(step: Step<S, T>, s: S, n: nat): S {
    if n == 0 then s else After(step, step(s).1, n - 1)
  }

  function MapOption<T, U>(o: Option<T>, f: T -> U): (r: Option<U>)
    ensures r.None? <==> o.None?
    ensures r.Some? ==> r.value == f(o.value)
  {
    match o
    case Some(v) => Some(f(v))
    case None => None
  }

  /** The elements of `xs`, each wrapped. */
  function Somes<T>(xs: seq<T>): (r: seq<Option<T>>)
    ensures |r| == |xs|
    ensures forall i :: 0 <= i < |xs| ==> r[i] == Some(xs[i])
  {
    if xs == [] then [] else [Some(xs[0])] + Somes(xs[1..])
  }

  /** `n` results of an exhausted iterator. */
  function Nones<T>(n: nat): (r: seq<Option<T>>)
    ensures |r| == n
    ensures forall i :: 0 <= i < n ==> r[i].None?
  {
    if n == 0 then [] else [None] + Nones(n - 1)
  }

  // ---------------------------------------------------------------------------
  // TransformIterator

  /** The step of `base.map(f)`: one step of the base, transformed. */
  function Mapped<S, T, U>(base: Step<S, T>, f: T -> U): Step<S, U> {
    s => (MapOption(base(s).0, f), base(s).1)
  }

  /** A mapped iterator yields `f(x)` for each element `x` of its base, in
      order, and ends exactly when the base does. */
  lemma {:induction false} MappedRun<S, T, U>(base: Step<S, T>, f: T -> U, s: S, n: nat)
    ensures forall i :: 0 <= i < n ==> Run(Mapped(base, f), s, n)[i] == MapOption(Run(base, s, n)[i], f)
    ensures forall i :: 0 <= i < n ==> (Run(Mapped(base, f), s, n)[i].None? <==> Run(base, s, n)[i].None?)
  {
    if n > 0 {
      MappedRun(base, f, base(s).1, n - 1);
      assert Mapped(base, f)(s).1 == base(s).1;
    }
  }

  // ---------------------------------------------------------------------------
  // ConcatenatedIterator

  /** The step of `fst.concatenated(with: snd)`: `fst.next() ?? snd.next()`.
      The first iterator is advanced on every call, even once exhausted. */
  function Concatenated<S1, S2, T>(fst: Step<S1, T>, snd: Step<S2, T>): Step<(S1, S2), T> {
    (st: (S1, S2)) =>
      var (o1, s1) := fst(st.0);
      if o1.Some? then (o1, (s1, st.1))
      else (snd(st.1).0, (s1, snd(st.1).1))
  }

  /** While the first iterator still yields, the concatenation yields the
      same elements and leaves the second untouched. */
  lemma {:induction false} ConcatenatedFirstPhase<S1, S2, T>(
    fst: Step<S1, T>, snd: Step<S2, T>, s1: S1, s2: S2, xs: seq<T>)
    requires Run(fst, s1, |xs|) == Somes(xs)
    ensures Run(Concatenated(fst, snd), (s1, s2), |xs|) == Somes(xs)
    ensures After(Concatenated(fst, snd), (s1, s2), |xs|) == (After(fst, s1, |xs|), s2)
  {
    if |xs| > 0 {
      var c := Concatenated(fst, snd);
      assert fst(s1).0 == Some(xs[0]);
      assert c((s1, s2)) == (Some(xs[0]), (fst(s1).1, s2));
      assert Run(fst, fst(s1).1, |xs| - 1) == Run(fst, s1, |xs|)[1..];
      assert Somes(xs)[1..] == Somes(xs[1..]);
      ConcatenatedFirstPhase(fst, snd, fst(s1).1, s2, xs[1..]);
    }
  }

  /** Once the first iterator stays exhausted, the concatenation yields
      what the second does. */
  lemma {:induction false} ConcatenatedSecondPhase<S1, S2, T>(
    fst: Step<S1, T>, snd: Step<S2, T>, s1: S1, s2: S2, n: nat)
    requires Run(fst, s1, n) == Nones(n)
    ensures Run(Concatenated(fst, snd), (s1, s2), n) == Run(snd, s2, n)
  {
    if n > 0 {
      var c := Concatenated(fst, snd);
      assert fst(s1).0.None?;
      assert c((s1, s2)) == (snd(s2).0, (fst(s1).1, snd(s2).1));
      assert Run(fst, fst(s1).1, n - 1) == Run(fst, s1, n)[1..];
      assert Nones<T>(n)[1..] == Nones(n - 1);
      ConcatenatedSecondPhase(fst, snd, fst(s1).1, snd(s2).1, n - 1);
    }
  }

  /** For a first iterator that yields `xs` and then stays exhausted, the
      concatenation yields every element of `xs` before those of the second,
      and ends only when the second ends. */
  lemma {:induction false} ConcatenatedRun<S1, S2, T>(
    fst: Step<S1, T>, snd: Step<S2, T>, s1: S1, s2: S2, xs: seq<T>, ys: seq<T>)
    requires Run(fst, s1, |xs| + |ys| + 1) == Somes(xs) + Nones(|ys| + 1)
    requires Run(snd, s2, |ys| + 1) == Somes(ys) + [None]
    ensures Run(Concatenated(fst, snd), (s1, s2), |xs| + |ys| + 1) == Somes(xs + ys) + [None]
  {
    var t1 := After(fst, s1, |xs|);
    var n := |ys| + 1;
    RunSplit(fst, s1, |xs|, n);
    SplitHalves(Run(fst, s1, |xs|), Run(fst, t1, n), Somes(xs), Nones(n));
    ConcatenatedFirstPhase(fst, snd, s1, s2, xs);
    ConcatenatedSecondPhase(fst, snd, t1, s2, n);
    RunSplit(Concatenated(fst, snd), (s1, s2), |xs|, n);
    SomesAppend(xs, ys);
  }

  lemma SplitHalves<T>(a: seq<T>, b: seq<T>, c: seq<T>, d: seq<T>)
    requires a + b == c + d && |a| == |c|
    ensures a == c && b == d
  {
    assert a == (a + b)[..|a|] && c == (c + d)[..|c|];
    assert b == (a + b)[|a|..] && d == (c + d)[|c|..];
  }

  lemma SomesAppend<T>(xs: seq<T>, ys: seq<T>)
    ensures Somes(xs) + (Somes(ys) + [None]) == Somes(xs + ys) + [None]
  {
  }

  /** Running `m + n` steps is running `m` steps, then `n` from where those
      left off. */
  lemma {:induction false} RunSplit<S, T>(step: Step<S, T>, s: S, m: nat, n: nat)
    ensures Run(step, s, m + n) == Run(step, s, m) + Run(step, After(step, s, m), n)
  {
    if m > 0 {
      RunSplit(step, step(s).1, m - 1, n);
      assert Run(step, s, m + n) == [step(s).0] + Run(step, step(s).1, m - 1 + n);
    }
  }
}
