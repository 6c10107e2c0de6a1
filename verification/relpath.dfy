/** Relative paths, as the compiler driver prints file names: the path of
    a file relative to a directory, both given as lists of path components
    (Foundation's `pathComponents`, which begins with "/" for an absolute
    path). The result climbs out of the directory with ".." components
    down to the longest common prefix, then descends to the file. */
module RelativePaths {
  import opened Texts

  /** The length of the longest common prefix of two component lists. */
  function CommonPrefix(lhs: seq<string>, rhs: seq<string>): (i: nat)
    ensures i <= |lhs| && i <= |rhs|
    ensures lhs[..i] == rhs[..i]
    ensures i < |lhs| && i < |rhs| ==> lhs[i] != rhs[i]
    decreases |lhs|
  {
    if |lhs| == 0 || |rhs| == 0 || lhs[0] != rhs[0] then 0
    else
      var j := CommonPrefix(lhs[1..], rhs[1..]);
      assert lhs[..j + 1] == [lhs[0]] + lhs[1..][..j];
      assert rhs[..j + 1] == [rhs[0]] + rhs[1..][..j];
      1 + j
  }

  /** No longer prefix is common: `CommonPrefix` is the longest. */
  lemma CommonPrefixIsLongest(lhs: seq<string>, rhs: seq<string>, n: nat)
    requires n <= |lhs| && n <= |rhs| && lhs[..n] == rhs[..n]
    ensures n <= CommonPrefix(lhs, rhs)
  {
  }

  /** The loop of `path(relativeTo:)` that advances while the components
      agree. */
  method CommonPrefixLength(lhs: seq<string>, rhs: seq<string>) returns (i: nat)
    ensures i == CommonPrefix(lhs, rhs)
  {
    i := 0;
    while i < |lhs| && i < |rhs| && lhs[i] == rhs[i]
      invariant i <= |lhs| && i <= |rhs|
      invariant lhs[..i] == rhs[..i]
      decreases |lhs| - i
    {
      assert lhs[..i + 1] == lhs[..i] + [lhs[i]];
      assert rhs[..i + 1] == rhs[..i] + [rhs[i]];
      i := i + 1;
    }
    CommonPrefixIsLongest(lhs, rhs, i);
  }

  /** `n` copies of "..". */
  function Climb(n: nat): (r: seq<string>)
    ensures |r| == n && forall k | 0 <= k < n :: r[k] == ".."
  {
    if n == 0 then [] else [".."] + Climb(n - 1)
  }

  /** The components of the relative path: one ".." per directory
      component past the common prefix, then the file's remaining
      components. */
  function RelativeParts(lhs: seq<string>, rhs: seq<string>): (r: seq<string>)
    ensures var i := CommonPrefix(lhs, rhs);
      && |r| == |rhs| - i + |lhs| - i
      && (forall k | 0 <= k < |rhs| - i :: r[k] == "..")
      && r[|rhs| - i..] == lhs[i..]
  {
    var i := CommonPrefix(lhs, rhs);
    Climb(|rhs| - i) + lhs[i..]
  }

  /** `path(relativeTo:)`: the joined components, or "." when there are
      none. */
  function RelativePath(lhs: seq<string>, rhs: seq<string>): (s: string)
    ensures RelativeParts(lhs, rhs) == [] ==> s == "."
    ensures RelativeParts(lhs, rhs) != [] ==> s == Join(RelativeParts(lhs, rhs), "/")
  {
    var parts := RelativeParts(lhs, rhs);
    if parts == [] then "." else Join(parts, "/")
  }

  /** A path relative to itself is ".". */
  lemma SamePath(p: seq<string>)
    ensures RelativePath(p, p) == "."
  {
    assert p[..|p|] == p;
    CommonPrefixIsLongest(p, p, |p|);
  }

  /** A file inside the directory is reached by descending only. */
  lemma InsideDirectory(lhs: seq<string>, rhs: seq<string>)
    requires |rhs| < |lhs| && lhs[..|rhs|] == rhs
    ensures RelativeParts(lhs, rhs) == lhs[|rhs|..]
  {
    assert lhs[..|rhs|][..|rhs|] == rhs[..|rhs|];
    CommonPrefixIsLongest(lhs, rhs, |rhs|);
  }

  /** When the file's path is a strict prefix of the directory's, the
      result only climbs, once per extra directory component. */
  lemma StrictPrefixOnlyClimbs(lhs: seq<string>, rhs: seq<string>)
    requires |lhs| < |rhs| && rhs[..|lhs|] == lhs
    ensures RelativeParts(lhs, rhs) == Climb(|rhs| - |lhs|)
  {
    assert lhs[..|lhs|] == lhs;
    CommonPrefixIsLongest(lhs, rhs, |lhs|);
  }

  // ---------------------------------------------------------------------------
  // Resolving a relative path

  /** A plain component: not empty, not "." or "..", without a "/". */
  predicate Plain(c: string) {
    c != "" && c != "." && c != ".." && '/' !in c
  }

  /** Resolving joined components follows them, unless they are the single
      component ".". */
  lemma ResolveJoined(dir: seq<string>, parts: seq<string>)
    requires |parts| >= 1 && parts[0] != "."
    requires forall k | 0 <= k < |parts| :: '/' !in parts[k]
    ensures Resolve(dir, Join(parts, "/")) == Follow(dir, parts)
  {
    SplitJoin(parts, '/');
  }

  /** Follows relative components from a directory: ".." goes to the
      parent, anything else into a child. */
  function Follow(dir: seq<string>, parts: seq<string>): seq<string>
    decreases |parts|
  {
    if |parts| == 0 then dir
    else if parts[0] == ".." then Follow(if |dir| > 0 then dir[..|dir| - 1] else dir, parts[1..])
    else Follow(dir + [parts[0]], parts[1..])
  }

  /** Resolves a relative path against a directory. */
  function Resolve(dir: seq<string>, rel: string): seq<string> {
    if rel == "." then dir else Follow(dir, Split(rel, '/'))
  }

  lemma {:induction false} FollowClimb(dir: seq<string>, n: nat, rest: seq<string>)
    requires n <= |dir|
    ensures Follow(dir, Climb(n) + rest) == Follow(dir[..|dir| - n], rest)
    decreases n
  {
    if n > 0 {
      assert (Climb(n) + rest)[1..] == Climb(n - 1) + rest;
      FollowClimb(dir[..|dir| - 1], n - 1, rest);
      assert dir[..|dir| - 1][..|dir| - 1 - (n - 1)] == dir[..|dir| - n];
    } else {
      assert Climb(0) + rest == rest;
      assert dir[..|dir|] == dir;
    }
  }

  lemma {:induction false} FollowDescend(dir: seq<string>, parts: seq<string>)
    requires forall k | 0 <= k < |parts| :: parts[k] != ".."
    ensures Follow(dir, parts) == dir + parts
    decreases |parts|
  {
    if |parts| > 0 {
      FollowDescend(dir + [parts[0]], parts[1..]);
      assert dir + [parts[0]] + parts[1..] == dir + parts;
    } else {
      assert dir + parts == dir;
    }
  }

  /** Round trip: resolving the relative path against the directory gives
      back the file's path, when the components after the first are plain
      and both paths start with the same root component. */
  lemma RelativePathResolves(lhs: seq<string>, rhs: seq<string>)
    requires |lhs| >= 1 && |rhs| >= 1 && lhs[0] == rhs[0]
    requires forall k | 1 <= k < |lhs| :: Plain(lhs[k])
    ensures Resolve(rhs, RelativePath(lhs, rhs)) == lhs
  {
    var i := CommonPrefix(lhs, rhs);
    assert lhs[..1] == rhs[..1];
    CommonPrefixIsLongest(lhs, rhs, 1);
    var parts := RelativeParts(lhs, rhs);
    var rest := lhs[i..];
    assert parts == Climb(|rhs| - i) + rest;
    FollowClimb(rhs, |rhs| - i, rest);
    assert rhs[..|rhs| - (|rhs| - i)] == lhs[..i];
    FollowDescend(lhs[..i], rest);
    assert lhs[..i] + rest == lhs;
    if parts == [] {
      assert Follow(rhs, parts) == rhs;
      assert |rhs| == i && |lhs| == i;
      assert rhs == rhs[..i];
      assert lhs == lhs[..i];
    } else {
      forall k | 0 <= k < |parts| ensures '/' !in parts[k] {
        if k >= |rhs| - i {
          assert parts[k] == lhs[i + k - (|rhs| - i)];
        }
      }
      assert parts[0] == ".." || parts[0] == lhs[i];
      ResolveJoined(rhs, parts);
    }
  }
}
