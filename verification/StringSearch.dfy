/** StringSlice::find: Knuth-Morris-Pratt search (potato/utils/StringSlice.h). */
module StringSearch {
  import opened Endian

  const NPOS: nat := TWO_64 - 1

  /** A slice is shorter than npos, as every object in memory is. */
  type Slice = s: seq<byte> | |s| < NPOS

  /** Subtraction and addition of size_t. */
  function SizeSub(a: uint64, b: uint64): uint64 { if a >= b then a - b else a - b + TWO_64 }

  function SizeAdd(a: uint64, b: uint64): uint64 { if a + b < TWO_64 then a + b else a + b - TWO_64 }

  predicate Occurs(s: seq<byte>, p: seq<byte>, at: nat) {
    at + |p| <= |s| && s[at..at + |p|] == p
  }

  // ---------------------------------------------------------------------------
  // Borders
  // ---------------------------------------------------------------------------

  /** The first k bytes of p are also its last k bytes, and k is not all of p. */
  predicate Border(p: seq<byte>, k: nat) {
    k < |p| && p[..k] == p[|p| - k..]
  }

  ghost predicate LongestBorder(p: seq<byte>, k: nat) {
    Border(p, k) && forall b: nat | Border(p, b) :: b <= k
  }

  ghost predicate Entry(p: seq<byte>, i: nat, k: nat)
    requires i < |p|
  {
    LongestBorder(p[..i + 1], k)
  }

  /** The first n entries of the failure table of p: entry i is the longest border of p[..i + 1]. */
  ghost predicate TableUpTo(p: seq<byte>, next: seq<nat>, n: nat) {
    n <= |next| == |p| && forall i: nat | i < n :: Entry(p, i, next[i])
  }

  /** The exact failure table of p. */
  ghost predicate IsTable(p: seq<byte>, next: seq<nat>) { TableUpTo(p, next, |p|) }

  /** The first k bytes of p are the k bytes of t before position i. */
  predicate Match(t: seq<byte>, i: nat, p: seq<byte>, k: nat) {
    k <= i <= |t| && k <= |p| && t[i - k..i] == p[..k]
  }

  lemma MatchStep(t: seq<byte>, i: nat, p: seq<byte>, k: nat)
    requires i < |t| && k < |p|
    ensures Match(t, i + 1, p, k + 1) <==> Match(t, i, p, k) && p[k] == t[i]
  {}

  /** A shorter match inside a longer one is a border of the longer one, and conversely. */
  lemma MatchNests(t: seq<byte>, i: nat, p: seq<byte>, j: nat, k: nat)
    requires Match(t, i, p, j) && k < j
    ensures Match(t, i, p, k) <==> Border(p[..j], k)
  {}

  /** Borders of p are the matches of p against itself. */
  lemma BorderIsMatch(p: seq<byte>, i: nat, k: nat)
    requires k < i <= |p|
    ensures Border(p[..i], k) <==> Match(p, i, p, k)
  {}

  /** Following the table from j lists every border of p[..j], longest first. */
  ghost function Chain(p: seq<byte>, next: seq<nat>, j: nat): seq<nat>
    requires IsTable(p, next) && j <= |p|
    decreases j
  {
    if j == 0 then []
    else
      assert Entry(p, j - 1, next[j - 1]);
      [next[j - 1]] + Chain(p, next, next[j - 1])
  }

  lemma {:induction false} ChainIsAllBorders(p: seq<byte>, next: seq<nat>, j: nat)
    requires IsTable(p, next) && j <= |p|
    ensures forall b: nat :: b in Chain(p, next, j) <==> Border(p[..j], b)
    ensures forall x, y | 0 <= x < y < |Chain(p, next, j)| :: Chain(p, next, j)[x] > Chain(p, next, j)[y]
    decreases j
  {
    if j > 0 {
      var k := next[j - 1];
      assert Entry(p, j - 1, k);
      ChainIsAllBorders(p, next, k);
      forall b: nat | b < k
        ensures Border(p[..j], b) <==> Border(p[..k], b)
      {
        BorderIsMatch(p, j, b);
        BorderIsMatch(p, j, k);
        MatchNests(p, j, p, k, b);
      }
      var rest := Chain(p, next, k);
      forall y | 0 <= y < |rest|
        ensures rest[y] < k
      {
        assert rest[y] in rest;
      }
    }
  }

  // ---------------------------------------------------------------------------
  // The inner step of both loops
  // ---------------------------------------------------------------------------

  /** A match of k bytes before i that goes on over t[i]. */
  predicate Extends(t: seq<byte>, i: nat, p: seq<byte>, k: nat) { Match(t, i + 1, p, k + 1) }

  /** Every way to extend a match over t[i] starts from a match of at most j bytes. */
  ghost predicate NoneSkipped(t: seq<byte>, i: nat, p: seq<byte>, limit: nat, j: nat) {
    forall k: nat | k < limit && Extends(t, i, p, k) :: k <= j
  }

  /** j is the longest match before i shorter than limit. */
  ghost predicate Best(t: seq<byte>, i: nat, p: seq<byte>, limit: nat, j: nat) {
    Match(t, i, p, j) && forall k: nat | k < limit && Match(t, i, p, k) :: k <= j
  }

  /** Falling back from j to the longest border of p[..j] skips no candidate when p[j] does not fit t[i]. */
  lemma Fallback(t: seq<byte>, i: nat, p: seq<byte>, limit: nat, j: nat, b: nat)
    requires i < |t| && 0 < j < limit <= |p| && Match(t, i, p, j) && p[j] != t[i]
    requires LongestBorder(p[..j], b)
    requires NoneSkipped(t, i, p, limit, j)
    ensures b < j && Match(t, i, p, b) && NoneSkipped(t, i, p, limit, b)
  {
    MatchNests(t, i, p, j, b);
    forall k: nat | k < limit && Extends(t, i, p, k)
      ensures k <= b
    {
      MatchStep(t, i, p, k);
      if k < j { MatchNests(t, i, p, j, k); }
    }
  }

  /** What is known before the inner loop. */
  lemma Begin(t: seq<byte>, i: nat, p: seq<byte>, limit: nat, j: nat)
    requires i < |t| && limit <= |p| && Best(t, i, p, limit, j)
    ensures NoneSkipped(t, i, p, limit, j)
  {
    forall k: nat | k < limit && Extends(t, i, p, k)
      ensures k <= j
    {
      MatchStep(t, i, p, k);
    }
  }

  /** Where the inner loop stops, the longest match before i + 1 is known. */
  lemma Settle(t: seq<byte>, i: nat, p: seq<byte>, limit: nat, j: nat)
    requires i < |t| && j < limit <= |p| && Match(t, i, p, j) && NoneSkipped(t, i, p, limit, j)
    requires j == 0 || p[j] == t[i]
    ensures Best(t, i + 1, p, limit + 1, if p[j] == t[i] then j + 1 else j)
  {
    MatchStep(t, i, p, j);
    var i' := i + 1;
    forall k: nat | k < limit + 1 && Match(t, i', p, k)
      ensures k <= if p[j] == t[i] then j + 1 else j
    {
      if k > 0 {
        MatchStep(t, i, p, k - 1);
        assert Extends(t, i, p, k - 1);
      }
    }
  }

  /** The longest proper match of p against itself is its longest border. */
  lemma BestIsLongestBorder(p: seq<byte>, i: nat, j: nat)
    requires 0 < i <= |p| && j < i && Best(p, i, p, i, j)
    ensures LongestBorder(p[..i], j)
  {
    BorderIsMatch(p, i, j);
    forall b: nat | Border(p[..i], b)
      ensures b <= j
    {
      BorderIsMatch(p, i, b);
    }
  }

  /** The loop both passes contain: while (j > 0 && p[j] != t[i]) j = next[j - 1].
      A fallback is one turn of it, a comparison one comparison of bytes. */
  method FallBack(t: seq<byte>, i: nat, p: seq<byte>, next: array<nat>, ghost limit: nat, start: nat)
    returns (j: nat, ghost fallbacks: nat, ghost comparisons: nat)
    requires i < |t| && start < limit <= |p| && TableUpTo(p, next[..], start)
    requires Match(t, i, p, start) && NoneSkipped(t, i, p, limit, start)
    ensures j <= start && Match(t, i, p, j) && NoneSkipped(t, i, p, limit, j)
    ensures j == 0 || p[j] == t[i]
    ensures fallbacks + j <= start && comparisons <= fallbacks + 1
  {
    j, fallbacks, comparisons := start, 0, 0;
    while j > 0 && p[j] != t[i]
      invariant j <= start && Match(t, i, p, j) && NoneSkipped(t, i, p, limit, j)
      invariant fallbacks + j <= start && comparisons == fallbacks
      decreases j
    {
      assert next[..][j - 1] == next[j - 1] && Entry(p, j - 1, next[j - 1]);
      Fallback(t, i, p, limit, j, next[j - 1]);
      j := next[j - 1];
      fallbacks, comparisons := fallbacks + 1, comparisons + 1;
    }
    comparisons := if j > 0 then comparisons + 1 else comparisons;
  }

  lemma FirstEntry(p: seq<byte>)
    requires |p| > 0
    ensures Entry(p, 0, 0) && (|p| > 1 ==> Best(p, 1, p, 1, 0))
  {}

  /** Builds the failure table. */
  method FailureTable(p: Slice) returns (next: array<nat>, ghost fallbacks: nat, ghost comparisons: nat)
    requires |p| > 0
    ensures fresh(next) && IsTable(p, next[..])
    ensures fallbacks <= |p| - 1
    ensures comparisons <= 3 * (|p| - 1)
  {
    next := new nat[|p|](i => 0);
    fallbacks, comparisons := 0, 0;
    var j := 0;
    var i := 1;
    FirstEntry(p);
    while i < |p|
      invariant 1 <= i <= |p| && j < i && next.Length == |p|
      invariant TableUpTo(p, next[..], i)
      invariant i < |p| ==> Best(p, i, p, i, j)
      invariant fallbacks + j <= i - 1
      invariant comparisons <= fallbacks + 2 * (i - 1)
    {
      Begin(p, i, p, i, j);
      ghost var falls, tests;
      j, falls, tests := FallBack(p, i, p, next, i, j);
      fallbacks, comparisons := fallbacks + falls, comparisons + tests + 1;
      Settle(p, i, p, i, j);
      if p[i] == p[j] {
        j := j + 1;
      }
      BestIsLongestBorder(p, i + 1, j);
      next[i] := j;
      assert Entry(p, i, j);
      i := i + 1;
    }
  }

  // ---------------------------------------------------------------------------
  // The scan
  // ---------------------------------------------------------------------------

  /** The returned index in size_t arithmetic: i - j wraps around for a match at 0, and + 1 undoes it. */
  lemma ReturnedIndex(i: nat, j: nat)
    requires j <= i + 1 < NPOS
    ensures SizeAdd(SizeSub(i, j), 1) == i + 1 - j
  {}

  /** No occurrence ends among the first i bytes. */
  ghost predicate NoneBefore(t: seq<byte>, i: nat, p: seq<byte>) {
    forall at: nat | Occurs(t, p, at) :: at + |p| > i
  }

  lemma OccursIsMatch(t: seq<byte>, p: seq<byte>, at: nat)
    ensures Occurs(t, p, at) <==> Match(t, at + |p|, p, |p|)
  {}

  /** After the inner loop at i: either p ends at i + 1, and that is its first occurrence, or the scan goes on. */
  lemma ScanStep(t: seq<byte>, i: nat, p: seq<byte>, j: nat)
    requires i < |t| && |p| > 0 && NoneBefore(t, i, p) && Best(t, i + 1, p, |p| + 1, j)
    ensures j == |p| ==> i + 1 >= |p| && Occurs(t, p, i + 1 - |p|)
    ensures j < |p| ==> NoneBefore(t, i + 1, p) && Best(t, i + 1, p, |p|, j)
  {
    if j == |p| {
      OccursIsMatch(t, p, i + 1 - |p|);
    } else {
      forall at: nat | Occurs(t, p, at)
        ensures at + |p| > i + 1
      {
        OccursIsMatch(t, p, at);
      }
    }
  }

  /** find(const StringSlice&): the least index at which p occurs, npos when it occurs nowhere.
      An empty needle or haystack gives npos. */
  method Find(t: Slice, p: Slice) returns (at: uint64, ghost fallbacks: nat, ghost comparisons: nat)
    ensures p == [] || t == [] ==> at == NPOS
    ensures p != [] && at == NPOS ==> forall k: nat :: !Occurs(t, p, k)
    ensures at != NPOS ==> p != [] && Occurs(t, p, at) && forall k: nat | k < at :: !Occurs(t, p, k)
    ensures p != [] ==> fallbacks <= |p| - 1 + |t|
    ensures p != [] ==> comparisons <= 3 * (|p| - 1) + 3 * |t|
  {
    fallbacks, comparisons := 0, 0;
    if |p| == 0 || |t| == 0 {
      return NPOS, 0, 0;
    }
    var next;
    next, fallbacks, comparisons := FailureTable(p);
    ghost var built, compared := fallbacks, comparisons;
    var j := 0;
    var i := 0;
    while i < |t|
      invariant 0 <= i <= |t| && j < |p| && Best(t, i, p, |p|, j) && NoneBefore(t, i, p)
      invariant IsTable(p, next[..])
      invariant fallbacks - built + j <= i
      invariant comparisons - compared <= fallbacks - built + 2 * i
    {
      Begin(t, i, p, |p|, j);
      ghost var falls, tests;
      j, falls, tests := FallBack(t, i, p, next, |p|, j);
      fallbacks, comparisons := fallbacks + falls, comparisons + tests + 1;
      Settle(t, i, p, |p|, j);
      ScanStep(t, i, p, if p[j] == t[i] then j + 1 else j);
      if p[j] == t[i] {
        j := j + 1;
        if j >= |p| {
          ReturnedIndex(i, j);
          return SizeAdd(SizeSub(i, j), 1), fallbacks, comparisons;
        }
      }
      i := i + 1;
    }
    return NPOS, fallbacks, comparisons;
  }

  /** find(char). */
  method FindChar(t: Slice, c: byte) returns (at: uint64)
    ensures at == NPOS ==> c !in t
    ensures at != NPOS ==> at < |t| && t[at] == c && c !in t[..at]
  {
    var i := 0;
    while i < |t|
      invariant 0 <= i <= |t| && c !in t[..i]
    {
      if t[i] == c {
        return i;
      }
      i := i + 1;
    }
    return NPOS;
  }
}
