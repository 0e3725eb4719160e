/** StringSlice::slice, trim and split (potato/utils/StringSlice.h). */
module StringPieces {
  import opened Endian
  import opened StringSearch

  /** How many bytes slice(beginIndex, len) spans, in size_t arithmetic. */
  function SliceLength(size: uint64, begin: uint64, len: uint64): uint64 {
    var left := SizeSub(size, begin);
    if left <= len then left else len
  }

  /** slice stays inside exactly when beginIndex is not past the end: beyond it the subtraction wraps, and a length is
      no longer cut down to what is there. */
  lemma SliceStaysInside(size: uint64, begin: uint64, len: uint64)
    ensures begin + SliceLength(size, begin, len) <= size <==> begin <= size
    ensures begin > size && len <= TWO_64 - begin ==> SliceLength(size, begin, len) == len
  {}

  /** slice(beginIndex, len) inside: len is cut down to what is there. */
  function SliceOf(s: Slice, begin: nat, len: uint64): (r: Slice)
    requires begin <= |s|
    ensures |r| <= len && begin + |r| <= |s| && r == s[begin..begin + |r|]
    ensures |r| == len || begin + |r| == |s|
  {
    s[begin..begin + SliceLength(|s|, begin, len)]
  }

  // ---------------------------------------------------------------------------
  // trim
  // ---------------------------------------------------------------------------

  /** s without the c at its two ends: what is cut off is c only, and what is left has no c at an end. */
  ghost predicate TrimmedAt(s: seq<byte>, c: byte, from: nat, to: nat) {
    && from <= to <= |s|
    && (forall k | 0 <= k < from :: s[k] == c)
    && (forall k | to <= k < |s| :: s[k] == c)
    && (from < to ==> s[from] != c && s[to - 1] != c)
  }

  ghost predicate IsTrimmed(s: seq<byte>, c: byte, r: seq<byte>) {
    exists from: nat, to: nat :: TrimmedAt(s, c, from, to) && r == s[from..to]
  }

  /** There is only one way to trim. */
  lemma TrimIsUnique(s: seq<byte>, c: byte, r1: seq<byte>, r2: seq<byte>)
    requires IsTrimmed(s, c, r1) && IsTrimmed(s, c, r2)
    ensures r1 == r2
  {}

  method Trim(s: Slice, c: byte) returns (r: Slice)
    ensures IsTrimmed(s, c, r)
  {
    var front := 0;
    while front < |s| && s[front] == c
      invariant 0 <= front <= |s| && forall k | 0 <= k < front :: s[k] == c
    {
      front := front + 1;
    }
    if |s| == 0 || front == |s| {
      assert TrimmedAt(s, c, |s|, |s|) && s[|s|..|s|] == [];
      return [];
    }
    var back := |s| - 1;
    while back > front && s[back] == c
      invariant front <= back < |s| && forall k | back < k < |s| :: s[k] == c
    {
      back := back - 1;
    }
    r := SliceOf(s, front, back - front + 1);
    assert TrimmedAt(s, c, front, back + 1) && r == s[front..back + 1];
  }

  // ---------------------------------------------------------------------------
  // split and join
  // ---------------------------------------------------------------------------

  function Join(ps: seq<seq<byte>>, d: byte): seq<byte> {
    if ps == [] then []
    else if |ps| == 1 then ps[0]
    else ps[0] + [d] + Join(ps[1..], d)
  }

  function Count(s: seq<byte>, d: byte): nat {
    if s == [] then 0 else (if s[0] == d then 1 else 0) + Count(s[1..], d)
  }

  predicate NoneContains(ps: seq<seq<byte>>, d: byte) {
    forall p | p in ps :: d !in p
  }

  /** What split computes: nothing for the empty slice, and otherwise the pieces that join back to it. */
  ghost predicate IsSplit(s: seq<byte>, d: byte, ps: seq<seq<byte>>) {
    if s == [] then ps == []
    else |ps| >= 1 && Join(ps, d) == s && NoneContains(ps, d)
  }

  /** The part of the slice before the piece being read, rebuilt from the pieces found. */
  function Rebuilt(ps: seq<seq<byte>>, d: byte): seq<byte> {
    if ps == [] then [] else Join(ps, d) + [d]
  }

  lemma {:induction false} JoinExtend(ps: seq<seq<byte>>, p: seq<byte>, d: byte)
    ensures Join(ps + [p], d) == Rebuilt(ps, d) + p
  {
    if |ps| == 1 {
      assert (ps + [p])[1..] == [p];
    } else if |ps| > 1 {
      assert (ps + [p])[1..] == ps[1..] + [p];
      JoinExtend(ps[1..], p, d);
      assert Join(ps + [p], d) == ps[0] + [d] + (Join(ps[1..], d) + [d] + p);
    }
  }

  /** ps are the pieces that end before i; the next one begins at begin. */
  ghost predicate SplitSoFar(s: seq<byte>, d: byte, ps: seq<seq<byte>>, begin: nat, i: nat) {
    && begin <= i <= |s| && d !in s[begin..i]
    && NoneContains(ps, d) && Rebuilt(ps, d) == s[..begin]
  }

  lemma PieceFound(s: seq<byte>, d: byte, ps: seq<seq<byte>>, begin: nat, i: nat)
    requires SplitSoFar(s, d, ps, begin, i) && i < |s| && s[i] == d
    ensures SplitSoFar(s, d, ps + [s[begin..i]], i + 1, i + 1)
  {
    JoinExtend(ps, s[begin..i], d);
    assert s[..i + 1] == s[..begin] + s[begin..i] + [d];
  }

  lemma PieceGoesOn(s: seq<byte>, d: byte, ps: seq<seq<byte>>, begin: nat, i: nat)
    requires SplitSoFar(s, d, ps, begin, i) && i < |s| && s[i] != d
    ensures SplitSoFar(s, d, ps, begin, i + 1)
  {}

  lemma LastPiece(s: seq<byte>, d: byte, ps: seq<seq<byte>>, begin: nat)
    requires SplitSoFar(s, d, ps, begin, |s|) && s != []
    ensures IsSplit(s, d, ps + [s[begin..]])
    ensures |ps + [s[begin..]]| == 1 + Count(s, d)
  {
    JoinExtend(ps, s[begin..], d);
    assert s == s[..begin] + s[begin..];
    CountPieces(ps + [s[begin..]], d);
  }

  method Split(s: Slice, d: byte) returns (ret: seq<seq<byte>>)
    ensures IsSplit(s, d, ret)
    ensures s != [] ==> |ret| == 1 + Count(s, d)
  {
    ret := [];
    if |s| == 0 {
      return;
    }
    var begin := 0;
    var i := 0;
    while i < |s|
      invariant 0 <= begin <= i <= |s| && SplitSoFar(s, d, ret, begin, i)
    {
      if s[i] == d {
        PieceFound(s, d, ret, begin, i);
        var piece := SliceOf(s, begin, i - begin);
        assert piece == s[begin..i];
        ret := ret + [piece];
        begin := i + 1;
      } else {
        PieceGoesOn(s, d, ret, begin, i);
      }
      i := i + 1;
    }
    LastPiece(s, d, ret, begin);
    var last := SliceOf(s, begin, |s| - begin);
    assert last == s[begin..];
    ret := ret + [last];
  }

  lemma {:induction false} CountAppend(s: seq<byte>, t: seq<byte>, d: byte)
    ensures Count(s + t, d) == Count(s, d) + Count(t, d)
  {
    if s == [] {
      assert s + t == t;
    } else {
      assert (s + t)[1..] == s[1..] + t;
      CountAppend(s[1..], t, d);
    }
  }

  lemma {:induction false} CountNone(s: seq<byte>, d: byte)
    requires d !in s
    ensures Count(s, d) == 0
  {
    if s != [] { CountNone(s[1..], d); }
  }

  /** Pieces without the delimiter are one more than the delimiters that join them. */
  lemma {:induction false} CountPieces(ps: seq<seq<byte>>, d: byte)
    requires |ps| >= 1 && NoneContains(ps, d)
    ensures |ps| == 1 + Count(Join(ps, d), d)
  {
    CountNone(ps[0], d);
    if |ps| > 1 {
      CountPieces(ps[1..], d);
      CountAppend(ps[0] + [d], Join(ps[1..], d), d);
      CountAppend(ps[0], [d], d);
      assert [d][1..] == [];
    }
  }

  /** A first piece ends where the first delimiter stands, so equal joins have equal pieces. */
  lemma {:induction false} JoinIsInjective(ps: seq<seq<byte>>, qs: seq<seq<byte>>, d: byte)
    requires |ps| >= 1 && |qs| >= 1 && NoneContains(ps, d) && NoneContains(qs, d)
    requires Join(ps, d) == Join(qs, d)
    ensures ps == qs
  {
    CountPieces(ps, d);
    CountPieces(qs, d);
    if |ps| > 1 {
      SameHead(ps[0], Join(ps[1..], d), qs[0], Join(qs[1..], d), d);
      JoinIsInjective(ps[1..], qs[1..], d);
      assert ps == [ps[0]] + ps[1..] && qs == [qs[0]] + qs[1..];
    } else {
      assert ps == [ps[0]] && qs == [qs[0]];
    }
  }

  lemma SameHead(p: seq<byte>, s: seq<byte>, q: seq<byte>, t: seq<byte>, d: byte)
    requires d !in p && d !in q && p + [d] + s == q + [d] + t
    ensures p == q && s == t
  {
    var u := p + [d] + s;
    assert u[|p|] == d && u[|q|] == d;
    assert p == u[..|p|] == q;
    assert s == u[|p| + 1..] == t;
  }

  /** The result of split is determined by its slice. */
  lemma SplitIsUnique(s: seq<byte>, d: byte, ps: seq<seq<byte>>, qs: seq<seq<byte>>)
    requires IsSplit(s, d, ps) && IsSplit(s, d, qs)
    ensures ps == qs
  {
    if s != [] { JoinIsInjective(ps, qs, d); }
  }

  lemma {:induction false} EmptyJoin(ps: seq<seq<byte>>, d: byte)
    ensures Join(ps, d) == [] <==> ps == [] || ps == [[]]
  {}

  /** Splitting a join gives the pieces back exactly when no piece contains the delimiter
      and the list is not one empty piece. */
  lemma SplitOfJoin(ps: seq<seq<byte>>, d: byte, out: seq<seq<byte>>)
    requires IsSplit(Join(ps, d), d, out)
    ensures out == ps <==> NoneContains(ps, d) && ps != [[]]
  {
    EmptyJoin(ps, d);
    if NoneContains(ps, d) && ps != [[]] {
      if ps != [] { JoinIsInjective(ps, out, d); }
    }
  }

  method JoinThenSplit(ps: seq<seq<byte>>, d: byte) returns (out: seq<seq<byte>>)
    requires |Join(ps, d)| < NPOS
    ensures out == ps <==> NoneContains(ps, d) && ps != [[]]
  {
    out := Split(Join(ps, d), d);
    SplitOfJoin(ps, d, out);
  }
}
