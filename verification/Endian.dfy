/** Byte order of integers (potato/utils/Endian.h).
    A word is a natural number below 256^n; its memory image is a sequence of n bytes. */
module Endian {

  type byte = x: int | 0 <= x < 256

  const TWO_32: nat := 0x1_0000_0000
  const TWO_64: nat := 0x1_0000_0000_0000_0000

  type uint32 = x: int | 0 <= x < TWO_32
  type uint64 = x: int | 0 <= x < TWO_64
  type int32 = x: int | -0x8000_0000 <= x < 0x8000_0000
  type int64 = x: int | -0x8000_0000_0000_0000 <= x < 0x8000_0000_0000_0000

  function Pow256(n: nat): (p: nat)
    ensures p > 0
  {
    if n == 0 then 1 else 256 * Pow256(n - 1)
  }

  /** The n low bytes of x, least significant first. */
  function LittleEndian(x: nat, n: nat): (s: seq<byte>)
    ensures |s| == n
  {
    if n == 0 then [] else [x % 256] + LittleEndian(x / 256, n - 1)
  }

  /** The n low bytes of x, most significant first: the order of Appendix B of RFC 791. */
  function BigEndian(x: nat, n: nat): (s: seq<byte>)
    ensures |s| == n
  {
    if n == 0 then [] else BigEndian(x / 256, n - 1) + [x % 256]
  }

  function FromLittle(s: seq<byte>): nat {
    if s == [] then 0 else s[0] + 256 * FromLittle(s[1..])
  }

  function FromBig(s: seq<byte>): nat {
    if s == [] then 0 else 256 * FromBig(s[..|s| - 1]) + s[|s| - 1]
  }

  function Reverse(s: seq<byte>): (r: seq<byte>)
    ensures |r| == |s|
  {
    if s == [] then [] else Reverse(s[1..]) + [s[0]]
  }

  datatype Host = LittleHost | BigHost {
    /** The memory image of an n-byte word. */
    function Store(x: nat, n: nat): (s: seq<byte>)
      ensures |s| == n
    {
      if LittleHost? then LittleEndian(x, n) else BigEndian(x, n)
    }

    /** The word whose memory image is s. */
    function Load(s: seq<byte>): nat {
      if LittleHost? then FromLittle(s) else FromBig(s)
    }
  }

  /** htobe16, htobe32, htobe64, htons, htonl: the word that lies in memory as the big-endian bytes of x. */
  function HostToNetwork(h: Host, x: nat, n: nat): nat {
    h.Load(BigEndian(x, n))
  }

  /** be16toh, be32toh, be64toh, ntohs, ntohl: the value of the bytes of x read big-endian. */
  function NetworkToHost(h: Host, x: nat, n: nat): nat {
    FromBig(h.Store(x, n))
  }

  /** The HTONLL macro: two 32-bit conversions whose results are swapped, or nothing on a big-endian host.
      The mask and the right shift by 32 are % and / by 2^32; the left shift and the disjoint or are * and +. */
  function Htonll(h: Host, x: uint64): nat {
    if 1 == HostToNetwork(h, 1, 4) then x
    else HostToNetwork(h, x % TWO_32, 4) * TWO_32 + HostToNetwork(h, x / TWO_32, 4)
  }

  /** The NTOHLL macro. */
  function Ntohll(h: Host, x: uint64): nat {
    if 1 == NetworkToHost(h, 1, 4) then x
    else NetworkToHost(h, x % TWO_32, 4) * TWO_32 + NetworkToHost(h, x / TWO_32, 4)
  }

  // ---------------------------------------------------------------------------
  // Loading and storing are inverse
  // ---------------------------------------------------------------------------

  lemma {:induction false} FromLittleBound(s: seq<byte>)
    ensures FromLittle(s) < Pow256(|s|)
  {
    if s != [] { FromLittleBound(s[1..]); }
  }

  lemma {:induction false} FromBigBound(s: seq<byte>)
    ensures FromBig(s) < Pow256(|s|)
  {
    if s != [] { FromBigBound(s[..|s| - 1]); }
  }

  lemma {:induction false} StoreLoadLittle(s: seq<byte>)
    ensures LittleEndian(FromLittle(s), |s|) == s
  {
    if s != [] {
      StoreLoadLittle(s[1..]);
      assert FromLittle(s) / 256 == FromLittle(s[1..]) && FromLittle(s) % 256 == s[0];
      assert s == [s[0]] + s[1..];
    }
  }

  lemma {:induction false} StoreLoadBig(s: seq<byte>)
    ensures BigEndian(FromBig(s), |s|) == s
  {
    if s != [] {
      var t := s[..|s| - 1];
      StoreLoadBig(t);
      assert FromBig(s) / 256 == FromBig(t) && FromBig(s) % 256 == s[|s| - 1];
      assert s == t + [s[|s| - 1]];
    }
  }

  lemma {:induction false} LoadStoreLittle(x: nat, n: nat)
    requires x < Pow256(n)
    ensures FromLittle(LittleEndian(x, n)) == x
  {
    if n > 0 {
      LoadStoreLittle(x / 256, n - 1);
      assert LittleEndian(x, n)[1..] == LittleEndian(x / 256, n - 1);
    }
  }

  lemma {:induction false} LoadStoreBig(x: nat, n: nat)
    requires x < Pow256(n)
    ensures FromBig(BigEndian(x, n)) == x
  {
    if n > 0 {
      LoadStoreBig(x / 256, n - 1);
      assert BigEndian(x, n)[..n - 1] == BigEndian(x / 256, n - 1);
    }
  }

  lemma StoreLoad(h: Host, s: seq<byte>)
    ensures h.Store(h.Load(s), |s|) == s
    ensures h.Load(s) < Pow256(|s|)
  {
    StoreLoadLittle(s);
    StoreLoadBig(s);
    FromLittleBound(s);
    FromBigBound(s);
  }

  lemma LoadStore(h: Host, x: nat, n: nat)
    requires x < Pow256(n)
    ensures h.Load(h.Store(x, n)) == x
  {
    if h.LittleHost? { LoadStoreLittle(x, n); } else { LoadStoreBig(x, n); }
  }

  // ---------------------------------------------------------------------------
  // What network order means
  // ---------------------------------------------------------------------------

  /** Byte k of the big-endian image is digit n-1-k of x in base 256. */
  lemma {:induction false} BigEndianDigit(x: nat, n: nat, k: nat)
    requires k < n
    ensures BigEndian(x, n)[k] == (x / Pow256(n - 1 - k)) % 256
  {
    if k < n - 1 {
      BigEndianDigit(x / 256, n - 1, k);
      DivDiv(x, Pow256(n - 2 - k), Pow256(n - 1 - k));
    }
  }

  lemma DivDiv(x: nat, p: nat, pp: nat)
    requires p > 0 && pp == 256 * p
    ensures (x / 256) / p == x / pp
  {
    var q := (x / 256) / p;
    var r := (x / 256) % p;
    var t := 256 * r + x % 256;
    assert x / 256 == q * p + r;
    assert x == 256 * (q * p) + t;
    assert 256 * (q * p) == q * pp;
    QuotientUnique(x, pp, q, t);
  }

  lemma QuotientUnique(x: int, d: nat, q: int, t: nat)
    requires d > 0 && t < d && x == q * d + t
    ensures x / d == q && x % d == t
  {
    var q', t' := x / d, x % d;
    assert x == q' * d + t';
    SameQuotient(d, q, t, q', t');
    SameQuotient(d, q', t', q, t);
  }

  lemma SameQuotient(d: nat, q: int, t: nat, q': int, t': nat)
    requires t < d && t' < d && q * d + t == q' * d + t'
    ensures q' <= q
  {
    if q' > q {
      var k := q' - q;
      Distribute(q, k, d);
      AtLeast(k, d);
    }
  }

  lemma Distribute(q: int, k: int, d: int)
    ensures (q + k) * d == q * d + k * d
  {}

  lemma {:induction false} AtLeast(k: nat, d: nat)
    requires k >= 1
    ensures k * d >= d
  {}

  /** A converted word lies in memory most significant byte first, on either host. */
  lemma NetworkImage(h: Host, x: nat, n: nat)
    ensures h.Store(HostToNetwork(h, x, n), n) == BigEndian(x, n)
    ensures HostToNetwork(h, x, n) < Pow256(n)
  {
    StoreLoad(h, BigEndian(x, n));
  }

  /** Converting to network order and back is the identity on n-byte words. */
  lemma NetworkRoundTrip(h: Host, x: nat, n: nat)
    requires x < Pow256(n)
    ensures NetworkToHost(h, HostToNetwork(h, x, n), n) == x
  {
    NetworkImage(h, x, n);
    LoadStoreBig(x, n);
  }

  // ---------------------------------------------------------------------------
  // The two-halves macros
  // ---------------------------------------------------------------------------

  lemma {:induction false} LittleEndianJoin(lo: nat, hi: nat, m: nat, n: nat)
    requires lo < Pow256(m)
    ensures LittleEndian(lo + Pow256(m) * hi, m + n) == LittleEndian(lo, m) + LittleEndian(hi, n)
  {
    if m > 0 {
      var y := Pow256(m - 1) * hi;
      assert Pow256(m) * hi == 256 * y;
      LittleEndianJoin(lo / 256, hi, m - 1, n);
      assert m + n - 1 == m - 1 + n;
      assert (lo + 256 * y) / 256 == lo / 256 + y;
    }
  }

  lemma {:induction false} BigIsReversedLittle(x: nat, n: nat)
    ensures BigEndian(x, n) == Reverse(LittleEndian(x, n))
  {
    if n > 0 {
      BigIsReversedLittle(x / 256, n - 1);
      assert LittleEndian(x, n)[1..] == LittleEndian(x / 256, n - 1);
    }
  }

  lemma {:induction false} ReverseAppend(s: seq<byte>, t: seq<byte>)
    ensures Reverse(s + t) == Reverse(t) + Reverse(s)
  {
    if s == [] {
      assert s + t == t;
    } else {
      assert (s + t)[1..] == s[1..] + t;
      ReverseAppend(s[1..], t);
    }
  }

  lemma {:induction false} FromLittleAppend(s: seq<byte>, t: seq<byte>)
    ensures FromLittle(s + t) == FromLittle(s) + Pow256(|s|) * FromLittle(t)
  {
    if s == [] {
      assert s + t == t;
    } else {
      assert (s + t)[1..] == s[1..] + t;
      FromLittleAppend(s[1..], t);
      assert Pow256(|s|) == 256 * Pow256(|s| - 1);
    }
  }

  lemma Powers()
    ensures Pow256(4) == TWO_32 && Pow256(8) == TWO_64
  {}

  /** The macro's test 1 == htonl(1) tells the two kinds of host apart. */
  lemma HostTest(h: Host)
    ensures (1 == HostToNetwork(h, 1, 4)) <==> h.BigHost?
    ensures (1 == NetworkToHost(h, 1, 4)) <==> h.BigHost?
  {
    Powers();
    LoadStoreBig(1, 4);
    assert LittleEndian(1, 4) == [1] + LittleEndian(0, 3);
    assert LittleEndian(0, 3) == [0, 0, 0] by {
      assert LittleEndian(0, 2) == [0] + LittleEndian(0, 1);
      assert LittleEndian(0, 1) == [0] + LittleEndian(0, 0);
    }
    BigIsReversedLittle(1, 4);
    assert Reverse([1, 0, 0, 0]) == [0, 0, 0, 1] by {
      assert [1, 0, 0, 0][1..] == [0, 0, 0];
      assert [0, 0, 0][1..] == [0, 0];
      assert [0, 0][1..] == [0];
      assert [0][1..] == [];
    }
    assert FromLittle([0, 0, 0, 1]) % 256 == 0;
    assert FromBig([1, 0, 0, 0]) % 256 == 0;
  }

  /** HTONLL is the full 8-byte conversion on either host: on a little-endian one, reversal of all eight bytes. */
  lemma HtonllIsFullConversion(h: Host, x: uint64)
    ensures Htonll(h, x) == HostToNetwork(h, x, 8)
    ensures h.LittleHost? ==> LittleEndian(Htonll(h, x), 8) == Reverse(LittleEndian(x, 8))
  {
    Powers();
    HostTest(h);
    NetworkImage(h, x, 8);
    if h.BigHost? {
      LoadStoreBig(x, 8);
    } else {
      var lo, hi := x % TWO_32, x / TWO_32;
      LittleEndianJoin(lo, hi, 4, 4);
      assert LittleEndian(x, 8) == LittleEndian(lo, 4) + LittleEndian(hi, 4);
      BigIsReversedLittle(x, 8);
      BigIsReversedLittle(lo, 4);
      BigIsReversedLittle(hi, 4);
      ReverseAppend(LittleEndian(lo, 4), LittleEndian(hi, 4));
      assert BigEndian(x, 8) == BigEndian(hi, 4) + BigEndian(lo, 4);
      FromLittleAppend(BigEndian(hi, 4), BigEndian(lo, 4));
    }
  }

  /** On a given host both macros compute the same word, because byte reversal is its own inverse. */
  lemma NtohllIsHtonll(h: Host, x: uint64)
    ensures Ntohll(h, x) == Htonll(h, x)
  {
    HostTest(h);
    if h.LittleHost? {
      ReversalIsSymmetric(x % TWO_32, 4);
      ReversalIsSymmetric(x / TWO_32, 4);
    }
  }

  lemma ReversalIsSymmetric(x: nat, n: nat)
    ensures NetworkToHost(LittleHost, x, n) == HostToNetwork(LittleHost, x, n)
  {
    BigIsReversedLittle(x, n);
    FromBigReverse(LittleEndian(x, n));
  }

  lemma {:induction false} FromBigReverse(s: seq<byte>)
    ensures FromBig(s) == FromLittle(Reverse(s))
  {
    if s != [] {
      var t, last := s[..|s| - 1], s[|s| - 1];
      assert s == t + [last];
      ReverseAppend(t, [last]);
      assert Reverse([last]) == [last];
      assert Reverse(s) == [last] + Reverse(t);
      FromBigReverse(t);
      assert Reverse(s)[1..] == Reverse(t);
    }
  }

  /** NTOHLL undoes HTONLL. */
  lemma NtohllInvertsHtonll(h: Host, x: uint64)
    ensures Htonll(h, x) < TWO_64
    ensures Ntohll(h, Htonll(h, x)) == x
  {
    Powers();
    HtonllIsFullConversion(h, x);
    NetworkImage(h, x, 8);
    var y: uint64 := Htonll(h, x);
    NtohllIsHtonll(h, y);
    HtonllIsFullConversion(h, y);
    if h.LittleHost? {
      ReversalIsSymmetric(y, 8);
    } else {
      LoadStoreBig(x, 8);
      LoadStoreBig(y, 8);
    }
    NetworkRoundTrip(h, x, 8);
  }

  // ---------------------------------------------------------------------------
  // Signed words: static_cast between intN_t and uintN_t
  // ---------------------------------------------------------------------------

  function ToUint32(v: int32): (u: uint32) { if v < 0 then v + TWO_32 else v }

  function ToInt32(u: uint32): (v: int32) { if u < 0x8000_0000 then u else u - TWO_32 }

  function ToUint64(v: int64): (u: uint64) { if v < 0 then v + TWO_64 else v }

  function ToInt64(u: uint64): (v: int64) { if u < 0x8000_0000_0000_0000 then u else u - TWO_64 }

  /** s is the two's complement of v, most significant byte first: byte j is digit n-1-j of v in base 256, with
      division that rounds down. */
  predicate IsBigEndian(s: seq<byte>, v: int, n: nat) {
    |s| == n && forall j | 0 <= j < n :: s[j] == (v / Pow256(n - 1 - j)) % 256
  }

  lemma {:induction false} PowSum(m: nat, n: nat)
    ensures Pow256(m + n) == Pow256(m) * Pow256(n)
  {
    if m > 0 {
      PowSum(m - 1, n);
      assert Pow256(m + n) == 256 * (Pow256(m - 1) * Pow256(n));
    }
  }

  lemma AddMultiple(v: int, p: nat, q: int)
    requires p > 0
    ensures (v + q * p) / p == v / p + q
  {
    var q', t := v / p, v % p;
    assert v == q' * p + t;
    assert v + q * p == (q' + q) * p + t by { Distribute(q', q, p); }
    QuotientUnique(v + q * p, p, q' + q, t);
  }

  /** Adding 256^n does not change the low n digits. */
  lemma DigitShift(v: int, n: nat, k: nat)
    requires k < n
    ensures ((v + Pow256(n)) / Pow256(k)) % 256 == (v / Pow256(k)) % 256
  {
    var m := Pow256(n - 1 - k);
    PowSum(n - k, k);
    AddMultiple(v, Pow256(k), 256 * m);
    Digit(v / Pow256(k), m);
  }

  lemma Digit(x: int, m: int)
    ensures (x + 256 * m) % 256 == x % 256
  {}

  lemma ShiftedIsBigEndian(s: seq<byte>, v: int, n: nat)
    requires IsBigEndian(s, v + Pow256(n), n)
    ensures IsBigEndian(s, v, n)
  {
    forall j | 0 <= j < n
      ensures s[j] == (v / Pow256(n - 1 - j)) % 256
    {
      DigitShift(v, n, n - 1 - j);
    }
  }

  lemma BigEndianIsBigEndian(x: nat, n: nat)
    ensures IsBigEndian(BigEndian(x, n), x, n)
  {
    forall j | 0 <= j < n
      ensures BigEndian(x, n)[j] == (x / Pow256(n - 1 - j)) % 256
    {
      BigEndianDigit(x, n, j);
    }
  }
}
