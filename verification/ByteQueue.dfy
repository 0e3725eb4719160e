/** The indices and bytes of potato/net/Buffer as a value, and the byte queue it stands for. */
module ByteQueue {
  import opened Endian

  const INITIAL_SIZE: nat := 4096

  function Zeros(n: nat): (s: seq<byte>)
    ensures |s| == n
  {
    seq(n, i => 0)
  }

  /** buf_, curReadIndex_ and curWriteIndex_. */
  datatype Buf = Buf(data: seq<byte>, r: nat, w: nat) {
    predicate Valid() { r <= w <= |data| }

    function Contents(): seq<byte>
      requires Valid()
    {
      data[r..w]
    }

    function Readable(): (n: nat)
      requires Valid()
      ensures n == |Contents()|
    {
      w - r
    }

    function Writeable(): nat
      requires Valid()
    {
      |data| - w
    }

    /** Overwrites part of the writeable area; no index moves. */
    function Fill(s: seq<byte>): (b: Buf)
      requires Valid() && |s| <= Writeable()
      ensures b.Valid() && b.Contents() == Contents() && b.r == r && b.w == w && |b.data| == |data|
      ensures b.data[w..w + |s|] == s
    {
      Buf(data[..w] + s + data[w + |s|..], r, w)
    }

    /** The readable area grows over bytes that are already in place. */
    function HasWritten(n: nat): (b: Buf)
      requires Valid() && n <= Writeable()
      ensures b.Valid() && b.Contents() == Contents() + data[w..w + n]
    {
      Buf(data, r, w + n)
    }

    /** What expandBuffer leaves behind: the readable bytes moved to the front, or the array lengthened. */
    function Expand(n: nat): (b: Buf)
      requires Valid()
      ensures b.Valid() && b.Contents() == Contents() && n <= b.Writeable()
    {
      if Writeable() + r > n then Buf(Contents() + data[Readable()..], 0, Readable())
      else Buf(data + Zeros(n), r, w)
    }

    function Write(s: seq<byte>): (b: Buf)
      requires Valid()
      ensures b.Valid() && b.Contents() == Contents() + s
    {
      var e := if |s| > Writeable() then Expand(|s|) else this;
      e.Fill(s).HasWritten(|s|)
    }

    function Retrieve(n: nat): (b: Buf)
      requires Valid() && n <= Readable()
      ensures b.Valid() && b.Contents() == Contents()[n..]
      ensures b.Writeable() >= Writeable() && b.data == data
    {
      if n == Readable() then Reset() else Buf(data, r + n, w)
    }

    function Reset(): (b: Buf)
      requires Valid()
      ensures b.Valid() && b.Contents() == []
    {
      Buf(data, 0, 0)
    }
  }

  /** When the array grows, and by how much: expandBuffer(n) lengthens it by n unless more than n bytes are free in all,
      and otherwise moves the queue to the front. */
  lemma ExpandGrows(b: Buf, n: nat)
    requires b.Valid()
    ensures |b.data| - |b.Contents()| <= n ==> |b.Expand(n).data| == |b.data| + n && b.Expand(n).r == b.r
    ensures |b.data| - |b.Contents()| > n ==>
              |b.Expand(n).data| == |b.data| && b.Expand(n).Writeable() == |b.data| - |b.Contents()|
  {}

  /** write expands only if the bytes do not fit behind the queue. */
  lemma WriteExpandsOnlyIfNeeded(b: Buf, s: seq<byte>)
    requires b.Valid()
    ensures |s| <= b.Writeable() ==> b.Write(s).r == b.r && |b.Write(s).data| == |b.data|
    ensures |s| > b.Writeable() ==> |b.Write(s).data| == |b.Expand(|s|).data| && b.Write(s).r == b.Expand(|s|).r
  {}

  /** A queue that was taken whole leaves the whole array writeable. */
  lemma EmptiedIsReset(b: Buf, n: nat)
    requires b.Valid() && n <= b.Readable()
    ensures n == b.Readable() ==> b.Retrieve(n).Writeable() == |b.data|
    ensures n < b.Readable() ==> b.Retrieve(n).Writeable() == b.Writeable()
  {}

  const EMPTY: Buf := Buf(Zeros(INITIAL_SIZE), 0, 0)

  // ---------------------------------------------------------------------------
  // retrieve(void*, len)
  // ---------------------------------------------------------------------------

  datatype Option<T> = None | Some(value: T)

  /** retrieve(void*, len) as written: it consumes through the char* overload and then consumes again.
      None is a failed assert. */
  function RetrieveVoid(b: Buf, n: nat): Option<Buf>
    requires b.Valid()
  {
    if n > b.Readable() then None
    else
      var once := b.Retrieve(n);
      if n > once.Readable() then None else Some(once.Retrieve(n))
  }

  /** The void* overload consumes exactly what it copies only when it copies nothing. */
  lemma RetrieveVoidConsumesOnce(b: Buf, n: nat)
    requires b.Valid() && n <= b.Readable()
    ensures (RetrieveVoid(b, n).Some? && RetrieveVoid(b, n).value.Contents() == b.Contents()[n..]) <==> n == 0
    ensures RetrieveVoid(b, n).Some? <==> 2 * n <= b.Readable()
    ensures 2 * n <= b.Readable() ==> RetrieveVoid(b, n).value.Contents() == b.Contents()[2 * n..]
  {}

  /** One queued byte cannot be taken through the void* overload. */
  lemma RetrieveVoidFailsOnOneByte()
    ensures RetrieveVoid(EMPTY.Write([7]), 1) == None
  {}
}
