/** Runs of buffer operations: refinement of a byte queue, and the size of the array. */
module BufferRuns {
  import opened Endian
  import opened ByteQueue
  import Session

  datatype Op =
    | Write(s: seq<byte>)
    | Retrieve(n: nat)
    | Receive(s: seq<byte>)   // fill beginWrite(), then hasWritten
    | Expand(n: nat)
    | Reset

  /** The asserts of Buffer.h: what each operation demands of its caller. */
  predicate Legal(b: Buf, op: Op)
    requires b.Valid()
  {
    match op
    case Retrieve(n) => n <= b.Readable()
    case Receive(s) => |s| <= b.Writeable()
    case _ => true
  }

  function Apply(b: Buf, op: Op): (b': Buf)
    requires b.Valid() && Legal(b, op)
    ensures b'.Valid()
  {
    match op
    case Write(s) => b.Write(s)
    case Retrieve(n) => b.Retrieve(n)
    case Receive(s) => b.Fill(s).HasWritten(|s|)
    case Expand(n) => b.Expand(n)
    case Reset => b.Reset()
  }

  predicate LegalRun(b: Buf, ops: seq<Op>)
    requires b.Valid()
    decreases ops
  {
    ops == [] || (Legal(b, ops[0]) && LegalRun(Apply(b, ops[0]), ops[1..]))
  }

  function Run(b: Buf, ops: seq<Op>): (b': Buf)
    requires b.Valid() && LegalRun(b, ops)
    ensures b'.Valid()
    decreases ops
  {
    if ops == [] then b else Run(Apply(b, ops[0]), ops[1..])
  }

  /** The same run on a plain queue of bytes: append, drop a prefix, clear. */
  function QueueRun(q: seq<byte>, ops: seq<Op>): seq<byte>
    decreases ops
  {
    if ops == [] then q
    else
      var q' := match ops[0]
        case Write(s) => q + s
        case Receive(s) => q + s
        case Retrieve(n) => if n <= |q| then q[n..] else []
        case Expand(n) => q
        case Reset => [];
      QueueRun(q', ops[1..])
  }

  /** Every legal run of the buffer is the same run of the queue, whatever compaction and growth it goes through. */
  lemma {:induction false} RunRefinesQueue(b: Buf, ops: seq<Op>)
    requires b.Valid() && LegalRun(b, ops)
    ensures Run(b, ops).Contents() == QueueRun(b.Contents(), ops)
    decreases ops
  {
    if ops != [] {
      RunRefinesQueue(Apply(b, ops[0]), ops[1..]);
    }
  }

  // ---------------------------------------------------------------------------
  // Capacity
  // ---------------------------------------------------------------------------

  function Max(a: nat, b: nat): nat { if a < b then b else a }

  /** The most bytes ever readable along a run, its two ends included. */
  function PeakReadable(b: Buf, ops: seq<Op>): nat
    requires b.Valid() && LegalRun(b, ops)
    decreases ops
  {
    if ops == [] then b.Readable() else Max(b.Readable(), PeakReadable(Apply(b, ops[0]), ops[1..]))
  }

  /** The largest direct call of expandBuffer, 0 if there is none. */
  function LargestExpand(ops: seq<Op>): nat {
    if ops == [] then 0
    else Max(if ops[0].Expand? then ops[0].n else 0, LargestExpand(ops[1..]))
  }

  predicate HasWrite(ops: seq<Op>) {
    exists op | op in ops :: op.Write?
  }

  /** No larger than a write or a direct expandBuffer pays for: h bytes are readable at the peak, n is the largest
      expandBuffer. */
  function Bound(writes: bool, h: nat, n: nat): nat {
    Max(if writes then 2 * h else 0, h + 2 * n)
  }

  /** An operation leaves an array no longer than it was, or a write one of at most twice what is then readable,
      or a direct expandBuffer(n) one of at most 2n more than is readable. */
  lemma GrowthIsPaidFor(b: Buf, op: Op)
    requires b.Valid() && Legal(b, op)
    ensures var b' := Apply(b, op);
            || |b'.data| == |b.data|
            || (op.Write? && |b'.data| <= 2 * b'.Readable())
            || (op.Expand? && |b'.data| <= b'.Readable() + 2 * op.n)
  {}

  /** What the rest of a run is bounded by bounds the whole run. */
  lemma BoundOfRest(ops: seq<Op>, h: nat, h': nat)
    requires ops != [] && h' <= h
    ensures Bound(HasWrite(ops[1..]), h', LargestExpand(ops[1..])) <= Bound(HasWrite(ops), h, LargestExpand(ops))
    ensures ops[0].Write? ==> HasWrite(ops)
    ensures ops[0].Expand? ==> ops[0].n <= LargestExpand(ops)
  {
    assert ops[0] in ops;
    assert HasWrite(ops[1..]) ==> HasWrite(ops);
  }

  lemma {:induction false} CapacityFrom(b: Buf, ops: seq<Op>)
    requires b.Valid() && LegalRun(b, ops)
    ensures |Run(b, ops).data| <= Max(|b.data|, Bound(HasWrite(ops), PeakReadable(b, ops), LargestExpand(ops)))
    decreases ops
  {
    if ops != [] {
      GrowthIsPaidFor(b, ops[0]);
      var b' := Apply(b, ops[0]);
      CapacityFrom(b', ops[1..]);
      PeakAtLeast(b', ops[1..]);
      BoundOfRest(ops, PeakReadable(b, ops), PeakReadable(b', ops[1..]));
    }
  }

  lemma PeakAtLeast(b: Buf, ops: seq<Op>)
    requires b.Valid() && LegalRun(b, ops)
    ensures b.Readable() <= PeakReadable(b, ops)
  {}

  /** From a fresh buffer the array never exceeds max(4096, 2H, H + 2N), H the largest readable size reached and N the
      largest direct expandBuffer. */
  lemma CapacityBound(ops: seq<Op>)
    requires LegalRun(EMPTY, ops)
    ensures var h := PeakReadable(EMPTY, ops);
            |Run(EMPTY, ops).data| <= Max(INITIAL_SIZE, Max(2 * h, h + 2 * LargestExpand(ops)))
  {
    CapacityFrom(EMPTY, ops);
  }

  /** A single write can come within one byte of the bound. */
  lemma CapacityBoundIsTight(s: seq<byte>)
    requires |s| == INITIAL_SIZE + 1
    ensures LegalRun(EMPTY, [Write(s)])
    ensures |Run(EMPTY, [Write(s)]).data| == 2 * PeakReadable(EMPTY, [Write(s)]) - 1
  {}

  // ---------------------------------------------------------------------------
  // The read buffer
  // ---------------------------------------------------------------------------

  /** What one turn of the read loop and user code do to a read buffer. */
  predicate ReadBufferOp(op: Op) {
    op.Receive? || op == Expand(Session.READ_ROOM) || op.Retrieve? || op.Reset?
  }

  function ReadOps(b: Buf, bytes: seq<byte>): (ops: seq<Op>)
    requires b.Valid()
    ensures forall op | op in ops :: ReadBufferOp(op)
  {
    if b.Writeable() - |bytes| < Session.READ_ROOM then [Receive(bytes), Expand(Session.READ_ROOM)]
    else [Receive(bytes)]
  }

  lemma RunOne(b: Buf, op: Op)
    requires b.Valid() && Legal(b, op)
    ensures LegalRun(b, [op]) && Run(b, [op]) == Apply(b, op)
  {
    var b1 := Apply(b, op);
    assert [op][1..] == [] && LegalRun(b1, []) && Run(b1, []) == b1;
  }

  lemma RunTwo(b: Buf, op1: Op, op2: Op)
    requires b.Valid() && Legal(b, op1) && Legal(Apply(b, op1), op2)
    ensures LegalRun(b, [op1, op2]) && Run(b, [op1, op2]) == Apply(Apply(b, op1), op2)
  {
    RunOne(Apply(b, op1), op2);
    assert [op1, op2][1..] == [op2];
  }

  /** One turn of the read loop is a run of those operations. */
  lemma AfterReadIsRun(b: Buf, bytes: seq<byte>)
    requires b.Valid() && |bytes| <= b.Writeable()
    ensures LegalRun(b, ReadOps(b, bytes)) && Run(b, ReadOps(b, bytes)) == Session.AfterRead(b, bytes)
  {
    RunOne(b, Receive(bytes));
    RunTwo(b, Receive(bytes), Expand(Session.READ_ROOM));
  }

  lemma {:induction false} ReadOpsExpand(ops: seq<Op>)
    requires forall op | op in ops :: ReadBufferOp(op)
    ensures LargestExpand(ops) <= Session.READ_ROOM
  {
    if ops != [] {
      assert ops[0] in ops;
      ReadOpsExpand(ops[1..]);
    }
  }

  /** A read buffer is never larger than H + 8192. */
  lemma ReadBufferBound(ops: seq<Op>)
    requires LegalRun(EMPTY, ops) && forall op | op in ops :: ReadBufferOp(op)
    ensures |Run(EMPTY, ops).data| <= PeakReadable(EMPTY, ops) + 2 * Session.READ_ROOM
  {
    CapacityFrom(EMPTY, ops);
    ReadOpsExpand(ops);
  }

  /** One received byte brings it to 8192 bytes. */
  lemma ReadBufferBoundIsTight(x: byte)
    ensures var ops := [Receive([x]), Expand(Session.READ_ROOM)];
            && ReadOps(EMPTY, [x]) == ops && LegalRun(EMPTY, ops) && PeakReadable(EMPTY, ops) == 1
            && |Run(EMPTY, ops).data| == 2 * Session.READ_ROOM
  {
    var b1 := Apply(EMPTY, Receive([x]));
    RunTwo(EMPTY, Receive([x]), Expand(Session.READ_ROOM));
    var rest := [Expand(Session.READ_ROOM)];
    assert [Receive([x]), Expand(Session.READ_ROOM)][1..] == rest && rest[1..] == [];
    assert PeakReadable(b1, rest) == 1;
  }
}
