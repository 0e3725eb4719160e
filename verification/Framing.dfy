/** Integers and raw bytes framed one after another on a byte queue. */
module Framing {
  import opened Endian

  datatype Item =
    | Int32(i: int32)
    | Int64(l: int64)
    | Uint64(u: uint64)
    | Raw(bytes: seq<byte>)

  /** What a reader must know in advance: the type of the next item, or its length. */
  datatype Kind = KInt32 | KInt64 | KUint64 | KRaw(len: nat)

  function KindOf(x: Item): Kind {
    match x
    case Int32(_) => KInt32
    case Int64(_) => KInt64
    case Uint64(_) => KUint64
    case Raw(s) => KRaw(|s|)
  }

  function Size(k: Kind): nat {
    match k
    case KInt32 => 4
    case KInt64 => 8
    case KUint64 => 8
    case KRaw(n) => n
  }

  /** The unsigned word behind an integer item. */
  function Word(x: Item): (w: nat)
    requires !x.Raw?
    ensures w < Pow256(Size(KindOf(x)))
  {
    Powers();
    match x
    case Int32(i) => ToUint32(i)
    case Int64(l) => ToUint64(l)
    case Uint64(u) => u
  }

  function FromWord(k: Kind, w: nat): (x: Item)
    requires !k.KRaw? && w < Pow256(Size(k))
  {
    Powers();
    match k
    case KInt32 => Int32(ToInt32(w))
    case KInt64 => Int64(ToInt64(w))
    case KUint64 => Uint64(w)
  }

  /** What writeInt32, writeInt64 and writeUint64 hand to write: the memory image of the converted word. */
  function Encode(h: Host, x: Item): (s: seq<byte>)
    ensures |s| == Size(KindOf(x))
  {
    if x.Raw? then x.bytes
    else
      var n := Size(KindOf(x));
      h.Store(HostToNetwork(h, Word(x), n), n)
  }

  /** What readInt32, readInt64 and readUint64 make of the bytes at the front of the queue. */
  function Decode(h: Host, k: Kind, s: seq<byte>): Item
    requires |s| == Size(k)
  {
    if k.KRaw? then Raw(s)
    else
      StoreLoad(h, s);
      FromBigBound(h.Store(h.Load(s), |s|));
      FromWord(k, NetworkToHost(h, h.Load(s), |s|))
  }

  lemma DecodeEncode(h: Host, x: Item)
    ensures Decode(h, KindOf(x), Encode(h, x)) == x
  {
    if !x.Raw? {
      var n := Size(KindOf(x));
      NetworkImage(h, Word(x), n);
      LoadStore(h, HostToNetwork(h, Word(x), n), n);
      NetworkRoundTrip(h, Word(x), n);
    }
  }

  /** The bytes are the two's complement of the integer itself, most significant byte first, on either host. */
  lemma EncodeIsBigEndian(h: Host, x: Item)
    ensures match x
            case Int32(i) => IsBigEndian(Encode(h, x), i, 4)
            case Int64(l) => IsBigEndian(Encode(h, x), l, 8)
            case Uint64(u) => IsBigEndian(Encode(h, x), u, 8)
            case Raw(bytes) => Encode(h, x) == bytes
  {
    if !x.Raw? {
      var n := Size(KindOf(x));
      Powers();
      NetworkImage(h, Word(x), n);
      BigEndianIsBigEndian(Word(x), n);
      match x
      case Int32(i) => if i < 0 { ShiftedIsBigEndian(Encode(h, x), i, 4); }
      case Int64(l) => if l < 0 { ShiftedIsBigEndian(Encode(h, x), l, 8); }
      case _ =>
    }
  }

  /** Encoding is onto: any bytes of the right length decode to the item they encode. */
  lemma EncodeDecode(h: Host, k: Kind, s: seq<byte>)
    requires |s| == Size(k)
    ensures KindOf(Decode(h, k, s)) == k && Encode(h, Decode(h, k, s)) == s
  {
    if !k.KRaw? {
      Powers();
      StoreLoad(h, s);
      FromBigBound(s);
      StoreLoadBig(s);
      NetworkImage(h, FromBig(s), |s|);
    }
  }

  /** So what is read is the integer whose two's complement the bytes are. */
  lemma DecodeIsBigEndian(h: Host, k: Kind, s: seq<byte>)
    requires |s| == Size(k)
    ensures match Decode(h, k, s)
            case Int32(i) => k == KInt32 && IsBigEndian(s, i, 4)
            case Int64(l) => k == KInt64 && IsBigEndian(s, l, 8)
            case Uint64(u) => k == KUint64 && IsBigEndian(s, u, 8)
            case Raw(bytes) => k.KRaw? && bytes == s
  {
    EncodeDecode(h, k, s);
    EncodeIsBigEndian(h, Decode(h, k, s));
  }

  // ---------------------------------------------------------------------------
  // Lists of items
  // ---------------------------------------------------------------------------

  function Wire(h: Host, xs: seq<Item>): seq<byte> {
    if xs == [] then [] else Encode(h, xs[0]) + Wire(h, xs[1..])
  }

  /** Items stand on the wire in their order. */
  lemma {:induction false} WireAppend(h: Host, xs: seq<Item>, ys: seq<Item>)
    ensures Wire(h, xs + ys) == Wire(h, xs) + Wire(h, ys)
  {
    if xs == [] {
      assert xs + ys == ys;
    } else {
      assert (xs + ys)[1..] == xs[1..] + ys;
      WireAppend(h, xs[1..], ys);
      AppendIsAssociative(Encode(h, xs[0]), Wire(h, xs[1..]), Wire(h, ys));
    }
  }

  lemma AppendIsAssociative(q: seq<byte>, e: seq<byte>, w: seq<byte>)
    ensures q + e + w == q + (e + w) && q + [] == q
  {}

  /** A queue that gained the first item and then the others gained the list. */
  lemma WireAfter(h: Host, q: seq<byte>, xs: seq<Item>)
    ensures xs == [] ==> q + Wire(h, xs) == q
    ensures xs != [] ==> q + Encode(h, xs[0]) + Wire(h, xs[1..]) == q + Wire(h, xs)
  {
    if xs == [] {
      AppendIsAssociative(q, [], []);
    } else {
      AppendIsAssociative(q, Encode(h, xs[0]), Wire(h, xs[1..]));
    }
  }

  function Schedule(xs: seq<Item>): (ks: seq<Kind>)
    ensures |ks| == |xs|
  {
    if xs == [] then [] else [KindOf(xs[0])] + Schedule(xs[1..])
  }

  function Total(ks: seq<Kind>): nat {
    if ks == [] then 0 else Size(ks[0]) + Total(ks[1..])
  }

  /** Reads a schedule off the front of a queue. */
  function Parse(h: Host, ks: seq<Kind>, q: seq<byte>): (xs: seq<Item>)
    requires Total(ks) <= |q|
    ensures |xs| == |ks|
  {
    if ks == [] then []
    else [Decode(h, ks[0], q[..Size(ks[0])])] + Parse(h, ks[1..], q[Size(ks[0])..])
  }

  lemma {:induction false} WireLength(h: Host, xs: seq<Item>)
    ensures |Wire(h, xs)| == Total(Schedule(xs))
  {
    if xs != [] {
      WireLength(h, xs[1..]);
      assert Schedule(xs)[1..] == Schedule(xs[1..]);
    }
  }

  lemma CutFront(e: seq<byte>, w: seq<byte>, rest: seq<byte>)
    ensures ((e + w) + rest)[..|e|] == e && ((e + w) + rest)[|e|..] == w + rest
    ensures (w + rest)[|w|..] == rest
  {}

  /** A list of items survives the queue, and whatever follows it is left where it was. */
  lemma {:induction false} ParseWire(h: Host, xs: seq<Item>, rest: seq<byte>)
    ensures Total(Schedule(xs)) == |Wire(h, xs)|
    ensures Parse(h, Schedule(xs), Wire(h, xs) + rest) == xs
    ensures (Wire(h, xs) + rest)[Total(Schedule(xs))..] == rest
  {
    WireLength(h, xs);
    CutFront([], Wire(h, xs), rest);
    if xs != [] {
      CutFront(Encode(h, xs[0]), Wire(h, xs[1..]), rest);
      assert Schedule(xs)[1..] == Schedule(xs[1..]);
      DecodeEncode(h, xs[0]);
      ParseWire(h, xs[1..], rest);
      assert xs == [xs[0]] + xs[1..];
    }
  }
}
