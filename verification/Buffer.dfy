/** potato/net/Buffer: a byte array with a read and a write index. */
module NetBuffer {
  import opened Endian
  import opened ByteQueue
  import opened Framing

  class Buffer {
    var buf: array<byte>
    var curReadIndex: nat
    var curWriteIndex: nat

    ghost predicate Valid()
      reads this
    {
      curReadIndex <= curWriteIndex <= buf.Length
    }

    ghost function View(): Buf
      reads this, buf
    {
      Buf(buf[..], curReadIndex, curWriteIndex)
    }

    constructor ()
      ensures Valid() && fresh(buf) && View() == EMPTY
    {
      buf := new byte[INITIAL_SIZE](i => 0);
      curReadIndex, curWriteIndex := 0, 0;
    }

    function ReadableBytes(): (n: nat)
      requires Valid()
      reads this, buf
      ensures n == |View().Contents()|
    {
      curWriteIndex - curReadIndex
    }

    function WriteableBytes(): nat
      requires Valid()
      reads this
    {
      buf.Length - curWriteIndex
    }

    /** The left copy is a forward loop over one array; the ranges may overlap. */
    method MoveToFront()
      requires Valid()
      modifies this, buf
      ensures Valid() && buf == old(buf)
      ensures View() == Buf(old(View()).Contents() + old(buf[..])[old(ReadableBytes())..], 0, old(ReadableBytes()))
    {
      var n := ReadableBytes();
      var i := 0;
      while i < n
        invariant 0 <= i <= n
        invariant curReadIndex == old(curReadIndex) && curWriteIndex == old(curWriteIndex) && buf == old(buf)
        invariant forall k :: 0 <= k < i ==> buf[k] == old(buf[curReadIndex + k])
        invariant forall k :: i <= k < buf.Length ==> buf[k] == old(buf[k])
      {
        buf[i] := buf[curReadIndex + i];
        i := i + 1;
      }
      curWriteIndex := n;
      curReadIndex := 0;
    }

    method Resize(size: nat)
      requires Valid() && size >= buf.Length
      modifies this`buf
      ensures Valid() && fresh(buf)
      ensures buf[..] == old(buf[..]) + Zeros(size - old(buf.Length))
    {
      var bigger := new byte[size](i => 0);
      var i := 0;
      while i < buf.Length
        invariant 0 <= i <= buf.Length && buf == old(buf) && buf[..] == old(buf[..])
        invariant forall k :: 0 <= k < i ==> bigger[k] == buf[k]
        invariant forall k :: i <= k < size ==> bigger[k] == 0
      {
        bigger[i] := buf[i];
        i := i + 1;
      }
      buf := bigger;
    }

    method ExpandBuffer(len: nat)
      requires Valid()
      modifies this, buf
      ensures Valid() && (buf == old(buf) || fresh(buf))
      ensures View() == old(View()).Expand(len)
    {
      var availSize := WriteableBytes() + curReadIndex;
      if availSize > len {
        MoveToFront();
      } else {
        Resize(buf.Length + len);
      }
    }

    /** std::copy into the writeable area. */
    method CopyIn(data: seq<byte>)
      requires Valid() && |data| <= WriteableBytes()
      modifies buf
      ensures View() == old(View()).Fill(data)
    {
      var i := 0;
      while i < |data|
        invariant 0 <= i <= |data|
        invariant forall k :: curWriteIndex <= k < curWriteIndex + i ==> buf[k] == data[k - curWriteIndex]
        invariant forall k :: 0 <= k < curWriteIndex || curWriteIndex + i <= k < buf.Length ==> buf[k] == old(buf[k])
      {
        buf[curWriteIndex + i] := data[i];
        i := i + 1;
      }
    }

    method HasWritten(len: nat)
      requires Valid() && len <= WriteableBytes()
      modifies this`curWriteIndex
      ensures Valid() && View() == old(View()).HasWritten(len)
    {
      curWriteIndex := curWriteIndex + len;
    }

    method Write(data: seq<byte>)
      requires Valid()
      modifies this, buf
      ensures Valid() && (buf == old(buf) || fresh(buf))
      ensures View() == old(View()).Write(data)
      ensures View().Contents() == old(View().Contents()) + data
    {
      if |data| > WriteableBytes() {
        ExpandBuffer(|data|);
      }
      CopyIn(data);
      HasWritten(|data|);
    }

    method Reset()
      requires Valid()
      modifies this`curReadIndex, this`curWriteIndex
      ensures Valid() && View() == old(View()).Reset()
    {
      curWriteIndex, curReadIndex := 0, 0;
    }

    method Retrieve(len: nat)
      requires Valid() && len <= ReadableBytes()
      modifies this`curReadIndex, this`curWriteIndex
      ensures Valid() && View() == old(View()).Retrieve(len)
      ensures View().Contents() == old(View().Contents())[len..]
    {
      if len == ReadableBytes() {
        Reset();
      } else {
        curReadIndex := curReadIndex + len;
      }
    }

    /** end is the distance of the pointer from the start of the array. */
    method RetrieveUntil(end: nat)
      requires Valid() && curReadIndex <= end <= curWriteIndex
      modifies this`curReadIndex, this`curWriteIndex
      ensures Valid() && View().Contents() == old(buf[end..curWriteIndex])
    {
      Retrieve(end - curReadIndex);
    }

    /** read(char*, len): copies the front of the queue out and leaves the queue alone. */
    method Read(data: array<byte>, len: nat)
      requires Valid() && len <= ReadableBytes() && len <= data.Length && data != buf
      modifies data
      ensures data[..len] == old(View().Contents())[..len]
      ensures data[len..] == old(data[len..])
    {
      var i := 0;
      while i < len
        invariant 0 <= i <= len
        invariant forall k :: 0 <= k < i ==> data[k] == buf[curReadIndex + k]
        invariant forall k :: i <= k < data.Length ==> data[k] == old(data[k])
        invariant buf[..] == old(buf[..])
      {
        data[i] := buf[curReadIndex + i];
        i := i + 1;
      }
    }

    /** retrieve(char*, len): copies the front of the queue out and drops exactly that. */
    method RetrieveInto(data: array<byte>, len: nat)
      requires Valid() && len <= ReadableBytes() && len <= data.Length && data != buf
      modifies data, this`curReadIndex, this`curWriteIndex
      ensures Valid()
      ensures data[..len] + View().Contents() == old(View().Contents())
      ensures data[len..] == old(data[len..])
      ensures View() == old(View()).Retrieve(len)
    {
      Read(data, len);
      Retrieve(len);
    }

    /** retrieve(void*, len), which consumes twice; its second assert is a precondition here. */
    method RetrieveIntoVoid(data: array<byte>, len: nat)
      requires Valid() && 2 * len <= ReadableBytes() && len <= data.Length && data != buf
      modifies data, this`curReadIndex, this`curWriteIndex
      ensures Valid()
      ensures data[..len] == old(View().Contents())[..len]
      ensures Some(View()) == RetrieveVoid(old(View()), len)
    {
      RetrieveInto(data, len);
      Retrieve(len);
    }

    method RetrieveAllAsString() returns (s: seq<byte>)
      requires Valid()
      modifies this`curReadIndex, this`curWriteIndex
      ensures Valid() && s == old(View().Contents()) && View() == old(View()).Reset()
    {
      var begin, end := curReadIndex, curWriteIndex;
      Reset();
      s := buf[begin..end];
    }

    // -------------------------------------------------------------------------
    // Integers. The host is a parameter: the bytes queued do not depend on it.
    // -------------------------------------------------------------------------

    method WriteInt32(h: Host, value: int32)
      requires Valid()
      modifies this, buf
      ensures Valid() && (buf == old(buf) || fresh(buf))
      ensures View().Contents() == old(View().Contents()) + Encode(h, Int32(value))
      ensures IsBigEndian(View().Contents()[|old(View().Contents())|..], value, 4)
    {
      var big := HostToNetwork(h, ToUint32(value), 4);
      EncodeIsBigEndian(h, Int32(value));
      Write(h.Store(big, 4));
    }

    method WriteInt64(h: Host, value: int64)
      requires Valid()
      modifies this, buf
      ensures Valid() && (buf == old(buf) || fresh(buf))
      ensures View().Contents() == old(View().Contents()) + Encode(h, Int64(value))
      ensures IsBigEndian(View().Contents()[|old(View().Contents())|..], value, 8)
    {
      var big := HostToNetwork(h, ToUint64(value), 8);
      EncodeIsBigEndian(h, Int64(value));
      Write(h.Store(big, 8));
    }

    method WriteUint64(h: Host, value: uint64)
      requires Valid()
      modifies this, buf
      ensures Valid() && (buf == old(buf) || fresh(buf))
      ensures View().Contents() == old(View().Contents()) + Encode(h, Uint64(value))
      ensures IsBigEndian(View().Contents()[|old(View().Contents())|..], value, 8)
    {
      var big := HostToNetwork(h, value, 8);
      EncodeIsBigEndian(h, Uint64(value));
      Write(h.Store(big, 8));
    }

    /** memcpy from peek() into a word, then the conversion to host order. */
    function ReadWord(h: Host, n: nat): (w: nat)
      requires Valid() && n <= ReadableBytes()
      reads this, buf
      ensures w < Pow256(n)
      ensures w == NetworkToHost(h, h.Load(View().Contents()[..n]), n)
    {
      var s := buf[curReadIndex..curReadIndex + n];
      assert s == View().Contents()[..n];
      FromBigBound(h.Store(h.Load(s), n));
      NetworkToHost(h, h.Load(s), n)
    }

    method RetrieveInt32(h: Host) returns (value: int32)
      requires Valid() && ReadableBytes() >= 4
      modifies this`curReadIndex, this`curWriteIndex
      ensures Valid() && View().Contents() == old(View().Contents())[4..]
      ensures Int32(value) == Decode(h, KInt32, old(View().Contents())[..4])
      ensures IsBigEndian(old(View().Contents())[..4], value, 4)
    {
      DecodeIsBigEndian(h, KInt32, View().Contents()[..4]);
      Powers();
      value := ToInt32(ReadWord(h, 4));
      Retrieve(4);
    }

    method RetrieveInt64(h: Host) returns (value: int64)
      requires Valid() && ReadableBytes() >= 8
      modifies this`curReadIndex, this`curWriteIndex
      ensures Valid() && View().Contents() == old(View().Contents())[8..]
      ensures Int64(value) == Decode(h, KInt64, old(View().Contents())[..8])
      ensures IsBigEndian(old(View().Contents())[..8], value, 8)
    {
      DecodeIsBigEndian(h, KInt64, View().Contents()[..8]);
      Powers();
      value := ToInt64(ReadWord(h, 8));
      Retrieve(8);
    }

    method RetrieveUint64(h: Host) returns (value: uint64)
      requires Valid() && ReadableBytes() >= 8
      modifies this`curReadIndex, this`curWriteIndex
      ensures Valid() && View().Contents() == old(View().Contents())[8..]
      ensures Uint64(value) == Decode(h, KUint64, old(View().Contents())[..8])
      ensures IsBigEndian(old(View().Contents())[..8], value, 8)
    {
      DecodeIsBigEndian(h, KUint64, View().Contents()[..8]);
      Powers();
      value := ReadWord(h, 8);
      Retrieve(8);
    }

    // -------------------------------------------------------------------------
    // Lists of items
    // -------------------------------------------------------------------------

    method WriteItem(h: Host, x: Item)
      requires Valid()
      modifies this, buf
      ensures Valid() && (buf == old(buf) || fresh(buf))
      ensures View().Contents() == old(View().Contents()) + Encode(h, x)
    {
      match x {
        case Int32(i) => WriteInt32(h, i);
        case Int64(l) => WriteInt64(h, l);
        case Uint64(u) => WriteUint64(h, u);
        case Raw(bytes) => Write(bytes);
      }
    }

    method WriteItems(h: Host, xs: seq<Item>)
      requires Valid()
      modifies this, buf
      ensures Valid() && (buf == old(buf) || fresh(buf))
      ensures View().Contents() == old(View().Contents()) + Wire(h, xs)
      decreases |xs|
    {
      WireAfter(h, View().Contents(), xs);
      if xs != [] {
        WriteItem(h, xs[0]);
        WriteItems(h, xs[1..]);
      }
    }

    method RetrieveItem(h: Host, k: Kind) returns (x: Item)
      requires Valid() && Size(k) <= ReadableBytes()
      modifies this`curReadIndex, this`curWriteIndex
      ensures Valid() && View().Contents() == old(View().Contents())[Size(k)..]
      ensures x == Decode(h, k, old(View().Contents())[..Size(k)])
    {
      match k {
        case KInt32 => var i := RetrieveInt32(h); x := Int32(i);
        case KInt64 => var l := RetrieveInt64(h); x := Int64(l);
        case KUint64 => var u := RetrieveUint64(h); x := Uint64(u);
        case KRaw(len) =>
          var data := new byte[len](i => 0);
          RetrieveInto(data, len);
          assert data[..] == data[..len];
          x := Raw(data[..]);
      }
    }

    method RetrieveItems(h: Host, ks: seq<Kind>) returns (xs: seq<Item>)
      requires Valid() && Total(ks) <= ReadableBytes()
      modifies this`curReadIndex, this`curWriteIndex
      ensures Valid() && View().Contents() == old(View().Contents())[Total(ks)..]
      ensures xs == Parse(h, ks, old(View().Contents()))
      decreases |ks|
    {
      if ks == [] {
        return [];
      }
      var x := RetrieveItem(h, ks[0]);
      var rest := RetrieveItems(h, ks[1..]);
      xs := [x] + rest;
    }

    /** A list written, then any bytes, then the list retrieved: it comes back and leaves those bytes. */
    method WriteThenRetrieve(h: Host, xs: seq<Item>, more: seq<byte>) returns (ys: seq<Item>)
      requires Valid() && View().Contents() == []
      modifies this, buf
      ensures Valid() && ys == xs && View().Contents() == more
    {
      WriteItems(h, xs);
      assert View().Contents() == Wire(h, xs);
      Write(more);
      ParseWire(h, xs, more);
      ys := RetrieveItems(h, Schedule(xs));
    }
  }
}
