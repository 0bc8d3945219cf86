/**
 * How a message is cut into packets by the sender and put together again by the
 * receiver.  All packets but the last carry exactly `p` bytes.
 */
module Fragments {
  import opened Base

  /** The `i`-th packet of `data`. */
  function Slice(data: seq<byte>, p: nat, i: nat): (r: seq<byte>)
    requires 0 < p && i < CeilDiv(|data|, p)
    ensures 0 < |r| <= p
  {
    SliceBounds(data, p, i);
    data[i * p..Min(i * p + p, |data|)]
  }

  lemma SliceBounds(data: seq<byte>, p: nat, i: nat)
    requires 0 < p && i < CeilDiv(|data|, p)
    ensures 0 <= i * p < |data|
  {
    CeilDivLeast(|data|, p, i);
  }

  /** The packets of a message. */
  function Fragment(data: seq<byte>, p: nat): (r: seq<seq<byte>>)
    requires 0 < p
    ensures |r| == CeilDiv(|data|, p)
  {
    seq(CeilDiv(|data|, p), i requires 0 <= i < CeilDiv(|data|, p) => Slice(data, p, i))
  }

  /** The bytes of the first `k` packets, one after the other. */
  function Flatten(r: seq<seq<byte>>, k: nat): seq<byte>
    requires k <= |r|
  {
    if k == 0 then [] else Flatten(r, k - 1) + r[k - 1]
  }

  /** The number of bytes in the first `k` packets. */
  function Bytes(r: seq<seq<byte>>, k: nat): nat
    requires k <= |r|
  {
    if k == 0 then 0 else Bytes(r, k - 1) + |r[k - 1]|
  }

  lemma {:induction false} BytesCount(r: seq<seq<byte>>, k: nat)
    requires k <= |r|
    ensures Bytes(r, k) == |Flatten(r, k)|
  {
    if k > 0 { BytesCount(r, k - 1); }
  }

  /** The first byte of a packet. */
  ghost function FirstByte(index: nat, p: nat): nat {
    if index == 0 then 0 else FirstByte(index - 1, p) + p
  }

  lemma {:induction false} FirstByteIsProduct(index: nat, p: nat)
    ensures FirstByte(index, p) == index * p
  {
    if index > 0 {
      FirstByteIsProduct(index - 1, p);
      assert (index - 1) * p + p == index * p;
    }
  }

  lemma SliceIs(data: seq<byte>, p: nat, i: nat)
    requires 0 < p && i < CeilDiv(|data|, p)
    ensures FirstByte(i, p) < |data| && Slice(data, p, i) == data[FirstByte(i, p)..Min(FirstByte(i, p) + p, |data|)]
  {
    FirstByteIsProduct(i, p);
    SliceBounds(data, p, i);
  }

  /** Putting the first packets together gives back a prefix of the message. */
  lemma {:induction false} FlattenPrefix(data: seq<byte>, p: nat, k: nat)
    requires 0 < p && k <= CeilDiv(|data|, p)
    ensures Flatten(Fragment(data, p), k) == data[..Min(FirstByte(k, p), |data|)]
  {
    if k > 0 {
      FlattenPrefix(data, p, k - 1);
      SliceIs(data, p, k - 1);
      var a, r := FirstByte(k - 1, p), Fragment(data, p);
      assert Flatten(r, k) == Flatten(r, k - 1) + r[k - 1] && r[k - 1] == Slice(data, p, k - 1);
      PrefixJoin(data, a, Min(a + p, |data|));
    }
  }

  lemma PrefixJoin(data: seq<byte>, a: nat, b: nat)
    requires a <= b <= |data|
    ensures data[..a] + data[a..b] == data[..b]
  {
  }

  /** Reassembly undoes fragmentation. */
  lemma FlattenFragment(data: seq<byte>, p: nat)
    requires 0 < p
    ensures Flatten(Fragment(data, p), CeilDiv(|data|, p)) == data
  {
    FlattenPrefix(data, p, CeilDiv(|data|, p));
    FirstByteIsProduct(CeilDiv(|data|, p), p);
  }

  /** Byte `n` of a message is byte `offset` of packet `index`. */
  ghost predicate Locates(n: nat, p: nat, index: nat, offset: nat) {
    n == FirstByte(index, p) + offset && offset < p
  }

  lemma LocatesDivMod(n: nat, p: nat)
    requires 0 < p
    ensures Locates(n, p, n / p, n % p)
  {
    DivBounds(n, p);
    FirstByteIsProduct(n / p, p);
  }

  /** Filling up a packet leads to the start of the next one. */
  lemma NextPacket(n: nat, p: nat, index: nat, offset: nat)
    requires Locates(n, p, index, offset)
    ensures Locates(n + (p - offset), p, index + 1, 0)
  {
  }

  lemma CeilDivIs(n: nat, p: nat, k: nat)
    requires 0 < p && k * p < n <= k * p + p
    ensures CeilDiv(n, p) == k + 1
  {
    CeilDivLeast(n, p, k);
    CeilDivLeast(n, p, k + 1);
    assert (k + 1) * p == k * p + p;
  }

  /** How many packets the bytes in front of a location take. */
  lemma PacketsBefore(n: nat, p: nat, index: nat, offset: nat)
    requires 0 < p && Locates(n, p, index, offset)
    ensures CeilDiv(n, p) == if offset == 0 then index else index + 1
  {
    FirstByteIsProduct(index, p);
    if 0 < offset {
      CeilDivIs(n, p, index);
    } else if 0 < index {
      assert (index - 1) * p + p == index * p;
      CeilDivIs(n, p, index - 1);
    } else {
      CeilDivLeast(n, p, 0);
    }
  }

  /** Bytes appended behind a full packet do not change it. */
  lemma SliceOfExtension(data: seq<byte>, chunk: seq<byte>, p: nat, k: nat)
    requires 0 < p && k * p + p <= |data|
    ensures k < CeilDiv(|data|, p) <= CeilDiv(|data + chunk|, p)
    ensures Slice(data + chunk, p, k) == Slice(data, p, k)
  {
    CeilDivLeast(|data|, p, k);
    CeilDivMono(|data|, |data + chunk|, p);
  }

  lemma ExtendCount(n: nat, m: nat, p: nat, index: nat, offset: nat)
    requires 0 < p && Locates(n, p, index, offset) && 0 < m <= p - offset
    ensures CeilDiv(n + m, p) == index + 1
  {
    if m < p - offset {
      PacketsBefore(n + m, p, index, offset + m);
    } else {
      NextPacket(n, p, index, offset);
      PacketsBefore(n + m, p, index + 1, 0);
    }
  }

  /** Appending bytes that fit the current packet fills that packet and no other. */
  lemma FragmentExtend(data: seq<byte>, chunk: seq<byte>, p: nat, index: nat, offset: nat)
    requires 0 < p && Locates(|data|, p, index, offset) && 0 < |chunk| <= p - offset
    ensures CeilDiv(|data + chunk|, p) == index + 1
    ensures CeilDiv(|data|, p) == if offset == 0 then index else index + 1
    ensures forall k: nat | k < index :: Slice(data + chunk, p, k) == Slice(data, p, k)
    ensures offset != 0 ==> |Slice(data, p, index)| == offset
    ensures Slice(data + chunk, p, index) == (if offset == 0 then [] else Slice(data, p, index)) + chunk
  {
    FirstByteIsProduct(index, p);
    PacketsBefore(|data|, p, index, offset);
    ExtendCount(|data|, |chunk|, p, index, offset);
    forall k: nat | k < index ensures Slice(data + chunk, p, k) == Slice(data, p, k) {
      MulMono(k, index, p);
      SliceOfExtension(data, chunk, p, k);
    }
  }

  /** Overwrite the bytes of `data` from index `at`. */
  function Splice(data: seq<byte>, at: nat, chunk: seq<byte>): (r: seq<byte>)
    requires at + |chunk| <= |data|
    ensures |r| == |data|
  {
    data[..at] + chunk + data[at + |chunk|..]
  }

  lemma SpliceOutside(data: seq<byte>, at: nat, chunk: seq<byte>, lo: nat, hi: nat)
    requires at + |chunk| <= |data| && lo <= hi <= |data| && (hi <= at || at + |chunk| <= lo)
    ensures Splice(data, at, chunk)[lo..hi] == data[lo..hi]
  {
  }

  lemma SpliceInside(data: seq<byte>, at: nat, chunk: seq<byte>, lo: nat, hi: nat)
    requires lo <= at && at + |chunk| <= hi <= |data|
    ensures Splice(data, at, chunk)[lo..hi] == Splice(data[lo..hi], at - lo, chunk)
  {
  }

  lemma OverwriteOther(data: seq<byte>, at: nat, chunk: seq<byte>, p: nat, index: nat, offset: nat, k: nat)
    requires 0 < p && Locates(at, p, index, offset)
    requires 0 < |chunk| <= p - offset && at + |chunk| <= |data| && k < CeilDiv(|data|, p) && k != index
    ensures Slice(Splice(data, at, chunk), p, k) == Slice(data, p, k)
  {
    FirstByteIsProduct(index, p);
    MulMono(k, index, p);
    MulMono(index, k, p);
    SliceBounds(data, p, k);
    var lo := k * p;
    SpliceOutside(data, at, chunk, lo, Min(lo + p, |data|));
  }

  /** Overwriting bytes inside one packet changes that packet and no other. */
  lemma FragmentOverwrite(data: seq<byte>, at: nat, chunk: seq<byte>, p: nat, index: nat, offset: nat)
    requires 0 < p && Locates(at, p, index, offset)
    requires 0 < |chunk| <= p - offset && at + |chunk| <= |data|
    ensures index < CeilDiv(|data|, p)
    ensures offset + |chunk| <= |Slice(data, p, index)|
    ensures Slice(Splice(data, at, chunk), p, index) == Splice(Slice(data, p, index), offset, chunk)
    ensures forall k: nat | k < CeilDiv(|data|, p) && k != index ::
              Slice(Splice(data, at, chunk), p, k) == Slice(data, p, k)
  {
    FirstByteIsProduct(index, p);
    CeilDivLeast(|data|, p, index);
    var lo := index * p;
    SpliceInside(data, at, chunk, lo, Min(lo + p, |data|));
    forall k: nat | k < CeilDiv(|data|, p) && k != index
      ensures Slice(Splice(data, at, chunk), p, k) == Slice(data, p, k)
    {
      OverwriteOther(data, at, chunk, p, index, offset, k);
    }
  }

  /** A driver packet: `p` bytes of data room behind the header, and the length in use. */
  datatype Frame = Frame(payload: seq<byte>, length: nat)

  /** The packets of a sender message hold exactly `data`. */
  ghost predicate Holds(packets: map<nat, Frame>, p: nat, header: nat, data: seq<byte>)
    requires 0 < p
  {
    && (forall i: nat :: i in packets <==> i < CeilDiv(|data|, p))
    && forall i: nat | i < CeilDiv(|data|, p) :: HoldsAt(packets[i], p, header, Slice(data, p, i))
  }

  ghost predicate HoldsAt(frame: Frame, p: nat, header: nat, slice: seq<byte>) {
    |frame.payload| == p && |slice| <= p && frame.length == header + |slice| && frame.payload[..|slice|] == slice
  }

  lemma HoldsReserved(frame: Frame, p: nat, header: nat, slice: seq<byte>, count: nat)
    requires HoldsAt(frame, p, header, slice) && |slice| + count <= p
    ensures HoldsAt(Frame(frame.payload, frame.length + count), p, header,
                    slice + frame.payload[|slice|..|slice| + count])
  {
  }

  lemma HoldsOverwrite(frame: Frame, p: nat, header: nat, slice: seq<byte>, offset: nat, chunk: seq<byte>)
    requires HoldsAt(frame, p, header, slice) && offset + |chunk| <= |slice|
    ensures HoldsAt(frame.(payload := Splice(frame.payload, offset, chunk)), p, header, Splice(slice, offset, chunk))
  {
  }

  /** Replacing the packet that changed is all it takes to hold a longer message. */
  lemma HoldsLonger(packets: map<nat, Frame>, p: nat, header: nat, data: seq<byte>, chunk: seq<byte>,
                    index: nat, offset: nat, frame: Frame)
    requires 0 < p && Locates(|data|, p, index, offset) && 0 < |chunk| <= p - offset
    requires Holds(packets, p, header, data)
    requires CeilDiv(|data + chunk|, p) == index + 1 && HoldsAt(frame, p, header, Slice(data + chunk, p, index))
    ensures Holds(packets[index := frame], p, header, data + chunk)
  {
    FragmentExtend(data, chunk, p, index, offset);
    forall i: nat | i < index ensures HoldsAt(packets[i], p, header, Slice(data + chunk, p, i)) {
      assert HoldsAt(packets[i], p, header, Slice(data, p, i));
    }
  }

  lemma SpliceSplice(data: seq<byte>, at: nat, a: seq<byte>, b: seq<byte>)
    requires at + |a| + |b| <= |data|
    ensures Splice(Splice(data, at, a), at + |a|, b) == Splice(data, at, a + b)
  {
  }

  /** Bytes copied in two pieces are copied. */
  lemma SpliceMore(data: seq<byte>, at: nat, source: seq<byte>, done: nat, n: nat)
    requires done + n <= |source| && at + |source| <= |data|
    ensures Splice(Splice(data, at, source[..done]), at + done, source[done..done + n]) ==
            Splice(data, at, source[..done + n])
  {
    SpliceSplice(data, at, source[..done], source[done..done + n]);
    assert source[..done] + source[done..done + n] == source[..done + n];
  }

  /** Bytes written right in front of others. */
  lemma SpliceInFront(data: seq<byte>, at: nat, source: seq<byte>)
    requires at + |source| <= |data|
    ensures Splice(data, at, source[..|source|])[at..] == source + data[at + |source|..]
  {
    assert source[..|source|] == source;
  }

  /** What the packets hold fixes every byte that will be sent. */
  lemma HoldsDetermines(a: map<nat, Frame>, b: map<nat, Frame>, p: nat, header: nat, data: seq<byte>)
    requires 0 < p && Holds(a, p, header, data) && Holds(b, p, header, data)
    ensures a.Keys == b.Keys
    ensures forall i | i in a :: a[i].length == b[i].length && header <= a[i].length
    ensures forall i | i in a :: a[i].length <= header + p && |a[i].payload| == |b[i].payload| == p
    ensures forall i | i in a ::
              a[i].payload[..a[i].length - header] == b[i].payload[..b[i].length - header]
  {
    forall i | i in a
      ensures HoldsAt(a[i], p, header, Slice(data, p, i)) && HoldsAt(b[i], p, header, Slice(data, p, i))
    {
    }
  }

  const MAX_MESSAGE_PACKETS: nat := 1024

  /** The building side of a sender message: `reserve`, `append` and `prepend` on packet buffers. */
  class OutBuffer {
    /** PACKET_DATA_LENGTH and TRANSPORT_HEADER_LENGTH. */
    const p: nat
    const header: nat
    /** First byte where data is or will go if empty. */
    var start: nat
    /** Number of bytes including any reserved headroom. */
    var messageLength: nat
    var numPackets: nat
    /** The occupied entries of the packet array. */
    var packets: map<nat, Frame>

    /** The message bytes including the headroom, whose contents are arbitrary. */
    ghost var image: seq<byte>

    ghost predicate Valid()
      reads this
    {
      && 0 < p
      && start <= messageLength == |image| <= p * MAX_MESSAGE_PACKETS
      && numPackets == CeilDiv(messageLength, p)
      && Holds(packets, p, header, image)
    }

    /** The bytes the application put in. */
    ghost function Contents(): seq<byte>
      requires start <= |image|
      reads this
    {
      image[start..]
    }

    constructor (p: nat, header: nat)
      requires 0 < p
      ensures Valid() && Contents() == [] && start == 0 && this.p == p && this.header == header
    {
      this.p, this.header := p, header;
      start, messageLength, numPackets, packets, image := 0, 0, 0, map[], [];
    }

    /** A packet from the driver; its buffer may contain anything. */
    method AllocPacket() returns (frame: Frame)
      ensures |frame.payload| == p && frame.length == header
    {
      frame := Frame(seq(p, _ => 0), header);
    }

    method GetOrAllocPacket(index: nat) returns (frame: Frame)
      modifies this`packets, this`numPackets
      ensures old(index in packets) ==>
                frame == old(packets)[index] && packets == old(packets) && numPackets == old(numPackets)
      ensures old(index !in packets) ==>
                && |frame.payload| == p && frame.length == header
                && packets == old(packets)[index := frame] && numPackets == old(numPackets) + 1
    {
      if index !in packets {
        frame := AllocPacket();
        packets := packets[index := frame];
        numPackets := numPackets + 1;
      } else {
        frame := packets[index];
      }
    }

    /** One turn of the `append` loop: put `chunk` behind the bytes written so far. */
    method AppendChunk(index: nat, offset: nat, chunk: seq<byte>, ghost written: seq<byte>)
      requires 0 < p && Locates(|written|, p, index, offset) && 0 < |chunk| <= p - offset
      requires numPackets == CeilDiv(|written|, p) && Holds(packets, p, header, written)
      modifies this`packets, this`numPackets
      ensures numPackets == CeilDiv(|written + chunk|, p) && Holds(packets, p, header, written + chunk)
    {
      FragmentExtend(written, chunk, p, index, offset);
      var frame := GetOrAllocPacket(index);
      var longer := Frame(Splice(frame.payload, offset, chunk), frame.length + |chunk|);
      HoldsLonger(old(packets), p, header, written, chunk, index, offset, longer);
      packets := packets[index := longer];
    }

    /** Append as many of the bytes as the maximum message size leaves room for. */
    method Append(source: seq<byte>)
      requires Valid()
      modifies this
      ensures Valid() && start == old(start)
      ensures image == AppendedImage(old(image), source, p)
    {
      var count := |source|;
      var packetIndex: nat, packetOffset: nat := messageLength / p, messageLength % p;
      LocatesDivMod(messageLength, p);
      var bytesCopied := 0;
      var maxMessageLength := p * MAX_MESSAGE_PACKETS;
      if messageLength + count > maxMessageLength {
        count := maxMessageLength - messageLength;
      }
      ghost var written := image;
      while bytesCopied < count
        invariant 0 <= bytesCopied <= count <= |source|
        invariant written == image + source[..bytesCopied]
        invariant bytesCopied < count ==> Locates(|written|, p, packetIndex, packetOffset)
        invariant numPackets == CeilDiv(|written|, p) && Holds(packets, p, header, written)
        invariant image == old(image) && start == old(start) && messageLength == old(messageLength)
      {
        var bytesToCopy := Min(count - bytesCopied, p - packetOffset);
        var chunk := source[bytesCopied..bytesCopied + bytesToCopy];
        AppendChunk(packetIndex, packetOffset, chunk, written);
        NextPacket(|written|, p, packetIndex, packetOffset);
        written := written + chunk;
        bytesCopied := bytesCopied + bytesToCopy;
        packetIndex := packetIndex + 1;
        packetOffset := 0;
      }
      messageLength := messageLength + count;
      image := written;
    }

    /** One turn of the `reserve` loop: whatever the buffer contains joins the message. */
    method ReserveChunk(index: nat, offset: nat, count: nat, ghost written: seq<byte>) returns (ghost chunk: seq<byte>)
      requires 0 < p && Locates(|written|, p, index, offset) && 0 < count <= p - offset
      requires numPackets == CeilDiv(|written|, p) && Holds(packets, p, header, written)
      modifies this`packets, this`numPackets
      ensures |chunk| == count
      ensures numPackets == CeilDiv(|written + chunk|, p) && Holds(packets, p, header, written + chunk)
    {
      PacketsBefore(|written|, p, index, offset);
      ghost var slice := if offset == 0 then [] else Slice(written, p, index);
      var frame := GetOrAllocPacket(index);
      assert HoldsAt(frame, p, header, slice);
      chunk := frame.payload[offset..offset + count];
      FragmentExtend(written, chunk, p, index, offset);
      HoldsReserved(frame, p, header, slice, count);
      var longer := Frame(frame.payload, frame.length + count);
      HoldsLonger(old(packets), p, header, written, chunk, index, offset, longer);
      packets := packets[index := longer];
    }

    /** Make headroom for later `prepend` calls; nothing may have been put in yet. */
    method Reserve(size: nat)
      requires Valid() && start == messageLength
      modifies this
      ensures Valid() && start == messageLength && Contents() == []
      ensures start == Min(old(start) + size, p * MAX_MESSAGE_PACKETS)
    {
      var count := size;
      var packetIndex: nat, packetOffset: nat := start / p, start % p;
      LocatesDivMod(start, p);
      var bytesReserved := 0;
      var maxMessageLength := p * MAX_MESSAGE_PACKETS;
      if start + count > maxMessageLength {
        count := maxMessageLength - start;
      }
      ghost var written := image;
      while bytesReserved < count
        invariant 0 <= bytesReserved <= count && |written| == |image| + bytesReserved
        invariant bytesReserved < count ==> Locates(|written|, p, packetIndex, packetOffset)
        invariant numPackets == CeilDiv(|written|, p) && Holds(packets, p, header, written)
        invariant image == old(image) && start == old(start) && messageLength == old(messageLength)
      {
        var bytesToReserve := Min(count - bytesReserved, p - packetOffset);
        ghost var chunk := ReserveChunk(packetIndex, packetOffset, bytesToReserve, written);
        NextPacket(|written|, p, packetIndex, packetOffset);
        written := written + chunk;
        bytesReserved := bytesReserved + bytesToReserve;
        packetIndex := packetIndex + 1;
        packetOffset := 0;
      }
      start := start + count;
      messageLength := messageLength + count;
      image := written;
    }

    /** One turn of the `prepend` loop: overwrite `chunk` at byte `at` of the image. */
    method PrependChunk(index: nat, offset: nat, chunk: seq<byte>, ghost at: nat)
      requires 0 < p && Locates(at, p, index, offset)
      requires 0 < |chunk| <= p - offset && at + |chunk| <= |image|
      requires Holds(packets, p, header, image)
      modifies this`packets, this`image
      ensures image == Splice(old(image), at, chunk) && Holds(packets, p, header, image)
    {
      FragmentOverwrite(image, at, chunk, p, index, offset);
      assert HoldsAt(packets[index], p, header, Slice(image, p, index));
      var frame := packets[index];
      HoldsOverwrite(frame, p, header, Slice(image, p, index), offset, chunk);
      packets := packets[index := frame.(payload := Splice(frame.payload, offset, chunk))];
      image := Splice(image, at, chunk);
      forall i: nat | i < CeilDiv(|image|, p) ensures HoldsAt(packets[i], p, header, Slice(image, p, i)) {
        if i != index {
          assert HoldsAt(old(packets)[i], p, header, Slice(old(image), p, i));
        }
      }
    }

    /** The `prepend` loop: overwrite the bytes from `at` on with the source. */
    method Overwrite(at: nat, source: seq<byte>)
      requires 0 < p && at + |source| <= |image| && Holds(packets, p, header, image)
      modifies this`packets, this`image
      ensures Holds(packets, p, header, image) && image == Splice(old(image), at, source[..|source|])
    {
      var count := |source|;
      var packetIndex: nat, packetOffset: nat := at / p, at % p;
      LocatesDivMod(at, p);
      var bytesCopied := 0;
      while bytesCopied < count
        invariant 0 <= bytesCopied <= count
        invariant bytesCopied < count ==> Locates(at + bytesCopied, p, packetIndex, packetOffset)
        invariant image == Splice(old(image), at, source[..bytesCopied])
        invariant Holds(packets, p, header, image)
      {
        var bytesToCopy := Min(count - bytesCopied, p - packetOffset);
        PrependChunk(packetIndex, packetOffset, source[bytesCopied..bytesCopied + bytesToCopy], at + bytesCopied);
        SpliceMore(old(image), at, source, bytesCopied, bytesToCopy);
        NextPacket(at + bytesCopied, p, packetIndex, packetOffset);
        bytesCopied := bytesCopied + bytesToCopy;
        packetIndex := packetIndex + 1;
        packetOffset := 0;
      }
    }

    /** Put bytes in front of the message, into the headroom. */
    method Prepend(source: seq<byte>)
      requires Valid() && |source| <= start
      modifies this
      ensures Valid() && start == old(start) - |source|
      ensures Contents() == source + old(Contents())
    {
      start := start - |source|;
      Overwrite(start, source);
      SpliceInFront(old(image), start, source);
    }
  }

  /** The image after `append`: the source is cut off at the maximum message length. */
  function AppendedImage(image: seq<byte>, source: seq<byte>, p: nat): seq<byte>
    requires |image| <= p * MAX_MESSAGE_PACKETS
  {
    image + source[..Min(|source|, p * MAX_MESSAGE_PACKETS - |image|)]
  }

  /** Two appends build what one append of the joined bytes builds, also when the maximum cuts them off. */
  lemma AppendTwice(image: seq<byte>, a: seq<byte>, b: seq<byte>, p: nat)
    requires |image| <= p * MAX_MESSAGE_PACKETS
    ensures AppendedImage(AppendedImage(image, a, p), b, p) == AppendedImage(image, a + b, p)
  {
  }

  /** Every stored packet is the packet of `data` with that index. */
  ghost predicate Carries(packets: map<nat, seq<byte>>, p: nat, data: seq<byte>)
    requires 0 < p
  {
    forall i | i in packets :: i < CeilDiv(|data|, p) && packets[i] == Slice(data, p, i)
  }

  /** The bytes of one packet from a given offset on, as a range of the message. */
  lemma SliceRange(data: seq<byte>, p: nat, index: nat, offset: nat, at: nat, count: nat)
    requires 0 < p && Locates(at, p, index, offset) && count <= p - offset && at + count <= |data| && 0 < count
    ensures index < CeilDiv(|data|, p) && offset + count <= |Slice(data, p, index)|
    ensures Slice(data, p, index)[offset..offset + count] == data[at..at + count]
  {
    FirstByteIsProduct(index, p);
    CeilDivLeast(|data|, p, index);
    SubRange(data, index * p, Min(index * p + p, |data|), offset, count);
  }

  lemma SubRange(data: seq<byte>, lo: nat, hi: nat, offset: nat, count: nat)
    requires lo + offset + count <= hi <= |data|
    ensures data[lo..hi][offset..offset + count] == data[lo + offset..lo + offset + count]
  {
    var a, b := data[lo..hi][offset..offset + count], data[lo + offset..lo + offset + count];
    assert forall k | 0 <= k < count :: a[k] == data[lo + offset + k] && b[k] == data[lo + offset + k];
  }

  /** `count` bytes from `from` on, as far as the message reaches. */
  function Range(data: seq<byte>, from: nat, count: nat): seq<byte> {
    data[Min(from, |data|)..Min(from + count, |data|)]
  }

  /** The stored side of a receiver message: `setPacket`, `strip` and `get`. */
  class InBuffer {
    const p: nat
    const messageLength: nat
    var start: nat
    var numPackets: nat
    var packets: map<nat, seq<byte>>

    constructor (p: nat, messageLength: nat)
      ensures this.p == p && this.messageLength == messageLength
      ensures start == 0 && numPackets == 0 && packets == map[]
    {
      this.p, this.messageLength := p, messageLength;
      start, numPackets, packets := 0, 0, map[];
    }

    /** Store a packet unless its index is taken. */
    method SetPacket(index: nat, payload: seq<byte>) returns (stored: bool)
      modifies this`packets, this`numPackets
      ensures stored <==> index !in old(packets)
      ensures packets == if stored then old(packets)[index := payload] else old(packets)
      ensures numPackets == old(numPackets) + if stored then 1 else 0
    {
      if index in packets {
        return false;
      }
      packets := packets[index := payload];
      numPackets := numPackets + 1;
      return true;
    }

    /** Drop bytes from the logical beginning. */
    method Strip(count: nat)
      requires start <= messageLength
      modifies this`start
      ensures start == Min(old(start) + count, messageLength)
    {
      start := Min(start + count, messageLength);
    }

    /** Copy out a range; the copy ends early exactly at the first byte whose packet is missing. */
    method Get(offset: nat, count: nat, ghost data: seq<byte>) returns (destination: seq<byte>)
      requires 0 < p && |data| == messageLength && Carries(packets, p, data)
      ensures start + offset >= messageLength ==> destination == []
      ensures start + offset < messageLength ==>
                Copied(data, packets, p, start + offset, Min(start + offset + count, messageLength), destination)
      ensures (forall i: nat | i < CeilDiv(messageLength, p) :: i in packets) ==>
                destination == Range(data, start + offset, count)
    {
      var realOffset := offset + start;
      destination := [];
      if realOffset >= messageLength {
        return;
      }
      var n := if realOffset + count > messageLength then messageLength - realOffset else count;
      destination := CopyOut(realOffset, n, data);
      CopiedAll(data, packets, p, realOffset, realOffset + n, destination);
    }

    /** The loop of `get`. */
    method CopyOut(realOffset: nat, n: nat, ghost data: seq<byte>) returns (destination: seq<byte>)
      requires 0 < p && |data| == messageLength && Carries(packets, p, data) && realOffset + n <= messageLength
      ensures Copied(data, packets, p, realOffset, realOffset + n, destination)
    {
      var packetIndex: nat, packetOffset: nat := realOffset / p, realOffset % p;
      LocatesDivMod(realOffset, p);
      destination := [];
      while |destination| < n
        invariant |destination| <= n && destination == data[realOffset..realOffset + |destination|]
        invariant |destination| < n ==> Locates(realOffset + |destination|, p, packetIndex, packetOffset)
        decreases n - |destination|
      {
        var bytesToCopy := Min(n - |destination|, p - packetOffset);
        ghost var at := realOffset + |destination|;
        if packetIndex in packets {
          SliceRange(data, p, packetIndex, packetOffset, at, bytesToCopy);
          destination := destination + packets[packetIndex][packetOffset..packetOffset + bytesToCopy];
        } else {
          MissingByte(at, p, packetIndex, packetOffset, messageLength);
          break;
        }
        NextPacket(at, p, packetIndex, packetOffset);
        packetIndex := packetIndex + 1;
        packetOffset := 0;
      }
    }
  }

  /** The bytes from `from` on, up to `to` or to the first byte whose packet is missing. */
  ghost predicate Copied(data: seq<byte>, packets: map<nat, seq<byte>>, p: nat, from: nat, to: nat,
                         destination: seq<byte>)
    requires 0 < p && from <= to <= |data|
  {
    && |destination| <= to - from
    && destination == data[from..from + |destination|]
    && (|destination| < to - from ==> (from + |destination|) / p !in packets)
  }

  lemma CopiedAll(data: seq<byte>, packets: map<nat, seq<byte>>, p: nat, from: nat, to: nat, destination: seq<byte>)
    requires 0 < p && from <= to <= |data| && Copied(data, packets, p, from, to, destination)
    ensures (forall i: nat | i < CeilDiv(|data|, p) :: i in packets) ==> destination == data[from..to]
  {
    if |destination| < to - from {
      var n := from + |destination|;
      LocatesDivMod(n, p);
      MissingByte(n, p, n / p, n % p, |data|);
    }
  }

  /** A byte in front of the end is in a packet of the message. */
  lemma MissingByte(n: nat, p: nat, index: nat, offset: nat, length: nat)
    requires 0 < p && Locates(n, p, index, offset) && n < length
    ensures n / p == index < CeilDiv(length, p)
  {
    LocatesUnique(n, p, index, offset);
    FirstByteIsProduct(index, p);
    CeilDivLeast(length, p, index);
  }

  lemma LocatesUnique(n: nat, p: nat, index: nat, offset: nat)
    requires 0 < p && Locates(n, p, index, offset)
    ensures n / p == index && n % p == offset
  {
    LocatesDivMod(n, p);
    FirstByteIsProduct(index, p);
    FirstByteIsProduct(n / p, p);
    MulMono(n / p, index, p);
    MulMono(index, n / p, p);
  }

  function Sum(counts: seq<nat>): nat {
    if counts == [] then 0 else Sum(counts[..|counts| - 1]) + counts[|counts| - 1]
  }

  /** Deliver packets of a built message in the given order, duplicates included. */
  method Deliver(out: OutBuffer, order: seq<nat>, ghost data: seq<byte>) returns (message: InBuffer)
    requires out.Valid() && data == out.image
    requires forall i | i in order :: i in out.packets
    ensures fresh(message) && message.p == out.p && message.messageLength == |data| && message.start == 0
    ensures Carries(message.packets, out.p, data)
    ensures forall i | i in order :: i in message.packets
  {
    message := new InBuffer(out.p, out.messageLength);
    for k := 0 to |order|
      modifies message
      invariant message.start == 0 && Carries(message.packets, out.p, data)
      invariant forall j | 0 <= j < k :: order[j] in message.packets
    {
      var frame := out.packets[order[k]];
      assert HoldsAt(frame, out.p, out.header, Slice(data, out.p, order[k]));
      var _ := message.SetPacket(order[k], frame.payload[..frame.length - out.header]);
    }
  }

  method StripAll(message: InBuffer, strips: seq<nat>)
    requires message.start == 0
    modifies message`start
    ensures message.start == Min(Sum(strips), message.messageLength)
  {
    for k := 0 to |strips|
      invariant message.start == Min(Sum(strips[..k]), message.messageLength)
    {
      assert strips[..k + 1][..k] == strips[..k];
      message.Strip(strips[k]);
    }
    assert strips[..|strips|] == strips;
  }

  /**
   * The whole path of a message: the packets of a built message, delivered in any
   * order and any number of times as long as each arrives, read back after any
   * number of `strip` calls, give the matching slice of what the application put in.
   */
  method Transfer(out: OutBuffer, order: seq<nat>, strips: seq<nat>, offset: nat, count: nat)
    returns (destination: seq<byte>)
    requires out.Valid() && out.start == 0
    requires forall i | i in order :: i in out.packets
    requires forall i | i in out.packets :: i in order
    ensures destination == Range(out.Contents(), Sum(strips) + offset, count)
  {
    ghost var data := out.image;
    var message := Deliver(out, order, data);
    StripAll(message, strips);
    destination := message.Get(offset, count, data);
  }
}
