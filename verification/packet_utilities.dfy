/** SOE data-channel framing: the 4-byte data and fragment headers, packing
    several application messages into one multi-message packet, and splitting
    an oversized message into fragments. */
module PacketUtilities {
  import opened Wrappers
  import opened ByteBuffers

  const DataChannelOpcode: uint16 := 0x09
  const FragmentedDataChannelOpcode: uint16 := 0x0D
  const MultiMessageOpcode: uint16 := 0x19

  /** Marks a size prefix that goes on in a 16-bit big-endian size. */
  const LongSizeMarker: byte := 0xFF

  // ---------------------------------------------------------------------
  // Headers

  method BuildDataChannelHeader(sequence: uint16) returns (header: seq<byte>)
    ensures header == [0x00, 0x09, sequence / 0x100, sequence % 0x100]
    ensures FromBigEndian(header[..2]) == DataChannelOpcode
    ensures FromBigEndian(header[2..]) == sequence
  {
    var buffer := new ByteBuffer();
    buffer.WriteUint16(HostToBig16(DataChannelOpcode));
    buffer.WriteUint16(HostToBig16(sequence));
    header := buffer.data;
    HostToBig16Bytes(DataChannelOpcode);
    HostToBig16Bytes(sequence);
    BigEndianRoundTrip(sequence, 2);
    assert header[2..] == BigEndian(sequence, 2);
  }

  method BuildFragmentedDataChannelHeader(sequence: uint16) returns (header: seq<byte>)
    ensures header == [0x00, 0x0D, sequence / 0x100, sequence % 0x100]
    ensures FromBigEndian(header[..2]) == FragmentedDataChannelOpcode
    ensures FromBigEndian(header[2..]) == sequence
  {
    var buffer := new ByteBuffer();
    buffer.WriteUint16(HostToBig16(FragmentedDataChannelOpcode));
    buffer.WriteUint16(HostToBig16(sequence));
    header := buffer.data;
    HostToBig16Bytes(FragmentedDataChannelOpcode);
    HostToBig16Bytes(sequence);
    BigEndianRoundTrip(sequence, 2);
    assert header[2..] == BigEndian(sequence, 2);
  }

  // ---------------------------------------------------------------------
  // Multi-message packing

  /** The size prefix of one packed message: the size itself in one byte
      below 255; otherwise 0xFF and the size as a big-endian uint16, which
      keeps only its low 16 bits. */
  function SizePrefix(size: nat): seq<byte> {
    if size >= 255 then [LongSizeMarker] + BigEndian(size % 0x1_0000, 2) else [size]
  }

  function Framed(item: seq<byte>): seq<byte> {
    SizePrefix(|item|) + item
  }

  function PackedItems(items: seq<seq<byte>>): seq<byte> {
    if items == [] then [] else Framed(items[0]) + PackedItems(items[1..])
  }

  /** What PackDataChannelMessages produces: a lone message unchanged, any
      other list (the empty one too) behind the 00 19 opcode, each message
      after its size prefix. */
  function Packed(items: seq<seq<byte>>): seq<byte> {
    if |items| == 1 then items[0] else [0x00, 0x19] + PackedItems(items)
  }

  lemma {:induction false} PackedItemsAppend(items: seq<seq<byte>>, item: seq<byte>)
    ensures PackedItems(items + [item]) == PackedItems(items) + Framed(item)
  {
    if items == [] {
      assert items + [item] == [item];
    } else {
      assert (items + [item])[1..] == items[1..] + [item];
      PackedItemsAppend(items[1..], item);
    }
  }

  method WriteSizePrefix(output: ByteBuffer, size: nat)
    requires output.Valid()
    modifies output
    ensures output.Valid() && output.data == old(output.data) + SizePrefix(size)
    ensures output.readPosition == old(output.readPosition)
  {
    if size >= 255 {
      output.WriteUint8(LongSizeMarker);
      output.WriteUint16(HostToBig16(size % 0x1_0000));
      HostToBig16Bytes(size % 0x1_0000);
    } else {
      output.WriteUint8(size);
    }
  }

  /** Appends one message behind its size prefix. */
  method WriteFramed(output: ByteBuffer, item: seq<byte>)
    requires output.Valid()
    modifies output
    ensures output.Valid() && output.data == old(output.data) + Framed(item)
    ensures output.readPosition == old(output.readPosition)
  {
    WriteSizePrefix(output, |item|);
    output.Write(item);
  }

  method PackDataChannelMessages(dataList: seq<seq<byte>>) returns (packed: seq<byte>)
    ensures packed == Packed(dataList)
  {
    var output := new ByteBuffer();
    if |dataList| == 1 {
      var only := new ByteBuffer.Wrap(dataList[0]);
      output.Append(only);
      assert only.Unread() == dataList[0];
      return output.data;
    }
    output.WriteUint16(HostToBig16(MultiMessageOpcode));
    HostToBig16Bytes(MultiMessageOpcode);
    assert output.data == [0x00, 0x19] + PackedItems([]);
    for i := 0 to |dataList|
      invariant output.Valid()
      invariant output.data == [0x00, 0x19] + PackedItems(dataList[..i])
    {
      var item := dataList[i];
      WriteFramed(output, item);
      PackedItemsAppend(dataList[..i], item);
      assert dataList[..i + 1] == dataList[..i] + [item];
    }
    assert dataList[..|dataList|] == dataList;
    packed := output.data;
    assert packed == [0x00, 0x19] + PackedItems(dataList);
  }

  /** The receiving side: splits the body of a multi-message packet back into
      its messages, reading 0xFF as the start of a long size. */
  function UnpackItems(s: seq<byte>): Option<seq<seq<byte>>>
    decreases |s|
  {
    if s == [] then Some([])
    else if s[0] == LongSizeMarker && |s| < 3 then None
    else
      var start := if s[0] == LongSizeMarker then 3 else 1;
      var size := if s[0] == LongSizeMarker then FromBigEndian(s[1..3]) else s[0];
      if |s| - start < size then None
      else match UnpackItems(s[start + size..])
        case None => None
        case Some(rest) => Some([s[start..start + size]] + rest)
  }

  function Unpack(packet: seq<byte>): Option<seq<seq<byte>>> {
    if |packet| < 2 || packet[..2] != [0x00, 0x19] then None else UnpackItems(packet[2..])
  }

  /** Messages whose size the 16-bit long prefix can hold. */
  predicate Packable(items: seq<seq<byte>>) {
    forall i :: 0 <= i < |items| ==> |items[i]| < 0x1_0000
  }

  lemma UnpackFramed(item: seq<byte>, rest: seq<byte>)
    requires |item| < 0x1_0000
    ensures UnpackItems(Framed(item) + rest) == match UnpackItems(rest)
      case None => None
      case Some(items) => Some([item] + items)
  {
    var s := Framed(item) + rest;
    if |item| >= 255 {
      assert s[1..3] == BigEndian(|item|, 2);
      BigEndianRoundTrip(|item|, 2);
      Pow256Facts();
      assert s[3..3 + |item|] == item && s[3 + |item|..] == rest;
    } else {
      assert s[1..1 + |item|] == item && s[1 + |item|..] == rest;
    }
  }

  /** Unpacking a packed list gives back the list. */
  lemma {:induction false} UnpackPackedItems(items: seq<seq<byte>>)
    requires Packable(items)
    ensures UnpackItems(PackedItems(items)) == Some(items)
  {
    if items != [] {
      UnpackPackedItems(items[1..]);
      UnpackFramed(items[0], PackedItems(items[1..]));
      assert [items[0]] + items[1..] == items;
    }
  }

  /** Every list other than a lone message is recovered exactly from its
      packet, when every message is shorter than 65536 bytes. */
  lemma PackRoundTrip(items: seq<seq<byte>>)
    requires |items| != 1 && Packable(items)
    ensures Unpack(Packed(items)) == Some(items)
  {
    UnpackPackedItems(items);
    assert Packed(items)[2..] == PackedItems(items);
  }

  function PrefixLength(size: nat): nat {
    if size >= 255 then 3 else 1
  }

  function PackedLength(items: seq<seq<byte>>): nat {
    if items == [] then 0 else PrefixLength(|items[0]|) + |items[0]| + PackedLength(items[1..])
  }

  /** A packet is 2 bytes plus, per message, its prefix and its bytes. */
  lemma {:induction false} PackedSize(items: seq<seq<byte>>)
    requires |items| != 1
    ensures |Packed(items)| == 2 + PackedLength(items)
  {
    PackedItemsSize(items);
  }

  lemma {:induction false} PackedItemsSize(items: seq<seq<byte>>)
    ensures |PackedItems(items)| == PackedLength(items)
  {
    if items != [] {
      PackedItemsSize(items[1..]);
    }
  }

  /** A message of 65536 bytes gets the long prefix FF 00 00: its size wraps
      to 0 and the packet no longer carries it. */
  lemma OversizedMessageLosesItsSize(item: seq<byte>)
    requires |item| == 0x1_0000
    ensures Framed(item)[..3] == [0xFF, 0x00, 0x00]
    ensures UnpackItems(PackedItems([item])) != Some([item])
  {
    var s := PackedItems([item]);
    assert s == Framed(item);
    assert s[1..3] == [0, 0];
    assert FromBigEndian(s[1..3]) == 0;
    assert s[3..3] == [] && s[3 + 0..] == s[3..];
    var r := UnpackItems(s[3..]);
    if r.Some? {
      assert UnpackItems(s) == Some([[]] + r.value);
    }
  }

  // ---------------------------------------------------------------------
  // Splitting

  datatype SplitError = InvalidArgument(what: string)

  /** The chunk one pass of the split loop copies: at most maxSize bytes, and
      4 fewer (in uint32 arithmetic) on the pass that writes the size prefix,
      the pass that starts with nothing consumed. */
  function ChunkSize(remaining: nat, messageSize: nat, maxSize: nat): nat {
    var chunk := if remaining > maxSize then maxSize else remaining;
    if remaining == messageSize then (chunk - 4) % 0x1_0000_0000 else chunk
  }

  /** The fragments after the first: maxSize-byte chunks, the last one shorter. */
  function Chunks(rest: seq<byte>, maxSize: nat): seq<seq<byte>>
    requires maxSize > 0
    decreases |rest|
  {
    if rest == [] then []
    else if |rest| > maxSize then [rest[..maxSize]] + Chunks(rest[maxSize..], maxSize)
    else [rest]
  }

  /** The fragments of a message: the 4-byte big-endian total size and the
      first maxSize - 4 bytes, then the rest in chunks of maxSize. */
  function Fragments(message: seq<byte>, maxSize: nat): seq<seq<byte>>
    requires 4 < maxSize <= |message|
  {
    [BigEndian(|message|, 4) + message[..maxSize - 4]] + Chunks(message[maxSize - 4..], maxSize)
  }

  method SplitDataChannelMessage(message: seq<byte>, maxSize: uint32)
    returns (r: Result<seq<seq<byte>>, SplitError>)
    requires |message| < 0x1_0000_0000
    requires |message| < maxSize || maxSize > 4 || |message| == 0
    ensures r.Err? <==> |message| < maxSize
    ensures r.Ok? && |message| == 0 ==> r.value == []
    ensures r.Ok? && |message| > 0 ==> r.value == Fragments(message, maxSize)
  {
    var messageSize: uint32 := |message|;
    if messageSize < maxSize {
      return Err(InvalidArgument("Message must be bigger than max size"));
    }
    var fragments: seq<seq<byte>> := [];
    var remaining: uint32 := messageSize;
    while remaining != 0
      invariant remaining <= messageSize
      invariant remaining == messageSize ==> fragments == []
      invariant remaining < messageSize ==>
        fragments + Chunks(message[messageSize - remaining..], maxSize) == Fragments(message, maxSize)
      decreases remaining
    {
      var fragment := new ByteBuffer();
      var chunk := ChunkSize(remaining, messageSize, maxSize);
      var offset := messageSize - remaining;
      if remaining == messageSize {
        fragment.WriteUint32(HostToBig32(messageSize));
        HostToBig32Bytes(messageSize);
      }
      fragment.Write(message[offset..offset + chunk]);
      ghost var rest := message[offset..];
      if remaining == messageSize {
        assert fragment.data == Fragments(message, maxSize)[0];
        assert message[offset + chunk..] == message[maxSize - 4..];
      } else if remaining > maxSize {
        assert fragment.data == rest[..maxSize];
        assert message[offset + chunk..] == rest[maxSize..];
        assert Chunks(rest, maxSize) == [fragment.data] + Chunks(message[offset + chunk..], maxSize);
      } else {
        assert fragment.data == rest;
        assert Chunks(rest, maxSize) == [fragment.data];
      }
      fragments := fragments + [fragment.data];
      remaining := remaining - chunk;
    }
    return Ok(fragments);
  }

  // ---------------------------------------------------------------------
  // Properties of the fragments

  function Concat(pieces: seq<seq<byte>>): seq<byte> {
    if pieces == [] then [] else pieces[0] + Concat(pieces[1..])
  }

  lemma {:induction false} ChunksConcat(rest: seq<byte>, maxSize: nat)
    requires maxSize > 0
    ensures Concat(Chunks(rest, maxSize)) == rest
    decreases |rest|
  {
    if rest != [] && |rest| > maxSize {
      ChunksConcat(rest[maxSize..], maxSize);
      assert rest[..maxSize] + rest[maxSize..] == rest;
    }
  }

  lemma {:induction false} ChunksBounded(rest: seq<byte>, maxSize: nat)
    requires maxSize > 0
    ensures forall i :: 0 <= i < |Chunks(rest, maxSize)| ==> 0 < |Chunks(rest, maxSize)[i]| <= maxSize
    decreases |rest|
  {
    if rest != [] && |rest| > maxSize {
      ChunksBounded(rest[maxSize..], maxSize);
    }
  }

  /** The fragments, joined, are the 4-byte big-endian size followed by the
      message; so they carry |message| + 4 bytes in all. */
  lemma FragmentsReassemble(message: seq<byte>, maxSize: nat)
    requires 4 < maxSize <= |message|
    ensures Concat(Fragments(message, maxSize)) == BigEndian(|message|, 4) + message
    ensures |Concat(Fragments(message, maxSize))| == |message| + 4
  {
    var tail := message[maxSize - 4..];
    ChunksConcat(tail, maxSize);
    assert Fragments(message, maxSize)[1..] == Chunks(tail, maxSize);
    assert message[..maxSize - 4] + tail == message;
  }

  /** The size prefix reads back as the message size. */
  lemma FirstFragmentCarriesSize(message: seq<byte>, maxSize: nat)
    requires 4 < maxSize <= |message| < 0x1_0000_0000
    ensures FromBigEndian(Fragments(message, maxSize)[0][..4]) == |message|
    ensures |Fragments(message, maxSize)[0]| == maxSize
  {
    Pow256Facts();
    BigEndianRoundTrip(|message|, 4);
    assert Fragments(message, maxSize)[0][..4] == BigEndian(|message|, 4);
  }

  /** No fragment is empty or longer than maxSize. */
  lemma FragmentsBounded(message: seq<byte>, maxSize: nat)
    requires 4 < maxSize <= |message|
    ensures forall i :: 0 <= i < |Fragments(message, maxSize)| ==>
      0 < |Fragments(message, maxSize)[i]| <= maxSize
  {
    var tail := message[maxSize - 4..];
    ChunksBounded(tail, maxSize);
    var fs := Fragments(message, maxSize);
    forall i | 0 <= i < |fs|
      ensures 0 < |fs[i]| <= maxSize
    {
      if i > 0 {
        assert fs[i] == Chunks(tail, maxSize)[i - 1];
      }
    }
  }

  /** A message of exactly maxSize bytes is accepted and becomes two fragments,
      the second holding its last 4 bytes. */
  lemma SplitAtExactlyMaxSize(message: seq<byte>, maxSize: nat)
    requires 4 < maxSize == |message|
    ensures |Fragments(message, maxSize)| == 2
    ensures Fragments(message, maxSize)[1] == message[maxSize - 4..]
  {
  }

  /** With maxSize 4 the first pass copies nothing, so remaining_bytes never
      shrinks and the split loop does not end. */
  lemma SplitStallsAtMaxSizeFour(messageSize: nat)
    requires messageSize >= 4
    ensures ChunkSize(messageSize, messageSize, 4) == 0
  {
  }

  /** With 0 < maxSize < 4 the first chunk wraps around in uint32 and is
      longer than the whole message. */
  lemma SplitChunkWrapsBelowFour(messageSize: nat, maxSize: nat)
    requires 0 < maxSize < 4 && maxSize <= messageSize < 0x1_0000_0000 - 4
    ensures ChunkSize(messageSize, messageSize, maxSize) > messageSize
  {
  }
}
