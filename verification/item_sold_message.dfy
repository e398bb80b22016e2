/** ItemSoldMessage. The outcome of a sale: the item and a status flag. */
module ItemSoldMessage {
  import opened Wrappers
  import opened ByteBuffers

  const Opcount: uint16 := 3
  const Opcode: uint32 := 0x0E61CC92

  datatype Message = Message(itemId: uint64, statusFlag: uint32)

  /** The bytes OnSerialize appends, field by field in declaration order. */
  function Encode(m: Message): (r: seq<byte>)
    ensures |r| == 12
  {
    Uint64Bytes(m.itemId) + Uint32Bytes(m.statusFlag)
  }

  /** What OnDeserialize reads from the front of the buffer; None when the
      buffer runs out first. Each step yields a field and the bytes after it. */
  function Decode(s: seq<byte>): (r: Option<Message>)
    ensures r.Some? <==> |s| >= 12
  {
    var itemId :- TakeUint64(s);
    var statusFlag :- TakeUint32(itemId.1);
    Some(Message(itemId.0, statusFlag.0))
  }

  /** Reading back what was written gives the same message, whatever follows it. */
  lemma RoundTrip(m: Message, rest: seq<byte>)
    ensures Decode(Encode(m) + rest) == Some(m)
  {
    Uint64RoundTrip(m.itemId, Uint32Bytes(m.statusFlag) + rest);
    Uint32RoundTrip(m.statusFlag, rest);
    assert Encode(m) + rest == Uint64Bytes(m.itemId) + (Uint32Bytes(m.statusFlag) + rest);
  }

  method OnSerialize(m: Message, buffer: ByteBuffer)
    requires buffer.Valid()
    modifies buffer
    ensures buffer.Valid() && buffer.data == old(buffer.data) + Encode(m)
    ensures buffer.readPosition == old(buffer.readPosition)
  {
    buffer.WriteUint64(m.itemId);
    buffer.WriteUint32(m.statusFlag);
  }

  /** Reads the fields in order from a copy of the buffer's unread bytes. */
  method OnDeserialize(bytes: seq<byte>) returns (r: Option<Message>)
    ensures r == Decode(bytes)
  {
    var buffer := new ByteBuffer.Wrap(bytes);
    var itemId := buffer.ReadUint64();
    if itemId.None? {
      return None;
    }
    var statusFlag := buffer.ReadUint32();
    if statusFlag.None? {
      return None;
    }
    return Some(Message(itemId.value, statusFlag.value));
  }
}
