/** RemoveItemMessage. Removes an item from the trade window. */
module RemoveItemMessage {
  import opened Wrappers
  import opened ByteBuffers

  const Opcount: uint16 := 1
  const Opcode: uint32 := 0x4417AF8B

  datatype Message = Message(itemId: uint64)

  /** The bytes OnSerialize appends, field by field in declaration order. */
  function Encode(m: Message): (r: seq<byte>)
    ensures |r| == 8
  {
    Uint64Bytes(m.itemId)
  }

  /** What OnDeserialize reads from the front of the buffer; None when the
      buffer runs out first. Each step yields a field and the bytes after it. */
  function Decode(s: seq<byte>): (r: Option<Message>)
    ensures r.Some? <==> |s| >= 8
  {
    var itemId :- TakeUint64(s);
    Some(Message(itemId.0))
  }

  /** Reading back what was written gives the same message, whatever follows it. */
  lemma RoundTrip(m: Message, rest: seq<byte>)
    ensures Decode(Encode(m) + rest) == Some(m)
  {
    Uint64RoundTrip(m.itemId, rest);
  }

  method OnSerialize(m: Message, buffer: ByteBuffer)
    requires buffer.Valid()
    modifies buffer
    ensures buffer.Valid() && buffer.data == old(buffer.data) + Encode(m)
    ensures buffer.readPosition == old(buffer.readPosition)
  {
    buffer.WriteUint64(m.itemId);
  }

  /** Reads the fields in order from a copy of the buffer's unread bytes. */
  method OnDeserialize(bytes: seq<byte>) returns (r: Option<Message>)
    ensures r == Decode(bytes)
  {
    var buffer := new ByteBuffer.Wrap(bytes);
    var itemId := buffer.ReadUint64();
    if itemId.None? {
      return None;
    }
    return Some(Message(itemId.value));
  }
}
