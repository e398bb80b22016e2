/** ChatRequestPersistentMessage. Asks for the body of one stored mail message. */
module ChatRequestPersistentMessage {
  import opened Wrappers
  import opened ByteBuffers

  const Opcount: uint16 := 3
  const Opcode: uint32 := 0x07E3559F

  datatype Message = Message(spacer: uint32, mailMessageId: uint32)

  /** The bytes OnSerialize appends, field by field in declaration order. */
  function Encode(m: Message): (r: seq<byte>)
    ensures |r| == 8
  {
    Uint32Bytes(m.spacer) + Uint32Bytes(m.mailMessageId)
  }

  /** What OnDeserialize reads from the front of the buffer; None when the
      buffer runs out first. Each step yields a field and the bytes after it. */
  function Decode(s: seq<byte>): (r: Option<Message>)
    ensures r.Some? <==> |s| >= 8
  {
    var spacer :- TakeUint32(s);
    var mailMessageId :- TakeUint32(spacer.1);
    Some(Message(spacer.0, mailMessageId.0))
  }

  /** Reading back what was written gives the same message, whatever follows it. */
  lemma RoundTrip(m: Message, rest: seq<byte>)
    ensures Decode(Encode(m) + rest) == Some(m)
  {
    Uint32RoundTrip(m.spacer, Uint32Bytes(m.mailMessageId) + rest);
    Uint32RoundTrip(m.mailMessageId, rest);
    assert Encode(m) + rest == Uint32Bytes(m.spacer) + (Uint32Bytes(m.mailMessageId) + rest);
  }

  method OnSerialize(m: Message, buffer: ByteBuffer)
    requires buffer.Valid()
    modifies buffer
    ensures buffer.Valid() && buffer.data == old(buffer.data) + Encode(m)
    ensures buffer.readPosition == old(buffer.readPosition)
  {
    buffer.WriteUint32(m.spacer);
    buffer.WriteUint32(m.mailMessageId);
  }

  /** Reads the fields in order from a copy of the buffer's unread bytes. */
  method OnDeserialize(bytes: seq<byte>) returns (r: Option<Message>)
    ensures r == Decode(bytes)
  {
    var buffer := new ByteBuffer.Wrap(bytes);
    var spacer := buffer.ReadUint32();
    if spacer.None? {
      return None;
    }
    var mailMessageId := buffer.ReadUint32();
    if mailMessageId.None? {
      return None;
    }
    return Some(Message(spacer.value, mailMessageId.value));
  }
}
