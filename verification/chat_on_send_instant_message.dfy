/** ChatOnSendInstantMessage. Acknowledges a sent chat line: 0 for success, 4 for failure, and the sequence number it answers. */
module ChatOnSendInstantMessage {
  import opened Wrappers
  import opened ByteBuffers

  const Opcount: uint16 := 3
  const Opcode: uint32 := 0x88DBB381

  datatype Message = Message(successFlag: uint32, sequenceNumber: uint32)

  /** The bytes OnSerialize appends, field by field in declaration order. */
  function Encode(m: Message): (r: seq<byte>)
    ensures |r| == 8
  {
    Uint32Bytes(m.successFlag) + Uint32Bytes(m.sequenceNumber)
  }

  /** What OnDeserialize reads from the front of the buffer; None when the
      buffer runs out first. Each step yields a field and the bytes after it. */
  function Decode(s: seq<byte>): (r: Option<Message>)
    ensures r.Some? <==> |s| >= 8
  {
    var successFlag :- TakeUint32(s);
    var sequenceNumber :- TakeUint32(successFlag.1);
    Some(Message(successFlag.0, sequenceNumber.0))
  }

  /** Reading back what was written gives the same message, whatever follows it. */
  lemma RoundTrip(m: Message, rest: seq<byte>)
    ensures Decode(Encode(m) + rest) == Some(m)
  {
    Uint32RoundTrip(m.successFlag, Uint32Bytes(m.sequenceNumber) + rest);
    Uint32RoundTrip(m.sequenceNumber, rest);
    assert Encode(m) + rest == Uint32Bytes(m.successFlag) + (Uint32Bytes(m.sequenceNumber) + rest);
  }

  method OnSerialize(m: Message, buffer: ByteBuffer)
    requires buffer.Valid()
    modifies buffer
    ensures buffer.Valid() && buffer.data == old(buffer.data) + Encode(m)
    ensures buffer.readPosition == old(buffer.readPosition)
  {
    buffer.WriteUint32(m.successFlag);
    buffer.WriteUint32(m.sequenceNumber);
  }

  /** Reads the fields in order from a copy of the buffer's unread bytes. */
  method OnDeserialize(bytes: seq<byte>) returns (r: Option<Message>)
    ensures r == Decode(bytes)
  {
    var buffer := new ByteBuffer.Wrap(bytes);
    var successFlag := buffer.ReadUint32();
    if successFlag.None? {
      return None;
    }
    var sequenceNumber := buffer.ReadUint32();
    if sequenceNumber.None? {
      return None;
    }
    return Some(Message(successFlag.value, sequenceNumber.value));
  }
}
