/** VerifyPlayerNameResponseMessage. The answer to a name check: 1 when the name was accepted, 0 when not, and the attempt it answers. */
module VerifyPlayerNameResponseMessage {
  import opened Wrappers
  import opened ByteBuffers

  const Opcount: uint16 := 9
  const Opcode: uint32 := 0xF4C498FD

  datatype Message = Message(successFlag: byte, attemptsCounter: uint32)

  /** The bytes OnSerialize appends, field by field in declaration order. */
  function Encode(m: Message): (r: seq<byte>)
    ensures |r| == 5
  {
    Uint8Bytes(m.successFlag) + Uint32Bytes(m.attemptsCounter)
  }

  /** What OnDeserialize reads from the front of the buffer; None when the
      buffer runs out first. Each step yields a field and the bytes after it. */
  function Decode(s: seq<byte>): (r: Option<Message>)
    ensures r.Some? <==> |s| >= 5
  {
    var successFlag :- TakeUint8(s);
    var attemptsCounter :- TakeUint32(successFlag.1);
    Some(Message(successFlag.0, attemptsCounter.0))
  }

  /** Reading back what was written gives the same message, whatever follows it. */
  lemma RoundTrip(m: Message, rest: seq<byte>)
    ensures Decode(Encode(m) + rest) == Some(m)
  {
    Uint8RoundTrip(m.successFlag, Uint32Bytes(m.attemptsCounter) + rest);
    Uint32RoundTrip(m.attemptsCounter, rest);
    assert Encode(m) + rest == Uint8Bytes(m.successFlag) + (Uint32Bytes(m.attemptsCounter) + rest);
  }

  method OnSerialize(m: Message, buffer: ByteBuffer)
    requires buffer.Valid()
    modifies buffer
    ensures buffer.Valid() && buffer.data == old(buffer.data) + Encode(m)
    ensures buffer.readPosition == old(buffer.readPosition)
  {
    buffer.WriteUint8(m.successFlag);
    buffer.WriteUint32(m.attemptsCounter);
  }

  /** Reads the fields in order from a copy of the buffer's unread bytes. */
  method OnDeserialize(bytes: seq<byte>) returns (r: Option<Message>)
    ensures r == Decode(bytes)
  {
    var buffer := new ByteBuffer.Wrap(bytes);
    var successFlag := buffer.ReadUint8();
    if successFlag.None? {
      return None;
    }
    var attemptsCounter := buffer.ReadUint32();
    if attemptsCounter.None? {
      return None;
    }
    return Some(Message(successFlag.value, attemptsCounter.value));
  }
}
