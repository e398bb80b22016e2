/** ParametersMessage. The client parameter flag. */
module ParametersMessage {
  import opened Wrappers
  import opened ByteBuffers

  const Opcount: uint16 := 2
  const Opcode: uint32 := 0x487652DA

  datatype Message = Message(parameterFlag: uint32)

  /** The bytes OnSerialize appends, field by field in declaration order. */
  function Encode(m: Message): (r: seq<byte>)
    ensures |r| == 4
  {
    Uint32Bytes(m.parameterFlag)
  }

  /** What OnDeserialize reads from the front of the buffer; None when the
      buffer runs out first. Each step yields a field and the bytes after it. */
  function Decode(s: seq<byte>): (r: Option<Message>)
    ensures r.Some? <==> |s| >= 4
  {
    var parameterFlag :- TakeUint32(s);
    Some(Message(parameterFlag.0))
  }

  /** Reading back what was written gives the same message, whatever follows it. */
  lemma RoundTrip(m: Message, rest: seq<byte>)
    ensures Decode(Encode(m) + rest) == Some(m)
  {
    Uint32RoundTrip(m.parameterFlag, rest);
  }

  method OnSerialize(m: Message, buffer: ByteBuffer)
    requires buffer.Valid()
    modifies buffer
    ensures buffer.Valid() && buffer.data == old(buffer.data) + Encode(m)
    ensures buffer.readPosition == old(buffer.readPosition)
  {
    buffer.WriteUint32(m.parameterFlag);
  }

  /** Reads the fields in order from a copy of the buffer's unread bytes. */
  method OnDeserialize(bytes: seq<byte>) returns (r: Option<Message>)
    ensures r == Decode(bytes)
  {
    var buffer := new ByteBuffer.Wrap(bytes);
    var parameterFlag := buffer.ReadUint32();
    if parameterFlag.None? {
      return None;
    }
    return Some(Message(parameterFlag.value));
  }
}
