/** ConnectPlayerMessage. Sent when a player connects; its one field is always 0. */
module ConnectPlayerMessage {
  import opened Wrappers
  import opened ByteBuffers

  const Opcount: uint16 := 2
  const Opcode: uint32 := 0x2E365218

  datatype Message = Message(unknown: uint32)

  /** The default-constructed message: its one field starts at 0, so it
      serializes to four zero bytes. */
  function Default(): (m: Message)
    ensures Encode(m) == [0, 0, 0, 0]
  {
    Message(0)
  }

  /** The bytes OnSerialize appends, field by field in declaration order. */
  function Encode(m: Message): (r: seq<byte>)
    ensures |r| == 4
  {
    Uint32Bytes(m.unknown)
  }

  /** What OnDeserialize reads from the front of the buffer; None when the
      buffer runs out first. Each step yields a field and the bytes after it. */
  function Decode(s: seq<byte>): (r: Option<Message>)
    ensures r.Some? <==> |s| >= 4
  {
    var unknown :- TakeUint32(s);
    Some(Message(unknown.0))
  }

  /** Reading back what was written gives the same message, whatever follows it. */
  lemma RoundTrip(m: Message, rest: seq<byte>)
    ensures Decode(Encode(m) + rest) == Some(m)
  {
    Uint32RoundTrip(m.unknown, rest);
  }

  method OnSerialize(m: Message, buffer: ByteBuffer)
    requires buffer.Valid()
    modifies buffer
    ensures buffer.Valid() && buffer.data == old(buffer.data) + Encode(m)
    ensures buffer.readPosition == old(buffer.readPosition)
  {
    buffer.WriteUint32(m.unknown);
  }

  /** Reads the fields in order from a copy of the buffer's unread bytes. */
  method OnDeserialize(bytes: seq<byte>) returns (r: Option<Message>)
    ensures r == Decode(bytes)
  {
    var buffer := new ByteBuffer.Wrap(bytes);
    var unknown := buffer.ReadUint32();
    if unknown.None? {
      return None;
    }
    return Some(Message(unknown.value));
  }
}
