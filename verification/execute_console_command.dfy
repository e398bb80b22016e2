/** ExecuteConsoleCommand. A console command line typed by the client. */
module ExecuteConsoleCommand {
  import opened Wrappers
  import opened ByteBuffers

  const Opcount: uint16 := 2
  const Opcode: uint32 := 0xB1CFCE1C

  datatype Message = Message(command: seq<byte>)

  /** Every string field fits its length prefix. */
  predicate Encodable(m: Message) {
    ByteBuffers.Encodable(m.command)
  }

  /** The bytes OnSerialize appends, field by field in declaration order. */
  function Encode(m: Message): (r: seq<byte>)
    ensures |r| == 2 + |m.command|
  {
    StringBytes(m.command)
  }

  /** What OnDeserialize reads from the front of the buffer; None when the
      buffer runs out first. Each step yields a field and the bytes after it. */
  function Decode(s: seq<byte>): (r: Option<Message>)
  {
    var command :- TakeString(s);
    Some(Message(command.0))
  }

  /** Reading back what was written gives the same message, whatever follows it. */
  lemma RoundTrip(m: Message, rest: seq<byte>)
    requires Encodable(m)
    ensures Decode(Encode(m) + rest) == Some(m)
  {
    ReadStringAfterWrite(m.command, rest);
  }

  method OnSerialize(m: Message, buffer: ByteBuffer)
    requires buffer.Valid()
    modifies buffer
    ensures buffer.Valid() && buffer.data == old(buffer.data) + Encode(m)
    ensures buffer.readPosition == old(buffer.readPosition)
  {
    buffer.WriteString(m.command);
  }

  /** Reads the fields in order from a copy of the buffer's unread bytes. */
  method OnDeserialize(bytes: seq<byte>) returns (r: Option<Message>)
    ensures r == Decode(bytes)
  {
    var buffer := new ByteBuffer.Wrap(bytes);
    var command := buffer.ReadString();
    if command.None? {
      return None;
    }
    return Some(Message(command.value));
  }
}
