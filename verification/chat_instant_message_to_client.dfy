/** ChatInstantMessageToClient. A chat line delivered to a client: the game, galaxy and sender names, then the text as a wide string. */
module ChatInstantMessageToClient {
  import opened Wrappers
  import opened ByteBuffers

  const Opcount: uint16 := 4
  const Opcode: uint32 := 0x3C565CED

  datatype Message = Message(gameName: seq<byte>, serverName: seq<byte>, playerName: seq<byte>, message: seq<uint16>)

  /** Every string field fits its length prefix. */
  predicate Encodable(m: Message) {
    ByteBuffers.Encodable(m.gameName) && ByteBuffers.Encodable(m.serverName) && ByteBuffers.Encodable(m.playerName) && ByteBuffers.WideEncodable(m.message)
  }

  /** The bytes OnSerialize appends, field by field in declaration order. */
  function Encode(m: Message): (r: seq<byte>)
    ensures |r| == 2 + |m.gameName| + 2 + |m.serverName| + 2 + |m.playerName| + 4 + 2 * |m.message|
  {
    StringBytes(m.gameName) + StringBytes(m.serverName) + StringBytes(m.playerName) + WideStringBytes(m.message)
  }

  /** What OnDeserialize reads from the front of the buffer; None when the
      buffer runs out first. Each step yields a field and the bytes after it. */
  function Decode(s: seq<byte>): (r: Option<Message>)
  {
    var gameName :- TakeString(s);
    var serverName :- TakeString(gameName.1);
    var playerName :- TakeString(serverName.1);
    var message :- TakeWideString(playerName.1);
    Some(Message(gameName.0, serverName.0, playerName.0, message.0))
  }

  /** Reading back what was written gives the same message, whatever follows it. */
  lemma RoundTrip(m: Message, rest: seq<byte>)
    requires Encodable(m)
    ensures Decode(Encode(m) + rest) == Some(m)
  {
    var afterPlayer := WideStringBytes(m.message) + rest;
    var afterServer := StringBytes(m.playerName) + afterPlayer;
    var afterGame := StringBytes(m.serverName) + afterServer;
    assert Encode(m) + rest == StringBytes(m.gameName) + afterGame;
    ReadStringAfterWrite(m.gameName, afterGame);
    ReadStringAfterWrite(m.serverName, afterServer);
    ReadStringAfterWrite(m.playerName, afterPlayer);
    ReadWideStringAfterWrite(m.message, rest);
  }

  method OnSerialize(m: Message, buffer: ByteBuffer)
    requires buffer.Valid()
    modifies buffer
    ensures buffer.Valid() && buffer.data == old(buffer.data) + Encode(m)
    ensures buffer.readPosition == old(buffer.readPosition)
  {
    buffer.WriteString(m.gameName);
    buffer.WriteString(m.serverName);
    buffer.WriteString(m.playerName);
    buffer.WriteWideString(m.message);
  }

  /** Reads the fields in order from a copy of the buffer's unread bytes. */
  method OnDeserialize(bytes: seq<byte>) returns (r: Option<Message>)
    ensures r == Decode(bytes)
  {
    var buffer := new ByteBuffer.Wrap(bytes);
    var gameName := buffer.ReadString();
    if gameName.None? {
      return None;
    }
    var serverName := buffer.ReadString();
    if serverName.None? {
      return None;
    }
    var playerName := buffer.ReadString();
    if playerName.None? {
      return None;
    }
    var message := buffer.ReadWideString();
    if message.None? {
      return None;
    }
    return Some(Message(gameName.value, serverName.value, playerName.value, message.value));
  }
}
