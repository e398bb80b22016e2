/** ClientPermissionsMessage. Sent after a successful client-id handshake: whether the galaxy is open, the free character slots and the unlimited-characters flag. */
module ClientPermissionsMessage {
  import opened Wrappers
  import opened ByteBuffers

  const Opcount: uint16 := 4
  const Opcode: uint32 := 0xE00730E5

  datatype Message = Message(galaxyAvailable: byte, availableCharacterSlots: byte, unlimitedCharacters: byte)

  /** The bytes OnSerialize appends, field by field in declaration order. */
  function Encode(m: Message): (r: seq<byte>)
    ensures |r| == 3
  {
    Uint8Bytes(m.galaxyAvailable) + Uint8Bytes(m.availableCharacterSlots) + Uint8Bytes(m.unlimitedCharacters)
  }

  /** What OnDeserialize reads from the front of the buffer; None when the
      buffer runs out first. Each step yields a field and the bytes after it. */
  function Decode(s: seq<byte>): (r: Option<Message>)
    ensures r.Some? <==> |s| >= 3
  {
    var galaxyAvailable :- TakeUint8(s);
    var availableCharacterSlots :- TakeUint8(galaxyAvailable.1);
    var unlimitedCharacters :- TakeUint8(availableCharacterSlots.1);
    Some(Message(galaxyAvailable.0, availableCharacterSlots.0, unlimitedCharacters.0))
  }

  /** Reading back what was written gives the same message, whatever follows it. */
  lemma RoundTrip(m: Message, rest: seq<byte>)
    ensures Decode(Encode(m) + rest) == Some(m)
  {
    Uint8RoundTrip(m.galaxyAvailable, Uint8Bytes(m.availableCharacterSlots) + (Uint8Bytes(m.unlimitedCharacters) + rest));
    Uint8RoundTrip(m.availableCharacterSlots, Uint8Bytes(m.unlimitedCharacters) + rest);
    Uint8RoundTrip(m.unlimitedCharacters, rest);
    assert Encode(m) + rest == Uint8Bytes(m.galaxyAvailable) + (Uint8Bytes(m.availableCharacterSlots) + (Uint8Bytes(m.unlimitedCharacters) + rest));
  }

  method OnSerialize(m: Message, buffer: ByteBuffer)
    requires buffer.Valid()
    modifies buffer
    ensures buffer.Valid() && buffer.data == old(buffer.data) + Encode(m)
    ensures buffer.readPosition == old(buffer.readPosition)
  {
    buffer.WriteUint8(m.galaxyAvailable);
    buffer.WriteUint8(m.availableCharacterSlots);
    buffer.WriteUint8(m.unlimitedCharacters);
  }

  /** Reads the fields in order from a copy of the buffer's unread bytes. */
  method OnDeserialize(bytes: seq<byte>) returns (r: Option<Message>)
    ensures r == Decode(bytes)
  {
    var buffer := new ByteBuffer.Wrap(bytes);
    var galaxyAvailable := buffer.ReadUint8();
    if galaxyAvailable.None? {
      return None;
    }
    var availableCharacterSlots := buffer.ReadUint8();
    if availableCharacterSlots.None? {
      return None;
    }
    var unlimitedCharacters := buffer.ReadUint8();
    if unlimitedCharacters.None? {
      return None;
    }
    return Some(Message(galaxyAvailable.value, availableCharacterSlots.value, unlimitedCharacters.value));
  }
}
