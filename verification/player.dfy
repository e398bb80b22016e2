/** The element types the player object keeps in its delta containers:
    abilities, names, experience entries, flag bitmasks, quest journal
    entries and draft schematics. Each is written into a baselines or a
    deltas message, and each has its own notion of equality, which the
    containers use to find an element. */
module Player {
  import opened Wrappers
  import opened ByteBuffers

  /** The object type tag of a player object ('PLAY'). */
  const PlayerType: uint32 := 0x504c4159

  /** Read most significant byte first, the type tag spells "PLAY". */
  lemma PlayerTypeSpellsPlay()
    ensures BigEndian(PlayerType, 4) == ['P' as byte, 'L' as byte, 'A' as byte, 'Y' as byte]
  {
  }

  /** What Serialize appends in either message; strings are std::string
      bytes. */
  datatype Ability = Ability(ability: seq<byte>) {
    /** The default constructor: the empty ability. */
    static function Default(): (a: Ability)
      ensures a.Bytes(Baseline) == [0, 0] && a.Bytes(Delta) == [0, 0]
    {
      Ability([])
    }

    function Bytes(kind: Kind): (r: seq<byte>)
      ensures |r| == 2 + |ability|
    {
      match kind
      case Baseline => StringBytes(ability)
      case Delta => StringBytes(ability)
    }

    method Serialize(kind: Kind, message: ByteBuffer)
      requires message.Valid()
      modifies message
      ensures message.Valid() && message.data == old(message.data) + Bytes(kind)
      ensures message.readPosition == old(message.readPosition)
    {
      message.WriteString(ability);
    }

    predicate Equals(other: Ability) {
      ability == other.ability
    }
  }

  datatype Name = Name(name: seq<byte>) {
    /** The default constructor: the empty name. */
    static function Default(): (n: Name)
      ensures n.Bytes(Baseline) == [0, 0] && n.Bytes(Delta) == [0, 0]
    {
      Name([])
    }

    function Bytes(kind: Kind): (r: seq<byte>)
      ensures |r| == 2 + |name|
    {
      match kind
      case Baseline => StringBytes(name)
      case Delta => StringBytes(name)
    }

    method Serialize(kind: Kind, message: ByteBuffer)
      requires message.Valid()
      modifies message
      ensures message.Valid() && message.data == old(message.data) + Bytes(kind)
      ensures message.readPosition == old(message.readPosition)
    {
      message.WriteString(name);
    }

    predicate Equals(other: Name) {
      name == other.name
    }
  }

  /** An experience entry: its type and amount. The baseline form starts
      with an extra zero byte. */
  datatype XpData = XpData(xpType: seq<byte>, value: uint32) {
    static function Default(): (x: XpData)
      ensures x.Bytes(Delta) == [0, 0, 0, 0, 0, 0]
      ensures x.Bytes(Baseline) == [0, 0, 0, 0, 0, 0, 0]
    {
      XpData([], 0)
    }

    function Bytes(kind: Kind): (r: seq<byte>)
      ensures |r| == (if kind == Baseline then 1 else 0) + 2 + |xpType| + 4
    {
      match kind
      case Baseline => Uint8Bytes(0) + StringBytes(xpType) + Uint32Bytes(value)
      case Delta => StringBytes(xpType) + Uint32Bytes(value)
    }

    method Serialize(kind: Kind, message: ByteBuffer)
      requires message.Valid()
      modifies message
      ensures message.Valid() && message.data == old(message.data) + Bytes(kind)
      ensures message.readPosition == old(message.readPosition)
    {
      if kind == Baseline {
        message.WriteUint8(0);
      }
      message.WriteString(xpType);
      message.WriteUint32(value);
    }

    predicate Equals(other: XpData) {
      xpType == other.xpType && value == other.value
    }
  }

  datatype FlagBitmask = FlagBitmask(bitmask: uint32) {
    static function Default(): (f: FlagBitmask)
      ensures f.Bytes(Baseline) == [0, 0, 0, 0] && f.Bytes(Delta) == [0, 0, 0, 0]
    {
      FlagBitmask(0)
    }

    function Bytes(kind: Kind): (r: seq<byte>)
      ensures |r| == 4
    {
      match kind
      case Baseline => Uint32Bytes(bitmask)
      case Delta => Uint32Bytes(bitmask)
    }

    method Serialize(kind: Kind, message: ByteBuffer)
      requires message.Valid()
      modifies message
      ensures message.Valid() && message.data == old(message.data) + Bytes(kind)
      ensures message.readPosition == old(message.readPosition)
    {
      message.WriteUint32(bitmask);
    }

    predicate Equals(other: FlagBitmask) {
      other.bitmask == bitmask
    }
  }

  /** The byte a bool is written as. */
  function FlagByte(b: bool): byte {
    if b then 1 else 0
  }

  /** A quest journal entry. Two entries are equal when they are about the
      same quest, whatever their progress. */
  datatype QuestJournalData = QuestJournalData(
    questCrc: uint32,
    ownerId: uint64,
    activeStepBitmask: uint16,
    completedStepBitmask: uint16,
    completedFlag: bool,
    counter: uint32)
  {
    static function Default(): (q: QuestJournalData)
      ensures q.Bytes(Delta) == seq(21, i => 0)
      ensures q.Bytes(Baseline) == seq(22, i => 0)
    {
      QuestJournalData(0, 0, 0, 0, false, 0)
    }

    function Bytes(kind: Kind): (r: seq<byte>)
      ensures |r| == if kind == Baseline then 22 else 21
    {
      match kind
      case Baseline =>
        Uint8Bytes(0) + Uint32Bytes(questCrc) + Uint64Bytes(ownerId) + Uint16Bytes(activeStepBitmask)
        + Uint16Bytes(completedStepBitmask) + Uint8Bytes(FlagByte(completedFlag)) + Uint32Bytes(counter)
      case Delta =>
        Uint32Bytes(questCrc) + Uint64Bytes(ownerId) + Uint16Bytes(activeStepBitmask)
        + Uint16Bytes(completedStepBitmask) + Uint8Bytes(FlagByte(completedFlag)) + Uint32Bytes(counter)
    }

    method Serialize(kind: Kind, message: ByteBuffer)
      requires message.Valid()
      modifies message
      ensures message.Valid() && message.data == old(message.data) + Bytes(kind)
      ensures message.readPosition == old(message.readPosition)
    {
      ghost var start := message.data;
      ghost var front: seq<byte> := [];
      if kind == Baseline {
        message.WriteUint8(0);
        front := Uint8Bytes(0);
      }
      assert message.data == start + front;
      message.WriteUint32(questCrc);
      front := front + Uint32Bytes(questCrc);
      message.WriteUint64(ownerId);
      front := front + Uint64Bytes(ownerId);
      message.WriteUint16(activeStepBitmask);
      front := front + Uint16Bytes(activeStepBitmask);
      message.WriteUint16(completedStepBitmask);
      front := front + Uint16Bytes(completedStepBitmask);
      assert message.data == start + front;
      if completedFlag {
        message.WriteUint8(1);
      } else {
        message.WriteUint8(0);
      }
      front := front + Uint8Bytes(FlagByte(completedFlag));
      message.WriteUint32(counter);
      front := front + Uint32Bytes(counter);
      assert message.data == start + front;
      assert front == Bytes(kind);
    }

    predicate Equals(other: QuestJournalData) {
      questCrc == other.questCrc
    }
  }

  /** A draft schematic: its id and crc. Equal schematics have the same id. */
  datatype DraftSchematicData = DraftSchematicData(schematicId: uint32, schematicCrc: uint32) {
    static function Default(): (d: DraftSchematicData)
      ensures d.Bytes(Baseline) == seq(8, i => 0) && d.Bytes(Delta) == seq(8, i => 0)
    {
      DraftSchematicData(0, 0)
    }

    /** The one-argument constructor: the crc is left at zero. */
    static function WithId(schematicId: uint32): (d: DraftSchematicData)
      ensures d.Bytes(Delta) == Uint32Bytes(schematicId) + [0, 0, 0, 0]
    {
      DraftSchematicData(schematicId, 0)
    }

    function Bytes(kind: Kind): (r: seq<byte>)
      ensures |r| == 8
    {
      match kind
      case Baseline => Uint32Bytes(schematicId) + Uint32Bytes(schematicCrc)
      case Delta => Uint32Bytes(schematicId) + Uint32Bytes(schematicCrc)
    }

    method Serialize(kind: Kind, message: ByteBuffer)
      requires message.Valid()
      modifies message
      ensures message.Valid() && message.data == old(message.data) + Bytes(kind)
      ensures message.readPosition == old(message.readPosition)
    {
      message.WriteUint32(schematicId);
      message.WriteUint32(schematicCrc);
    }

    predicate Equals(other: DraftSchematicData) {
      schematicId == other.schematicId
    }
  }

  // ---------------------------------------------------------------------
  // Baselines against deltas

  /** Ability, Name, FlagBitmask and DraftSchematicData are written the
      same way into either message. */
  lemma SameBytesInEitherMessage(a: Ability, n: Name, f: FlagBitmask, d: DraftSchematicData)
    ensures a.Bytes(Baseline) == a.Bytes(Delta) && n.Bytes(Baseline) == n.Bytes(Delta)
    ensures f.Bytes(Baseline) == f.Bytes(Delta) && d.Bytes(Baseline) == d.Bytes(Delta)
  {
  }

  /** An experience entry or quest journal entry in a baseline is a zero
      byte followed by its delta form. */
  lemma BaselineIsZeroThenDelta(x: XpData, q: QuestJournalData)
    ensures x.Bytes(Baseline) == [0] + x.Bytes(Delta)
    ensures q.Bytes(Baseline) == [0] + q.Bytes(Delta)
  {
    var body := Uint64Bytes(q.ownerId) + Uint16Bytes(q.activeStepBitmask)
      + Uint16Bytes(q.completedStepBitmask) + Uint8Bytes(FlagByte(q.completedFlag)) + Uint32Bytes(q.counter);
    assert q.Bytes(Delta) == Uint32Bytes(q.questCrc) + body;
    assert q.Bytes(Baseline) == Uint8Bytes(0) + Uint32Bytes(q.questCrc) + body;
  }

  /** The completed flag is the 17th byte of the delta form (18th of the
      baseline), 1 when set and 0 when not. */
  lemma CompletedFlagByte(q: QuestJournalData)
    ensures q.Bytes(Delta)[16] == (if q.completedFlag then 1 else 0)
    ensures q.Bytes(Baseline)[17] == (if q.completedFlag then 1 else 0)
  {
    BaselineIsZeroThenDelta(XpData([], 0), q);
    var front := Uint32Bytes(q.questCrc) + Uint64Bytes(q.ownerId) + Uint16Bytes(q.activeStepBitmask)
      + Uint16Bytes(q.completedStepBitmask);
    assert q.Bytes(Delta) == front + Uint8Bytes(FlagByte(q.completedFlag)) + Uint32Bytes(q.counter);
    assert |front| == 16;
  }

  // ---------------------------------------------------------------------
  // Reading the delta forms back

  function DecodeXpData(s: seq<byte>): Option<XpData> {
    var xpType :- TakeString(s);
    var value :- TakeUint32(xpType.1);
    Some(XpData(xpType.0, value.0))
  }

  lemma XpDataRoundTrip(x: XpData)
    requires Encodable(x.xpType)
    ensures DecodeXpData(x.Bytes(Delta)) == Some(x)
  {
    ReadStringAfterWrite(x.xpType, Uint32Bytes(x.value));
    Uint32RoundTrip(x.value, []);
    assert Uint32Bytes(x.value) + [] == Uint32Bytes(x.value);
  }

  function DecodeQuestJournal(s: seq<byte>): Option<QuestJournalData> {
    var crc :- TakeUint32(s);
    var owner :- TakeUint64(crc.1);
    var active :- TakeUint16(owner.1);
    var completed :- TakeUint16(active.1);
    var flag :- TakeUint8(completed.1);
    var counter :- TakeUint32(flag.1);
    Some(QuestJournalData(crc.0, owner.0, active.0, completed.0, flag.0 == 1, counter.0))
  }

  lemma QuestJournalRoundTrip(q: QuestJournalData)
    ensures DecodeQuestJournal(q.Bytes(Delta)) == Some(q)
  {
    var afterFlag := Uint32Bytes(q.counter);
    var afterCompleted := Uint8Bytes(FlagByte(q.completedFlag)) + afterFlag;
    var afterActive := Uint16Bytes(q.completedStepBitmask) + afterCompleted;
    var afterOwner := Uint16Bytes(q.activeStepBitmask) + afterActive;
    var afterCrc := Uint64Bytes(q.ownerId) + afterOwner;
    assert q.Bytes(Delta) == Uint32Bytes(q.questCrc) + afterCrc;
    Uint32RoundTrip(q.questCrc, afterCrc);
    Uint64RoundTrip(q.ownerId, afterOwner);
    Uint16RoundTrip(q.activeStepBitmask, afterActive);
    Uint16RoundTrip(q.completedStepBitmask, afterCompleted);
    Uint8RoundTrip(FlagByte(q.completedFlag), afterFlag);
    Uint32RoundTrip(q.counter, []);
    assert afterFlag + [] == afterFlag;
  }

  // ---------------------------------------------------------------------
  // Equality against the bytes written

  /** For abilities, names, experience entries and flag bitmasks, equality
      is exactly "writes the same bytes". */
  lemma AbilityEqualsIffSameBytes(a: Ability, b: Ability, kind: Kind)
    requires Encodable(a.ability) && Encodable(b.ability)
    ensures a.Equals(b) <==> a.Bytes(kind) == b.Bytes(kind)
  {
    if a.Bytes(kind) == b.Bytes(kind) {
      ReadStringAfterWrite(a.ability, []);
      ReadStringAfterWrite(b.ability, []);
      assert StringBytes(a.ability) + [] == StringBytes(b.ability) + [];
    }
  }

  lemma NameEqualsIffSameBytes(a: Name, b: Name, kind: Kind)
    requires Encodable(a.name) && Encodable(b.name)
    ensures a.Equals(b) <==> a.Bytes(kind) == b.Bytes(kind)
  {
    if a.Bytes(kind) == b.Bytes(kind) {
      ReadStringAfterWrite(a.name, []);
      ReadStringAfterWrite(b.name, []);
      assert StringBytes(a.name) + [] == StringBytes(b.name) + [];
    }
  }

  lemma XpDataEqualsIffSameBytes(a: XpData, b: XpData, kind: Kind)
    requires Encodable(a.xpType) && Encodable(b.xpType)
    ensures a.Equals(b) <==> a.Bytes(kind) == b.Bytes(kind)
  {
    if a.Bytes(kind) == b.Bytes(kind) {
      BaselineIsZeroThenDelta(a, QuestJournalData.Default());
      BaselineIsZeroThenDelta(b, QuestJournalData.Default());
      assert a.Bytes(Delta) == b.Bytes(Delta) by {
        if kind == Baseline {
          assert a.Bytes(Delta) == a.Bytes(Baseline)[1..];
          assert b.Bytes(Delta) == b.Bytes(Baseline)[1..];
        }
      }
      XpDataRoundTrip(a);
      XpDataRoundTrip(b);
    }
  }

  lemma FlagBitmaskEqualsIffSameBytes(a: FlagBitmask, b: FlagBitmask, kind: Kind)
    ensures a.Equals(b) <==> a.Bytes(kind) == b.Bytes(kind)
  {
    if a.Bytes(kind) == b.Bytes(kind) {
      Uint32RoundTrip(a.bitmask, []);
      Uint32RoundTrip(b.bitmask, []);
      assert Uint32Bytes(a.bitmask) + [] == Uint32Bytes(b.bitmask) + [];
    }
  }

  /** Quest journal entries that write the same bytes are the same entry. */
  lemma QuestJournalSameBytesSameEntry(a: QuestJournalData, b: QuestJournalData, kind: Kind)
    ensures a.Bytes(kind) == b.Bytes(kind) ==> a == b && a.Equals(b)
  {
    if a.Bytes(kind) == b.Bytes(kind) {
      BaselineIsZeroThenDelta(XpData([], 0), a);
      BaselineIsZeroThenDelta(XpData([], 0), b);
      assert a.Bytes(Delta) == b.Bytes(Delta) by {
        if kind == Baseline {
          assert a.Bytes(Delta) == a.Bytes(Baseline)[1..];
          assert b.Bytes(Delta) == b.Bytes(Baseline)[1..];
        }
      }
      QuestJournalRoundTrip(a);
      QuestJournalRoundTrip(b);
    }
  }

  /** Equality of quest journal entries looks at the first four bytes of
      their delta form (the quest crc) and at nothing else. */
  lemma QuestJournalEqualsIsCrcBytes(a: QuestJournalData, b: QuestJournalData)
    ensures a.Equals(b) <==> a.Bytes(Delta)[..4] == b.Bytes(Delta)[..4]
  {
    var afterA := Uint64Bytes(a.ownerId) + Uint16Bytes(a.activeStepBitmask)
      + Uint16Bytes(a.completedStepBitmask) + Uint8Bytes(FlagByte(a.completedFlag)) + Uint32Bytes(a.counter);
    var afterB := Uint64Bytes(b.ownerId) + Uint16Bytes(b.activeStepBitmask)
      + Uint16Bytes(b.completedStepBitmask) + Uint8Bytes(FlagByte(b.completedFlag)) + Uint32Bytes(b.counter);
    assert a.Bytes(Delta) == Uint32Bytes(a.questCrc) + afterA;
    assert b.Bytes(Delta) == Uint32Bytes(b.questCrc) + afterB;
    Uint32RoundTrip(a.questCrc, []);
    Uint32RoundTrip(b.questCrc, []);
    assert Uint32Bytes(a.questCrc) + [] == Uint32Bytes(a.questCrc);
    assert Uint32Bytes(b.questCrc) + [] == Uint32Bytes(b.questCrc);
  }

  /** Two entries for the same quest, one completed and one not, are equal
      and write different bytes. */
  lemma EqualQuestEntriesMayDiffer()
    ensures var open := QuestJournalData(7, 1, 0, 0, false, 0);
      var done := QuestJournalData(7, 1, 0, 0, true, 0);
      open.Equals(done) && open.Bytes(Delta) != done.Bytes(Delta)
  {
    var open := QuestJournalData(7, 1, 0, 0, false, 0);
    var done := QuestJournalData(7, 1, 0, 0, true, 0);
    CompletedFlagByte(open);
    CompletedFlagByte(done);
  }

  /** Draft schematics with the same id are equal whatever their crc; those
      that write the same bytes are equal. */
  lemma DraftSchematicEqualsIsCoarser(a: DraftSchematicData, b: DraftSchematicData, kind: Kind)
    ensures a.Bytes(kind) == b.Bytes(kind) ==> a == b
    ensures a.Equals(b) <==> a.Bytes(kind)[..4] == b.Bytes(kind)[..4]
  {
    Uint32RoundTrip(a.schematicId, Uint32Bytes(a.schematicCrc));
    Uint32RoundTrip(b.schematicId, Uint32Bytes(b.schematicCrc));
    Uint32RoundTrip(a.schematicCrc, []);
    Uint32RoundTrip(b.schematicCrc, []);
    assert a.Bytes(kind)[..4] == Uint32Bytes(a.schematicId);
    assert b.Bytes(kind)[..4] == Uint32Bytes(b.schematicId);
    assert a.Bytes(kind)[4..] == Uint32Bytes(a.schematicCrc) + [];
    assert b.Bytes(kind)[4..] == Uint32Bytes(b.schematicCrc) + [];
  }
}
