/** The group object's member entries and loot modes. */
module Group {
  import opened Wrappers
  import opened ByteBuffers

  /** The object type tag of every group object. */
  const GroupType: uint32 := 0x47525550

  /** Read most significant byte first, the type tag spells "GRUP". */
  lemma GroupTypeSpellsGrup()
    ensures BigEndian(GroupType, 4) == ['G' as byte, 'R' as byte, 'U' as byte, 'P' as byte]
  {
  }

  datatype LootMode = FreeLoot | MasterLooter | Lottery | Random {
    /** The enumerator's value, counted from zero in declaration order. */
    function Value(): (v: uint32)
      ensures v < 4
    {
      match this
      case FreeLoot => 0
      case MasterLooter => 1
      case Lottery => 2
      case Random => 3
    }
  }

  /** The loot mode a stored value stands for; None for a value that names
      no mode. */
  function LootModeOf(v: uint32): (r: Option<LootMode>)
    ensures r.Some? <==> v < 4
  {
    if v == 0 then Some(FreeLoot)
    else if v == 1 then Some(MasterLooter)
    else if v == 2 then Some(Lottery)
    else if v == 3 then Some(Random)
    else None
  }

  /** The values are FREE_LOOT 0, MASTER_LOOTER 1, LOTTERY 2, RANDOM 3, and
      each mode is recovered from its value. */
  lemma LootModeValues(m: LootMode, v: uint32)
    ensures FreeLoot.Value() == 0 && MasterLooter.Value() == 1 && Lottery.Value() == 2 && Random.Value() == 3
    ensures LootModeOf(m.Value()) == Some(m)
    ensures LootModeOf(v).Some? ==> LootModeOf(v).value.Value() == v
  {
  }

  /** A group member: the member's object id and name. Members are equal
      when they have the same object id, whatever their names. */
  datatype Member = Member(objectId: uint64, name: seq<byte>) {
    function Bytes(kind: Kind): (r: seq<byte>)
      ensures |r| == 8 + 2 + |name|
    {
      match kind
      case Baseline => Uint64Bytes(objectId) + StringBytes(name)
      case Delta => Uint64Bytes(objectId) + StringBytes(name)
    }

    method Serialize(kind: Kind, message: ByteBuffer)
      requires message.Valid()
      modifies message
      ensures message.Valid() && message.data == old(message.data) + Bytes(kind)
      ensures message.readPosition == old(message.readPosition)
    {
      message.WriteUint64(objectId);
      message.WriteString(name);
    }

    predicate Equals(other: Member) {
      objectId == other.objectId
    }
  }

  function DecodeMember(s: seq<byte>): Option<Member> {
    var objectId :- TakeUint64(s);
    var name :- TakeString(objectId.1);
    Some(Member(objectId.0, name.0))
  }

  /** A member is written the same way into either message, and is read
      back from it. */
  lemma MemberRoundTrip(m: Member)
    requires Encodable(m.name)
    ensures m.Bytes(Baseline) == m.Bytes(Delta)
    ensures DecodeMember(m.Bytes(Delta)) == Some(m)
  {
    Uint64RoundTrip(m.objectId, StringBytes(m.name));
    ReadStringAfterWrite(m.name, []);
    assert StringBytes(m.name) + [] == StringBytes(m.name);
  }

  /** Members that write the same bytes are the same member; equal members
      are exactly those whose first eight bytes agree. */
  lemma MemberEqualsIsCoarser(a: Member, b: Member, kind: Kind)
    requires Encodable(a.name) && Encodable(b.name)
    ensures a.Bytes(kind) == b.Bytes(kind) ==> a == b
    ensures a.Equals(b) <==> a.Bytes(kind)[..8] == b.Bytes(kind)[..8]
  {
    MemberRoundTrip(a);
    MemberRoundTrip(b);
    Uint64RoundTrip(a.objectId, []);
    Uint64RoundTrip(b.objectId, []);
    assert a.Bytes(kind)[..8] == Uint64Bytes(a.objectId) + [];
    assert b.Bytes(kind)[..8] == Uint64Bytes(b.objectId) + [];
  }

  /** Two members with the same id and different names are equal but write
      different bytes. */
  lemma EqualMembersMayDiffer()
    ensures var a := Member(5, []);
      var b := Member(5, [0x41]);
      a.Equals(b) && a.Bytes(Delta) != b.Bytes(Delta)
  {
    assert |Member(5, []).Bytes(Delta)| != |Member(5, [0x41]).Bytes(Delta)|;
  }
}
