/** The movement manager's per-object update counters. A client's transform
    is taken only when its counter is newer than the stored one, and every
    transform the server sends carries the stored counter, incremented
    first. Positions, orientations and speeds are not part of this model. */
module MovementManager {
  import opened Wrappers
  import opened ByteBuffers

  /** The object a transform is about: its id and, when it is inside a cell,
      the id of that container. */
  datatype MovingObject = MovingObject(id: uint64, containerId: Option<uint64>)

  /** The transforms the manager sends: DataTransform messages go to the
      object's own controller, update messages to its observers. */
  datatype Outgoing =
    | DataTransform(counter: uint32)
    | DataTransformWithParent(cellId: uint64, counter: uint32)
    | UpdateTransform(objectId: uint64, updateCounter: uint32)
    | UpdateTransformWithParent(objectId: uint64, cellId: uint64, updateCounter: uint32)

  /** The stored counter of an object; an object never seen reads as 0. */
  function Stored(counters: map<uint64, uint32>, id: uint64): uint32 {
    if id in counters then counters[id] else 0
  }

  /** A uint32 pre-increment. */
  function Next(c: uint32): uint32 {
    (c + 1) % 0x1_0000_0000
  }

  /** Whether a client transform with this counter is taken. */
  predicate Accepts(counters: map<uint64, uint32>, id: uint64, counter: uint32) {
    counter > Stored(counters, id)
  }

  /** The counters carried by n consecutive sends for an object whose stored
      counter is c. */
  function SentCounters(c: uint32, n: nat): (r: seq<uint32>)
    ensures |r| == n
    decreases n
  {
    if n == 0 then [] else [Next(c)] + SentCounters(Next(c), n - 1)
  }

  /** Consecutive sends carry c+1, c+2, ... modulo 2^32. */
  lemma {:induction false} SentCountersCount(c: uint32, n: nat)
    ensures forall i :: 0 <= i < n ==> SentCounters(c, n)[i] == (c + i + 1) % 0x1_0000_0000
    decreases n
  {
    if n > 0 {
      SentCountersCount(Next(c), n - 1);
      forall i | 0 < i < n
        ensures SentCounters(c, n)[i] == (c + i + 1) % 0x1_0000_0000
      {
        assert SentCounters(c, n)[i] == SentCounters(Next(c), n - 1)[i - 1];
      }
    }
  }

  /** Unless the counter wraps, the sent counters strictly increase. */
  lemma SentCountersIncrease(c: uint32, n: nat)
    requires c + n < 0x1_0000_0000
    ensures forall i, j :: 0 <= i < j < n ==> SentCounters(c, n)[i] < SentCounters(c, n)[j]
  {
    SentCountersCount(c, n);
  }

  /** Once a transform is accepted and answered, the stored counter is one
      past it: the same transform replayed is refused, and so is the very
      next counter; two past it is taken again. */
  lemma AcceptedTransformRefusesReplay(counters: map<uint64, uint32>, id: uint64, counter: uint32)
    requires Accepts(counters, id, counter) && counter < 0xFFFF_FFFE
    ensures var after := counters[id := Next(counter)];
      !Accepts(after, id, counter) && !Accepts(after, id, counter + 1) && Accepts(after, id, counter + 2)
  {
  }

  /** A transform with the largest counter wraps the stored counter to 0, so
      the same transform replayed is taken again. */
  lemma LargestCounterIsReplayable(counters: map<uint64, uint32>, id: uint64)
    requires Accepts(counters, id, 0xFFFF_FFFF)
    ensures Accepts(counters[id := Next(0xFFFF_FFFF)], id, 0xFFFF_FFFF)
  {
  }

  class MovementManager {
    var counters: map<uint64, uint32>

    constructor ()
      ensures counters == map[]
    {
      counters := map[];
    }

    /** Compares with the stored counter, storing 0 for an object not seen
        before. */
    method ValidateCounter(id: uint64, counter: uint32) returns (accepted: bool)
      modifies this
      ensures accepted <==> Accepts(old(counters), id, counter)
      ensures counters == old(counters)[id := Stored(old(counters), id)]
    {
      if id !in counters {
        counters := counters[id := 0];
      }
      accepted := counter > counters[id];
    }

    /** Pre-increments the object's stored counter and returns the new value. */
    method IncrementCounter(id: uint64) returns (counter: uint32)
      modifies this
      ensures counter == Next(Stored(old(counters), id))
      ensures counters == old(counters)[id := counter]
    {
      var stored := if id in counters then counters[id] else 0;
      counter := Next(stored);
      counters := counters[id := counter];
    }

    /** A client transform: refused, leaving the stored counter as it was,
        unless its counter is newer; otherwise its counter is stored and the
        update sent to observers carries it incremented. */
    method HandleDataTransform(obj: MovingObject, counter: uint32) returns (sent: Option<Outgoing>)
      modifies this
      ensures !Accepts(old(counters), obj.id, counter) ==>
        sent.None? && counters == old(counters)[obj.id := Stored(old(counters), obj.id)]
      ensures Accepts(old(counters), obj.id, counter) ==>
        sent == Some(UpdateTransform(obj.id, Next(counter))) &&
        counters == old(counters)[obj.id := Next(counter)]
    {
      var accepted := ValidateCounter(obj.id, counter);
      if !accepted {
        return None;
      }
      counters := counters[obj.id := counter];
      var update := SendUpdateDataTransformMessage(obj);
      return Some(update);
    }

    /** Cell movement is switched off: the handler fails before it looks at
        any counter. */
    method HandleDataTransformWithParent(obj: MovingObject, counter: uint32) returns (r: Outcome<string>)
      ensures r == Fail("Cell movement currently disabled")
    {
      return Fail("Cell movement currently disabled");
    }

    method SendDataTransformMessage(obj: MovingObject) returns (sent: Outgoing)
      modifies this
      ensures sent == DataTransform(Next(Stored(old(counters), obj.id)))
      ensures counters == old(counters)[obj.id := Next(Stored(old(counters), obj.id))]
    {
      var counter := IncrementCounter(obj.id);
      sent := DataTransform(counter);
    }

    method SendUpdateDataTransformMessage(obj: MovingObject) returns (sent: Outgoing)
      modifies this
      ensures sent == UpdateTransform(obj.id, Next(Stored(old(counters), obj.id)))
      ensures counters == old(counters)[obj.id := Next(Stored(old(counters), obj.id))]
    {
      var counter := IncrementCounter(obj.id);
      sent := UpdateTransform(obj.id, counter);
    }

    /** Needs an object inside a container, whose id becomes the cell id. */
    method SendDataTransformWithParentMessage(obj: MovingObject) returns (sent: Outgoing)
      requires obj.containerId.Some?
      modifies this
      ensures sent == DataTransformWithParent(obj.containerId.value, Next(Stored(old(counters), obj.id)))
      ensures counters == old(counters)[obj.id := Next(Stored(old(counters), obj.id))]
    {
      var counter := IncrementCounter(obj.id);
      sent := DataTransformWithParent(obj.containerId.value, counter);
    }

    /** Needs an object inside a container, whose id becomes the cell id. */
    method SendUpdateDataTransformWithParentMessage(obj: MovingObject) returns (sent: Outgoing)
      requires obj.containerId.Some?
      modifies this
      ensures sent == UpdateTransformWithParent(obj.id, obj.containerId.value, Next(Stored(old(counters), obj.id)))
      ensures counters == old(counters)[obj.id := Next(Stored(old(counters), obj.id))]
    {
      var counter := IncrementCounter(obj.id);
      sent := UpdateTransformWithParent(obj.id, obj.containerId.value, counter);
    }

    /** An object became ready: its counter starts at 0 unless it already
        has one, and its controller is sent a transform, with parent exactly
        when the object is inside a container. */
    method OnObjectReady(obj: MovingObject) returns (sent: Outgoing)
      modifies this
      ensures counters == old(counters)[obj.id := Next(Stored(old(counters), obj.id))]
      ensures obj.containerId.Some? ==>
        sent == DataTransformWithParent(obj.containerId.value, Next(Stored(old(counters), obj.id)))
      ensures obj.containerId.None? ==> sent == DataTransform(Next(Stored(old(counters), obj.id)))
    {
      if obj.id !in counters {
        counters := counters[obj.id := 0];
      }
      if obj.containerId.Some? {
        sent := SendDataTransformWithParentMessage(obj);
      } else {
        sent := SendDataTransformMessage(obj);
      }
    }
  }
}
