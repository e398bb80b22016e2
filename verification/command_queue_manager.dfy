/** The command queue registry: one command queue per owning object id,
    with commands and default-command changes forwarded to the owner's
    queue when it has one. */
module CommandQueueManager {
  import opened Wrappers
  import opened ByteBuffers

  /** A command, tagged with the id of the controller that issued it. */
  datatype Command = Command(controllerId: uint64, name: string)

  /** A command queue. Its implementation is not part of this model; this
      stand-in keeps what the registry forwards to it: the pending commands
      and the default command. */
  class CommandQueue {
    var pending: seq<Command>
    var defaultCommand: Option<Command>

    constructor ()
      ensures pending == [] && defaultCommand.None?
    {
      pending := [];
      defaultCommand := None;
    }

    method EnqueueCommand(command: Command)
      modifies this
      ensures pending == old(pending) + [command] && defaultCommand == old(defaultCommand)
    {
      pending := pending + [command];
    }

    method SetDefaultCommand(command: Command)
      modifies this
      ensures defaultCommand == Some(command) && pending == old(pending)
    {
      defaultCommand := Some(command);
    }

    method ClearDefaultCommand()
      modifies this
      ensures defaultCommand.None? && pending == old(pending)
    {
      defaultCommand := None;
    }

    method HasDefaultCommand() returns (has: bool)
      ensures has <==> defaultCommand.Some?
    {
      has := defaultCommand.Some?;
    }
  }

  const DuplicateQueuePrefix: string := "Queue already exists for user with id: "

  // ---------------------------------------------------------------------
  // The message of the duplicate-queue error

  function DigitChar(d: nat): char
    requires d < 10
  {
    "0123456789"[d]
  }

  function DigitValue(c: char): nat {
    if '0' <= c <= '9' then (c - '0') as nat else 0
  }

  /** The decimal digits of n, most significant first. */
  function DecimalString(n: nat): (s: string)
    ensures |s| > 0
    ensures forall i :: 0 <= i < |s| ==> '0' <= s[i] <= '9'
    decreases n
  {
    if n < 10 then [DigitChar(n)] else DecimalString(n / 10) + [DigitChar(n % 10)]
  }

  function ParseDecimal(s: string): nat
    decreases |s|
  {
    if s == [] then 0 else 10 * ParseDecimal(s[..|s| - 1]) + DigitValue(s[|s| - 1])
  }

  lemma {:induction false} DecimalRoundTrip(n: nat)
    ensures ParseDecimal(DecimalString(n)) == n
    decreases n
  {
    if n >= 10 {
      var s := DecimalString(n);
      DecimalRoundTrip(n / 10);
      assert s[..|s| - 1] == DecimalString(n / 10);
    }
  }

  /** The message the duplicate-queue error evidently means to carry: the
      text followed by the owner id in decimal. */
  function DuplicateQueueMessage(ownerId: uint64): (message: string)
    ensures |message| > |DuplicateQueuePrefix| && message[..|DuplicateQueuePrefix|] == DuplicateQueuePrefix
    ensures ParseDecimal(message[|DuplicateQueuePrefix|..]) == ownerId
  {
    DecimalRoundTrip(ownerId);
    DuplicateQueuePrefix + DecimalString(ownerId)
  }

  /** The message as the code builds it: adding the id to the string literal
      moves the character pointer ownerId places into the literal, so the
      message is what is left of the literal from there on, and nothing at
      all (None: a pointer past the literal) once ownerId exceeds its
      length. */
  function DuplicateQueueMessageAsWritten(ownerId: uint64): Option<string> {
    if ownerId <= |DuplicateQueuePrefix| then Some(DuplicateQueuePrefix[ownerId..]) else None
  }

  /** The message as written never names the owner: for owner 6 it is the
      literal without its first six characters, and for an owner id above
      39 it points past the literal. */
  lemma DuplicateQueueMessageAsWrittenLosesId()
    ensures DuplicateQueueMessageAsWritten(6) == Some("already exists for user with id: ")
    ensures DuplicateQueueMessageAsWritten(6) != Some(DuplicateQueueMessage(6))
    ensures DuplicateQueueMessageAsWritten(40).None?
  {
    assert |DuplicateQueuePrefix| == 39;
    assert DuplicateQueueMessage(6) == DuplicateQueuePrefix + "6";
  }

  // ---------------------------------------------------------------------
  // The registry

  class CommandQueueManager {
    var queues: map<uint64, CommandQueue>

    constructor ()
      ensures queues == map[]
    {
      queues := map[];
    }

    /** Hands the command to the queue of its controller, if there is one;
        otherwise the command is dropped. The registry itself and every other
        queue are left alone. */
    method EnqueueCommand(command: Command)
      modifies queues.Values
      ensures queues == old(queues)
      ensures command.controllerId in queues ==>
        queues[command.controllerId].pending == old(queues[command.controllerId].pending) + [command] &&
        queues[command.controllerId].defaultCommand == old(queues[command.controllerId].defaultCommand)
      ensures forall q :: q in queues.Values && (command.controllerId !in queues || q != queues[command.controllerId]) ==>
        unchanged(q)
    {
      if command.controllerId in queues {
        var queue := queues[command.controllerId];
        queue.EnqueueCommand(command);
      }
    }

    /** Registers a queue for an owner that has none; for an owner that
        already has one, fails and leaves the registry as it was. */
    method AddQueue(ownerId: uint64, queue: CommandQueue) returns (r: Outcome<string>)
      modifies this
      ensures ownerId in old(queues) ==>
        r == Fail(DuplicateQueueMessage(ownerId)) && queues == old(queues)
      ensures ownerId !in old(queues) ==> r.Pass? && queues == old(queues)[ownerId := queue]
    {
      if ownerId in queues {
        return Fail(DuplicateQueueMessage(ownerId));
      }
      queues := queues[ownerId := queue];
      return Pass;
    }

    /** Drops the owner's queue, if it has one. */
    method RemoveQueue(ownerId: uint64)
      modifies this
      ensures queues == old(queues) - {ownerId}
    {
      queues := queues - {ownerId};
    }

    method ClearQueues()
      modifies this
      ensures queues == map[]
    {
      queues := map[];
    }

    /** Sets the default command of the owner's queue, if it has one. */
    method SetDefaultCommand(ownerId: uint64, command: Command)
      modifies queues.Values
      ensures queues == old(queues)
      ensures ownerId in queues ==>
        queues[ownerId].defaultCommand == Some(command) &&
        queues[ownerId].pending == old(queues[ownerId].pending)
      ensures forall q :: q in queues.Values && (ownerId !in queues || q != queues[ownerId]) ==> unchanged(q)
    {
      if ownerId in queues {
        var queue := queues[ownerId];
        queue.SetDefaultCommand(command);
      }
    }

    /** Clears the default command of the owner's queue, if it has one. */
    method ClearDefaultCommand(ownerId: uint64)
      modifies queues.Values
      ensures queues == old(queues)
      ensures ownerId in queues ==>
        queues[ownerId].defaultCommand.None? &&
        queues[ownerId].pending == old(queues[ownerId].pending)
      ensures forall q :: q in queues.Values && (ownerId !in queues || q != queues[ownerId]) ==> unchanged(q)
    {
      if ownerId in queues {
        var queue := queues[ownerId];
        queue.ClearDefaultCommand();
      }
    }

    /** Asks the owner's queue, if any, but discards the answer: the result
        is false even when that queue has a default command. */
    method HasDefaultCommand(ownerId: uint64) returns (has: bool)
      ensures !has
    {
      if ownerId in queues {
        var queue := queues[ownerId];
        var ignored := queue.HasDefaultCommand();
      }
      return false;
    }
  }
}
