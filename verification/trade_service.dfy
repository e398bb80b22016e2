/** The secure-trade service: the checks that decide whether a trade request
    starts a trade, the messages that start it, and the handlers that answer
    each trade-window message of a client. Every operation is a function
    from its inputs to the list of messages sent, each addressed to the
    object id of its recipient. */
module TradeService {
  import opened Wrappers
  import opened ByteBuffers
  import BeginTradeMessage
  import RemoveItemMessage
  import AddItemFailedMessage

  /** The object-controller type of an incoming SecureTrade request. */
  const SecureTradeRequestType: uint32 := 0x115
  /** The object-controller type of the SecureTrade sent to the target. */
  const SecureTradeType: uint32 := 0x0B

  /** What the checks look at in a creature. */
  datatype Creature = Creature(id: uint64, dead: bool, incapacitated: bool, hasStateNone: bool)

  datatype Message =
    | SecureTrade(controllerType: uint32, traderId: uint64, targetId: uint64)
    | SystemMessage(file: string, key: string, proseTarget: Option<uint64>)
    | Begin(begin: BeginTradeMessage.Message)
    | AbortTrade
    | TradeComplete
    | AcceptTransaction
    | UnAcceptTransaction
    | AddItem(itemId: uint64)
    | AddItemFailed(failed: AddItemFailedMessage.Message)
    | RemoveItem(removed: RemoveItemMessage.Message)
    | GiveMoney(creditAmount: uint32)
    | DenyTrade
    | VerifyTrade

  datatype Delivery = Delivery(recipient: uint64, message: Message)

  const TargetNotPlayer: Message := SystemMessage("ui_trade", "start_fail_target_not_player", None)
  const WrongState: Message := SystemMessage("error_message", "wrong_state", None)

  /** The request is passed on to the target as an object-controller
      message of type 0x0B, not the 0x115 it arrived as, naming the same
      trader and target. */
  function SendSecureTrade(recipient: uint64, traderId: uint64, targetId: uint64): (r: Delivery)
    ensures r.recipient == recipient && r.message.SecureTrade?
    ensures r.message.controllerType == SecureTradeType != SecureTradeRequestType
    ensures r.message.traderId == traderId && r.message.targetId == targetId
  {
    Delivery(recipient, SecureTrade(SecureTradeType, traderId, targetId))
  }

  /** Each party is sent a BeginTradeMessage naming the other one. */
  function BeginTrade(actor: Creature, target: Creature): (r: seq<Delivery>)
    ensures |r| == 2 && r[0].recipient == actor.id && r[1].recipient == target.id
  {
    [Delivery(actor.id, Begin(BeginTradeMessage.Message(target.id))),
     Delivery(target.id, Begin(BeginTradeMessage.Message(actor.id)))]
  }

  /** On the wire, each party reads back the id of the other one. */
  lemma BeginTradeNamesOtherParty(actor: Creature, target: Creature, rest: seq<byte>)
    ensures var r := BeginTrade(actor, target);
      && BeginTradeMessage.Decode(BeginTradeMessage.Encode(r[0].message.begin) + rest) == Some(BeginTradeMessage.Message(target.id))
      && BeginTradeMessage.Decode(BeginTradeMessage.Encode(r[1].message.begin) + rest) == Some(BeginTradeMessage.Message(actor.id))
  {
    BeginTradeMessage.RoundTrip(BeginTradeMessage.Message(target.id), rest);
    BeginTradeMessage.RoundTrip(BeginTradeMessage.Message(actor.id), rest);
  }

  /** The target is sent the SecureTrade request and the requested prose
      naming the actor; then the trade begins. */
  function RequestTrade(actor: Creature, target: Creature): (r: seq<Delivery>)
    ensures |r| == 4 && r[2..] == BeginTrade(actor, target)
    ensures r[0].recipient == target.id && r[0].message == SecureTrade(SecureTradeType, actor.id, target.id)
    ensures r[1].recipient == target.id && r[1].message.SystemMessage? && r[1].message.proseTarget == Some(actor.id)
    ensures actor.id != target.id ==> forall i :: 0 <= i < |r| && r[i].recipient == actor.id ==> i == 2
  {
    [SendSecureTrade(target.id, actor.id, target.id),
     Delivery(target.id, SystemMessage("ui_trade", "requested_prose", Some(actor.id)))]
    + BeginTrade(actor, target)
  }

  /** A SecureTrade request of actor towards the object with id targetId;
      lookup is the simulation service's search for a creature by id. */
  function HandleSecureTrade(actor: Creature, targetId: uint64, lookup: uint64 -> Option<Creature>): (r: seq<Delivery>)
    ensures |r| == 1 || |r| == 4
    ensures |r| == 1 ==> r[0].recipient == actor.id && r[0].message in {TargetNotPlayer, WrongState}
    ensures |r| == 4 ==> lookup(targetId).Some? && r == RequestTrade(actor, lookup(targetId).value)
    ensures lookup(targetId).None? ==> r == [Delivery(actor.id, TargetNotPlayer)]
  {
    match lookup(targetId)
    case None => [Delivery(actor.id, TargetNotPlayer)]
    case Some(target) =>
      if actor.id == target.id then [Delivery(actor.id, TargetNotPlayer)]
      else if actor.dead || actor.incapacitated then [Delivery(actor.id, WrongState)]
      else if target.dead || target.incapacitated then [Delivery(actor.id, WrongState)]
      else if actor.hasStateNone && target.hasStateNone then RequestTrade(actor, target)
      else [Delivery(actor.id, WrongState)]
  }

  /** Both parties can trade: the target is another creature, neither is
      dead or incapacitated, and both are in no other state. */
  predicate CanTrade(actor: Creature, target: Option<Creature>) {
    && target.Some? && target.value.id != actor.id
    && !actor.dead && !actor.incapacitated && !target.value.dead && !target.value.incapacitated
    && actor.hasStateNone && target.value.hasStateNone
  }

  /** A request starts a trade exactly when both parties can trade; it is
      otherwise answered with one system message to the actor, which says
      the target is no player exactly when there is no such creature or it
      is the actor itself, whatever state the two are in. */
  lemma SecureTradeDecision(actor: Creature, targetId: uint64, lookup: uint64 -> Option<Creature>)
    ensures var r := HandleSecureTrade(actor, targetId, lookup);
      var target := lookup(targetId);
      && (CanTrade(actor, target) ==> r == RequestTrade(actor, target.value))
      && (!CanTrade(actor, target) ==> |r| == 1 && r[0].recipient == actor.id)
      && (!CanTrade(actor, target) ==>
            (r[0].message == TargetNotPlayer <==> target.None? || target.value.id == actor.id))
      && (!CanTrade(actor, target) ==> r[0].message in {TargetNotPlayer, WrongState})
      && ((exists i :: 0 <= i < |r| && r[i].message.Begin?) <==> CanTrade(actor, target))
  {
    var r := HandleSecureTrade(actor, targetId, lookup);
    var target := lookup(targetId);
    if CanTrade(actor, target) {
      assert r[2].message.Begin?;
    }
  }

  // ---------------------------------------------------------------------
  // Trade-window messages from a client

  /** The trade-window messages a client sends, as the connection service
      dispatches them to the handlers. */
  datatype ClientMessage =
    | AbortTradeIn
    | AcceptTransactionIn
    | AddItemIn(itemId: uint64)
    | DenyTradeIn
    | GiveMoneyIn(creditAmount: uint32)
    | RemoveItemIn(itemId: uint64)
    | UnAcceptTransactionIn
    | VerifyTradeIn

  /** What each handler sends back to the client it came from. */
  function HandleClientMessage(m: ClientMessage): (r: seq<Message>)
    ensures |r| <= 2
    ensures forall i :: 0 <= i < |r| ==> !r[i].SecureTrade? && !r[i].Begin? && !r[i].SystemMessage? && !r[i].AddItemFailed?
  {
    match m
    case AbortTradeIn => [AbortTrade, TradeComplete]
    case AcceptTransactionIn => [AcceptTransaction]
    case AddItemIn(itemId) => [AddItem(itemId)]
    case DenyTradeIn => [DenyTrade]
    case GiveMoneyIn(creditAmount) => [GiveMoney(creditAmount)]
    case RemoveItemIn(itemId) => [RemoveItem(RemoveItemMessage.Message(itemId))]
    case UnAcceptTransactionIn => [UnAcceptTransaction]
    case VerifyTradeIn => []
  }

  /** The item id or credit amount a message carries, if any. */
  function PayloadIn(m: ClientMessage): Option<nat> {
    match m
    case AddItemIn(itemId) => Some(itemId)
    case GiveMoneyIn(creditAmount) => Some(creditAmount)
    case RemoveItemIn(itemId) => Some(itemId)
    case _ => None
  }

  function PayloadOut(m: Message): Option<nat> {
    match m
    case AddItem(itemId) => Some(itemId)
    case GiveMoney(creditAmount) => Some(creditAmount)
    case RemoveItem(removed) => Some(removed.itemId)
    case _ => None
  }

  /** Every handler answers with at most two messages; add-item, give-money
      and remove-item are each answered with the one message of their own
      kind, echoing the item id or credit amount unchanged, an abort is answered with
      the abort and then the trade-complete message, accept, deny and
      unaccept each with the one message of their own kind, and a verify
      with nothing. */
  lemma ClientHandlersEcho(m: ClientMessage)
    ensures var r := HandleClientMessage(m);
      && |r| <= 2
      && (PayloadIn(m).Some? ==> |r| == 1 && PayloadOut(r[0]) == PayloadIn(m))
      && (PayloadIn(m).None? ==> forall i :: 0 <= i < |r| ==> PayloadOut(r[i]).None?)
      && (m.AbortTradeIn? ==> r == [AbortTrade, TradeComplete])
      && (m.AcceptTransactionIn? ==> r == [AcceptTransaction])
      && (m.DenyTradeIn? ==> r == [DenyTrade])
      && (m.UnAcceptTransactionIn? ==> r == [UnAcceptTransaction])
      && (m.AddItemIn? ==> r == [AddItem(m.itemId)])
      && (m.GiveMoneyIn? ==> r == [GiveMoney(m.creditAmount)])
      && (m.RemoveItemIn? ==> r == [RemoveItem(RemoveItemMessage.Message(m.itemId))])
      && (r == [] <==> m.VerifyTradeIn?)
  {
  }
}
