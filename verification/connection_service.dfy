/** The connection service: the table of client sessions keyed by remote
    endpoint, the periodic update of every session, and the two handlers
    that bring a client into the game (ClientIdMsg and CmdSceneReady). */
module ConnectionService {
  import opened Wrappers
  import opened ByteBuffers
  import Permissions = ClientPermissionsMessage

  /** A remote UDP endpoint: address and port. */
  datatype Endpoint = Endpoint(address: seq<byte>, port: uint16)

  /** Messages the service sends to a client. */
  datatype Outgoing =
    | CmdSceneReady
    | ClientPermissions(message: Permissions.Message)

  /** Calls the service makes into its collaborators: the session provider,
      the simulation service and the event dispatcher. */
  datatype Effect =
    | PlayerRemoved(playerObjectId: uint64)
    | PersistRelatedObjects(objectId: uint64)
    | EndGameSession(playerId: uint64)
    | CreateGameSession(playerId: uint64, connectionId: uint32)
    | ObjectReady(objectId: uint64)

  /** A connection client: who is logged in on it, the object it controls,
      whether it was closed, how many update ticks it has had and what it
      was sent. */
  datatype Session = Session(
    endpoint: Endpoint,
    connectionId: uint32,
    accountId: uint32,
    playerId: uint64,
    controlledObject: Option<uint64>,
    closed: bool,
    updates: nat,
    sent: seq<Outgoing>)

  /** The answers of the login service, the session provider, the galaxy
      directory and the character provider, as seen by the handshake. */
  datatype Services = Services(
    accountBySessionKey: seq<byte> -> uint32,
    playerIdByAccount: uint32 -> uint64,
    galaxyStatus: nat,
    maxCharacters: uint32 -> nat)

  /** A client that has just been created: not logged in, controlling
      nothing. */
  function NewSession(endpoint: Endpoint, connectionId: uint32): (s: Session)
    ensures s.endpoint == endpoint && s.accountId == 0 && s.playerId == 0
    ensures s.controlledObject.None? && !s.closed && s.sent == []
  {
    Session(endpoint, connectionId, 0, 0, None, false, 0, [])
  }

  /** The calls RemoveSession makes for a session leaving the table. */
  function RemovalEffects(s: Session): (r: seq<Effect>)
    ensures |r| > 0 && r[|r| - 1] == EndGameSession(s.playerId)
    ensures forall i :: 0 <= i < |r| - 1 ==> !r[i].EndGameSession? && !r[i].CreateGameSession?
    ensures |r| == 1 <==> s.controlledObject.None?
  {
    match s.controlledObject
    case Some(objectId) =>
      [PlayerRemoved((objectId + 1) % 0x1_0000_0000_0000_0000),
       PersistRelatedObjects(objectId),
       EndGameSession(s.playerId)]
    case None => [EndGameSession(s.playerId)]
  }

  /** The player object looked up on removal is the one whose id follows
      the controlled object's id; the game session always ends last. */
  lemma RemovalEndsGameSession(s: Session)
    ensures RemovalEffects(s)[|RemovalEffects(s)| - 1] == EndGameSession(s.playerId)
    ensures s.controlledObject.Some? <==> |RemovalEffects(s)| == 3
    ensures s.controlledObject.Some? && s.controlledObject.value < 0xFFFF_FFFF_FFFF_FFFF ==>
      RemovalEffects(s)[0] == PlayerRemoved(s.controlledObject.value + 1)
  {
  }

  /** Why CmdSceneReady could not announce an object. */
  datatype SceneReadyError = NoController

  /** The effects of CmdSceneReady as the handler is written: it reads the
      client's controller without checking that there is one, so for a
      client without a controller the outcome is undefined (None here). */
  function SceneReadyAsWritten(s: Session): (r: Option<seq<Effect>>)
    ensures r.Some? <==> s.controlledObject.Some?
  {
    match s.controlledObject
    case Some(objectId) => Some([ObjectReady(objectId)])
    case None => None
  }

  /** A client that sends CmdSceneReady right after connecting, before any
      handshake, has no controller: as written, the handler dereferences a
      null controller for it. */
  lemma SceneReadyBeforeHandshakeIsUndefined(endpoint: Endpoint, connectionId: uint32)
    ensures SceneReadyAsWritten(NewSession(endpoint, connectionId)).None?
  {
  }

  /** The permissions sent at the end of a successful handshake: galaxy
      status and slot count cast to one byte, unlimited characters off. */
  function PermissionsFor(services: Services, accountId: uint32): (m: Permissions.Message)
    ensures m.unlimitedCharacters == 0
    ensures m.availableCharacterSlots == services.maxCharacters(accountId) % 0x100
    ensures services.maxCharacters(accountId) < 0x100 ==>
      m.availableCharacterSlots == services.maxCharacters(accountId)
  {
    Permissions.Message(services.galaxyStatus % 0x100, services.maxCharacters(accountId) % 0x100, 0)
  }

  /** The table after a successful handshake on client: the session found
      for the player (if any) closed, then the client logged in and sent
      its permissions. */
  function AfterHandshake(
    sessions: map<Endpoint, Session>, client: Endpoint, closed: Option<Endpoint>,
    accountId: uint32, playerId: uint64, permissions: Permissions.Message): (r: map<Endpoint, Session>)
    requires client in sessions
    requires closed.Some? ==> closed.value in sessions
    ensures r.Keys == sessions.Keys
    ensures r[client].accountId == accountId && r[client].playerId == playerId
    ensures r[client].sent == sessions[client].sent + [ClientPermissions(permissions)]
    ensures r[client].closed <==> sessions[client].closed || closed == Some(client)
    ensures closed.Some? ==> r[closed.value].closed
    ensures forall e :: e in sessions && e != client && Some(e) != closed ==> r[e] == sessions[e]
  {
    var withClosed := if closed.Some? then sessions[closed.value := sessions[closed.value].(closed := true)] else sessions;
    var c := withClosed[client];
    withClosed[client := c.(accountId := accountId, playerId := playerId, sent := c.sent + [ClientPermissions(permissions)])]
  }

  class ConnectionService {
    var sessions: map<Endpoint, Session>

    /** Every session is stored under its own remote endpoint. */
    ghost predicate Valid()
      reads this
    {
      forall e :: e in sessions ==> sessions[e].endpoint == e
    }

    constructor ()
      ensures Valid() && sessions == map[]
    {
      sessions := map[];
    }

    /** Adds a client for an endpoint not yet in the table; for a known
        endpoint returns None and leaves the table alone. */
    method CreateSession(endpoint: Endpoint, connectionId: uint32) returns (session: Option<Session>)
      requires Valid()
      modifies this
      ensures Valid()
      ensures endpoint in old(sessions) ==> session.None? && sessions == old(sessions)
      ensures endpoint !in old(sessions) ==>
        session == Some(NewSession(endpoint, connectionId)) &&
        sessions == old(sessions)[endpoint := NewSession(endpoint, connectionId)]
    {
      session := None;
      if endpoint !in sessions {
        session := Some(NewSession(endpoint, connectionId));
        sessions := sessions[endpoint := session.value];
      }
    }

    /** Erases the entry for the session's endpoint and reports true; the
        returned effects are the calls made into the collaborators. */
    method RemoveSession(session: Session) returns (removed: bool, effects: seq<Effect>)
      requires Valid()
      modifies this
      ensures Valid()
      ensures removed
      ensures sessions == old(sessions) - {session.endpoint}
      ensures effects == RemovalEffects(session)
    {
      sessions := sessions - {session.endpoint};
      effects := [];
      if session.controlledObject.Some? {
        var objectId := session.controlledObject.value;
        effects := effects + [PlayerRemoved((objectId as int + 1) % 0x1_0000_0000_0000_0000)];
        effects := effects + [PersistRelatedObjects(objectId)];
      }
      effects := effects + [EndGameSession(session.playerId)];
      removed := true;
    }

    /** The stored client for a known endpoint, otherwise a new one; either
        way the endpoint is in the table afterwards. */
    method GetSession(endpoint: Endpoint, connectionId: uint32) returns (session: Session)
      requires Valid()
      modifies this
      ensures Valid()
      ensures endpoint in sessions && session == sessions[endpoint] && session.endpoint == endpoint
      ensures endpoint in old(sessions) ==> sessions == old(sessions)
      ensures endpoint !in old(sessions) ==>
        sessions == old(sessions)[endpoint := NewSession(endpoint, connectionId)]
    {
      if endpoint in sessions {
        return sessions[endpoint];
      }
      var created := CreateSession(endpoint, connectionId);
      session := created.value;
    }

    /** Some session logged in as playerId, or None when there is none; the
        table is not changed. */
    method FindConnectionByPlayerId(playerId: uint64) returns (found: Option<Session>)
      requires Valid()
      ensures found.Some? ==>
        found.value.endpoint in sessions && sessions[found.value.endpoint] == found.value &&
        found.value.playerId == playerId
      ensures found.None? <==> forall e :: e in sessions ==> sessions[e].playerId != playerId
    {
      var unvisited := sessions.Keys;
      while unvisited != {}
        invariant unvisited <= sessions.Keys
        invariant forall e :: e in sessions && e !in unvisited ==> sessions[e].playerId != playerId
        decreases unvisited
      {
        var e :| e in unvisited;
        if sessions[e].playerId == playerId {
          return Some(sessions[e]);
        }
        unvisited := unvisited - {e};
      }
      return None;
    }

    /** The periodic tick: every session in the table is updated once. */
    method UpdateSessions()
      requires Valid()
      modifies this
      ensures Valid()
      ensures sessions.Keys == old(sessions).Keys
      ensures forall e :: e in sessions ==>
        sessions[e] == old(sessions)[e].(updates := old(sessions)[e].updates + 1)
    {
      var pending := sessions.Keys;
      while pending != {}
        invariant pending <= sessions.Keys && sessions.Keys == old(sessions).Keys
        invariant forall e :: e in sessions ==>
          sessions[e] == if e in pending then old(sessions)[e]
                         else old(sessions)[e].(updates := old(sessions)[e].updates + 1)
        decreases pending
      {
        var e :| e in pending;
        sessions := sessions[e := sessions[e].(updates := sessions[e].updates + 1)];
        pending := pending - {e};
      }
    }

    /** Answers CmdSceneReady in kind and announces the client's object as
        ready. A client that controls no object is still answered, and then
        fails with NoController instead of announcing anything. */
    method HandleCmdSceneReady(client: Endpoint) returns (effects: seq<Effect>, outcome: Outcome<SceneReadyError>)
      requires Valid() && client in sessions
      modifies this
      ensures Valid()
      ensures sessions == old(sessions)[client := old(sessions)[client].(sent := old(sessions)[client].sent + [CmdSceneReady])]
      ensures old(sessions)[client].controlledObject.Some? ==>
        outcome.Pass? && effects == [ObjectReady(old(sessions)[client].controlledObject.value)]
      ensures old(sessions)[client].controlledObject.None? ==> outcome == Fail(NoController) && effects == []
      ensures SceneReadyAsWritten(old(sessions)[client]).Some? ==> SceneReadyAsWritten(old(sessions)[client]) == Some(effects)
    {
      var c := sessions[client];
      sessions := sessions[client := c.(sent := c.sent + [CmdSceneReady])];
      if c.controlledObject.None? {
        return [], Fail(NoController);
      }
      effects := [ObjectReady(c.controlledObject.value)];
      outcome := Pass;
    }

    /** The ClientIdMsg handshake. An unknown session key (account 0) or an
        account without a player (player 0) ends it with nothing changed.
        Otherwise a session already logged in as that player is closed, a
        game session is requested (its failure is only logged), the client
        is logged in and sent its permissions. */
    method HandleClientIdMsg(client: Endpoint, sessionHash: seq<byte>, services: Services)
      returns (effects: seq<Effect>, closed: Option<Endpoint>)
      requires Valid() && client in sessions
      modifies this
      ensures Valid()
      ensures services.accountBySessionKey(sessionHash) == 0 ==>
        sessions == old(sessions) && effects == [] && closed.None?
      ensures var accountId := services.accountBySessionKey(sessionHash);
        accountId != 0 && services.playerIdByAccount(accountId) == 0 ==>
          sessions == old(sessions) && effects == [] && closed.None?
      ensures var accountId := services.accountBySessionKey(sessionHash);
        var playerId := services.playerIdByAccount(accountId);
        accountId != 0 && playerId != 0 ==>
          && (closed.Some? ==> closed.value in old(sessions) && old(sessions)[closed.value].playerId == playerId)
          && (closed.None? <==> forall e :: e in old(sessions) ==> old(sessions)[e].playerId != playerId)
          && effects == [CreateGameSession(playerId, old(sessions)[client].connectionId)]
          && sessions == AfterHandshake(old(sessions), client, closed, accountId, playerId,
                                        PermissionsFor(services, accountId))
    {
      effects := [];
      closed := None;
      var accountId := services.accountBySessionKey(sessionHash);
      if accountId == 0 {
        return;
      }
      var playerId := services.playerIdByAccount(accountId);
      if playerId == 0 {
        return;
      }
      var existing := FindConnectionByPlayerId(playerId);
      if existing.Some? {
        var e := existing.value.endpoint;
        sessions := sessions[e := sessions[e].(closed := true)];
        closed := Some(e);
      }
      var c := sessions[client];
      effects := [CreateGameSession(playerId, c.connectionId)];
      c := c.(accountId := accountId, playerId := playerId);
      var permissions := PermissionsFor(services, accountId);
      c := c.(sent := c.sent + [ClientPermissions(permissions)]);
      sessions := sessions[client := c];
    }
  }
}
