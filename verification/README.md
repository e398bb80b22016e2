# swganh server core in Dafny

A model of the core of the swganh server, an emulator of a Star Wars
Galaxies game server. The model covers:

- the SOE data-channel packet helpers: channel headers, packing several
  game messages into one multi-message packet, and splitting a large message
  into fragments;
- the connection service's table of client sessions and its two
  log-in handlers (ClientIdMsg, CmdSceneReady);
- the command queue registry;
- the movement manager's per-object update counters;
- the character provider's name rules (syntax check, character creation
  result, restricted-name filters, player template name trim);
- the secure-trade service;
- the element types of the player and group delta containers, with their
  baseline/delta encodings and their equality;
- the tangible factory's template table;
- fifteen game messages, each with its serializer and deserializer.

Every operation is stated against a specification. Encoders are proved
against their decoders, loops against the function they compute, and
handlers against what they send and what they change.

Byte layout. Integers are written in host (little-endian) order, which
`ByteBuffers` models with explicit widths. `hostToBig` is a byte swap. The
string layout of the buffer is not visible here. The model gives
`std::string` a 16-bit length prefix and `std::wstring` a 32-bit length
prefix followed by 16-bit code units. The proofs use only that the reader
inverts the writer.

Files:

| file | module |
|---|---|
| wrappers.dfy | `Wrappers`: Option, Result, Outcome |
| byte_buffer.dfy | `ByteBuffers`: fixed-width integers, strings, the `ByteBuffer` class |
| packet_utilities.dfy | `PacketUtilities` |
| connection_service.dfy | `ConnectionService` |
| command_queue_manager.dfy | `CommandQueueManager` |
| movement_manager.dfy | `MovementManager` |
| mysql_character_provider.dfy | `MysqlCharacterProvider` |
| trade_service.dfy | `TradeService` |
| player.dfy | `Player` |
| group.dfy | `Group` |
| tangible_factory.dfy | `TangibleFactory` |
| one file per message | one module per message, named after it |

## Model

| member | source | states |
|---|---|---|
| PacketUtilities.BuildDataChannelHeader | src/anh/network/soe/packet_utilities.cc:40-47 | the header is 0x0009 then the sequence, both big-endian; reading its halves back gives the opcode and the sequence |
| PacketUtilities.BuildFragmentedDataChannelHeader | src/anh/network/soe/packet_utilities.cc:49-56 | the same with the fragmented opcode 0x000D |
| ByteBuffers.HostToBig16Bytes | src/anh/network/soe/packet_utilities.cc:43-44 | writing a byte-swapped 16-bit value in host order yields its big-endian bytes |
| ByteBuffers.HostToBig32Bytes | src/anh/network/soe/packet_utilities.cc:110 | writing a byte-swapped 32-bit value in host order yields its big-endian bytes |
| PacketUtilities.PackDataChannelMessages | src/anh/network/soe/packet_utilities.cc:58-90 | the loop builds `Packed(dataList)`: a single message unchanged, otherwise 0x0019 then each message behind its size prefix (one byte below 255, else 0xFF and a big-endian 16-bit size) |
| PacketUtilities.WriteSizePrefix | src/anh/network/soe/packet_utilities.cc:79-84 | appends exactly the size prefix of an item |
| PacketUtilities.PackedItemsAppend | src/anh/network/soe/packet_utilities.cc:73-87 | packing one more item appends its framed form |
| PacketUtilities.UnpackFramed | src/anh/network/soe/packet_utilities.cc:79-86 | a framed item of under 64 KiB is read back whole, before whatever follows it |
| PacketUtilities.UnpackPackedItems | src/anh/network/soe/packet_utilities.cc:73-87 | the items of a packing are read back in order when each is under 64 KiB |
| PacketUtilities.PackRoundTrip | src/anh/network/soe/packet_utilities.cc:58-90 | a multi-message packet (any count but one) unpacks to the original list |
| PacketUtilities.PackedSize | src/anh/network/soe/packet_utilities.cc:69-87 | the packet is 2 bytes of opcode plus each item and its 1- or 3-byte prefix |
| PacketUtilities.PackedItemsSize | src/anh/network/soe/packet_utilities.cc:73-87 | the packed items take each item's length plus its prefix |
| PacketUtilities.OversizedMessageLosesItsSize | src/anh/network/soe/packet_utilities.cc:79-81 | an item of exactly 65536 bytes gets the prefix FF 00 00 and does not unpack to itself |
| PacketUtilities.SplitDataChannelMessage | src/anh/network/soe/packet_utilities.cc:92-120 | fails exactly when the message is shorter than the maximum; an empty message gives no fragments; otherwise the loop yields `Fragments` |
| PacketUtilities.ChunksConcat | src/anh/network/soe/packet_utilities.cc:102-117 | the chunks after the first one concatenate to the rest of the message |
| PacketUtilities.ChunksBounded | src/anh/network/soe/packet_utilities.cc:104-117 | every chunk is non-empty and at most the maximum size |
| PacketUtilities.FragmentsReassemble | src/anh/network/soe/packet_utilities.cc:92-120 | the fragments concatenate to the big-endian 4-byte size followed by the whole message |
| PacketUtilities.FirstFragmentCarriesSize | src/anh/network/soe/packet_utilities.cc:106-113 | the first fragment is exactly max_size long and starts with the message size |
| PacketUtilities.FragmentsBounded | src/anh/network/soe/packet_utilities.cc:102-117 | no fragment is empty or longer than the maximum |
| PacketUtilities.SplitAtExactlyMaxSize | src/anh/network/soe/packet_utilities.cc:92-120 | a message of exactly max_size bytes becomes two fragments, the second holding its last four bytes |
| PacketUtilities.SplitStallsAtMaxSizeFour | src/anh/network/soe/packet_utilities.cc:104-116 | with a maximum of 4 the first chunk takes no message bytes, so the loop makes no progress |
| PacketUtilities.SplitChunkWrapsBelowFour | src/anh/network/soe/packet_utilities.cc:106-109 | with a maximum below 4 the 32-bit chunk size wraps past the message size |
| ConnectionService.NewSession | src/swganh/connection/connection_service.cc:132 | a new client is not logged in, controls nothing, is open and has been sent nothing |
| ConnectionService.RemovalEffects | src/swganh/connection/connection_service.cc:146-158 | the game session always ends, last and only there, and nothing else happens exactly when the client has no controller |
| ConnectionService.AfterHandshake | src/swganh/connection/connection_service.cc:239-258 | the table keeps its endpoints; the client is logged in with the account and player and sent its permissions last; the earlier session of the player is closed; every other session is unchanged |
| ConnectionService.RemovalEndsGameSession | src/swganh/connection/connection_service.cc:146-158 | removal always ends the player's game session last; with a controller it first reports the player object (controlled id + 1) and persists the related objects |
| ConnectionService.PermissionsFor | src/swganh/connection/connection_service.cc:252-256 | the slot count is the character maximum cast to one byte, unlimited characters is 0 |
| ConnectionService.ConnectionService.CreateSession | src/swganh/connection/connection_service.cc:124-138 | a known endpoint gives no session and an unchanged table; a new one is added as a fresh client |
| ConnectionService.ConnectionService.RemoveSession | src/swganh/connection/connection_service.cc:140-161 | erases exactly the session's endpoint, returns true, and makes the removal calls |
| ConnectionService.ConnectionService.GetSession | src/swganh/connection/connection_service.cc:163-175 | returns the stored client, or adds and returns a new one; the endpoint is in the table afterwards |
| ConnectionService.ConnectionService.FindConnectionByPlayerId | src/swganh/connection/connection_service.cc:177-199 | a found session is in the table with that player id; nothing is found exactly when no session has it |
| ConnectionService.ConnectionService.UpdateSessions | src/swganh/connection/connection_service.cc:100-108 | each session in the table is updated exactly once and no entry is added or dropped |
| ConnectionService.ConnectionService.HandleCmdSceneReady | src/swganh/connection/connection_service.cc:201-213 | answers CmdSceneReady to any client; a client with a controller has its object announced as ready (the same effects as the code as written), one without fails with NoController and announces nothing |
| ConnectionService.SceneReadyAsWritten | src/swganh/connection/connection_service.cc:207-212 | as written, the handler's outcome is defined exactly when the client has a controller, which it dereferences unchecked |
| ConnectionService.SceneReadyBeforeHandshakeIsUndefined | src/swganh/connection/connection_service.cc:209 | a client that has only just connected has no controller, so CmdSceneReady from it reaches the unchecked dereference |
| ConnectionService.ConnectionService.HandleClientIdMsg | src/swganh/connection/connection_service.cc:215-259 | account 0 or player 0 changes nothing; otherwise another session of that player is closed, a game session is requested, the client is logged in and sent its permissions |
| CommandQueueManager.CommandQueueManager.EnqueueCommand | src/pub14_core/command/command_queue_manager.cc:18-33 | the command reaches the queue of its controller only, and is dropped when there is none |
| CommandQueueManager.CommandQueueManager.AddQueue | src/pub14_core/command/command_queue_manager.cc:35-45 | a second queue for an owner fails and leaves the registry alone; otherwise it is registered |
| CommandQueueManager.CommandQueueManager.RemoveQueue | src/pub14_core/command/command_queue_manager.cc:47-51 | drops exactly that owner's queue |
| CommandQueueManager.CommandQueueManager.ClearQueues | src/pub14_core/command/command_queue_manager.cc:53-57 | the registry is empty afterwards |
| CommandQueueManager.CommandQueueManager.SetDefaultCommand | src/pub14_core/command/command_queue_manager.cc:59-71 | sets the default of that owner's queue only, if it has one |
| CommandQueueManager.CommandQueueManager.ClearDefaultCommand | src/pub14_core/command/command_queue_manager.cc:73-85 | clears the default of that owner's queue only, if it has one |
| CommandQueueManager.CommandQueueManager.HasDefaultCommand | src/pub14_core/command/command_queue_manager.cc:87-101 | always answers false, since the queue's answer is discarded |
| CommandQueueManager.DecimalRoundTrip | src/pub14_core/command/command_queue_manager.cc:41 | the decimal form of an owner id reads back as that id |
| CommandQueueManager.DuplicateQueueMessage | src/pub14_core/command/command_queue_manager.cc:41 | the corrected error text: the literal, then the owner id in decimal |
| CommandQueueManager.DuplicateQueueMessageAsWrittenLosesId | src/pub14_core/command/command_queue_manager.cc:41 | the text as built never names the owner: for id 6 it is the literal minus its first 6 characters, and past 39 it points outside the literal |
| MovementManager.MovementManager.ValidateCounter | src/pub14_core/simulation/movement_manager.cc:154-157 | accepts exactly a counter above the stored one (0 when absent), storing 0 for an object not seen before |
| MovementManager.MovementManager.IncrementCounter | src/pub14_core/simulation/movement_manager.cc:85 | the stored counter is pre-incremented modulo 2^32 and the new value returned |
| MovementManager.MovementManager.HandleDataTransform | src/pub14_core/simulation/movement_manager.cc:37-57 | a stale counter is refused with nothing sent; a newer one is stored and the observer update carries it plus one |
| MovementManager.MovementManager.HandleDataTransformWithParent | src/pub14_core/simulation/movement_manager.cc:59-63 | always fails with "Cell movement currently disabled" and touches no counter |
| MovementManager.MovementManager.SendDataTransformMessage | src/pub14_core/simulation/movement_manager.cc:80-91 | sends the incremented counter to the controller |
| MovementManager.MovementManager.SendUpdateDataTransformMessage | src/pub14_core/simulation/movement_manager.cc:93-102 | sends the object id and the incremented counter to the observers |
| MovementManager.MovementManager.SendDataTransformWithParentMessage | src/pub14_core/simulation/movement_manager.cc:104-116 | sends the container's id as cell and the incremented counter |
| MovementManager.MovementManager.SendUpdateDataTransformWithParentMessage | src/pub14_core/simulation/movement_manager.cc:118-128 | sends object id, cell id and the incremented counter to the observers |
| MovementManager.MovementManager.OnObjectReady | src/pub14_core/simulation/movement_manager.cc:138-150 | the counter starts at 0 only if absent; a transform with parent is sent exactly when the object has a container |
| MovementManager.SentCountersCount | src/pub14_core/simulation/movement_manager.cc:80-128 | n sends after stored counter c carry c+1, c+2, ... c+n modulo 2^32 |
| MovementManager.SentCountersIncrease | src/pub14_core/simulation/movement_manager.cc:80-128 | without a wrap the sent counters strictly increase |
| MovementManager.AcceptedTransformRefusesReplay | src/pub14_core/simulation/movement_manager.cc:43-56 | after an accepted transform with counter c, both c and c+1 are refused and c+2 is taken |
| MovementManager.LargestCounterIsReplayable | src/pub14_core/simulation/movement_manager.cc:37-57 | a transform with counter 2^32-1 wraps the stored counter to 0, so its replay is taken again |
| MysqlCharacterProvider.ParseName | plugins/mysql_character/mysql_character_provider.cc:236-249 | the capture groups are name parts; the name is the first part alone, or the first part, one whitespace character and the surname |
| MysqlCharacterProvider.ParseNameMatchesSyntax | plugins/mysql_character/mysql_character_provider.cc:236-245 | the scanner accepts exactly the names of the declarative syntax (no leading ' or -, at most three of them, one or two parts of a letter then 2 to 15 of a-z ' -) |
| MysqlCharacterProvider.FirstSpace | plugins/mysql_character/mysql_character_provider.cc:240 | finds the first whitespace character at or after a position |
| MysqlCharacterProvider.NamePartHasNoSpace | plugins/mysql_character/mysql_character_provider.cc:239 | a name part holds no whitespace |
| MysqlCharacterProvider.MatchingNameLength | plugins/mysql_character/mysql_character_provider.cc:236-241 | a well-formed name is 3 to 33 characters long |
| MysqlCharacterProvider.CustomName | plugins/mysql_character/mysql_character_provider.cc:253-257 | the first name, followed by one space and the surname only when the surname is not empty |
| MysqlCharacterProvider.CustomNameNormalisesSeparator | plugins/mysql_character/mysql_character_provider.cc:250-257 | the custom name is the first name, or the name with its separator replaced by one space |
| MysqlCharacterProvider.CreateCharacter | plugins/mysql_character/mysql_character_provider.cc:230-304 | a bad name gives (0, name_declined_syntax); an id is nonzero exactly when the error is empty, and then at least 1002; every error starts with name_declined_ |
| MysqlCharacterProvider.SyntaxCheckPrecedesDatabase | plugins/mysql_character/mysql_character_provider.cc:245-248 | a bad name gets the same answer whatever the database would do |
| MysqlCharacterProvider.CreatedIffLargeOutputId | plugins/mysql_character/mysql_character_provider.cc:286-303 | a well-formed name is created exactly when the procedure hands back an id of 1002 or more, and with that id |
| MysqlCharacterProvider.CreateErrorString | plugins/mysql_character/mysql_character_provider.cc:306-388 | every string starts with name_declined_; codes past 17 give name_declined_internal_error |
| MysqlCharacterProvider.CreateErrorStringCollisions | plugins/mysql_character/mysql_character_provider.cc:306-388 | two codes give the same string exactly when they are 7 and 9, or 4 and a code past 17, or both past 17 |
| MysqlCharacterProvider.ToLower | plugins/mysql_character/mysql_character_provider.cc:416 | lowers A-Z and keeps every other character, keeping the length |
| MysqlCharacterProvider.ToLowerIdempotent | plugins/mysql_character/mysql_character_provider.cc:416 | lowering twice is lowering once |
| MysqlCharacterProvider.Filters | plugins/mysql_character/mysql_character_provider.cc:418-441 | the five lists in checking order, each with its reason |
| MysqlCharacterProvider.FirstHitFound | plugins/mysql_character/mysql_character_provider.cc:418-441 | a reason given comes from a list with a hit, with no hit in any earlier list |
| MysqlCharacterProvider.FirstHitIsFirst | plugins/mysql_character/mysql_character_provider.cc:418-441 | list k gives the reason exactly when it has a hit and no earlier list has one |
| MysqlCharacterProvider.NoHitAnywhere | plugins/mysql_character/mysql_character_provider.cc:418-444 | no reason is given exactly when no list has a hit |
| MysqlCharacterProvider.NameVerdict | plugins/mysql_character/mysql_character_provider.cc:413-445 | allowed exactly when the reason is " "; a refusal carries the reason of a list that has a hit in the lowered name |
| MysqlCharacterProvider.NameVerdictPriority | plugins/mysql_character/mysql_character_provider.cc:413-445 | a name is allowed exactly when no list has a hit in the lowered name; otherwise the reason is that of the first list, in the order profane, reserved, fictionally reserved, racially inappropriate, developer |
| MysqlCharacterProvider.AnyHit | plugins/mysql_character/mysql_character_provider.cc:419-422 | the loop reports whether some pattern of the list is found in the name |
| MysqlCharacterProvider.IsNameAllowed | plugins/mysql_character/mysql_character_provider.cc:413-445 | the loops give the verdict: (true, " ") or (false, reason of the first list with a hit) |
| MysqlCharacterProvider.IffTemplateTrim | plugins/mysql_character/mysql_character_provider.cc:149-153 | a template over 30 characters loses the 7 from offset 23; a shorter one is kept |
| MysqlCharacterProvider.IffTemplateTrimDropsShared | plugins/mysql_character/mysql_character_provider.cc:149-153 | on a shared player template the trim removes exactly "shared_" |
| TradeService.SendSecureTrade | src/swganh/trade/trade_service.cc:297-306 | the request goes on to its recipient as object-controller type 0x0B, not the 0x115 it arrived as, with the same trader and target |
| TradeService.RequestTrade | src/swganh/trade/trade_service.cc:102-111 | the target gets the SecureTrade and the requested prose naming the actor, then both get BeginTrade; the actor gets nothing but its BeginTrade |
| TradeService.HandleSecureTrade | src/swganh/trade/trade_service.cc:154-200 | either one refusal goes to the actor (target_not_player or wrong_state, the former whenever no creature has the id) or the whole trade request is made |
| TradeService.SecureTradeDecision | src/swganh/trade/trade_service.cc:154-200 | a trade is requested exactly when the target is another creature, neither is dead or incapacitated and both are in state NONE; otherwise one message goes to the actor, start_fail_target_not_player exactly when the target is missing or is the actor, else wrong_state |
| TradeService.BeginTrade | src/swganh/trade/trade_service.cc:113-119 | one BeginTradeMessage to each party |
| TradeService.BeginTradeNamesOtherParty | src/swganh/trade/trade_service.cc:113-119 | each party decodes the other party's id from its BeginTradeMessage |
| TradeService.HandleClientMessage | src/swganh/trade/trade_service.cc:213-294 | each handler answers with at most two messages, and none of them starts a trade, sends a system message or reports a failed item |
| TradeService.ClientHandlersEcho | src/swganh/trade/trade_service.cc:213-294 | add-item, give-money and remove-item are each answered with exactly one message of their own kind, echoing the item id or credit amount unchanged; an abort is answered with AbortTrade then TradeComplete; accept, deny and unaccept each with exactly their own message; a verify gets no answer, and only a verify |
| Player.PlayerTypeSpellsPlay | src/swganh/object/player/player.h:341-342 | the player type tag is 'PLAY' |
| Player.Ability.Default | src/swganh/object/player/player.h:60-62 | the default ability writes an empty string |
| Player.Ability.Bytes | src/swganh/object/player/player.h:71-79 | the ability string, in either message |
| Player.Ability.Serialize | src/swganh/object/player/player.h:71-79 | appends exactly its bytes |
| Player.Name.Default | src/swganh/object/player/player.h:89-91 | the default name writes an empty string |
| Player.Name.Bytes | src/swganh/object/player/player.h:100-108 | the name string, in either message |
| Player.Name.Serialize | src/swganh/object/player/player.h:100-108 | appends exactly its bytes |
| Player.XpData.Default | src/swganh/object/player/player.h:118-120 | the default entry writes an empty type and a zero value |
| Player.XpData.Bytes | src/swganh/object/player/player.h:128-138 | type then 4-byte value, behind a zero byte in a baseline |
| Player.XpData.Serialize | src/swganh/object/player/player.h:128-138 | appends exactly its bytes |
| Player.FlagBitmask.Default | src/swganh/object/player/player.h:146-148 | the default bitmask writes four zero bytes |
| Player.FlagBitmask.Bytes | src/swganh/object/player/player.h:154-162 | the 4-byte bitmask, in either message |
| Player.FlagBitmask.Serialize | src/swganh/object/player/player.h:154-162 | appends exactly its bytes |
| Player.QuestJournalData.Default | src/swganh/object/player/player.h:174-180 | the default entry writes 21 zero bytes (22 in a baseline) |
| Player.QuestJournalData.Bytes | src/swganh/object/player/player.h:189-214 | crc, owner, active, completed, flag, counter: 21 bytes, 22 in a baseline |
| Player.QuestJournalData.Serialize | src/swganh/object/player/player.h:189-214 | appends exactly its bytes |
| Player.DraftSchematicData.Default | src/swganh/object/player/player.h:224-227 | the default schematic writes eight zero bytes |
| Player.DraftSchematicData.WithId | src/swganh/object/player/player.h:229-232 | the one-argument constructor writes the id and a zero crc |
| Player.DraftSchematicData.Bytes | src/swganh/object/player/player.h:245-255 | id then crc, 8 bytes, in either message |
| Player.DraftSchematicData.Serialize | src/swganh/object/player/player.h:245-255 | appends exactly its bytes |
| Player.SameBytesInEitherMessage | src/swganh/object/player/player.h:71-255 | abilities, names, bitmasks and schematics write the same bytes into a baseline and a delta |
| Player.BaselineIsZeroThenDelta | src/swganh/object/player/player.h:128-214 | an experience or quest entry in a baseline is a zero byte then its delta form |
| Player.CompletedFlagByte | src/swganh/object/player/player.h:196-212 | the completed flag is written as 1 or 0 at offset 16 of the delta form (17 of the baseline) |
| Player.XpDataRoundTrip | src/swganh/object/player/player.h:134-138 | the delta form of an experience entry reads back as that entry |
| Player.QuestJournalRoundTrip | src/swganh/object/player/player.h:202-214 | the delta form of a quest entry reads back as that entry |
| Player.AbilityEqualsIffSameBytes | src/swganh/object/player/player.h:80-83 | abilities are equal exactly when they write the same bytes |
| Player.NameEqualsIffSameBytes | src/swganh/object/player/player.h:109-112 | names are equal exactly when they write the same bytes |
| Player.XpDataEqualsIffSameBytes | src/swganh/object/player/player.h:139-142 | experience entries are equal (type and value) exactly when they write the same bytes |
| Player.FlagBitmaskEqualsIffSameBytes | src/swganh/object/player/player.h:164-167 | bitmasks are equal exactly when they write the same bytes |
| Player.QuestJournalSameBytesSameEntry | src/swganh/object/player/player.h:189-214 | quest entries that write the same bytes are the same entry |
| Player.QuestJournalEqualsIsCrcBytes | src/swganh/object/player/player.h:216-219 | quest entries are equal exactly when the first four bytes (the crc) agree |
| Player.EqualQuestEntriesMayDiffer | src/swganh/object/player/player.h:216-219 | two entries for one quest, one completed, are equal yet write different bytes |
| Player.DraftSchematicEqualsIsCoarser | src/swganh/object/player/player.h:257-260 | schematics are equal exactly when their ids agree; same bytes means the same schematic |
| Group.GroupTypeSpellsGrup | src/swganh/object/group/group.h:96-97 | every group's type tag is 'GRUP' |
| Group.LootMode.Value | src/swganh/object/group/group.h:28-34 | each loot mode has a value below 4 |
| Group.LootModeOf | src/swganh/object/group/group.h:28-34 | a value names a loot mode exactly when it is below 4 |
| Group.LootModeValues | src/swganh/object/group/group.h:28-34 | FREE_LOOT 0, MASTER_LOOTER 1, LOTTERY 2, RANDOM 3, and the value maps back to the mode |
| Group.Member.Bytes | src/swganh/object/group/group.h:46-56 | the 8-byte object id then the name |
| Group.Member.Serialize | src/swganh/object/group/group.h:46-56 | appends exactly its bytes |
| Group.MemberRoundTrip | src/swganh/object/group/group.h:46-56 | a member writes the same bytes into either message and reads back as itself |
| Group.MemberEqualsIsCoarser | src/swganh/object/group/group.h:58-61 | members are equal exactly when their first eight bytes (the id) agree; same bytes means the same member |
| Group.EqualMembersMayDiffer | src/swganh/object/group/group.h:58-61 | members with one id and different names are equal yet write different bytes |
| TangibleFactory.TangibleFactory.GetTemplateIter | src/swganh/object/tangible/tangible_factory.cc:59-65 | the scan finds an entry exactly when the name is a key, and then that key's entry |
| TangibleFactory.TangibleFactory.HasTemplate | src/swganh/object/tangible/tangible_factory.cc:54-58 | true exactly when some stored key equals the name |
| TangibleFactory.TangibleFactory.CreateObjectFromTemplate | src/swganh/object/tangible/tangible_factory.cc:153-167 | the stored template instance itself, or the error "Template Not Found: " and the name |
| TangibleFactory.TangibleFactory.CreateObjectFromStorage | src/swganh/object/tangible/tangible_factory.cc:131-151 | a new tangible with the requested id, not one of the templates |
| ChatInstantMessageToClient.Encode | src/swganh/messages/chat_instant_message_to_client.h:40-45 | the bytes written are the game, server and player names, then the wide message text, in that order; their length is the sum of the encoded fields |
| ChatInstantMessageToClient.RoundTrip | src/swganh/messages/chat_instant_message_to_client.h:40-52 | reading what was written gives back the same message whatever bytes follow, for strings that fit their length prefix |
| ChatInstantMessageToClient.OnSerialize | src/swganh/messages/chat_instant_message_to_client.h:40-45 | appends exactly the encoded message to the buffer and leaves its read position alone |
| ChatInstantMessageToClient.OnDeserialize | src/swganh/messages/chat_instant_message_to_client.h:47-52 | the field-by-field reads from the buffer give the decoded message, or nothing when the buffer runs out |
| VerifyPlayerNameResponseMessage.Encode | src/swganh/messages/verify_player_name_response_message.h:38-41 | the bytes written are the success flag (1 byte) then the attempts counter (4 bytes), 5 bytes in all |
| VerifyPlayerNameResponseMessage.Decode | src/swganh/messages/verify_player_name_response_message.h:43-46 | reading the fields back in the same order succeeds exactly when at least 5 bytes are left |
| VerifyPlayerNameResponseMessage.RoundTrip | src/swganh/messages/verify_player_name_response_message.h:38-46 | reading what was written gives back the same message whatever bytes follow |
| VerifyPlayerNameResponseMessage.OnSerialize | src/swganh/messages/verify_player_name_response_message.h:38-41 | appends exactly the encoded message to the buffer and leaves its read position alone |
| VerifyPlayerNameResponseMessage.OnDeserialize | src/swganh/messages/verify_player_name_response_message.h:43-46 | the field-by-field reads from the buffer give the decoded message, or nothing when the buffer runs out |
| ItemSoldMessage.Encode | src/swganh/messages/item_sold_message.h:39-42 | the bytes written are the item id (8 bytes) then the status flag (4 bytes), 12 bytes in all |
| ItemSoldMessage.Decode | src/swganh/messages/item_sold_message.h:44-47 | reading the fields back in the same order succeeds exactly when at least 12 bytes are left |
| ItemSoldMessage.RoundTrip | src/swganh/messages/item_sold_message.h:39-47 | reading what was written gives back the same message whatever bytes follow |
| ItemSoldMessage.OnSerialize | src/swganh/messages/item_sold_message.h:39-42 | appends exactly the encoded message to the buffer and leaves its read position alone |
| ItemSoldMessage.OnDeserialize | src/swganh/messages/item_sold_message.h:44-47 | the field-by-field reads from the buffer give the decoded message, or nothing when the buffer runs out |
| ChatDeletePersistentMessage.Encode | src/swganh/messages/chat_delete_persistent_message.h:37-39 | the bytes written are the mail message id (4 bytes), 4 bytes in all |
| ChatDeletePersistentMessage.Decode | src/swganh/messages/chat_delete_persistent_message.h:41-43 | reading the fields back in the same order succeeds exactly when at least 4 bytes are left |
| ChatDeletePersistentMessage.RoundTrip | src/swganh/messages/chat_delete_persistent_message.h:37-43 | reading what was written gives back the same message whatever bytes follow |
| ChatDeletePersistentMessage.OnSerialize | src/swganh/messages/chat_delete_persistent_message.h:37-39 | appends exactly the encoded message to the buffer and leaves its read position alone |
| ChatDeletePersistentMessage.OnDeserialize | src/swganh/messages/chat_delete_persistent_message.h:41-43 | the field-by-field reads from the buffer give the decoded message, or nothing when the buffer runs out |
| ParametersMessage.Encode | src/swganh/messages/parameters_message.h:37-39 | the bytes written are the parameter flag (4 bytes), 4 bytes in all |
| ParametersMessage.Decode | src/swganh/messages/parameters_message.h:41-43 | reading the fields back in the same order succeeds exactly when at least 4 bytes are left |
| ParametersMessage.RoundTrip | src/swganh/messages/parameters_message.h:37-43 | reading what was written gives back the same message whatever bytes follow |
| ParametersMessage.OnSerialize | src/swganh/messages/parameters_message.h:37-39 | appends exactly the encoded message to the buffer and leaves its read position alone |
| ParametersMessage.OnDeserialize | src/swganh/messages/parameters_message.h:41-43 | the field-by-field reads from the buffer give the decoded message, or nothing when the buffer runs out |
| ExecuteConsoleCommand.Encode | src/swganh/messages/execute_console_command.h:38-40 | the bytes written are the command string, in that order; their length is the sum of the encoded fields |
| ExecuteConsoleCommand.RoundTrip | src/swganh/messages/execute_console_command.h:38-44 | reading what was written gives back the same message whatever bytes follow, for strings that fit their length prefix |
| ExecuteConsoleCommand.OnSerialize | src/swganh/messages/execute_console_command.h:38-40 | appends exactly the encoded message to the buffer and leaves its read position alone |
| ExecuteConsoleCommand.OnDeserialize | src/swganh/messages/execute_console_command.h:42-44 | the field-by-field reads from the buffer give the decoded message, or nothing when the buffer runs out |
| BeginTradeMessage.Encode | src/swganh/messages/begin_trade_message.h:37-39 | the bytes written are the trade partner's id (8 bytes), 8 bytes in all |
| BeginTradeMessage.Decode | src/swganh/messages/begin_trade_message.h:41-43 | reading the fields back in the same order succeeds exactly when at least 8 bytes are left |
| BeginTradeMessage.RoundTrip | src/swganh/messages/begin_trade_message.h:37-43 | reading what was written gives back the same message whatever bytes follow |
| BeginTradeMessage.OnSerialize | src/swganh/messages/begin_trade_message.h:37-39 | appends exactly the encoded message to the buffer and leaves its read position alone |
| BeginTradeMessage.OnDeserialize | src/swganh/messages/begin_trade_message.h:41-43 | the field-by-field reads from the buffer give the decoded message, or nothing when the buffer runs out |
| ClientPermissionsMessage.Encode | src/swganh/messages/client_permissions_message.h:23-28 | the bytes written are galaxy available, available character slots and unlimited characters, one byte each, 3 bytes in all |
| ClientPermissionsMessage.Decode | src/swganh/messages/client_permissions_message.h:30-35 | reading the fields back in the same order succeeds exactly when at least 3 bytes are left |
| ClientPermissionsMessage.RoundTrip | src/swganh/messages/client_permissions_message.h:23-35 | reading what was written gives back the same message whatever bytes follow |
| ClientPermissionsMessage.OnSerialize | src/swganh/messages/client_permissions_message.h:23-28 | appends exactly the encoded message to the buffer and leaves its read position alone |
| ClientPermissionsMessage.OnDeserialize | src/swganh/messages/client_permissions_message.h:30-35 | the field-by-field reads from the buffer give the decoded message, or nothing when the buffer runs out |
| ChatOnSendInstantMessage.Encode | src/swganh/messages/chat_on_send_instant_message.h:22-26 | the bytes written are the success flag then the sequence number (4 bytes each), 8 bytes in all |
| ChatOnSendInstantMessage.Decode | src/swganh/messages/chat_on_send_instant_message.h:28-32 | reading the fields back in the same order succeeds exactly when at least 8 bytes are left |
| ChatOnSendInstantMessage.RoundTrip | src/swganh/messages/chat_on_send_instant_message.h:22-32 | reading what was written gives back the same message whatever bytes follow |
| ChatOnSendInstantMessage.OnSerialize | src/swganh/messages/chat_on_send_instant_message.h:22-26 | appends exactly the encoded message to the buffer and leaves its read position alone |
| ChatOnSendInstantMessage.OnDeserialize | src/swganh/messages/chat_on_send_instant_message.h:28-32 | the field-by-field reads from the buffer give the decoded message, or nothing when the buffer runs out |
| ChatRequestPersistentMessage.Encode | src/swganh/messages/chat_request_persistent_message.h:22-26 | the bytes written are the spacer then the mail message id (4 bytes each), 8 bytes in all |
| ChatRequestPersistentMessage.Decode | src/swganh/messages/chat_request_persistent_message.h:28-32 | reading the fields back in the same order succeeds exactly when at least 8 bytes are left |
| ChatRequestPersistentMessage.RoundTrip | src/swganh/messages/chat_request_persistent_message.h:22-32 | reading what was written gives back the same message whatever bytes follow |
| ChatRequestPersistentMessage.OnSerialize | src/swganh/messages/chat_request_persistent_message.h:22-26 | appends exactly the encoded message to the buffer and leaves its read position alone |
| ChatRequestPersistentMessage.OnDeserialize | src/swganh/messages/chat_request_persistent_message.h:28-32 | the field-by-field reads from the buffer give the decoded message, or nothing when the buffer runs out |
| ConnectPlayerMessage.Encode | src/swganh/messages/connect_player_message.h:25-28 | the bytes written are the unknown field (4 bytes), 4 bytes in all |
| ConnectPlayerMessage.Decode | src/swganh/messages/connect_player_message.h:30-33 | reading the fields back in the same order succeeds exactly when at least 4 bytes are left |
| ConnectPlayerMessage.RoundTrip | src/swganh/messages/connect_player_message.h:25-33 | reading what was written gives back the same message whatever bytes follow |
| ConnectPlayerMessage.OnSerialize | src/swganh/messages/connect_player_message.h:25-28 | appends exactly the encoded message to the buffer and leaves its read position alone |
| ConnectPlayerMessage.OnDeserialize | src/swganh/messages/connect_player_message.h:30-33 | the field-by-field reads from the buffer give the decoded message, or nothing when the buffer runs out |
| ConnectPlayerMessage.Default | src/swganh/messages/connect_player_message.h:21-28 | a default message (unknown = 0) is written as four zero bytes |
| SceneEndBaselines.Encode | src/pub14_core/messages/scene_end_baselines.h:21-24 | the bytes written are the object id (8 bytes), 8 bytes in all |
| SceneEndBaselines.Decode | src/pub14_core/messages/scene_end_baselines.h:26-29 | reading the fields back in the same order succeeds exactly when at least 8 bytes are left |
| SceneEndBaselines.RoundTrip | src/pub14_core/messages/scene_end_baselines.h:21-29 | reading what was written gives back the same message whatever bytes follow |
| SceneEndBaselines.OnSerialize | src/pub14_core/messages/scene_end_baselines.h:21-24 | appends exactly the encoded message to the buffer and leaves its read position alone |
| SceneEndBaselines.OnDeserialize | src/pub14_core/messages/scene_end_baselines.h:26-29 | the field-by-field reads from the buffer give the decoded message, or nothing when the buffer runs out |
| AddItemFailedMessage.Encode | src/swganh/messages/add_item_failed_message.h:21-24 | the bytes written are the item id (8 bytes), 8 bytes in all |
| AddItemFailedMessage.Decode | src/swganh/messages/add_item_failed_message.h:26-29 | reading the fields back in the same order succeeds exactly when at least 8 bytes are left |
| AddItemFailedMessage.RoundTrip | src/swganh/messages/add_item_failed_message.h:21-29 | reading what was written gives back the same message whatever bytes follow |
| AddItemFailedMessage.OnSerialize | src/swganh/messages/add_item_failed_message.h:21-24 | appends exactly the encoded message to the buffer and leaves its read position alone |
| AddItemFailedMessage.OnDeserialize | src/swganh/messages/add_item_failed_message.h:26-29 | the field-by-field reads from the buffer give the decoded message, or nothing when the buffer runs out |
| RemoveItemMessage.Encode | src/swganh/messages/remove_item_message.h:21-24 | the bytes written are the item id (8 bytes), 8 bytes in all |
| RemoveItemMessage.Decode | src/swganh/messages/remove_item_message.h:26-29 | reading the fields back in the same order succeeds exactly when at least 8 bytes are left |
| RemoveItemMessage.RoundTrip | src/swganh/messages/remove_item_message.h:21-29 | reading what was written gives back the same message whatever bytes follow |
| RemoveItemMessage.OnSerialize | src/swganh/messages/remove_item_message.h:21-24 | appends exactly the encoded message to the buffer and leaves its read position alone |
| RemoveItemMessage.OnDeserialize | src/swganh/messages/remove_item_message.h:26-29 | the field-by-field reads from the buffer give the decoded message, or nothing when the buffer runs out |
| GetAuctionDetails.Encode | src/swganh/messages/get_auction_details.h:21-24 | the bytes written are the item id (8 bytes), 8 bytes in all |
| GetAuctionDetails.Decode | src/swganh/messages/get_auction_details.h:26-29 | reading the fields back in the same order succeeds exactly when at least 8 bytes are left |
| GetAuctionDetails.RoundTrip | src/swganh/messages/get_auction_details.h:21-29 | reading what was written gives back the same message whatever bytes follow |
| GetAuctionDetails.OnSerialize | src/swganh/messages/get_auction_details.h:21-24 | appends exactly the encoded message to the buffer and leaves its read position alone |
| GetAuctionDetails.OnDeserialize | src/swganh/messages/get_auction_details.h:26-29 | the field-by-field reads from the buffer give the decoded message, or nothing when the buffer runs out |

## Left out

- The string layouts of the byte buffer (`anh/byte_buffer.h` is not part of this model). A 16-bit length prefix stands in for `std::string` and a 32-bit length prefix for `std::wstring`. The round trips are proved for strings that fit these prefixes.
- The outer message header (opcount and opcode before the body): it is not part of this model. Each message module keeps its constants.
- Locking and the concurrent maps: the model is single-threaded. The null that GetSession can return when a racing CreateSession wins is not modelled.
- The 5 ms session timer, the ping server, the event dispatcher and logging. The tick is modelled as updating every session once. A dispatched event or a call into another service is modelled as an effect value returned by the handler.
- Session::Update's body: it is not part of this model. Each session only counts its ticks.
- Sessions are values in the table, not shared pointers. Aliasing between the table and a session held elsewhere is not captured.
- The command queue's own implementation: it is not part of this model. A stand-in class keeps the pending commands and the default command that the registry forwards to it.
- All SQL: restricted-name loading, character listing, deletion, random names, the maximum character count, template loading, persisting and deleting tangibles, and the database fill of CreateObjectFromStorage. The character-creation procedure is a function parameter.
- Regular expressions: the name syntax is a hand-written predicate. The restricted-name patterns are searched through a function parameter.
- CRCs (`anh/crc.h` is not part of this model): the race crc of a template, the endpoint hash (CreateEndpointHash) and the waypoint planet crc.
- Floating point: positions, orientations, speeds and waypoints. Transforms carry only their counters.
- WaypointData in player.h: it holds floats and a crc.
- The Player and Group class methods: their bodies are not part of this model.
- TradeService.HandleSecureTrade: the creature's state check is a boolean field, because the state bitmask code is not part of this model.
- TradeService: the handler registration in onStart is modelled as the `HandleClientMessage` dispatch. SendAddItemFailedMessage_ and SendVerifyTradeMessage_ are never called from a handler, so no handler sends them.
- PacketUtilities.SplitDataChannelMessage: requires a maximum above 4 whenever the message is split. With a maximum of exactly 4 the source loop never ends (SplitStallsAtMaxSizeFour). Below 4 its 32-bit chunk size wraps (SplitChunkWrapsBelowFour).
- PacketUtilities.SplitDataChannelMessage: also requires a message shorter than 2^32 bytes. The source keeps the size in a uint32_t (packet_utilities.cc:92), so a longer message would be split by its size modulo 2^32; that case is not modelled.
- MysqlCharacterProvider.ParseName: follows the same reading of `$` as CreateCharacter, described on the next line.
- MysqlCharacterProvider.CreateCharacter: the name pattern's `$` is read as the end of the name. That is how `std::wregex` reads it on the WIN32 build, and it matches the comment at mysql_character_provider.cc:233-234: at most three ' or - in the entire name. The other builds use `boost::wregex` (mysql_character_provider.cc:65-77), where `$` also matches before a line separator (\n, \r, \f). There, the lookahead at mysql_character_provider.cc:238 counts only the ' and - before the first line break. So a name whose two parts are separated by a line break, such as "Ab'c'd-", a line feed, then "Ef'gh", is accepted with four of them, while the model declines it with name_declined_syntax.
- CommandQueueManager.CommandQueueManager.AddQueue: fails with the corrected text, DuplicateQueueMessage (the literal and the owner id in decimal). The source throws the text its pointer arithmetic yields, which DuplicateQueueMessageAsWritten models (see Findings).
- ConnectionService.ConnectionService.HandleCmdSceneReady: for a client without a controller it returns NoController, where the source dereferences a null controller (see Findings). Where the controller is assigned is not part of this model, so no modelled operation sets one.
- Item sizes of 65536 bytes and more in PackDataChannelMessages: their 16-bit prefix loses the size (OversizedMessageLosesItsSize), so the round trip is proved only below that.

## Findings

| source | as written | input that shows it | evidently intended | confidence | as-written member | corrected member |
|---|---|---|---|---|---|---|
| src/pub14_core/command/command_queue_manager.cc:41 | `"Queue already exists for user with id: " + queue_owner_id` adds the integer to the literal's character pointer | owner id 6 gives "already exists for user with id: "; any id above 39 points past the literal | the literal followed by the owner id in decimal | high (not executed) | CommandQueueManager.DuplicateQueueMessageAsWrittenLosesId | CommandQueueManager.DuplicateQueueMessage |
| src/swganh/connection/connection_service.cc:209 | `client->GetController()->GetObject()` with no check that the client has a controller | a client that sends CmdSceneReady right after connecting, before any ClientIdMsg handshake, has none | answer the client and fail without announcing an object | medium (not executed) | ConnectionService.SceneReadyBeforeHandshakeIsUndefined | ConnectionService.ConnectionService.HandleCmdSceneReady |
