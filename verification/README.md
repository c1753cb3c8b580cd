# P2P Shopping: a verified model of the server, the peers and the wire protocol

COEN366 P2P Shopping is a peer-to-peer marketplace over UDP. Peers register with a central
server, ask it to look for an item (LOOKING_FOR), and the server relays the search (SEARCH)
to every other registered peer. Peers that hold the item answer with an OFFER. One minute
later the server closes the search:
- no offer gives NOT_AVAILABLE to the searcher;
- a cheapest offer within the buyer's maximum gives FOUND to the searcher;
- otherwise the cheapest seller gets a NEGOTIATE.

Messages are JSON objects. The same decoder, `MessageParser::parseMessage`, turns them into
typed events on both sides. Those events drive small table-based state machines, one per
peer session and one for the server.

This project models that core in Dafny, with one module per concept:

| module | models |
|---|---|
| `StateMachines` (state_machine.dfy) | the generic `StateMachine` template: a table from state name and event name to handler, `addTransition`, `processEvent` |
| `P2PStates`, `ServerStates`, `P2PEvents` | the state and event enumerations, their names, `MessageData` and its defaults |
| `Machines` | the peer and server machines with their single registered transition |
| `PeerSessions`, `PeerRegistries` | a peer session (socket, address, own machine) and the shared session table |
| `ConcurrentQueues` | the blocking event queue, as a FIFO of values |
| `Json`, `MessageParser` | the JSON values the parser reads, the conversions it relies on, `parseMessage`, `validateCommandFields`, `stringToEventType` |
| `Auctions` | offers, search requests, the one-minute window and the timeout verdict |
| `CommandHandlers` | `ServerCommandHandlers`: REGISTER, DE_REGISTER, LOOKING_FOR with its broadcast, OFFER, and the timeout |
| `ConcurrentServers` | `ConcurrentServer`: the worker task per datagram, the event processor, `getOrCreateSession` |
| `Addresses` | socket addresses and the `ip:port` peer identity |
| `ClientConfigs` | `parseCommandLine` with `std::stoi` and the cast to a 16-bit port |
| `ClientMessages`, `Inventories` | what both clients share: the messages they build, the state a received event leads to, the inventory |
| `Clients` | the client in src/client: request numbers, register, deregister, search, negotiate, accept, refuse, received messages, the list of offers |
| `LegacyClients` | the older client in the repository root, which keeps no offers |
| `Protocol` | the two sides together: what each side's decoder makes of each message the other side builds |
| `PrototypeServer` | the Python prototype server with its newline-separated text protocol |

Object state that the source updates in place is a Dafny `class`:
- the state machine, the session, the queue and the session table;
- the command handlers, the server, both clients and the Python server.

Each method's contract ties the new state to specification functions, such as `Next`,
`ParseMessage`, `Timeout`, `Sends`, `ReceivedState`, `SearchReply` and `Handle`. Lemmas about
those functions state what the program promises.

Some effects are not modelled directly:
- Sending a datagram appends to a ghost outbox (`outbox` on the server, `sent` on the clients).
- Whether a client's `sendto` succeeds is a boolean input `sendOk`.
- The clock is an integer tick in milliseconds, passed as `now`.
- The timeout thread becomes a separate operation, `ProcessOffersAfterTimeout`, that may run
  at any time.
- A request number read into an `int` keeps its low 32 bits (`Json.Wrap32`), so the `Protocol`
  lemmas state the request number as the receiver reads it.
- The peer identity `inet_ntoa(ip) + ":" + to_string(port)` is modelled by `Addresses.Identity`.
  The proof that it is injective (`Addresses.IdentityInjective`) lets the model key sessions
  by identity.

## Model

| member | source | states |
|---|---|---|
| StateMachines.Add | Statemachine.h:19-25 | after adding an entry, that handler is found for its state and event; every other lookup is unchanged |
| StateMachines.Lookup | Statemachine.h:28-31 | a handler is found exactly when the state's name has a row that names the event |
| StateMachines.NoRowNoChange | Statemachine.h:28-29 | a state with no row in the table ignores every event |
| StateMachines.Next | Statemachine.h:27-38 | the state changes only to what the handler registered for the current state's name and the event's name returns |
| StateMachines.NoEntryNoChange | Statemachine.h:30-31 | an event with no entry in the current state's row leaves the state unchanged |
| StateMachines.EntryFires | Statemachine.h:32-35 | when an entry exists, the handler's result becomes the state, or the state stays when the handler declines |
| StateMachines.SameNameSameMove | Statemachine.h:27-38 | the table is keyed by name, so two states with the same name react alike to each event |
| StateMachines.AbsorbingRun | Statemachine.h:27-38 | a state that every event leaves alone stays put over any sequence of events |
| StateMachines.StateMachine.constructor | Statemachine.h:17 | the machine starts in the given state with an empty table |
| StateMachines.StateMachine.AddTransition | Statemachine.h:19-25 | the table becomes `Add` of the old table and the current state is kept |
| StateMachines.StateMachine.ProcessEvent | Statemachine.h:27-38 | the new state is `Next` of the old state and the event; the table is kept |
| P2PStates.Name | P2PState.h:25-37 | no peer state is named "UNKNOWN" |
| P2PStates.NameInjective | P2PState.h:25-37 | two peer states have the same name exactly when they are equal |
| ServerStates.UnknownNamed | src/server/ServerState.h:24-31 | a server state is named "UNKNOWN" exactly when it is one of the four states without a name case |
| ServerStates.NameNotInjective | src/server/ServerState.h:24-31 | there are two different server states with the same name |
| ServerStates.NamedStatesDistinct | src/server/ServerState.h:24-31 | LISTENING and PROCESSING_REGISTRATION each name exactly one state |
| P2PEvents.NewMessageData | P2PEvent.h:43-49 | the request number and sender come from the arguments; every other field has its default (0 or empty) |
| P2PEvents.NameInjective | P2PEvent.h:58-78 | two event types have the same name exactly when they are equal |
| P2PEvents.HyphenatedNames | P2PEvent.h:58-78 | exactly REGISTER-DENIED and DE-REGISTER are spelt with a hyphen |
| Machines.NewPeerStateMachine | src/server/PeerStateMachine.h:10-27 | a fresh machine in UNREGISTERED whose table is the peer table |
| Machines.NewServerStateMachine | src/server/ServerStateMachine.h:11-33 | a fresh machine in LISTENING whose table is the server table |
| Machines.PeerTransitions | src/server/PeerStateMachine.h:16-27 | a peer machine moves only from UNREGISTERED to REGISTERING on REGISTER; every other pair leaves it alone |
| Machines.ServerTransitions | src/server/ServerStateMachine.h:17-33 | the server machine moves only from LISTENING to PROCESSING_REGISTRATION on REGISTER |
| Machines.PeerRun | src/server/PeerStateMachine.h:16-27 | over any run from UNREGISTERED, the machine ends in REGISTERING if the run holds a REGISTER, and otherwise in UNREGISTERED |
| Machines.ServerRun | src/server/ServerStateMachine.h:17-33 | over any run from LISTENING, the server ends in PROCESSING_REGISTRATION if the run holds a REGISTER, and otherwise in LISTENING |
| Machines.UnknownStatesShareEntries | src/server/ServerState.h:24-31 | in any table, two server states named "UNKNOWN" react alike to every event |
| Addresses.DecimalRoundTrip | src/server/ServerCommandHandlers.cpp:142-145 | reading back the decimal text of a port gives the port |
| Addresses.Identity | src/server/ServerCommandHandlers.cpp:142-145 | the identity starts with the first octet and a dot, and ends with a colon and the decimal port |
| Addresses.IdentityInjective | src/server/ServerCommandHandlers.cpp:142-145 | two addresses with the same `ip:port` identity are the same address |
| PeerSessions.PeerSession.constructor | src/server/PeerSession.h:11-12 | a session keeps its socket and address and owns a fresh machine in UNREGISTERED |
| PeerSessions.PeerSession.ProcessEvent | src/server/PeerSession.h:14-16 | the session's machine takes the peer transition for the event |
| ConcurrentQueues.ConcurrentQueue.Push | src/ConcurrentQueue.h:12-17 | the item is appended at the back |
| ConcurrentQueues.ConcurrentQueue.WaitAndPop | src/ConcurrentQueue.h:19-24 | the front item is returned and removed |
| ConcurrentQueues.FifoOrder | src/ConcurrentQueue.h:12-24 | three pushes followed by three pops return the items in the order pushed and empty the queue |
| Inventories.RemoveFirst | src/client/client.cpp:614-622 | with no item of that name the inventory is unchanged; otherwise exactly the first item with the name goes and the others keep their order |
| Inventories.AddThenRemove | src/client/client.cpp:609-622 | adding an item whose name is not yet present and then removing that name restores the inventory |
| Inventories.RemoveKeepsOthers | src/client/client.cpp:614-622 | removing one name leaves the items of every other name, in order |
| MessageParser.StringToEventTypeInvertsName | src/util/MessageParser.cpp:193-225 | the map turns each event's name back into that event, except DE-REGISTER and UNKNOWN, which are not in it |
| MessageParser.NameInvertsStringToEventType | src/util/MessageParser.cpp:193-225 | a recognised command is exactly the name of its event, and no command gives DE-REGISTER |
| MessageParser.StringToEventType | src/util/MessageParser.cpp:193-196 | UNKNOWN exactly for a string outside the fifteen-entry map; any other result is the event whose name is the string |
| MessageParser.ValidateCommandFields | src/util/MessageParser.cpp:99-139 | RESERVE, CANCEL, BUY and UNKNOWN always fail, REGISTERED and REGISTER-DENIED always pass, REGISTER passes exactly with ip, udp_port and tcp_port, DE-REGISTER exactly with name, FOUND, NOT_FOUND and NOT_AVAILABLE exactly with item_name, and a passing LOOKING_FOR, SEARCH, OFFER, NEGOTIATE, ACCEPT or REFUSE has each field its type needs (item_name; name; price; description; max_price) |
| MessageParser.ParseMessage | src/util/MessageParser.cpp:8-97 | an event comes only from a message that prints without throwing, whose command is the event's name, whose "rq" converts to the event's request number, and which validation accepts |
| MessageParser.ParseNeedsCommandAndRq | src/util/MessageParser.cpp:15-19 | a message missing "command" or "rq" is rejected |
| MessageParser.ParsedKinds | src/util/MessageParser.cpp:8-140 | a parsed event's command is its event's name, and DE-REGISTER, RESERVE, CANCEL, BUY and UNKNOWN never parse |
| MessageParser.ParseRegister | src/util/MessageParser.cpp:32-36 | a REGISTER parses exactly when rq, ip and both ports convert, and it then carries them |
| MessageParser.ParseLookingFor | src/util/MessageParser.cpp:38-45 | a LOOKING_FOR parses exactly when rq, item name, description and maximum price convert, and it then carries them |
| MessageParser.ParseSearch | src/util/MessageParser.cpp:38-45 | a SEARCH parses exactly when rq, item name and description convert and a "max_price", which only printing reads, is absent or a number |
| MessageParser.ParseOfferAcceptRefuse | src/util/MessageParser.cpp:47-61 | an OFFER, ACCEPT or REFUSE parses exactly when rq, name, item name and price are present and convert |
| MessageParser.ParseNegotiate | src/util/MessageParser.cpp:52-55 | a NEGOTIATE parses exactly when rq, name and item name convert, "max_price" is a number, and "price" is a number too, since validation demands it and printing reads it; the price is taken from "max_price" |
| MessageParser.ParseOutcome | src/util/MessageParser.cpp:63-70 | NOT_AVAILABLE, NOT_FOUND and FOUND need an item name; a price is optional but must convert |
| MessageParser.ParseRegistration | src/util/MessageParser.cpp:72-76 | REGISTERED and REGISTER-DENIED need only the common fields; a denial's reason, if present, must be a string |
| MessageParser.ParseRejectsUnmapped | src/util/MessageParser.cpp:193-225 | a command outside the map, or RESERVE, CANCEL or BUY, never parses |
| Auctions.DefaultOfferInfo | src/server/ServerCommandHandlers.h:28-42 | the default offer has an empty name, price 0 and a zero address |
| Auctions.NewSearchRequest | src/server/ServerCommandHandlers.h:65-73 | a new search holds its arguments, starts at `now`, has no offers and is not processed |
| Auctions.DefaultSearchRequest | src/server/ServerCommandHandlers.h:55-63 | the default search is empty, starts at `now` and is not processed |
| Auctions.LowestOffer | src/server/ServerCommandHandlers.cpp:203-209 | the result is the first offer of least price |
| Auctions.WinnerUnique | src/server/ServerCommandHandlers.cpp:203-209 | there is only one first cheapest offer |
| Auctions.AddOffer | src/server/ServerCommandHandlers.cpp:160-178 | the same searches are kept and every other search is unchanged; for `rq` only the offers change, growing by exactly this offer when the search exists, is unprocessed and is within its one-minute window |
| Auctions.Timeout | src/server/ServerCommandHandlers.cpp:181-231 | the timeout touches only the search for its request number, and what it sends is that search's verdict |
| Auctions.TimeoutSendsAtMostOnce | src/server/ServerCommandHandlers.cpp:181-231 | the timeout sends one message for an open search and none otherwise, and it leaves the search processed or removed |
| Auctions.SecondTimeoutIsIdle | src/server/ServerCommandHandlers.cpp:181-231 | a second timeout for the same request sends nothing and changes nothing |
| Auctions.NoOfferAfterTimeout | src/server/ServerCommandHandlers.cpp:160-198 | after the timeout, an offer for that request changes nothing |
| Auctions.OffersAllRanked | src/server/ServerCommandHandlers.cpp:154-179 | offers that arrive while a search is open are all kept, in arrival order |
| Auctions.NoOffersNotAvailable | src/server/ServerCommandHandlers.cpp:189-200 | with no offers, the searcher gets NOT_AVAILABLE with the maximum price, and the search is removed |
| Auctions.OffersFoundOrNegotiate | src/server/ServerCommandHandlers.cpp:202-229 | with offers, the searcher gets FOUND at the cheapest price when it is within the maximum, and otherwise the cheapest seller gets NEGOTIATE |
| Auctions.CheapestOfThree | src/server/ServerCommandHandlers.cpp:181-231 | with offers at 30, 25 and 28, a maximum of 26 gives FOUND at 25 to the searcher, and a maximum of 20 sends NEGOTIATE at 20 to the second seller |
| CommandHandlers.SendsReachRecipients | src/server/ServerCommandHandlers.cpp:131-138 | whatever order the table is visited in, every live session except the searcher's gets the SEARCH once, and nothing else is sent |
| CommandHandlers.AsWrittenFailsOnNull | src/server/ServerCommandHandlers.cpp:134-137 | the loop as written dereferences a null exactly when it meets a null entry that is not the searcher's; otherwise it sends what the corrected loop sends |
| CommandHandlers.SendsAsWritten | src/server/ServerCommandHandlers.cpp:134-137 | when the loop as written gets through, it sends at most one datagram per identity visited, each of them the broadcast |
| CommandHandlers.NullEntryBreaksBroadcast | src/server/ServerCommandHandlers.cpp:134-137 | a null entry under any other peer's identity makes every full visit of the table dereference a null |
| CommandHandlers.HandlerOutcome | src/server/ServerCommandHandlers.cpp:27-158 | a missing "command" is undefined, a command that is not a string throws, a command without a handler completes, REGISTER, LOOKING_FOR and OFFER complete exactly when every field they read is present and converts, and DE_REGISTER completes exactly when "name" is present |
| CommandHandlers.ServerCommandHandlers.constructor | src/server/ServerCommandHandlers.cpp:11-18 | the handlers start with no searches and share the session table they were given |
| CommandHandlers.ServerCommandHandlers.HandleCommand | src/server/ServerCommandHandlers.cpp:27-53 | the effect is that of the named handler, an unknown command changes nothing, and the result is `HandlerOutcome`: completed, thrown, or undefined for a missing field |
| CommandHandlers.ServerCommandHandlers.HandleRegister | src/server/ServerCommandHandlers.cpp:55-84 | a known identity is denied, echoing "rq" as "request_number"; a new one gets a fresh session in UNREGISTERED and a REGISTERED reply |
| CommandHandlers.ServerCommandHandlers.HandleDeregister | src/server/ServerCommandHandlers.cpp:86-93 | the sender's entry is removed; printing a missing "name" afterwards is undefined |
| CommandHandlers.ServerCommandHandlers.HandleLookingFor | src/server/ServerCommandHandlers.cpp:95-139 | the search is stored under its request number, replacing any earlier one, and SEARCH goes to every other live session |
| CommandHandlers.ServerCommandHandlers.BroadcastSearch | src/server/ServerCommandHandlers.cpp:131-138 | the outbox grows by the broadcast for some order of the whole table, and the searches are unchanged |
| CommandHandlers.ServerCommandHandlers.HandleOffer | src/server/ServerCommandHandlers.cpp:154-179 | the searches become `AddOffer` of the offer; the sessions and the outbox are unchanged |
| CommandHandlers.ServerCommandHandlers.ProcessOffersAfterTimeout | src/server/ServerCommandHandlers.cpp:181-231 | the searches and the outbox follow `Timeout`, and the sessions are unchanged |
| CommandHandlers.LowestIndex | src/server/ServerCommandHandlers.cpp:203-209 | the loop finds the first offer of least price |
| ConcurrentServers.ConcurrentServer.constructor | src/server/ConcurrentServer.h:24-31 | a new server has no sessions, no searches, an empty queue and its machine in LISTENING |
| PeerRegistries.PeerRegistry.constructor | src/server/ConcurrentServer.h:69 | the session table starts empty and well formed |
| ConcurrentServers.ConcurrentServer.HandleNewMessage | src/server/ConcurrentServer.h:94-115 | text that is not a JSON object, or that `printMessage` cannot print, is dropped; otherwise the command handler's effect happens, a missing field raises the undefined-behaviour flag, and the parsed event is queued only if the handler ran to its end |
| ConcurrentServers.ConcurrentServer.ProcessNextEvent | src/server/ConcurrentServer.h:117-133 | the front event is popped, and an unknown sender gets a null entry; a live sender's machine and the server machine both take the event |
| ConcurrentServers.ConcurrentServer.GetOrCreateSession | src/server/ConcurrentServer.h:135-146 | the existing entry (null included) is returned, or a fresh session is stored and returned |
| ConcurrentServers.ParsedThenHandled | src/server/ConcurrentServer.h:94-115 | a parsed message always prints and gets past its handler, except a REGISTER without a "name", whose handler reads the missing name (undefined) |
| ConcurrentServers.EarlyOfferFilesNull | src/server/ConcurrentServer.h:117-133 | an OFFER from a peer without a session changes nothing when handled, and processing its event files a null entry under the peer's identity |
| ConcurrentServers.EarlyEventLocksOut | src/server/ServerCommandHandlers.cpp:55-70 | after that, the peer's REGISTER, with any request number, is denied as a duplicate and no session is created |
| ClientConfigs.AcceptedConfig | src/client/client.h:55-86 | an accepted command line has six arguments, distinct UDP and TCP ports, and non-zero server and TCP ports |
| ClientConfigs.ParseCommandLine | src/client/client.h:55-86 | any argument count but six fails with its own error; an accepted configuration takes the name and server address from the arguments |
| ClientConfigs.Stoi | src/client/client.h:68-70 | a number read is within `int` range, and every failure is the "stoi" error |
| ClientConfigs.FailureMessages | src/client/client.h:55-86 | a wrong argument count fails with its own error, and every other failure is a stoi, port-range or same-port error |
| ClientConfigs.StoiDecimal | src/client/client.h:68-70 | `stoi` reads back the decimal text of any number that fits in an int |
| ClientConfigs.PortsTruncated | src/client/client.h:68-79 | decimal ports are reduced modulo 65536 before the checks, so 65537 is accepted as port 1 |
| ClientMessages.RegisterMsg | src/client/client.cpp:200-221 | REGISTER carries exactly command, rq, name, ip and the two ports |
| ClientMessages.DeregisterMsg | src/client/client.cpp:223-241 | DE_REGISTER carries exactly command, rq and name |
| ClientMessages.LookingForMsg | src/client/client.cpp:243-264 | LOOKING_FOR carries exactly command, rq, name, item name, description and maximum price |
| ClientMessages.ItemMsg | src/client/client.cpp:266-360 | OFFER, NEGOTIATE, ACCEPT and REFUSE carry exactly command, rq, name, item name and price |
| ClientMessages.ConsecutiveIncreasing | src/client/client.cpp:583 | the request numbers handed out are increasing and all below the next one |
| ClientMessages.ReceivedState | src/client/client.cpp:404-452 | REGISTERED, FOUND and NOT_FOUND lead to REGISTERED, REGISTER-DENIED leads to UNREGISTERED, and any other event keeps the state |
| ClientMessages.SearchReplyOffersFirstMatch | src/client/client.cpp:470-499 | at most one OFFER is sent, exactly when the client is REGISTERED, the send succeeds and an item matches; it quotes the first match's price |
| ClientMessages.FirstWithName | src/client/client.cpp:476-487 | the loop finds the first inventory item with the name, or none |
| Clients.OfferOf | src/client/client.cpp:454-468 | a recorded offer keeps the request number and price, and the item name fills the name |
| Clients.P2PClient.constructor | src/client/client.h:27-35 | a client starts UNREGISTERED, not running, with request number 1 next and no inventory or offers |
| Clients.P2PClient.GetNextRequestNumber | src/client/client.cpp:583 | returns the counter and then increments it; the number is larger than all earlier ones |
| Clients.P2PClient.RegisterWithServer | src/client/client.cpp:200-221 | only from UNREGISTERED: uses a new request number and, if the send succeeds, sends REGISTER and moves to REGISTERING |
| Clients.P2PClient.Deregister | src/client/client.cpp:223-241 | only from REGISTERED: if the send succeeds, sends DE_REGISTER and moves to UNREGISTERED |
| Clients.P2PClient.SearchItem | src/client/client.cpp:243-264 | only from REGISTERED: if the send succeeds, sends LOOKING_FOR and moves to SEARCHING |
| Clients.P2PClient.NegotiateOffer | src/client/client.cpp:266-302 | only while SEARCHING or NEGOTIATING, for the first offer with the request number and that name: the offer is removed, and a successful NEGOTIATE moves the client to NEGOTIATING |
| Clients.P2PClient.Respond | src/client/client.cpp:304-360 | for the first offer with the request number, when its name and price match: the offer is removed and the reply is sent; the state never changes |
| Clients.P2PClient.AcceptOffer | src/client/client.cpp:304-331 | as `Respond` with ACCEPT |
| Clients.P2PClient.RefuseOffer | src/client/client.cpp:333-360 | as `Respond` with REFUSE |
| Clients.P2PClient.HandleOfferEvent | src/client/client.cpp:454-468 | an offer is recorded only while REGISTERED |
| Clients.P2PClient.HandleSearchEvent | src/client/client.cpp:470-499 | the outbox grows by `SearchReply` |
| Clients.P2PClient.HandleReceivedMessage | src/client/client.cpp:404-452 | a message that does not print or does not decode changes nothing; otherwise the state follows `ReceivedState`, an OFFER or NEGOTIATE is recorded, and a SEARCH is answered |
| Clients.P2PClient.AddItem | src/client/client.cpp:609-612 | the item is appended at the end |
| Clients.P2PClient.RemoveItem | src/client/client.cpp:614-622 | the inventory becomes `RemoveFirst` of the name |
| LegacyClients.LegacyClient.constructor | src/client/client.h:27-35 | as the newer client, without offers |
| LegacyClients.LegacyClient.GetNextRequestNumber | client.cpp:409-411 | returns the counter and then increments it; the number is larger than all earlier ones |
| LegacyClients.LegacyClient.RegisterWithServer | client.cpp:191-212 | only from UNREGISTERED: if the send succeeds, sends REGISTER and moves to REGISTERING |
| LegacyClients.LegacyClient.Deregister | client.cpp:214-232 | only from REGISTERED: if the send succeeds, sends DE_REGISTER and moves to UNREGISTERED |
| LegacyClients.LegacyClient.SearchItem | client.cpp:234-255 | only from REGISTERED: if the send succeeds, sends LOOKING_FOR and moves to SEARCHING |
| LegacyClients.LegacyClient.NegotiateOffer | client.cpp:257-277 | guarded by the state alone (SEARCHING or NEGOTIATING); a successful NEGOTIATE moves the client to NEGOTIATING |
| LegacyClients.LegacyClient.AcceptOffer | client.cpp:279-290 | sends ACCEPT in any state; the result is whether it went out |
| LegacyClients.LegacyClient.RefuseOffer | client.cpp:292-303 | sends REFUSE in any state; the result is whether it went out |
| LegacyClients.LegacyClient.HandleSearchEvent | client.cpp:439-468 | the outbox grows by `SearchReply` |
| LegacyClients.LegacyClient.HandleReceivedMessage | client.cpp:350-394 | a message that does not print or does not decode changes nothing; otherwise the state follows `ReceivedState`, a SEARCH is answered, and an OFFER is only reported |
| LegacyClients.LegacyClient.AddItem | client.cpp:471-474 | the item is appended at the end |
| LegacyClients.LegacyClient.RemoveItem | client.cpp:476-484 | the inventory becomes `RemoveFirst` of the name |
| Protocol.RegisterReachesServer | src/client/client.cpp:200-221 | a client's REGISTER completes its handler and becomes a REGISTER event with the client's name, address and ports |
| Protocol.LookingForReachesServer | src/client/client.cpp:243-264 | a client's LOOKING_FOR completes its handler and becomes the matching LOOKING_FOR event |
| Protocol.OfferReachesServer | src/client/client.cpp:470-499 | a client's OFFER completes its handler and becomes an OFFER event with the seller's price |
| Protocol.ResponseReachesServer | src/client/client.cpp:304-360 | ACCEPT and REFUSE have no handler, but they decode and are queued |
| Protocol.ClientNegotiateNotDecoded | src/client/client.cpp:266-302 | a client's NEGOTIATE carries "price", not "max_price", so it is never queued |
| Protocol.DeregisterNotDecoded | src/client/client.cpp:223-241 | DE_REGISTER is handled but never decodes into an event |
| Protocol.RegisteredReplyDecoded | src/server/ServerCommandHandlers.cpp:77-82 | the REGISTERED reply decodes and takes a client in any state to REGISTERED |
| Protocol.DenialNotDecoded | src/server/ServerCommandHandlers.cpp:62-70 | the denial carries "request_number" instead of "rq", so no client can decode it |
| Protocol.SearchDecoded | src/server/ServerCommandHandlers.cpp:124-129 | a relayed SEARCH with a string description decodes with the item and the description |
| Protocol.RelayedSearchDecodes | src/server/ServerCommandHandlers.cpp:95-129 | a LOOKING_FOR that prints and whose handler completes has a string description, so the SEARCH relayed for it decodes with the searcher's request number, item and description |
| Protocol.FoundDecoded | src/server/ServerCommandHandlers.cpp:211-219 | FOUND decodes with its price and takes the searcher back to REGISTERED |
| Protocol.NotAvailableLeavesSearching | src/server/ServerCommandHandlers.cpp:189-200 | NOT_AVAILABLE decodes, but the searcher stays SEARCHING |
| Protocol.ServerNegotiateNotDecoded | src/server/ServerCommandHandlers.cpp:220-228 | the server's NEGOTIATE has no "price" and no "name", so the seller cannot decode it |
| PrototypeServer.Split | server.py:15 | there is always at least one part, and no part holds the separator |
| PrototypeServer.JoinSplit | server.py:15 | joining the parts of a split gives back the text |
| PrototypeServer.SplitJoin | server.py:15 | splitting a join of separator-free parts gives back the parts |
| PrototypeServer.Handle | server.py:14-49 | a crash changes nothing and sends nothing, a command other than REGISTER and DE-REGISTER is ignored, only the named user's entry can change, and a user is added only by a complete REGISTER |
| PrototypeServer.HandleKeepsCap | server.py:26-35 | no request takes the table past 100 users |
| PrototypeServer.RegisterOutcome | server.py:17-36 | a complete REGISTER never crashes and always gets a reply; the name is added exactly when it is new and fewer than 100 are stored, with its address and ports; otherwise the table is unchanged |
| PrototypeServer.RegisterThenDeregister | server.py:17-49 | deregistering a name just registered restores the table and is accepted |
| PrototypeServer.DeregisterIdempotent | server.py:38-49 | deregistering twice leaves the table as deregistering once, and the second reply is IGNORED |
| PrototypeServer.ReplyEchoesRequestNumber | server.py:17-49 | every reply's second line is the request's second line |
| PrototypeServer.ReplayKeepsCap | server.py:13-49 | over any sequence of datagrams the table never exceeds 100 users |
| PrototypeServer.Replay | server.py:13-49 | the replies already sent are kept, and at most one reply is added per datagram |
| PrototypeServer.PrototypeServer.constructor | server.py:4 | the server starts with no users |
| PrototypeServer.PrototypeServer.HandleDatagram | server.py:14-49 | the table, the crash flag and the sent replies follow `Handle` of the split request |
| PrototypeServer.PrototypeServer.Serve | server.py:13-49 | after an inbox of datagrams the state is `Replay` of the inbox, which keeps the cap |

## Left out

- Threads, mutexes, the thread pool, the detached one-minute timer thread and `std::atomic`. Each
  handler runs atomically. The timer is the operation `ProcessOffersAfterTimeout`, callable at any
  time, so interleavings inside a handler are not modelled.
- Sockets, `bind`, `recvfrom`, `sendto`, `close` and non-blocking mode. A sent datagram is a ghost
  outbox entry. A client's send result is the input `sendOk`. The server's send result is
  ignored, as in the source.
- JSON text. `json::parse` is an `Option` input: `None` is text that is not JSON, or JSON that is
  not an object, which `printMessage` rejects. `dump` is not modelled. The conversions cover the
  value kinds used here: a boolean converts to `int` but not to `double`, a string converts only
  from a string, and an integer converts to `int` by keeping its low 32 bits.
- Json.ToInt: an integer beyond the 64-bit range is a `double` in the JSON library, and its cast to
  `int` is undefined; the model cuts it to 32 bits like any other integer.
- Floating point. Prices and maximum prices are integers. `double` rounding and NaN are not modelled.
- Clients.P2PClient.GetNextRequestNumber: does not model the wrap-around of the C++ `int` counter, because the counter is an unbounded integer.
- LegacyClients.LegacyClient.GetNextRequestNumber: does not model the wrap-around of the C++ `int` counter, for the same reason.
- Auctions.AddOffer: the window is exactly 60000 ticks of `steady_clock`; the clock is taken to be monotonic, and its resolution is not modelled.
- Console output, `printHelp`, `printStatus`, `logOutgoingMessage`, `std::cin`, and the user-command
  layer: `startCommandLoop`, `processUserCommand`, the `handle...Command` parsers and `listInventory`. These only print,
  or read a line and call the modelled operations. `printMessage` is modelled by whether it throws
  (`MessageParser.PrintOk`), but not by what it prints. The clients' `printMessage` of their own
  outgoing messages is not modelled; the messages they build always print.
- `start`, `stop`, `receiveMessages`, the `running_` receive loops and `setupSocket` on both sides. `running` is kept
  as a field but never set.
- `handleAcceptEvent`, `handleBuyEvent` and `handleShippedEvent` (src/client/client.cpp:502-607). They lie outside
  the modelled core, so the transaction after an ACCEPT (RESERVE, CANCEL, BUY, shipping) is not modelled.
- `getOrCreateSession` is modelled, but nothing in the source calls it.
- CommandHandlers.ServerCommandHandlers.HandleCommand: a handler that reads a missing field through
  the const `operator[]` has undefined behaviour in the JSON library (an assertion failure in a
  debug build). The model only reports it as `Undefined` and raises the server's
  `undefinedBehaviour` flag. The state it leaves is what was done before that read, which the
  source does not promise.
- ConcurrentServers.ParsedThenHandled: a REGISTER without "name" is undefined in its handler, not
  cleanly dropped. The lemma says so, and promises nothing about what follows.
- CommandHandlers.ServerCommandHandlers.HandleLookingFor: sends SEARCH with the corrected,
  null-skipping broadcast. The loop as written dereferences null entries; see Findings and
  `CommandHandlers.SendsAsWritten`.
- CommandHandlers.ServerCommandHandlers.BroadcastSearch: is the corrected loop, which skips null
  entries. It is not the loop as written, for the same reason.
- The root-level client header is not part of this model. The older client's constructor is
  taken to match src/client/client.h.
- The root-level copies of the headers (Statemachine.h, P2PState.h, P2PEvent.h, PeerSession.h,
  PeerStateMachine.h, ServerStateMachine.h, ConcurrentQueue.h) share the modules of their src/
  counterparts where they agree.
- The offer record of the newer client: `Offer` and `offers_` are used in src/client/client.cpp but
  declared neither there nor in src/client/client.h. It is taken as
  (request number, name, item name, price), filled in the order the aggregate initialiser lists them.
- The UTF-8 decoding of datagrams in server.py, and its `print` calls. A request is a string, and a
  failed decode is not modelled.
- server.py's missing fields: an `IndexError` is modelled as a crash flag. After a crash,
  `HandleDatagram` and `Serve` are not called.
- `ThreadPool`, `client_daemon.cpp`, `server_daemon.cpp`, the `main.cpp` files and client.py. These
  are scaffolding around the modelled core.

## Findings

| source | as written | input that shows it | evidently intended | confidence | as-written member | corrected member |
|---|---|---|---|---|---|---|
| src/server/ServerCommandHandlers.cpp:134-137 | the LOOKING_FOR broadcast calls `session->getPeerAddr()` on every table entry except the searcher's, including the null entries that `processEvents` inserts with `operator[]` (src/server/ConcurrentServer.h:126) | a peer sends an OFFER before registering, so its identity gets a null entry; then another peer sends LOOKING_FOR | skip null entries, sending SEARCH to every live session except the searcher's | not executed | CommandHandlers.NullEntryBreaksBroadcast | CommandHandlers.SendsReachRecipients |
