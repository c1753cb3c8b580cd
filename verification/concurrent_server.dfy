/**
 * `ConcurrentServer` (src/server/ConcurrentServer.h): one worker step per datagram
 * (`handleNewMessage`'s task) and one event-processor step per queued event
 * (`processEvents`' loop body), each run atomically. The socket loop and the thread
 * pool are the environment that calls them.
 */
module ConcurrentServers {
  import opened Wrappers
  import opened Json
  import opened Addresses
  import opened P2PEvents
  import opened MessageParser
  import opened Machines
  import ServerStates
  import P2PStates
  import opened PeerSessions
  import opened PeerRegistries
  import opened CommandHandlers
  import opened ConcurrentQueues
  import opened Auctions

  class ConcurrentServer {
    const socketFd: int
    const registry: PeerRegistry
    const handlers: ServerCommandHandlers
    const eventQueue: ConcurrentQueue<(P2PEvent, Addr)>
    const serverMachine: ServerMachine
    /** Whether some handler has read a missing field, after which the library promises nothing. */
    ghost var undefinedBehaviour: bool

    /** The handlers share the registry; the server machine is a server machine and no session's. */
    ghost predicate Valid()
      reads this, registry, registry.Machines(), handlers, serverMachine
    {
      && handlers.registry == registry
      && handlers.socketFd == socketFd
      && handlers.Valid()
      && serverMachine.transitions == ServerTable()
      && serverMachine.stateName == ServerStates.Name
      && serverMachine.eventName == EventName
      && serverMachine !in registry.Machines()
    }

    /** Empty table, no searches, empty queue, server machine in LISTENING. */
    constructor (socketFd: int)
      ensures Valid() && this.socketFd == socketFd
      ensures registry.sessions == map[] && handlers.activeSearches == map[] && handlers.outbox == []
      ensures eventQueue.items == [] && serverMachine.current == ServerStates.Listening && !undefinedBehaviour
      ensures fresh(registry) && fresh(handlers) && fresh(eventQueue) && fresh(serverMachine)
    {
      var r := new PeerRegistry();
      var h := new ServerCommandHandlers(socketFd, r);
      var q := new ConcurrentQueue<(P2PEvent, Addr)>();
      var m := NewServerStateMachine();
      this.socketFd := socketFd;
      registry := r;
      handlers := h;
      eventQueue := q;
      serverMachine := m;
      undefinedBehaviour := false;
    }

    /**
     * The worker task for one datagram: `None` is text that is not JSON or not an object.
     * The message is printed first, and a message that does not print (see
     * `MessageParser.PrintOk`) is dropped like one that does not decode. Otherwise the command
     * handler runs; if it completes, the message is parsed and a parsed event is queued with
     * the sender's address. A handler that reads a missing field raises `undefinedBehaviour`.
     */
    method HandleNewMessage(raw: Option<JsonObject>, from: Addr, now: int)
      requires Valid()
      modifies this, handlers, registry, eventQueue
      ensures Valid()
      ensures raw.None? || !PrintOk(raw.value) ==>
        && registry.sessions == old(registry.sessions) && eventQueue.items == old(eventQueue.items)
        && handlers.activeSearches == old(handlers.activeSearches) && handlers.outbox == old(handlers.outbox)
        && undefinedBehaviour == old(undefinedBehaviour)
      ensures raw.Some? && PrintOk(raw.value) ==>
        && handlers.CommandEffect(raw.value, from, now)
        && undefinedBehaviour == (old(undefinedBehaviour) || HandlerOutcome(raw.value) == Undefined)
        && eventQueue.items == old(eventQueue.items) +
             if Completes(raw.value) && ParseMessage(raw.value).Some? then [(ParseMessage(raw.value).value, from)] else []
    {
      if raw.None? || !PrintOk(raw.value) {
        return;
      }
      var j := raw.value;
      var outcome := handlers.HandleCommand(j, from, now);
      if outcome == Undefined {
        undefinedBehaviour := true;
      }
      if outcome != Completed {
        return;
      }
      var event := ParseMessage(j);
      if event.Some? {
        eventQueue.Push((event.value, from));
      }
    }

    /** The machines `ProcessNextEvent` may advance: the server's and the live sender's. */
    ghost function FrontMachines(): set<object>
      reads this, eventQueue, registry
    {
      if eventQueue.items == [] then {}
      else
        var id := Identity(eventQueue.items[0].1);
        {serverMachine} + if registry.Live(id) then {registry.sessions[id].machine} else {}
    }

    /**
     * One turn of `processEvents`: pops the front event; looking the sender up with
     * `operator[]` inserts a null entry for an unknown identity; a live session advances both
     * the server machine and its own machine, anything else advances neither.
     */
    method ProcessNextEvent()
      requires Valid() && eventQueue.items != []
      modifies eventQueue, registry, FrontMachines()
      ensures Valid()
      ensures eventQueue.items == old(eventQueue.items[1..])
      ensures var event := old(eventQueue.items[0].0); var id := Identity(old(eventQueue.items[0].1));
        && registry.sessions == (if id in old(registry.sessions) then old(registry.sessions) else old(registry.sessions)[id := null])
        && if old(registry.Live(id)) then
             && serverMachine.current == ServerNext(old(serverMachine.current), event)
             && registry.sessions[id].machine.current == PeerNext(old(registry.sessions[id].machine.current), event)
           else serverMachine.current == old(serverMachine.current)
    {
      var pair := eventQueue.WaitAndPop();
      var event, addr := pair.0, pair.1;
      var id := Identity(addr);
      if id !in registry.sessions {
        registry.sessions := registry.sessions[id := null];
      }
      var session := registry.sessions[id];
      assert handlers.Valid();
      if session != null {
        serverMachine.ProcessEvent(event);
        session.ProcessEvent(event);
        assert registry.Valid() by {
          assert forall other :: registry.Live(other) && other != id ==> registry.sessions[other].machine != session.machine;
        }
      }
    }

    /** `getOrCreateSession`: the entry under `id`, null included, or else a fresh session stored there. */
    method GetOrCreateSession(id: string, addr: Addr) returns (session: PeerSession?)
      requires Valid()
      modifies registry
      ensures Valid()
      ensures id in old(registry.sessions) ==> session == old(registry.sessions[id]) && registry.sessions == old(registry.sessions)
      ensures id !in old(registry.sessions) ==>
        && session != null && fresh(session) && registry.sessions == old(registry.sessions)[id := session]
        && session.socketFd == socketFd && session.peerAddr == addr && session.machine.current == P2PStates.Unregistered
    {
      if id in registry.sessions {
        return registry.sessions[id];
      }
      session := new PeerSession(socketFd, addr);
      registry.sessions := registry.sessions[id := session];
    }
  }

  /**
   * A message the parser accepts always prints and gets past its command handler, except a
   * REGISTER without a "name": the parser does not need one, while the handler reads it through
   * the const `operator[]`, which is undefined behaviour; that event is never queued.
   */
  lemma ParsedThenHandled(j: JsonObject)
    requires ParseMessage(j).Some?
    ensures PrintOk(j)
    ensures HandlerOutcome(j) == if ParseMessage(j).value.kind == Register && "name" !in j then Undefined else Completed
  {
    ParsedKinds(j);
    var kind := ParseMessage(j).value.kind;
    if kind == Register {
      ParseRegister(j);
    } else if kind == LookingFor {
      ParseLookingFor(j);
    } else if kind == Offer {
      ParseOfferAcceptRefuse(j, Offer);
    }
  }

  /**
   * An OFFER from a peer without a session is handled (there is no search, so nothing changes)
   * and queued; processing it files a null session under the peer's identity.
   */
  method EarlyOfferFilesNull(x: Addr, offer: JsonObject) returns (s: ConcurrentServer)
    requires PrintOk(offer) && CommandIs(offer, "OFFER") && OfferFields(offer)
    ensures s.Valid() && s.registry.sessions == map[Identity(x) := null]
    ensures s.handlers.outbox == [] && s.eventQueue.items == [] && !s.undefinedBehaviour
    ensures fresh(s) && fresh(s.registry) && fresh(s.handlers) && fresh(s.eventQueue)
  {
    s := new ConcurrentServer(3);
    assert Command(offer) == Some("OFFER");
    ParseOfferAcceptRefuse(offer, Offer);
    s.HandleNewMessage(Some(offer), x, 0);
    assert s.registry.sessions == map[] && s.handlers.outbox == [];
    assert |s.eventQueue.items| == 1 && s.eventQueue.items[0].1 == x;
    s.ProcessNextEvent();
  }

  /**
   * A peer that sends an event before registering is locked out: its REGISTER, with any
   * request number, is then refused as a duplicate because of the null session.
   */
  method EarlyEventLocksOut(x: Addr, offer: JsonObject, register: JsonObject) returns (s: ConcurrentServer)
    requires PrintOk(offer) && CommandIs(offer, "OFFER") && OfferFields(offer)
    requires PrintOk(register) && CommandIs(register, "REGISTER") && HasStr(register, "name") && "rq" in register
    ensures s.Valid() && s.registry.sessions == map[Identity(x) := null]
    ensures s.handlers.outbox == [Outgoing(DeniedMsg(register["rq"]), x)]
  {
    s := EarlyOfferFilesNull(x, offer);
    assert Command(register) == Some("REGISTER");
    s.HandleNewMessage(Some(register), x, 1);
  }
}
