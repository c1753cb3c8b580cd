/**
 * `ServerCommandHandlers` (src/server/ServerCommandHandlers.cpp): what the server does with
 * a decoded datagram before (and regardless of) its parsing into an event, and the
 * auction timeout. Every send is appended to the ghost `outbox`.
 *
 * A handler reads its fields with the const `operator[]`. A present field that does not
 * convert to the C++ type it is read into throws: the handler ends there, with whatever it
 * had already done left in place, and the worker drops the datagram. A missing field is
 * undefined behaviour in the JSON library (an assertion failure in a debug build); the model
 * ends the handler there too and reports it as `Undefined`, so the server can flag it.
 */
module CommandHandlers {
  import opened Wrappers
  import opened Json
  import opened Addresses
  import opened Auctions
  import opened PeerSessions
  import opened PeerRegistries
  import P2PStates

  // ---------------------------------------------------------------------------
  // Replies and broadcasts.

  /** The refusal of a second REGISTER: the request number travels as "request_number". */
  function DeniedMsg(rq: JVal): JsonObject
  {
    map["command" := JString("REGISTER-DENIED"), "request_number" := rq, "reason" := JString("Peer already registered")]
  }

  function RegisteredMsg(rq: JVal): JsonObject
  {
    map["command" := JString("REGISTERED"), "rq" := rq]
  }

  /** The search sent to the other peers; the description is copied as it came. */
  function SearchMsg(rq: int, item: string, description: JVal): JsonObject
  {
    map["command" := JString("SEARCH"), "rq" := JNumber(rq), "item_name" := JString(item), "description" := description]
  }

  /**
   * The broadcast of `msg` when the table is visited in the order `order`: one datagram per
   * live session other than the searcher's, to that session's address.
   */
  function Sends(msg: JsonObject, sessions: map<string, PeerSession?>, searcher: string, order: seq<string>): seq<Outgoing>
  {
    if order == [] then []
    else
      var id := order[|order| - 1];
      Sends(msg, sessions, searcher, order[..|order| - 1])
        + if id != searcher && id in sessions && sessions[id] != null then [Outgoing(msg, sessions[id].peerAddr)] else []
  }

  /** The identities the broadcast must reach. */
  function Recipients(sessions: map<string, PeerSession?>, searcher: string): set<string>
  {
    set id | id in sessions && id != searcher && sessions[id] != null
  }

  /**
   * Whatever the visiting order, every datagram is the broadcast, every recipient gets it,
   * every datagram goes to some recipient's address, and there are as many datagrams as recipients.
   */
  lemma SendsReachRecipients(msg: JsonObject, sessions: map<string, PeerSession?>, searcher: string, order: seq<string>)
    requires multiset(order) == multiset(sessions.Keys)
    ensures var out := Sends(msg, sessions, searcher, order);
      && (forall k :: 0 <= k < |out| ==> out[k].msg == msg)
      && (forall id :: id in Recipients(sessions, searcher) ==> exists k :: 0 <= k < |out| && out[k].to == sessions[id].peerAddr)
      && (forall k :: 0 <= k < |out| ==> exists id :: id in Recipients(sessions, searcher) && out[k].to == sessions[id].peerAddr)
      && |out| == |Recipients(sessions, searcher)|
  {
    SendsShape(msg, sessions, searcher, order);
    var out := Sends(msg, sessions, searcher, order);
    forall id | id in Recipients(sessions, searcher)
      ensures exists k :: 0 <= k < |out| && out[k].to == sessions[id].peerAddr
    {
      assert id in multiset(sessions.Keys);
      assert id in order;
      var i :| 0 <= i < |order| && order[i] == id;
      SendsHit(msg, sessions, searcher, order, i);
    }
    SendsLength(msg, sessions, searcher, order);
    RecipientCount(sessions, searcher, order);
  }

  /** Every datagram of `out` is `msg`, sent to a recipient. */
  ghost predicate Shaped(out: seq<Outgoing>, msg: JsonObject, sessions: map<string, PeerSession?>, searcher: string)
  {
    forall k :: 0 <= k < |out| ==>
      out[k].msg == msg && exists id :: id in Recipients(sessions, searcher) && out[k].to == sessions[id].peerAddr
  }

  /** The datagrams of a broadcast are the broadcast, to live non-searchers. */
  lemma {:induction false} SendsShape(msg: JsonObject, sessions: map<string, PeerSession?>, searcher: string, order: seq<string>)
    ensures Shaped(Sends(msg, sessions, searcher, order), msg, sessions, searcher)
  {
    if order != [] {
      var front := order[..|order| - 1];
      var id := order[|order| - 1];
      SendsShape(msg, sessions, searcher, front);
      var head := Sends(msg, sessions, searcher, front);
      var out := Sends(msg, sessions, searcher, order);
      var live := id != searcher && id in sessions && sessions[id] != null;
      assert out == head + if live then [Outgoing(msg, sessions[id].peerAddr)] else [];
      forall k | 0 <= k < |out|
        ensures out[k].msg == msg && exists id :: id in Recipients(sessions, searcher) && out[k].to == sessions[id].peerAddr
      {
        if k < |head| {
          assert out[k] == head[k];
        } else {
          assert id in Recipients(sessions, searcher);
          assert out[k] == Outgoing(msg, sessions[id].peerAddr);
        }
      }
    }
  }

  /** Some datagram of `out` goes to `to`. */
  ghost predicate Reaches(out: seq<Outgoing>, to: Addr)
  {
    exists k :: 0 <= k < |out| && out[k].to == to
  }

  /** Visiting a recipient sends it the broadcast. */
  lemma {:induction false} SendsHit(msg: JsonObject, sessions: map<string, PeerSession?>, searcher: string, order: seq<string>, i: int)
    requires 0 <= i < |order| && order[i] in Recipients(sessions, searcher)
    ensures Reaches(Sends(msg, sessions, searcher, order), sessions[order[i]].peerAddr)
  {
    var front := order[..|order| - 1];
    var out := Sends(msg, sessions, searcher, order);
    if i == |order| - 1 {
      assert out[|out| - 1].to == sessions[order[i]].peerAddr;
    } else {
      assert front[i] == order[i];
      SendsHit(msg, sessions, searcher, front, i);
      var head := Sends(msg, sessions, searcher, front);
      var k :| 0 <= k < |head| && head[k].to == sessions[order[i]].peerAddr;
      assert out[k] == head[k];
    }
  }

  /** The number of live non-searchers visited, counted with repetition. */
  function CountLive(sessions: map<string, PeerSession?>, searcher: string, order: seq<string>): nat
  {
    if order == [] then 0
    else
      var id := order[|order| - 1];
      CountLive(sessions, searcher, order[..|order| - 1]) + if id != searcher && id in sessions && sessions[id] != null then 1 else 0
  }

  /** One datagram per live non-searcher visited. */
  lemma {:induction false} SendsLength(msg: JsonObject, sessions: map<string, PeerSession?>, searcher: string, order: seq<string>)
    ensures |Sends(msg, sessions, searcher, order)| == CountLive(sessions, searcher, order)
  {
    if order != [] {
      SendsLength(msg, sessions, searcher, order[..|order| - 1]);
    }
  }

  /** A visit of each identity once meets every recipient once. */
  lemma RecipientCount(sessions: map<string, PeerSession?>, searcher: string, order: seq<string>)
    requires multiset(order) == multiset(sessions.Keys)
    ensures CountLive(sessions, searcher, order) == |Recipients(sessions, searcher)|
  {
    CountByMultiset(sessions, searcher, order);
    var R := Recipients(sessions, searcher);
    assert multiset(order) * multiset(R) == multiset(R) by {
      forall id ensures (multiset(order) * multiset(R))[id] == multiset(R)[id] {
        if id in R {
          assert id in sessions.Keys;
        }
      }
    }
  }

  /** Over a visit without repetition, the count is the number of recipients visited. */
  lemma {:induction false} CountByMultiset(sessions: map<string, PeerSession?>, searcher: string, order: seq<string>)
    requires forall x :: multiset(order)[x] <= 1
    ensures CountLive(sessions, searcher, order) == |multiset(order) * multiset(Recipients(sessions, searcher))|
  {
    var R := multiset(Recipients(sessions, searcher));
    if order == [] {
      assert multiset(order) * R == multiset{};
    } else {
      var front := order[..|order| - 1];
      var id := order[|order| - 1];
      assert order == front + [id];
      var m := multiset(order);
      assert m == multiset(front) + multiset{id};
      assert id !in multiset(front) by {
        assert m[id] == multiset(front)[id] + 1;
      }
      forall x ensures multiset(front)[x] <= 1 {
        assert m[x] >= multiset(front)[x];
      }
      CountByMultiset(sessions, searcher, front);
      if id in Recipients(sessions, searcher) {
        assert m * R == multiset(front) * R + multiset{id} by {
          forall x ensures (m * R)[x] == (multiset(front) * R + multiset{id})[x] {
          }
        }
      } else {
        assert m * R == multiset(front) * R by {
          forall x ensures (m * R)[x] == (multiset(front) * R)[x] {
          }
        }
      }
    }
  }

  /**
   * The broadcast loop as written: it dereferences the session of every identity other
   * than the searcher's, null or not. A null session is undefined behaviour, shown as `None`.
   */
  function SendsAsWritten(msg: JsonObject, sessions: map<string, PeerSession?>, searcher: string, order: seq<string>): (r: Option<seq<Outgoing>>)
    ensures r.Some? ==> |r.value| <= |order|
    ensures r.Some? ==> forall k :: 0 <= k < |r.value| ==> r.value[k].msg == msg
  {
    if order == [] then Some([])
    else
      var id := order[|order| - 1];
      match SendsAsWritten(msg, sessions, searcher, order[..|order| - 1])
      case None => None
      case Some(out) =>
        if id != searcher && id in sessions then
          if sessions[id] == null then None else Some(out + [Outgoing(msg, sessions[id].peerAddr)])
        else Some(out)
  }

  /** The visit meets a null entry that is not the searcher's. */
  predicate MeetsNull(sessions: map<string, PeerSession?>, searcher: string, order: seq<string>)
  {
    exists i :: 0 <= i < |order| && order[i] != searcher && order[i] in sessions && sessions[order[i]] == null
  }

  /**
   * The loop as written is undefined exactly when the visit meets a null entry other than
   * the searcher's; otherwise it sends what the null-skipping broadcast sends.
   */
  lemma {:induction false} AsWrittenFailsOnNull(msg: JsonObject, sessions: map<string, PeerSession?>, searcher: string, order: seq<string>)
    ensures SendsAsWritten(msg, sessions, searcher, order).None? <==> MeetsNull(sessions, searcher, order)
    ensures !MeetsNull(sessions, searcher, order) ==> SendsAsWritten(msg, sessions, searcher, order) == Some(Sends(msg, sessions, searcher, order))
  {
    if order != [] {
      var front := order[..|order| - 1];
      var id := order[|order| - 1];
      AsWrittenFailsOnNull(msg, sessions, searcher, front);
      if MeetsNull(sessions, searcher, front) {
        var i :| 0 <= i < |front| && front[i] != searcher && front[i] in sessions && sessions[front[i]] == null;
        assert order[i] == front[i];
      } else if id != searcher && id in sessions && sessions[id] == null {
        assert MeetsNull(sessions, searcher, order) by {
          assert order[|order| - 1] == id;
        }
      } else {
        forall i | 0 <= i < |front|
          ensures order[i] == front[i]
        {
        }
        var live := id != searcher && id in sessions && sessions[id] != null;
        var out := Sends(msg, sessions, searcher, front);
        assert SendsAsWritten(msg, sessions, searcher, front) == Some(out);
        if !live {
          assert out + [] == out;
        }
        assert Sends(msg, sessions, searcher, order) == Sends(msg, sessions, searcher, front) + if live then [Outgoing(msg, sessions[id].peerAddr)] else [];
      }
    }
  }

  /**
   * With a null entry under any identity but the searcher's, every full visit of the table
   * reaches undefined behaviour in the loop as written.
   */
  lemma NullEntryBreaksBroadcast(msg: JsonObject, sessions: map<string, PeerSession?>, searcher: string, order: seq<string>, stale: string)
    requires multiset(order) == multiset(sessions.Keys)
    requires stale in sessions && sessions[stale] == null && stale != searcher
    ensures SendsAsWritten(msg, sessions, searcher, order) == None
  {
    assert stale in multiset(sessions.Keys);
    assert stale in order;
    AsWrittenFailsOnNull(msg, sessions, searcher, order);
  }

  // ---------------------------------------------------------------------------
  // Whether each handler runs to its end.

  /** The command, when "command" holds a string. */
  function Command(msg: JsonObject): Option<string>
  {
    StrField(msg, "command")
  }

  /** How a handler ends: at its end, at a read that throws, or at a read of a missing field. */
  datatype Outcome = Completed | Threw | Undefined

  /** The C++ type a field is read into: a `json` copy, an `int`, a `double` or a `std::string`. */
  datatype Conversion = AsJson | AsInt | AsNumber | AsStr

  /** One read of `msg[key]` into a value of the given type. */
  function Read(msg: JsonObject, key: string, conv: Conversion): Outcome
  {
    if key !in msg then Undefined
    else
      var converts := match conv
        case AsJson => true
        case AsInt => ToInt(msg[key]).Some?
        case AsNumber => ToNumber(msg[key]).Some?
        case AsStr => ToStr(msg[key]).Some?;
      if converts then Completed else Threw
  }

  /** Two reads in turn: the second happens only when the first completes. */
  function Then(first: Outcome, second: Outcome): Outcome
  {
    if first == Completed then second else first
  }

  /** `handleRegister` reads "name" as a string, then copies "rq" into its reply. */
  function RegisterReads(msg: JsonObject): Outcome
  {
    Then(Read(msg, "name", AsStr), Read(msg, "rq", AsJson))
  }

  /** `handleDeregister` prints "name" after the erase. */
  function DeregisterReads(msg: JsonObject): Outcome
  {
    Read(msg, "name", AsJson)
  }

  /** `handleLookingFor` reads rq, item_name, max_price and name, and copies the description into the broadcast. */
  function LookingForReads(msg: JsonObject): Outcome
  {
    Then(Read(msg, "rq", AsInt), Then(Read(msg, "item_name", AsStr), Then(Read(msg, "max_price", AsNumber),
      Then(Read(msg, "name", AsStr), Read(msg, "description", AsJson)))))
  }

  /** `handleOffer` reads rq, name, item_name and price. */
  function OfferReads(msg: JsonObject): Outcome
  {
    Then(Read(msg, "rq", AsInt), Then(Read(msg, "name", AsStr), Then(Read(msg, "item_name", AsStr), Read(msg, "price", AsNumber))))
  }

  /**
   * How `handleCommand` ends: "command" is read as a string, then the named handler reads its
   * fields in order. A message without "command" is undefined, one whose command is not a
   * string throws, and a command without a handler completes.
   */
  function HandlerOutcome(msg: JsonObject): (o: Outcome)
    ensures "command" !in msg ==> o == Undefined
    ensures "command" in msg && Command(msg).None? ==> o == Threw
    ensures Command(msg).Some? && Command(msg).value !in {"REGISTER", "DE_REGISTER", "LOOKING_FOR", "OFFER"} ==> o == Completed
    ensures Command(msg) == Some("REGISTER") ==> (o == Completed <==> StrField(msg, "name").Some? && "rq" in msg)
    ensures Command(msg) == Some("DE_REGISTER") ==> (o == Completed <==> "name" in msg)
    ensures Command(msg) == Some("LOOKING_FOR") ==> (o == Completed <==> LookingForFields(msg) && "description" in msg)
    ensures Command(msg) == Some("OFFER") ==> (o == Completed <==> OfferFields(msg))
  {
    Then(Read(msg, "command", AsStr),
      match Command(msg)
      case Some("REGISTER") => RegisterReads(msg)
      case Some("DE_REGISTER") => DeregisterReads(msg)
      case Some("LOOKING_FOR") => LookingForReads(msg)
      case Some("OFFER") => OfferReads(msg)
      case _ => Completed)
  }

  /** `handleCommand` runs to its end. */
  predicate Completes(msg: JsonObject)
  {
    HandlerOutcome(msg) == Completed
  }

  /** LOOKING_FOR: an `int` rq, a string item name, a numeric maximum price and a string name. */
  predicate LookingForFields(msg: JsonObject)
  {
    && IntField(msg, "rq").Some? && StrField(msg, "item_name").Some?
    && NumberField(msg, "max_price").Some? && StrField(msg, "name").Some?
  }

  /** OFFER: an `int` rq, a string seller name, a string item name and a numeric price. */
  predicate OfferFields(msg: JsonObject)
  {
    && IntField(msg, "rq").Some? && StrField(msg, "name").Some?
    && StrField(msg, "item_name").Some? && NumberField(msg, "price").Some?
  }

  class ServerCommandHandlers {
    const socketFd: int
    const registry: PeerRegistry
    var activeSearches: Searches
    /** Every datagram sent so far, in order. */
    ghost var outbox: seq<Outgoing>

    /** Searches are stored under their own request number. */
    ghost predicate Valid()
      reads this, registry, registry.Machines()
    {
      && registry.Valid()
      && forall rq :: rq in activeSearches ==> activeSearches[rq].requestNumber == rq
    }

    constructor (socketFd: int, registry: PeerRegistry)
      requires registry.Valid()
      ensures this.socketFd == socketFd && this.registry == registry
      ensures activeSearches == map[] && outbox == [] && Valid()
    {
      this.socketFd := socketFd;
      this.registry := registry;
      activeSearches := map[];
      outbox := [];
    }

    // -------------------------------------------------------------------------
    // The effect of each handler on the sessions, the searches and the outbox.

    twostate predicate RegisterEffect(msg: JsonObject, from: Addr)
      reads this, registry, registry.Machines()
    {
      var id := Identity(from);
      && activeSearches == old(activeSearches)
      && if StrField(msg, "name").None? then
           registry.sessions == old(registry.sessions) && outbox == old(outbox)
         else if id in old(registry.sessions) then
           && registry.sessions == old(registry.sessions)
           && outbox == old(outbox) + if "rq" in msg then [Outgoing(DeniedMsg(msg["rq"]), from)] else []
         else
           && registry.Live(id)
           && registry.sessions == old(registry.sessions)[id := registry.sessions[id]]
           && fresh(registry.sessions[id])
           && registry.sessions[id].socketFd == socketFd && registry.sessions[id].peerAddr == from
           && registry.sessions[id].machine.current == P2PStates.Unregistered
           && outbox == old(outbox) + if "rq" in msg then [Outgoing(RegisteredMsg(msg["rq"]), from)] else []
    }

    twostate predicate DeregisterEffect(from: Addr)
      reads this, registry
    {
      && registry.sessions == old(registry.sessions) - {Identity(from)}
      && activeSearches == old(activeSearches) && outbox == old(outbox)
    }

    twostate predicate LookingForEffect(msg: JsonObject, from: Addr, now: int)
      reads this, registry
    {
      && registry.sessions == old(registry.sessions)
      && if !LookingForFields(msg) then
           activeSearches == old(activeSearches) && outbox == old(outbox)
         else
           var rq := IntField(msg, "rq").value;
           var item := StrField(msg, "item_name").value;
           && activeSearches == old(activeSearches)[rq := NewSearchRequest(rq, StrField(msg, "name").value, item, NumberField(msg, "max_price").value, from, now)]
           && if "description" !in msg then outbox == old(outbox)
              else (exists order :: multiset(order) == multiset(registry.sessions.Keys)
                      && outbox == old(outbox) + Sends(SearchMsg(rq, item, msg["description"]), registry.sessions, Identity(from), order))
    }

    twostate predicate OfferEffect(msg: JsonObject, from: Addr, now: int)
      reads this, registry
    {
      && registry.sessions == old(registry.sessions) && outbox == old(outbox)
      && activeSearches == if OfferFields(msg) then
           AddOffer(old(activeSearches), IntField(msg, "rq").value,
             OfferInfo(StrField(msg, "name").value, NumberField(msg, "price").value, from), now)
         else old(activeSearches)
    }

    /** The effect of `handleCommand`: the named handler's, and none for a missing or unknown command. */
    twostate predicate CommandEffect(msg: JsonObject, from: Addr, now: int)
      reads this, registry, registry.Machines()
    {
      match Command(msg)
      case Some("REGISTER") => RegisterEffect(msg, from)
      case Some("DE_REGISTER") => DeregisterEffect(from)
      case Some("LOOKING_FOR") => LookingForEffect(msg, from, now)
      case Some("OFFER") => OfferEffect(msg, from, now)
      case _ => registry.sessions == old(registry.sessions) && activeSearches == old(activeSearches) && outbox == old(outbox)
    }

    // -------------------------------------------------------------------------
    // The handlers.

    /** `handleCommand`: dispatches on "command"; an unknown command changes nothing. */
    method HandleCommand(msg: JsonObject, from: Addr, now: int) returns (outcome: Outcome)
      requires Valid()
      modifies this, registry
      ensures Valid() && outcome == HandlerOutcome(msg) && CommandEffect(msg, from, now)
    {
      outcome := Read(msg, "command", AsStr);
      if outcome != Completed {
        return;
      }
      var c := msg["command"].s;
      if c == "REGISTER" {
        outcome := HandleRegister(msg, from);
      } else if c == "DE_REGISTER" {
        outcome := HandleDeregister(msg, from);
      } else if c == "LOOKING_FOR" {
        outcome := HandleLookingFor(msg, from, now);
      } else if c == "OFFER" {
        outcome := HandleOffer(msg, from, now);
      }
    }

    /** `handleRegister`: a known identity is refused; a new one gets a fresh session in UNREGISTERED. */
    method HandleRegister(msg: JsonObject, from: Addr) returns (outcome: Outcome)
      requires Valid()
      modifies this, registry
      ensures Valid() && RegisterEffect(msg, from)
      ensures outcome == RegisterReads(msg)
    {
      outcome := Read(msg, "name", AsStr);
      if outcome != Completed {
        return;
      }
      var id := Identity(from);
      if id in registry.sessions {
        outcome := Read(msg, "rq", AsJson);
        if outcome != Completed {
          return;
        }
        outbox := outbox + [Outgoing(DeniedMsg(msg["rq"]), from)];
        return;
      }
      var session := new PeerSession(socketFd, from);
      registry.sessions := registry.sessions[id := session];
      outcome := Read(msg, "rq", AsJson);
      if outcome != Completed {
        return;
      }
      outbox := outbox + [Outgoing(RegisteredMsg(msg["rq"]), from)];
    }

    /** `handleDeregister`: erases the sender's entry, live, null or absent. */
    method HandleDeregister(msg: JsonObject, from: Addr) returns (outcome: Outcome)
      requires Valid()
      modifies registry
      ensures Valid() && DeregisterEffect(from)
      ensures outcome == DeregisterReads(msg)
    {
      registry.sessions := registry.sessions - {Identity(from)};
      outcome := Read(msg, "name", AsJson);
    }

    /**
     * `handleLookingFor`: stores (or replaces) the search under its request number, then
     * sends SEARCH to every live session other than the searcher's, in the table's own
     * unspecified order. Null entries are skipped (see the as-written broadcast below).
     */
    method HandleLookingFor(msg: JsonObject, from: Addr, now: int) returns (outcome: Outcome)
      requires Valid()
      modifies this
      ensures Valid() && LookingForEffect(msg, from, now)
      ensures outcome == LookingForReads(msg)
    {
      outcome := Then(Read(msg, "rq", AsInt), Then(Read(msg, "item_name", AsStr),
        Then(Read(msg, "max_price", AsNumber), Read(msg, "name", AsStr))));
      if outcome != Completed {
        return;
      }
      var rq, item := IntField(msg, "rq").value, StrField(msg, "item_name").value;
      var search := NewSearchRequest(rq, StrField(msg, "name").value, item, NumberField(msg, "max_price").value, from, now);
      activeSearches := activeSearches[rq := search];
      outcome := Read(msg, "description", AsJson);
      if outcome != Completed {
        return;
      }
      BroadcastSearch(SearchMsg(rq, item, msg["description"]), Identity(from));
    }

    /**
     * The broadcast loop of `handleLookingFor`: visits the table once, in an unspecified
     * order, sending `broadcast` to every live session whose identity is not `searcher`.
     */
    method BroadcastSearch(broadcast: JsonObject, searcher: string)
      modifies this
      ensures activeSearches == old(activeSearches)
      ensures exists order ::
                multiset(order) == multiset(registry.sessions.Keys)
                && outbox == old(outbox) + Sends(broadcast, registry.sessions, searcher, order)
    {
      var sessions := registry.sessions;
      var remaining := sessions.Keys;
      ghost var order: seq<string> := [];
      while remaining != {}
        invariant activeSearches == old(activeSearches)
        invariant remaining <= sessions.Keys
        invariant multiset(order) + multiset(remaining) == multiset(sessions.Keys)
        invariant outbox == old(outbox) + Sends(broadcast, sessions, searcher, order)
        decreases |remaining|
      {
        var id :| id in remaining;
        if id != searcher {
          var session := sessions[id];
          if session != null {
            outbox := outbox + [Outgoing(broadcast, session.peerAddr)];
          }
        }
        assert (order + [id])[..|order|] == order;
        assert multiset(remaining) == multiset(remaining - {id}) + multiset{id};
        remaining := remaining - {id};
        order := order + [id];
      }
    }

    /** `handleOffer`: appends the offer when the search is open (see `Auctions.AddOffer`). */
    method HandleOffer(msg: JsonObject, from: Addr, now: int) returns (outcome: Outcome)
      requires Valid()
      modifies this
      ensures Valid() && OfferEffect(msg, from, now)
      ensures outcome == OfferReads(msg)
    {
      outcome := OfferReads(msg);
      if outcome != Completed {
        return;
      }
      var rq, seller, price := IntField(msg, "rq"), StrField(msg, "name"), NumberField(msg, "price");
      if rq.value in activeSearches && !activeSearches[rq.value].offersProcessed {
        var search := activeSearches[rq.value];
        if now - search.startTime < OfferWindow {
          activeSearches := activeSearches[rq.value := search.(offers := search.offers + [OfferInfo(seller.value, price.value, from)])];
        }
      }
    }

    /** `processOffersAfterTimeout`: the one-minute timer for `rq` fires (see `Auctions.Timeout`). */
    method ProcessOffersAfterTimeout(rq: int)
      requires Valid()
      modifies this
      ensures Valid() && registry.sessions == old(registry.sessions)
      ensures activeSearches == Timeout(old(activeSearches), rq).searches
      ensures outbox == old(outbox) + Timeout(old(activeSearches), rq).sent
    {
      if rq in activeSearches && !activeSearches[rq].offersProcessed {
        var search := activeSearches[rq].(offersProcessed := true);
        activeSearches := activeSearches[rq := search];
        if search.offers == [] {
          outbox := outbox + [Outgoing(NotAvailableMsg(search.requestNumber, search.itemName, search.maxPrice), search.searcherAddr)];
          activeSearches := activeSearches - {rq};
          return;
        }
        var lowest := LowestIndex(search.offers);
        if search.offers[lowest].price <= search.maxPrice {
          outbox := outbox + [Outgoing(FoundMsg(search.requestNumber, search.itemName, search.offers[lowest].price), search.searcherAddr)];
        } else {
          outbox := outbox + [Outgoing(NegotiateMsg(search.requestNumber, search.itemName, search.maxPrice), search.offers[lowest].sellerAddr)];
        }
      }
    }
  }

  /** `std::min_element` by price: a scan keeping the first strict minimum. */
  method LowestIndex(offers: seq<OfferInfo>) returns (lowest: nat)
    requires offers != []
    ensures IsWinner(offers, lowest)
  {
    lowest := 0;
    var i := 1;
    while i < |offers|
      invariant 1 <= i <= |offers| && IsWinner(offers[..i], lowest)
    {
      if offers[i].price < offers[lowest].price {
        lowest := i;
      }
      i := i + 1;
    }
    assert offers[..i] == offers;
  }
}
