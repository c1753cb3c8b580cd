/**
 * The two sides put together: what the server's decoder and command handler make of each
 * message a client builds, and what a client's decoder makes of each reply the server
 * builds. Both sides share one decoder (src/util/MessageParser.cpp).
 */
module Protocol {
  import opened Wrappers
  import opened Json
  import opened Addresses
  import opened P2PStates
  import opened P2PEvents
  import opened MessageParser
  import opened Auctions
  import opened CommandHandlers
  import opened ClientMessages

  /** A client's REGISTER is handled and becomes a REGISTER event carrying the client's name, address and ports. */
  lemma RegisterReachesServer(rq: int, name: string, ip: string, udp: Port, tcp: Port)
    ensures Completes(RegisterMsg(rq, name, ip, udp, tcp))
    ensures ParseMessage(RegisterMsg(rq, name, ip, udp, tcp)) ==
      Some(P2PEvent(Register, NewMessageData(Wrap32(rq), name).(ipAddress := ip, udpPort := udp as int, tcpPort := tcp as int)))
  {
    assert IsInt32(udp as int) && IsInt32(tcp as int);
    ParseRegister(RegisterMsg(rq, name, ip, udp, tcp));
  }

  /** A client's LOOKING_FOR is handled and becomes a LOOKING_FOR event. */
  lemma LookingForReachesServer(rq: int, name: string, item: string, description: string, maxPrice: int)
    ensures Completes(LookingForMsg(rq, name, item, description, maxPrice))
    ensures ParseMessage(LookingForMsg(rq, name, item, description, maxPrice)) ==
      Some(P2PEvent(LookingFor, NewMessageData(Wrap32(rq), name).(itemName := item, itemDescription := description, maxPrice := maxPrice)))
  {
    ParseLookingFor(LookingForMsg(rq, name, item, description, maxPrice));
  }

  /** A client's OFFER is handled and becomes an OFFER event with the seller's name and price. */
  lemma OfferReachesServer(rq: int, name: string, item: string, price: int)
    ensures Completes(ItemMsg("OFFER", rq, name, item, price))
    ensures ParseMessage(ItemMsg("OFFER", rq, name, item, price)) ==
      Some(P2PEvent(Offer, NewMessageData(Wrap32(rq), name).(itemName := item, price := price)))
  {
    ParseOfferAcceptRefuse(ItemMsg("OFFER", rq, name, item, price), Offer);
  }

  /** ACCEPT and REFUSE have no server handler but are decoded into events and queued. */
  lemma ResponseReachesServer(kind: EventType, rq: int, name: string, item: string, price: int)
    requires kind == Accept || kind == Refuse
    ensures Completes(ItemMsg(P2PEvents.Name(kind), rq, name, item, price))
    ensures ParseMessage(ItemMsg(P2PEvents.Name(kind), rq, name, item, price)) ==
      Some(P2PEvent(kind, NewMessageData(Wrap32(rq), name).(itemName := item, price := price)))
  {
    ParseOfferAcceptRefuse(ItemMsg(P2PEvents.Name(kind), rq, name, item, price), kind);
  }

  /**
   * A client's NEGOTIATE carries "price", but the decoder reads a NEGOTIATE's price from
   * "max_price": the message is handled (there is no handler, so nothing happens) and never queued.
   */
  lemma ClientNegotiateNotDecoded(rq: int, name: string, item: string, price: int)
    ensures Completes(ItemMsg("NEGOTIATE", rq, name, item, price))
    ensures ParseMessage(ItemMsg("NEGOTIATE", rq, name, item, price)) == None
  {
    ParseNegotiate(ItemMsg("NEGOTIATE", rq, name, item, price));
  }

  /** A client's DE_REGISTER is handled (the entry goes) but the spelling is not in the command map, so it is never queued. */
  lemma DeregisterNotDecoded(rq: int, name: string)
    ensures Completes(DeregisterMsg(rq, name))
    ensures ParseMessage(DeregisterMsg(rq, name)) == None
  {
    ParseRejectsUnmapped(DeregisterMsg(rq, name), "DE_REGISTER");
  }

  /** REGISTERED with the request number decodes, and takes a client in any state to REGISTERED. */
  lemma RegisteredReplyDecoded(rq: int, s: P2PState)
    ensures ParseMessage(RegisteredMsg(JNumber(rq))) == Some(P2PEvent(EventType.Registered, NewMessageData(Wrap32(rq))))
    ensures ReceivedState(s, ParseMessage(RegisteredMsg(JNumber(rq))).value.kind) == P2PState.Registered
  {
    ParseRegistration(RegisteredMsg(JNumber(rq)), EventType.Registered);
  }

  /**
   * The denial carries its number under "request_number" and no "rq", so a client cannot decode
   * it: a client waiting in REGISTERING stays there.
   */
  lemma DenialNotDecoded(rq: JVal)
    ensures ParseMessage(DeniedMsg(rq)) == None
  {
    ParseNeedsCommandAndRq(DeniedMsg(rq));
  }

  /** The SEARCH relayed from a string description decodes to a SEARCH event for the item. */
  lemma SearchDecoded(rq: int, item: string, description: string)
    ensures ParseMessage(SearchMsg(rq, item, JString(description))) ==
      Some(P2PEvent(Search, NewMessageData(Wrap32(rq)).(itemName := item, itemDescription := description)))
  {
    ParseSearch(SearchMsg(rq, item, JString(description)));
  }

  /**
   * The server copies a LOOKING_FOR's description into the SEARCH it relays whatever its type,
   * but a LOOKING_FOR that gets through printing and its handler has a string description, so
   * every relayed SEARCH decodes, with the searcher's request number, item and description.
   */
  lemma RelayedSearchDecodes(msg: JsonObject)
    requires CommandIs(msg, "LOOKING_FOR") && PrintOk(msg) && Completes(msg)
    ensures LookingForFields(msg) && HasStr(msg, "description")
    ensures var rq, item := IntField(msg, "rq").value, StrField(msg, "item_name").value;
      ParseMessage(SearchMsg(rq, item, msg["description"])) ==
        Some(P2PEvent(Search, NewMessageData(rq).(itemName := item, itemDescription := StrField(msg, "description").value)))
  {
    assert Command(msg) == Some("LOOKING_FOR");
    var rq, item := IntField(msg, "rq").value, StrField(msg, "item_name").value;
    ParseSearch(SearchMsg(rq, item, msg["description"]));
  }

  /** FOUND decodes with the price, and takes the searcher back to REGISTERED. */
  lemma FoundDecoded(rq: int, item: string, price: int)
    ensures ParseMessage(FoundMsg(rq, item, price)) == Some(P2PEvent(Found, NewMessageData(Wrap32(rq)).(itemName := item, price := price)))
    ensures ReceivedState(Searching, Found) == P2PState.Registered
  {
    ParseOutcome(FoundMsg(rq, item, price), Found);
  }

  /**
   * NOT_AVAILABLE decodes, but neither client acts on it: a searcher told that nothing was
   * offered stays SEARCHING.
   */
  lemma NotAvailableLeavesSearching(rq: int, item: string, maxPrice: int)
    ensures ParseMessage(NotAvailableMsg(rq, item, maxPrice)) ==
      Some(P2PEvent(NotAvailable, NewMessageData(Wrap32(rq)).(itemName := item, price := maxPrice)))
    ensures ReceivedState(Searching, NotAvailable) == Searching
  {
    ParseOutcome(NotAvailableMsg(rq, item, maxPrice), NotAvailable);
  }

  /** The server's NEGOTIATE has neither "price" nor "name", so the seller cannot decode it. */
  lemma ServerNegotiateNotDecoded(rq: int, item: string, maxPrice: int)
    ensures ParseMessage(NegotiateMsg(rq, item, maxPrice)) == None
  {
    ParseNegotiate(NegotiateMsg(rq, item, maxPrice));
  }
}
