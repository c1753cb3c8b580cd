/**
 * The peer client of src/client/client.cpp and src/client/client.h: its protocol state,
 * request counter, inventory and list of received offers. Every send is reported by a
 * boolean `sendOk` that the caller supplies (the datagram socket is not modelled); a
 * message that went out is appended to the ghost `sent`.
 */
module Clients {
  import opened Wrappers
  import opened Json
  import opened Addresses
  import opened P2PStates
  import opened P2PEvents
  import opened MessageParser
  import opened Inventories
  import opened ClientConfigs
  import opened ClientMessages

  /** An entry of `offers_`, filled from an event as {rq, item_name, item_name, price}. */
  datatype PeerOffer = PeerOffer(requestNumber: int, name: string, itemName: string, price: int)

  /** The offer `handleOfferEvent` records for an event: the item name lands in both name fields. */
  function OfferOf(d: MessageData): (o: PeerOffer)
    ensures o.requestNumber == d.requestNumber && o.name == d.itemName && o.price == d.price
  {
    PeerOffer(d.requestNumber, d.itemName, d.itemName, d.price)
  }

  /** The test `offer.requestNumber == request_number`. */
  function HasRequest(rq: int): PeerOffer -> bool
  {
    (o: PeerOffer) => o.requestNumber == rq
  }

  /** The first offer for a request number. */
  function FindOffer(offers: seq<PeerOffer>, rq: int): Option<nat>
  {
    FindFirst(offers, HasRequest(rq))
  }

  class P2PClient {
    const name: string
    const serverIp: string
    const serverPort: Port
    const udpPort: Port
    const tcpPort: Port
    var state: P2PState
    var running: bool
    var nextRequestNumber: int
    var inventory: seq<Item>
    var offers: seq<PeerOffer>
    /** The messages that went out, oldest first. */
    ghost var sent: seq<JsonObject>
    /** The request numbers `getNextRequestNumber` returned, oldest first. */
    ghost var issued: seq<int>

    ghost predicate Valid()
      reads this
    {
      Consecutive(issued, nextRequestNumber)
    }

    /** A new client is UNREGISTERED, not running, with nothing stored and request number 1 next. */
    constructor (config: ClientConfig)
      ensures name == config.name && serverIp == config.serverIp && serverPort == config.serverPort
      ensures udpPort == config.udpPort && tcpPort == config.tcpPort
      ensures state == Unregistered && !running && nextRequestNumber == 1
      ensures inventory == [] && offers == [] && sent == [] && issued == []
      ensures Valid()
    {
      name, serverIp, serverPort := config.name, config.serverIp, config.serverPort;
      udpPort, tcpPort := config.udpPort, config.tcpPort;
      state, running, nextRequestNumber := Unregistered, false, 1;
      inventory, offers, sent, issued := [], [], [], [];
    }

    /** `getNextRequestNumber`: the counter's value, which is then incremented; later numbers are larger. */
    method GetNextRequestNumber() returns (rq: int)
      requires Valid()
      modifies this
      ensures Valid()
      ensures rq == old(nextRequestNumber) && nextRequestNumber == rq + 1 && issued == old(issued) + [rq]
      ensures forall x :: x in old(issued) ==> x < rq
      ensures state == old(state) && inventory == old(inventory) && offers == old(offers) && sent == old(sent)
      ensures running == old(running)
    {
      rq := nextRequestNumber;
      nextRequestNumber := nextRequestNumber + 1;
      issued := issued + [rq];
    }

    /**
     * `registerWithServer`: only from UNREGISTERED. The request number is used up even when the
     * send fails; only a send that goes through moves the client to REGISTERING.
     */
    method RegisterWithServer(localIp: string, sendOk: bool) returns (ok: bool)
      requires Valid()
      modifies this
      ensures Valid()
      ensures old(state) != Unregistered ==>
        !ok && state == old(state) && nextRequestNumber == old(nextRequestNumber) && sent == old(sent) && issued == old(issued)
      ensures old(state) == Unregistered ==>
        && ok == sendOk
        && nextRequestNumber == old(nextRequestNumber) + 1
        && state == (if sendOk then Registering else Unregistered)
        && sent == old(sent) + (if sendOk then [RegisterMsg(old(nextRequestNumber), name, localIp, udpPort, tcpPort)] else [])
      ensures inventory == old(inventory) && offers == old(offers) && running == old(running)
    {
      if state != Unregistered {
        return false;
      }
      var rq := GetNextRequestNumber();
      var msg := RegisterMsg(rq, name, localIp, udpPort, tcpPort);
      if sendOk {
        sent := sent + [msg];
        state := Registering;
        return true;
      }
      return false;
    }

    /** `deregister`: only from REGISTERED, back to UNREGISTERED when the send goes through. */
    method Deregister(sendOk: bool) returns (ok: bool)
      requires Valid()
      modifies this
      ensures Valid()
      ensures old(state) != P2PState.Registered ==>
        !ok && state == old(state) && nextRequestNumber == old(nextRequestNumber) && sent == old(sent) && issued == old(issued)
      ensures old(state) == P2PState.Registered ==>
        && ok == sendOk
        && nextRequestNumber == old(nextRequestNumber) + 1
        && state == (if sendOk then Unregistered else P2PState.Registered)
        && sent == old(sent) + (if sendOk then [DeregisterMsg(old(nextRequestNumber), name)] else [])
      ensures inventory == old(inventory) && offers == old(offers) && running == old(running)
    {
      if state != P2PState.Registered {
        return false;
      }
      var rq := GetNextRequestNumber();
      var msg := DeregisterMsg(rq, name);
      if sendOk {
        sent := sent + [msg];
        state := Unregistered;
        return true;
      }
      return false;
    }

    /** `searchItem`: only from REGISTERED, to SEARCHING when the send goes through. */
    method SearchItem(itemName: string, description: string, maxPrice: int, sendOk: bool) returns (ok: bool)
      requires Valid()
      modifies this
      ensures Valid()
      ensures old(state) != P2PState.Registered ==>
        !ok && state == old(state) && nextRequestNumber == old(nextRequestNumber) && sent == old(sent) && issued == old(issued)
      ensures old(state) == P2PState.Registered ==>
        && ok == sendOk
        && nextRequestNumber == old(nextRequestNumber) + 1
        && state == (if sendOk then Searching else P2PState.Registered)
        && sent == old(sent) + (if sendOk then [LookingForMsg(old(nextRequestNumber), name, itemName, description, maxPrice)] else [])
      ensures inventory == old(inventory) && offers == old(offers) && running == old(running)
    {
      if state != P2PState.Registered {
        return false;
      }
      var rq := GetNextRequestNumber();
      var msg := LookingForMsg(rq, name, itemName, description, maxPrice);
      if sendOk {
        sent := sent + [msg];
        state := Searching;
        return true;
      }
      return false;
    }

    /**
     * `negotiateOffer`: only while SEARCHING or NEGOTIATING, and only for the first offer with
     * the request number when its name is the one given. That offer is removed whether or not
     * the NEGOTIATE goes out; a send that goes through moves the client to NEGOTIATING.
     */
    method NegotiateOffer(rq: int, itemName: string, counterPrice: int, sendOk: bool) returns (ok: bool)
      requires Valid()
      modifies this
      ensures Valid()
      ensures var k := FindOffer(old(offers), rq);
        if (old(state) != Searching && old(state) != Negotiating) || k.None? || old(offers)[k.value].name != itemName then
          !ok && state == old(state) && offers == old(offers) && sent == old(sent)
        else
          && ok == sendOk
          && offers == RemoveAt(old(offers), k.value)
          && state == (if sendOk then Negotiating else old(state))
          && sent == old(sent) + (if sendOk then [ItemMsg("NEGOTIATE", rq, name, itemName, counterPrice)] else [])
      ensures nextRequestNumber == old(nextRequestNumber) && issued == old(issued)
      ensures inventory == old(inventory) && running == old(running)
    {
      if state != Searching && state != Negotiating {
        return false;
      }
      var k := FindOffer(offers, rq);
      if k.None? || offers[k.value].name != itemName {
        return false;
      }
      offers := RemoveAt(offers, k.value);
      var msg := ItemMsg("NEGOTIATE", rq, name, itemName, counterPrice);
      if sendOk {
        sent := sent + [msg];
        state := Negotiating;
        return true;
      }
      return false;
    }

    /**
     * `acceptOffer` (command "ACCEPT") and `refuseOffer` (command "REFUSE"): in any state, for
     * the first offer with the request number when both its name and its price match. That offer
     * is removed; the result is whether the reply went out. The state never changes.
     */
    method Respond(command: string, rq: int, itemName: string, price: int, sendOk: bool) returns (ok: bool)
      requires command == "ACCEPT" || command == "REFUSE"
      requires Valid()
      modifies this
      ensures Valid()
      ensures var k := FindOffer(old(offers), rq);
        if k.None? || old(offers)[k.value].name != itemName || old(offers)[k.value].price != price then
          !ok && offers == old(offers) && sent == old(sent)
        else
          && ok == sendOk
          && offers == RemoveAt(old(offers), k.value)
          && sent == old(sent) + (if sendOk then [ItemMsg(command, rq, name, itemName, price)] else [])
      ensures state == old(state) && nextRequestNumber == old(nextRequestNumber) && issued == old(issued)
      ensures inventory == old(inventory) && running == old(running)
    {
      var k := FindOffer(offers, rq);
      if k.None? || offers[k.value].name != itemName || offers[k.value].price != price {
        return false;
      }
      offers := RemoveAt(offers, k.value);
      var msg := ItemMsg(command, rq, name, itemName, price);
      if sendOk {
        sent := sent + [msg];
      }
      return sendOk;
    }

    /** `acceptOffer`. */
    method AcceptOffer(rq: int, itemName: string, price: int, sendOk: bool) returns (ok: bool)
      requires Valid()
      modifies this
      ensures Valid()
      ensures var k := FindOffer(old(offers), rq);
        if k.None? || old(offers)[k.value].name != itemName || old(offers)[k.value].price != price then
          !ok && offers == old(offers) && sent == old(sent)
        else
          && ok == sendOk
          && offers == RemoveAt(old(offers), k.value)
          && sent == old(sent) + (if sendOk then [ItemMsg("ACCEPT", rq, name, itemName, price)] else [])
      ensures state == old(state) && nextRequestNumber == old(nextRequestNumber) && issued == old(issued)
      ensures inventory == old(inventory) && running == old(running)
    {
      ok := Respond("ACCEPT", rq, itemName, price, sendOk);
    }

    /** `refuseOffer`. */
    method RefuseOffer(rq: int, itemName: string, price: int, sendOk: bool) returns (ok: bool)
      requires Valid()
      modifies this
      ensures Valid()
      ensures var k := FindOffer(old(offers), rq);
        if k.None? || old(offers)[k.value].name != itemName || old(offers)[k.value].price != price then
          !ok && offers == old(offers) && sent == old(sent)
        else
          && ok == sendOk
          && offers == RemoveAt(old(offers), k.value)
          && sent == old(sent) + (if sendOk then [ItemMsg("REFUSE", rq, name, itemName, price)] else [])
      ensures state == old(state) && nextRequestNumber == old(nextRequestNumber) && issued == old(issued)
      ensures inventory == old(inventory) && running == old(running)
    {
      ok := Respond("REFUSE", rq, itemName, price, sendOk);
    }

    /** `handleOfferEvent`: the offer is recorded only while REGISTERED. */
    method HandleOfferEvent(d: MessageData)
      modifies this`offers
      ensures offers == if state == P2PState.Registered then old(offers) + [OfferOf(d)] else old(offers)
    {
      if state != P2PState.Registered {
        return;
      }
      offers := offers + [OfferOf(d)];
    }

    /** `handleSearchEvent`: while REGISTERED, one OFFER for the first inventory item with the searched name. */
    method HandleSearchEvent(d: MessageData, sendOk: bool)
      modifies this`sent
      ensures sent == old(sent) + SearchReply(state, inventory, name, d, sendOk)
    {
      if state != P2PState.Registered {
        return;
      }
      var found := FirstWithName(inventory, d.itemName);
      if found.Some? && sendOk {
        sent := sent + [ItemMsg("OFFER", d.requestNumber, name, d.itemName, inventory[found.value].price)];
      }
    }

    /**
     * `handleReceivedMessage`: a message that does not decode or parse changes nothing. Otherwise
     * the state follows `ReceivedState`, an OFFER or NEGOTIATE is recorded while REGISTERED, and
     * a SEARCH is answered while REGISTERED.
     */
    method HandleReceivedMessage(raw: Option<JsonObject>, sendOk: bool)
      requires Valid()
      modifies this
      ensures Valid()
      ensures raw.None? || ParseMessage(raw.value).None? ==>
        state == old(state) && offers == old(offers) && sent == old(sent)
      ensures raw.Some? && ParseMessage(raw.value).Some? ==>
        var ev := ParseMessage(raw.value).value;
        && state == ReceivedState(old(state), ev.kind)
        && offers == (if ev.kind in {Offer, Negotiate} && old(state) == P2PState.Registered then old(offers) + [OfferOf(ev.data)] else old(offers))
        && sent == old(sent) + (if ev.kind == Search then SearchReply(old(state), inventory, name, ev.data, sendOk) else [])
      ensures nextRequestNumber == old(nextRequestNumber) && issued == old(issued)
      ensures inventory == old(inventory) && running == old(running)
    {
      if raw.None? {
        return;
      }
      var event := ParseMessage(raw.value);
      if event.None? {
        return;
      }
      var ev := event.value;
      match ev.kind {
        case Registered => state := P2PState.Registered;
        case RegisterDenied => state := Unregistered;
        case Search => HandleSearchEvent(ev.data, sendOk);
        case Found => state := P2PState.Registered;
        case NotFound => state := P2PState.Registered;
        case Offer => HandleOfferEvent(ev.data);
        case Negotiate => HandleOfferEvent(ev.data);
        case _ =>
      }
    }

    /** `addItem`: appended at the end. */
    method AddItem(itemName: string, description: string, price: int)
      modifies this`inventory
      ensures inventory == old(inventory) + [Item(itemName, description, price)]
    {
      inventory := inventory + [Item(itemName, description, price)];
    }

    /** `removeItem`: the first item with the name goes; nothing happens if there is none. */
    method RemoveItem(itemName: string)
      modifies this`inventory
      ensures inventory == RemoveFirst(old(inventory), itemName)
    {
      inventory := RemoveFirst(inventory, itemName);
    }
  }
}
