/**
 * The older peer client in the repository root (client.cpp). It has no list of offers:
 * negotiating is guarded by the state alone, accepting and refusing always send, and a
 * received OFFER is only reported on the console. Sends are reported by a `sendOk` input
 * as in the newer client.
 */
module LegacyClients {
  import opened Wrappers
  import opened Json
  import opened Addresses
  import opened P2PStates
  import opened P2PEvents
  import opened MessageParser
  import opened Inventories
  import opened ClientConfigs
  import opened ClientMessages

  class LegacyClient {
    const name: string
    const serverIp: string
    const serverPort: Port
    const udpPort: Port
    const tcpPort: Port
    var state: P2PState
    var running: bool
    var nextRequestNumber: int
    var inventory: seq<Item>
    /** The messages that went out, oldest first. */
    ghost var sent: seq<JsonObject>
    /** The request numbers `getNextRequestNumber` returned, oldest first. */
    ghost var issued: seq<int>

    ghost predicate Valid()
      reads this
    {
      Consecutive(issued, nextRequestNumber)
    }

    /** A new client is UNREGISTERED, not running, with an empty inventory and request number 1 next. */
    constructor (config: ClientConfig)
      ensures name == config.name && serverIp == config.serverIp && serverPort == config.serverPort
      ensures udpPort == config.udpPort && tcpPort == config.tcpPort
      ensures state == Unregistered && !running && nextRequestNumber == 1
      ensures inventory == [] && sent == [] && issued == []
      ensures Valid()
    {
      name, serverIp, serverPort := config.name, config.serverIp, config.serverPort;
      udpPort, tcpPort := config.udpPort, config.tcpPort;
      state, running, nextRequestNumber := Unregistered, false, 1;
      inventory, sent, issued := [], [], [];
    }

    /** `getNextRequestNumber`: the counter's value, which is then incremented; later numbers are larger. */
    method GetNextRequestNumber() returns (rq: int)
      requires Valid()
      modifies this
      ensures Valid()
      ensures rq == old(nextRequestNumber) && nextRequestNumber == rq + 1 && issued == old(issued) + [rq]
      ensures forall x :: x in old(issued) ==> x < rq
      ensures state == old(state) && inventory == old(inventory) && sent == old(sent) && running == old(running)
    {
      rq := nextRequestNumber;
      nextRequestNumber := nextRequestNumber + 1;
      issued := issued + [rq];
    }

    /** `registerWithServer`: only from UNREGISTERED, to REGISTERING when the send goes through. */
    method RegisterWithServer(localIp: string, sendOk: bool) returns (ok: bool)
      requires Valid()
      modifies this
      ensures Valid()
      ensures old(state) != Unregistered ==>
        !ok && state == old(state) && nextRequestNumber == old(nextRequestNumber) && sent == old(sent) && issued == old(issued)
      ensures old(state) == Unregistered ==>
        && ok == sendOk
        && nextRequestNumber == old(nextRequestNumber) + 1
        && state == (if sendOk then Registering else Unregistered)
        && sent == old(sent) + (if sendOk then [RegisterMsg(old(nextRequestNumber), name, localIp, udpPort, tcpPort)] else [])
      ensures inventory == old(inventory) && running == old(running)
    {
      if state != Unregistered {
        return false;
      }
      var rq := GetNextRequestNumber();
      var msg := RegisterMsg(rq, name, localIp, udpPort, tcpPort);
      if sendOk {
        sent := sent + [msg];
        state := Registering;
        return true;
      }
      return false;
    }

    /** `deregister`: only from REGISTERED, back to UNREGISTERED when the send goes through. */
    method Deregister(sendOk: bool) returns (ok: bool)
      requires Valid()
      modifies this
      ensures Valid()
      ensures old(state) != P2PState.Registered ==>
        !ok && state == old(state) && nextRequestNumber == old(nextRequestNumber) && sent == old(sent) && issued == old(issued)
      ensures old(state) == P2PState.Registered ==>
        && ok == sendOk
        && nextRequestNumber == old(nextRequestNumber) + 1
        && state == (if sendOk then Unregistered else P2PState.Registered)
        && sent == old(sent) + (if sendOk then [DeregisterMsg(old(nextRequestNumber), name)] else [])
      ensures inventory == old(inventory) && running == old(running)
    {
      if state != P2PState.Registered {
        return false;
      }
      var rq := GetNextRequestNumber();
      var msg := DeregisterMsg(rq, name);
      if sendOk {
        sent := sent + [msg];
        state := Unregistered;
        return true;
      }
      return false;
    }

    /** `searchItem`: only from REGISTERED, to SEARCHING when the send goes through. */
    method SearchItem(itemName: string, description: string, maxPrice: int, sendOk: bool) returns (ok: bool)
      requires Valid()
      modifies this
      ensures Valid()
      ensures old(state) != P2PState.Registered ==>
        !ok && state == old(state) && nextRequestNumber == old(nextRequestNumber) && sent == old(sent) && issued == old(issued)
      ensures old(state) == P2PState.Registered ==>
        && ok == sendOk
        && nextRequestNumber == old(nextRequestNumber) + 1
        && state == (if sendOk then Searching else P2PState.Registered)
        && sent == old(sent) + (if sendOk then [LookingForMsg(old(nextRequestNumber), name, itemName, description, maxPrice)] else [])
      ensures inventory == old(inventory) && running == old(running)
    {
      if state != P2PState.Registered {
        return false;
      }
      var rq := GetNextRequestNumber();
      var msg := LookingForMsg(rq, name, itemName, description, maxPrice);
      if sendOk {
        sent := sent + [msg];
        state := Searching;
        return true;
      }
      return false;
    }

    /** `negotiateOffer`: guarded by the state only (SEARCHING or NEGOTIATING); to NEGOTIATING when the send goes through. */
    method NegotiateOffer(rq: int, itemName: string, counterPrice: int, sendOk: bool) returns (ok: bool)
      modifies this`state, this`sent
      ensures old(state) != Searching && old(state) != Negotiating ==> !ok && state == old(state) && sent == old(sent)
      ensures old(state) == Searching || old(state) == Negotiating ==>
        && ok == sendOk
        && state == (if sendOk then Negotiating else old(state))
        && sent == old(sent) + (if sendOk then [ItemMsg("NEGOTIATE", rq, name, itemName, counterPrice)] else [])
    {
      if state != Searching && state != Negotiating {
        return false;
      }
      var msg := ItemMsg("NEGOTIATE", rq, name, itemName, counterPrice);
      if sendOk {
        sent := sent + [msg];
        state := Negotiating;
        return true;
      }
      return false;
    }

    /** `acceptOffer`: in any state, sends ACCEPT and reports whether it went out; the state never changes. */
    method AcceptOffer(rq: int, itemName: string, price: int, sendOk: bool) returns (ok: bool)
      modifies this`sent
      ensures ok == sendOk
      ensures sent == old(sent) + (if sendOk then [ItemMsg("ACCEPT", rq, name, itemName, price)] else [])
    {
      if sendOk {
        sent := sent + [ItemMsg("ACCEPT", rq, name, itemName, price)];
      }
      return sendOk;
    }

    /** `refuseOffer`: in any state, sends REFUSE and reports whether it went out; the state never changes. */
    method RefuseOffer(rq: int, itemName: string, price: int, sendOk: bool) returns (ok: bool)
      modifies this`sent
      ensures ok == sendOk
      ensures sent == old(sent) + (if sendOk then [ItemMsg("REFUSE", rq, name, itemName, price)] else [])
    {
      if sendOk {
        sent := sent + [ItemMsg("REFUSE", rq, name, itemName, price)];
      }
      return sendOk;
    }

    /** `handleSearchEvent`: while REGISTERED, one OFFER for the first inventory item with the searched name. */
    method HandleSearchEvent(d: MessageData, sendOk: bool)
      modifies this`sent
      ensures sent == old(sent) + SearchReply(state, inventory, name, d, sendOk)
    {
      if state != P2PState.Registered {
        return;
      }
      var found := FirstWithName(inventory, d.itemName);
      if found.Some? && sendOk {
        sent := sent + [ItemMsg("OFFER", d.requestNumber, name, d.itemName, inventory[found.value].price)];
      }
    }

    /**
     * `handleReceivedMessage`: a message that does not decode or parse changes nothing. Otherwise
     * the state follows `ReceivedState` and a SEARCH is answered while REGISTERED; an OFFER
     * (`handleOffer`) is only reported.
     */
    method HandleReceivedMessage(raw: Option<JsonObject>, sendOk: bool)
      modifies this`state, this`sent
      ensures raw.None? || ParseMessage(raw.value).None? ==> state == old(state) && sent == old(sent)
      ensures raw.Some? && ParseMessage(raw.value).Some? ==>
        var ev := ParseMessage(raw.value).value;
        && state == ReceivedState(old(state), ev.kind)
        && sent == old(sent) + (if ev.kind == Search then SearchReply(old(state), inventory, name, ev.data, sendOk) else [])
    {
      if raw.None? {
        return;
      }
      var event := ParseMessage(raw.value);
      if event.None? {
        return;
      }
      var ev := event.value;
      match ev.kind {
        case Registered => state := P2PState.Registered;
        case RegisterDenied => state := Unregistered;
        case Search => HandleSearchEvent(ev.data, sendOk);
        case Offer =>
        case Found => state := P2PState.Registered;
        case NotFound => state := P2PState.Registered;
        case _ =>
      }
    }

    /** `addItem`: appended at the end. */
    method AddItem(itemName: string, description: string, price: int)
      modifies this`inventory
      ensures inventory == old(inventory) + [Item(itemName, description, price)]
    {
      inventory := inventory + [Item(itemName, description, price)];
    }

    /** `removeItem`: the first item with the name goes; nothing happens if there is none. */
    method RemoveItem(itemName: string)
      modifies this`inventory
      ensures inventory == RemoveFirst(old(inventory), itemName)
    {
      inventory := RemoveFirst(inventory, itemName);
    }
  }
}
