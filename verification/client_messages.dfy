/**
 * What the two clients (src/client/client.cpp and the older client.cpp) have in common:
 * the messages they build, the state a received event leads to, and the scan of the
 * inventory that answers a SEARCH.
 */
module ClientMessages {
  import opened Wrappers
  import opened Json
  import opened Addresses
  import opened P2PStates
  import opened P2PEvents
  import opened Inventories

  /** `registerWithServer`'s message. */
  function RegisterMsg(rq: int, name: string, ip: string, udp: Port, tcp: Port): (m: JsonObject)
    ensures m.Keys == {"command", "rq", "name", "ip", "udp_port", "tcp_port"}
  {
    map["command" := JString("REGISTER"), "rq" := JNumber(rq), "name" := JString(name), "ip" := JString(ip),
        "udp_port" := JNumber(udp as int), "tcp_port" := JNumber(tcp as int)]
  }

  /** `deregister`'s message: the command is spelt with an underscore. */
  function DeregisterMsg(rq: int, name: string): (m: JsonObject)
    ensures m.Keys == {"command", "rq", "name"}
  {
    map["command" := JString("DE_REGISTER"), "rq" := JNumber(rq), "name" := JString(name)]
  }

  /** `searchItem`'s message. */
  function LookingForMsg(rq: int, name: string, item: string, description: string, maxPrice: int): (m: JsonObject)
    ensures m.Keys == {"command", "rq", "name", "item_name", "description", "max_price"}
  {
    map["command" := JString("LOOKING_FOR"), "rq" := JNumber(rq), "name" := JString(name),
        "item_name" := JString(item), "description" := JString(description), "max_price" := JNumber(maxPrice)]
  }

  /** The shape shared by OFFER, NEGOTIATE, ACCEPT and REFUSE from a client: rq, own name, item and a price. */
  function ItemMsg(command: string, rq: int, name: string, item: string, price: int): (m: JsonObject)
    ensures m.Keys == {"command", "rq", "name", "item_name", "price"}
  {
    map["command" := JString(command), "rq" := JNumber(rq), "name" := JString(name),
        "item_name" := JString(item), "price" := JNumber(price)]
  }

  /** The request numbers handed out so far are exactly 1, 2, ..., in that order. */
  ghost predicate Consecutive(issued: seq<int>, next: int)
  {
    && next == |issued| + 1
    && forall i :: 0 <= i < |issued| ==> issued[i] == i + 1
  }

  /** Request numbers handed out are distinct and increasing: a corollary of `Consecutive`, stated for reference. */
  lemma ConsecutiveIncreasing(issued: seq<int>, next: int)
    requires Consecutive(issued, next)
    ensures forall i, j :: 0 <= i < j < |issued| ==> issued[i] < issued[j]
    ensures forall i :: 0 <= i < |issued| ==> 1 <= issued[i] < next
  {
  }

  /**
   * The state after a received event, in both clients: REGISTERED, FOUND and NOT_FOUND lead
   * to REGISTERED, REGISTER-DENIED to UNREGISTERED; every other event leaves the state alone.
   */
  function ReceivedState(s: P2PState, kind: EventType): (r: P2PState)
    ensures kind in {EventType.Registered, Found, NotFound} ==> r == P2PState.Registered
    ensures kind == RegisterDenied ==> r == Unregistered
    ensures kind !in {EventType.Registered, Found, NotFound, RegisterDenied} ==> r == s
  {
    match kind
    case Registered | Found | NotFound => P2PState.Registered
    case RegisterDenied => Unregistered
    case _ => s
  }

  /**
   * What `handleSearchEvent` sends, as a sequence of at most one message: an OFFER at the
   * price of the first inventory item with the searched name, only while REGISTERED and only
   * if the send goes through.
   */
  function SearchReply(s: P2PState, inventory: seq<Item>, name: string, d: MessageData, sendOk: bool): seq<JsonObject>
  {
    match FindItem(inventory, d.itemName)
    case Some(k) =>
      if s == P2PState.Registered && sendOk then [ItemMsg("OFFER", d.requestNumber, name, d.itemName, inventory[k].price)]
      else []
    case None => []
  }

  /** A reply names the searched item and the first matching item's price; there is none without a match. */
  lemma SearchReplyOffersFirstMatch(s: P2PState, inventory: seq<Item>, name: string, d: MessageData, sendOk: bool)
    ensures var r := SearchReply(s, inventory, name, d, sendOk);
      && |r| <= 1
      && (|r| == 1 <==> s == P2PState.Registered && sendOk && exists i :: 0 <= i < |inventory| && inventory[i].name == d.itemName)
      && (|r| == 1 ==>
            exists k :: (&& 0 <= k < |inventory| && inventory[k].name == d.itemName
                         && (forall j :: 0 <= j < k ==> inventory[j].name != d.itemName)
                         && r[0] == ItemMsg("OFFER", d.requestNumber, name, d.itemName, inventory[k].price)))
  {
    match FindItem(inventory, d.itemName)
    case Some(k) =>
      assert HasName(d.itemName)(inventory[k]);
    case None =>
      forall i | 0 <= i < |inventory|
        ensures inventory[i].name != d.itemName
      {
        assert !HasName(d.itemName)(inventory[i]);
      }
  }

  /** The loop of `handleSearchEvent`: the index of the first item with the searched name. */
  method FirstWithName(inventory: seq<Item>, itemName: string) returns (found: Option<nat>)
    ensures found == FindItem(inventory, itemName)
  {
    var i := 0;
    while i < |inventory|
      invariant 0 <= i <= |inventory|
      invariant forall j :: 0 <= j < i ==> !HasName(itemName)(inventory[j])
    {
      if inventory[i].name == itemName {
        assert HasName(itemName)(inventory[i]);
        return Some(i);
      }
      i := i + 1;
    }
    return None;
  }
}
