/**
 * The per-request auction: the records of src/server/ServerCommandHandlers.h and the
 * pure bookkeeping of `handleOffer` and `processOffersAfterTimeout`
 * (src/server/ServerCommandHandlers.cpp), with the replies they send.
 * Time is a tick count (one tick per millisecond).
 */
module Auctions {
  import opened Wrappers
  import opened Json
  import opened Addresses

  /** A datagram the server sends: a JSON object and its destination. */
  datatype Outgoing = Outgoing(msg: JsonObject, to: Addr)

  datatype OfferInfo = OfferInfo(sellerName: string, price: int, sellerAddr: Addr)

  /** `OfferInfo()`: empty name, price 0, zeroed address. */
  function DefaultOfferInfo(): (o: OfferInfo)
    ensures o.sellerName == "" && o.price == 0 && o.sellerAddr == ZeroAddr
  {
    OfferInfo("", 0, ZeroAddr)
  }

  datatype SearchRequest = SearchRequest(
    requestNumber: int,
    searcherName: string,
    itemName: string,
    maxPrice: int,
    searcherAddr: Addr,
    startTime: int,
    offers: seq<OfferInfo>,
    offersProcessed: bool)

  /** `SearchRequest(rq, name, item, price, addr)` at time `now`: no offers yet, not processed. */
  function NewSearchRequest(rq: int, name: string, item: string, maxPrice: int, addr: Addr, now: int): (s: SearchRequest)
    ensures s.requestNumber == rq && s.searcherName == name && s.itemName == item
    ensures s.maxPrice == maxPrice && s.searcherAddr == addr && s.startTime == now
    ensures s.offers == [] && !s.offersProcessed
  {
    SearchRequest(rq, name, item, maxPrice, addr, now, [], false)
  }

  /** `SearchRequest()` at time `now`: request number 0, empty strings, max price 0, zeroed address. */
  function DefaultSearchRequest(now: int): (s: SearchRequest)
    ensures s.requestNumber == 0 && s.searcherName == "" && s.itemName == "" && s.maxPrice == 0
    ensures s.searcherAddr == ZeroAddr && s.startTime == now && s.offers == [] && !s.offersProcessed
  {
    SearchRequest(0, "", "", 0, ZeroAddr, now, [], false)
  }

  /** `active_searches_`: at most one search per request number. */
  type Searches = map<int, SearchRequest>

  /** One minute, in ticks. */
  const OfferWindow: int := 60000

  // ---------------------------------------------------------------------------
  // Choosing the winning offer: `std::min_element` by price.

  /** Offer `k` has the lowest price, and every earlier offer is strictly dearer. */
  ghost predicate IsWinner(offers: seq<OfferInfo>, k: int)
  {
    && 0 <= k < |offers|
    && (forall i :: 0 <= i < |offers| ==> offers[k].price <= offers[i].price)
    && (forall i :: 0 <= i < k ==> offers[k].price < offers[i].price)
  }

  /** The first offer of minimum price. */
  function LowestOffer(offers: seq<OfferInfo>): (k: nat)
    requires offers != []
    ensures IsWinner(offers, k)
  {
    if |offers| == 1 then 0
    else
      var k := LowestOffer(offers[..|offers| - 1]);
      if offers[|offers| - 1].price < offers[k].price then |offers| - 1 else k
  }

  /** The rule picks one offer: at most one offer is the earliest of minimum price. */
  lemma WinnerUnique(offers: seq<OfferInfo>, k1: int, k2: int)
    requires IsWinner(offers, k1) && IsWinner(offers, k2)
    ensures k1 == k2
  {
    // both are minima, so they tie; a tie rules out either one being earlier
    assert offers[k1].price == offers[k2].price;
  }

  // ---------------------------------------------------------------------------
  // Replies.

  function NotAvailableMsg(rq: int, item: string, maxPrice: int): JsonObject
  {
    map["command" := JString("NOT_AVAILABLE"), "rq" := JNumber(rq), "item_name" := JString(item), "price" := JNumber(maxPrice)]
  }

  function FoundMsg(rq: int, item: string, price: int): JsonObject
  {
    map["command" := JString("FOUND"), "rq" := JNumber(rq), "item_name" := JString(item), "price" := JNumber(price)]
  }

  /** The invitation to the cheapest seller: no "price" and no "name". */
  function NegotiateMsg(rq: int, item: string, maxPrice: int): JsonObject
  {
    map["command" := JString("NEGOTIATE"), "rq" := JNumber(rq), "item_name" := JString(item), "max_price" := JNumber(maxPrice)]
  }

  // ---------------------------------------------------------------------------
  // The bookkeeping, one atomic step each.

  /** Whether `handleOffer` appends to the search: it exists, is not processed and is under a minute old. */
  predicate Open(searches: Searches, rq: int, now: int)
  {
    rq in searches && !searches[rq].offersProcessed && now - searches[rq].startTime < OfferWindow
  }

  /** The searches after an offer for `rq` arrives at `now`. */
  function AddOffer(searches: Searches, rq: int, offer: OfferInfo, now: int): (r: Searches)
    ensures r.Keys == searches.Keys
    ensures forall other :: other in searches && other != rq ==> r[other] == searches[other]
    ensures rq in searches ==> r[rq].(offers := searches[rq].offers) == searches[rq]
    ensures rq in searches ==> r[rq].offers == if Open(searches, rq, now) then searches[rq].offers + [offer] else searches[rq].offers
  {
    if Open(searches, rq, now) then
      var s := searches[rq];
      searches[rq := s.(offers := s.offers + [offer])]
    else searches
  }

  /** The terminal reply for an unprocessed search, and where it goes. */
  function Verdict(s: SearchRequest): Outgoing
  {
    if s.offers == [] then Outgoing(NotAvailableMsg(s.requestNumber, s.itemName, s.maxPrice), s.searcherAddr)
    else
      var best := s.offers[LowestOffer(s.offers)];
      if best.price <= s.maxPrice then Outgoing(FoundMsg(s.requestNumber, s.itemName, best.price), s.searcherAddr)
      else Outgoing(NegotiateMsg(s.requestNumber, s.itemName, s.maxPrice), best.sellerAddr)
  }

  /** The searches after the timeout for `rq` fires, and what it sends. */
  datatype Finalised = Finalised(searches: Searches, sent: seq<Outgoing>)

  /**
   * Only the search for `rq` is touched, and what is sent is that search's verdict.
   */
  function Timeout(searches: Searches, rq: int): (r: Finalised)
    ensures forall other :: other != rq ==> (other in r.searches <==> other in searches)
    ensures forall other :: other != rq && other in searches ==> r.searches[other] == searches[other]
    ensures r.sent != [] ==> rq in searches && r.sent == [Verdict(searches[rq])]
  {
    if rq !in searches || searches[rq].offersProcessed then Finalised(searches, [])
    else
      var s := searches[rq];
      if s.offers == [] then Finalised(searches - {rq}, [Verdict(s)])
      else Finalised(searches[rq := s.(offersProcessed := true)], [Verdict(s)])
  }

  /** A timeout sends exactly one reply when it finds an unprocessed search, and none otherwise. */
  lemma TimeoutSendsAtMostOnce(searches: Searches, rq: int)
    ensures |Timeout(searches, rq).sent| == if rq in searches && !searches[rq].offersProcessed then 1 else 0
    ensures rq in Timeout(searches, rq).searches ==> Timeout(searches, rq).searches[rq].offersProcessed || rq !in searches || searches[rq].offersProcessed
  {
  }

  /** Finalisation happens once: a second timeout for the same request sends nothing and changes nothing. */
  lemma SecondTimeoutIsIdle(searches: Searches, rq: int)
    ensures var once := Timeout(searches, rq);
      Timeout(once.searches, rq) == Finalised(once.searches, [])
  {
  }

  /** After finalisation no offer is accepted for the request any more. */
  lemma NoOfferAfterTimeout(searches: Searches, rq: int, offer: OfferInfo, now: int)
    ensures var once := Timeout(searches, rq);
      AddOffer(once.searches, rq, offer, now) == once.searches
  {
  }

  /** Every offer accepted before the timeout is ranked: the offers ranked are exactly those appended, in arrival order. */
  lemma {:induction false} OffersAllRanked(searches: Searches, rq: int, offers: seq<OfferInfo>, now: int)
    requires Open(searches, rq, now)
    ensures var after := AddAll(searches, rq, offers, now);
      rq in after && after[rq] == searches[rq].(offers := searches[rq].offers + offers)
    decreases |offers|
  {
    if offers != [] {
      var once := AddOffer(searches, rq, offers[0], now);
      OffersAllRanked(once, rq, offers[1..], now);
      assert searches[rq].offers + [offers[0]] + offers[1..] == searches[rq].offers + offers;
    }
  }

  /** Offers arriving one after another at the same tick. */
  function AddAll(searches: Searches, rq: int, offers: seq<OfferInfo>, now: int): Searches
    decreases |offers|
  {
    if offers == [] then searches else AddAll(AddOffer(searches, rq, offers[0], now), rq, offers[1..], now)
  }

  /** With no offers, the searcher gets NOT_AVAILABLE with the item and its own maximum price, and the search is erased. */
  lemma NoOffersNotAvailable(searches: Searches, rq: int)
    requires rq in searches && !searches[rq].offersProcessed && searches[rq].offers == []
    ensures var s := searches[rq];
      Timeout(searches, rq) == Finalised(searches - {rq}, [Outgoing(NotAvailableMsg(s.requestNumber, s.itemName, s.maxPrice), s.searcherAddr)])
  {
  }

  /**
   * With offers, the search stays stored as processed, and the one reply goes to the searcher as FOUND
   * with the winning price when it is within the maximum, or else to the winning seller as NEGOTIATE
   * with the searcher's maximum.
   */
  lemma OffersFoundOrNegotiate(searches: Searches, rq: int, k: int)
    requires rq in searches && !searches[rq].offersProcessed && IsWinner(searches[rq].offers, k)
    ensures var s := searches[rq]; var best := s.offers[k];
      && Timeout(searches, rq).searches == searches[rq := s.(offersProcessed := true)]
      && Timeout(searches, rq).sent == [
           if best.price <= s.maxPrice then Outgoing(FoundMsg(s.requestNumber, s.itemName, best.price), s.searcherAddr)
           else Outgoing(NegotiateMsg(s.requestNumber, s.itemName, s.maxPrice), best.sellerAddr)]
  {
    WinnerUnique(searches[rq].offers, k, LowestOffer(searches[rq].offers));
  }

  /** The three offers (A, 30), (B, 25), (C, 28): with maximum 26 the searcher is told FOUND at 25; with maximum 20, B is asked to NEGOTIATE at 20. */
  lemma CheapestOfThree(a: Addr, b: Addr, c: Addr, searcher: Addr)
    ensures var offers := [OfferInfo("A", 30, a), OfferInfo("B", 25, b), OfferInfo("C", 28, c)];
      && Verdict(SearchRequest(7, "buyer", "lamp", 26, searcher, 0, offers, false)) == Outgoing(FoundMsg(7, "lamp", 25), searcher)
      && Verdict(SearchRequest(7, "buyer", "lamp", 20, searcher, 0, offers, false)) == Outgoing(NegotiateMsg(7, "lamp", 20), b)
  {
    var offers := [OfferInfo("A", 30, a), OfferInfo("B", 25, b), OfferInfo("C", 28, c)];
    WinnerUnique(offers, 1, LowestOffer(offers));
  }
}
