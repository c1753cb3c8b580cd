/**
 * From a decoded JSON message to a typed event (src/util/MessageParser.cpp): the
 * printing of the message, the command map, the per-command copying of fields and the
 * per-command validation. Every exception that `parseMessage` catches becomes `None`.
 */
module MessageParser {
  import opened Wrappers
  import opened Json
  import opened P2PEvents

  /** `commandMap`: fifteen names; neither spelling of DE_REGISTER is there. */
  const CommandMap: map<string, EventType> := map[
    "REGISTER" := Register,
    "REGISTER-DENIED" := RegisterDenied,
    "REGISTERED" := Registered,
    "LOOKING_FOR" := LookingFor,
    "SEARCH" := Search,
    "OFFER" := Offer,
    "NOT_AVAILABLE" := NotAvailable,
    "NEGOTIATE" := Negotiate,
    "ACCEPT" := Accept,
    "FOUND" := Found,
    "REFUSE" := Refuse,
    "NOT_FOUND" := NotFound,
    "RESERVE" := Reserve,
    "CANCEL" := Cancel,
    "BUY" := Buy
  ]

  /** `stringToEventType`: UNKNOWN for every string the map lacks, and otherwise the type of that name. */
  function StringToEventType(command: string): (t: EventType)
    ensures t == Unknown <==> command !in CommandMap
    ensures t != Unknown ==> Name(t) == command
  {
    if command in CommandMap then CommandMap[command] else Unknown
  }

  /** The command map undoes `getName` on the fifteen mapped types. */
  lemma StringToEventTypeInvertsName(t: EventType)
    ensures t != DeRegister && t != Unknown ==> StringToEventType(Name(t)) == t
    ensures t == DeRegister || t == Unknown ==> StringToEventType(Name(t)) == Unknown
  {
  }

  /** And `getName` undoes the command map: every string that maps to a type is that type's name. */
  lemma NameInvertsStringToEventType(command: string)
    ensures StringToEventType(command) != Unknown ==> Name(StringToEventType(command)) == command
    ensures StringToEventType(command) != DeRegister
  {
  }

  /** The copying `switch` of `parseMessage`: a field of the wrong type, or missing where it is read, throws. */
  function Populate(j: JsonObject, kind: EventType, d: MessageData): Option<MessageData>
  {
    match kind
    case Register =>
      var ip, udp, tcp := StrField(j, "ip"), IntField(j, "udp_port"), IntField(j, "tcp_port");
      if ip.None? || udp.None? || tcp.None? then None
      else Some(d.(ipAddress := ip.value, udpPort := udp.value, tcpPort := tcp.value))
    case LookingFor =>
      var item, desc, max := StrField(j, "item_name"), StrField(j, "description"), NumberField(j, "max_price");
      if item.None? || desc.None? || max.None? then None
      else Some(d.(itemName := item.value, itemDescription := desc.value, maxPrice := max.value))
    case Search =>
      var item, desc := StrField(j, "item_name"), StrField(j, "description");
      if item.None? || desc.None? then None
      else Some(d.(itemName := item.value, itemDescription := desc.value))
    case Offer =>
      var item, price := StrField(j, "item_name"), NumberField(j, "price");
      if item.None? || price.None? then None else Some(d.(itemName := item.value, price := price.value))
    case Negotiate =>
      var item, price := StrField(j, "item_name"), NumberField(j, "max_price");
      if item.None? || price.None? then None else Some(d.(itemName := item.value, price := price.value))
    case Accept | Refuse =>
      var item, price := StrField(j, "item_name"), NumberField(j, "price");
      if item.None? || price.None? then None else Some(d.(itemName := item.value, price := price.value))
    case NotAvailable | NotFound | Found =>
      var item := StrField(j, "item_name");
      if item.None? then None
      else if "price" in j then
        var price := NumberField(j, "price");
        if price.None? then None else Some(d.(itemName := item.value, price := price.value))
      else Some(d.(itemName := item.value))
    case RegisterDenied =>
      if "reason" in j then
        var reason := StrField(j, "reason");
        if reason.None? then None else Some(d.(reason := reason.value))
      else Some(d)
    case _ => Some(d)
  }

  /**
   * `validateCommandFields`: presence checks only, per command. RESERVE, CANCEL, BUY and
   * UNKNOWN fail whatever the message; the registration replies pass whatever it is.
   */
  function ValidateCommandFields(j: JsonObject, kind: EventType): (ok: bool)
    ensures kind in {Reserve, Cancel, Buy, Unknown} ==> !ok
    ensures kind in {Registered, RegisterDenied} ==> ok
    ensures kind == Register ==> (ok <==> "ip" in j && "udp_port" in j && "tcp_port" in j)
    ensures kind == DeRegister ==> (ok <==> "name" in j)
    ensures kind in {LookingFor, Search, Offer, Negotiate, Accept, Refuse, NotAvailable, NotFound, Found} && ok ==> "item_name" in j
    ensures kind in {LookingFor, Offer, Negotiate, Accept, Refuse} && ok ==> "name" in j
    ensures kind in {Offer, Negotiate, Accept, Refuse} && ok ==> "price" in j
    ensures kind in {LookingFor, Search} && ok ==> "description" in j
    ensures kind == LookingFor && ok ==> "max_price" in j
    ensures kind in {NotAvailable, NotFound, Found} ==> (ok <==> "item_name" in j)
  {
    match kind
    case Register => "ip" in j && "udp_port" in j && "tcp_port" in j
    case LookingFor => "item_name" in j && "description" in j && "max_price" in j && "name" in j
    case Search => "item_name" in j && "description" in j
    case Offer => "item_name" in j && "price" in j && "name" in j
    case Negotiate | Accept | Refuse => "item_name" in j && "price" in j && "name" in j
    case NotAvailable | NotFound | Found => "item_name" in j
    case RegisterDenied | Registered => true
    case DeRegister => "name" in j
    case _ => false
  }

  // ---------------------------------------------------------------------------
  // `printMessage`, which `parseMessage` and the server's worker call first: it reads
  // fields with `value(key, default)` and `get`, which throw on a present field of the
  // wrong type (and on a message that is not an object).

  /** A field that is absent or converts to `std::string`. */
  predicate OptStr(j: JsonObject, key: string) { key in j ==> ToStr(j[key]).Some? }
  /** A field that is absent or converts to `int`. */
  predicate OptInt(j: JsonObject, key: string) { key in j ==> ToInt(j[key]).Some? }
  /** A field that is absent or converts to `double`. */
  predicate OptNumber(j: JsonObject, key: string) { key in j ==> ToNumber(j[key]).Some? }

  /** `printCommandFields` returns: the fields it prints for `command` convert. */
  predicate PrintFieldsOk(j: JsonObject, command: string)
  {
    if command == "REGISTER" then
      OptStr(j, "name") && OptStr(j, "ip") && OptInt(j, "udp_port") && OptInt(j, "tcp_port")
    else if command == "REGISTER-DENIED" then OptStr(j, "reason")
    else if command == "LOOKING_FOR" || command == "SEARCH" then
      OptStr(j, "item_name") && OptStr(j, "description") && OptNumber(j, "max_price")
    else if command in {"OFFER", "NEGOTIATE", "ACCEPT", "REFUSE", "NOT_AVAILABLE", "NOT_FOUND",
                        "FOUND", "RESERVE", "CANCEL", "BUY"} then
      OptStr(j, "name") && OptStr(j, "item_name") && OptNumber(j, "price")
    else true
  }

  /** `printMessage` returns: the command (default "UNKNOWN"), the request number and the command's fields convert. */
  predicate PrintOk(j: JsonObject)
  {
    && OptStr(j, "command") && OptInt(j, "rq")
    && PrintFieldsOk(j, if "command" in j then ToStr(j["command"]).GetOr("") else "UNKNOWN")
  }

  /**
   * `parseMessage` on a message that decoded as JSON: printed first, then checked for
   * "command" and "rq", copied field by field and validated. An event always comes from a
   * printable message with an `int` request number, a mapped command and the fields
   * validation asks for.
   */
  function ParseMessage(j: JsonObject): (r: Option<P2PEvent>)
    ensures r.Some? ==> PrintOk(j) && ValidateCommandFields(j, r.value.kind)
    ensures r.Some? ==> "command" in j && j["command"] == JString(Name(r.value.kind)) && r.value.kind != Unknown
    ensures r.Some? ==> "rq" in j && ToInt(j["rq"]) == Some(r.value.data.requestNumber)
  {
    if !PrintOk(j) || "command" !in j || "rq" !in j then None
    else
      var rq := ToInt(j["rq"]);
      var name := if "name" in j then ToStr(j["name"]) else Some("");
      var command := ToStr(j["command"]);
      if rq.None? || name.None? || command.None? then None
      else
        var kind := StringToEventType(command.value);
        var data := Populate(j, kind, NewMessageData(rq.value, name.value));
        if data.None? || !ValidateCommandFields(j, kind) then None
        else Some(P2PEvent(kind, data.value))
  }

  // ---------------------------------------------------------------------------
  // What `ParseMessage` accepts, command by command.

  predicate CommandIs(j: JsonObject, command: string)
  {
    "command" in j && j["command"] == JString(command)
  }

  /** The fields every command needs: an `int` request number and, if present, a string name. */
  predicate CommonOk(j: JsonObject)
  {
    && "rq" in j && ToInt(j["rq"]).Some?
    && ("name" in j ==> ToStr(j["name"]).Some?)
  }

  /** The payload every event starts from: the request number, and the name or "". */
  function Base(j: JsonObject): MessageData
    requires CommonOk(j)
  {
    NewMessageData(ToInt(j["rq"]).value, if "name" in j then ToStr(j["name"]).value else "")
  }

  predicate HasStr(j: JsonObject, key: string) { StrField(j, key).Some? }
  predicate HasInt(j: JsonObject, key: string) { IntField(j, key).Some? }
  predicate HasNumber(j: JsonObject, key: string) { NumberField(j, key).Some? }

  /** Without "command" or "rq" there is no event. */
  lemma ParseNeedsCommandAndRq(j: JsonObject)
    requires "command" !in j || "rq" !in j
    ensures ParseMessage(j) == None
  {
  }

  /** Only the twelve types the map yields and validation admits can come out; never DE_REGISTER, RESERVE, CANCEL, BUY or UNKNOWN. */
  lemma ParsedKinds(j: JsonObject)
    requires ParseMessage(j).Some?
    ensures ParseMessage(j).value.kind !in {DeRegister, Reserve, Cancel, Buy, Unknown}
    ensures CommandIs(j, Name(ParseMessage(j).value.kind))
  {
    NameInvertsStringToEventType(ToStr(j["command"]).value);
  }

  /** REGISTER needs ip, udp_port and tcp_port; the name is optional and defaults to "". */
  lemma ParseRegister(j: JsonObject)
    requires CommandIs(j, "REGISTER")
    ensures ParseMessage(j).Some? <==> CommonOk(j) && HasStr(j, "ip") && HasInt(j, "udp_port") && HasInt(j, "tcp_port")
    ensures ParseMessage(j).Some? ==> ParseMessage(j).value == P2PEvent(Register, Base(j).(
      ipAddress := StrField(j, "ip").value, udpPort := IntField(j, "udp_port").value, tcpPort := IntField(j, "tcp_port").value))
  {
  }

  /** LOOKING_FOR needs item_name, description, max_price and name. */
  lemma ParseLookingFor(j: JsonObject)
    requires CommandIs(j, "LOOKING_FOR")
    ensures ParseMessage(j).Some? <==>
      CommonOk(j) && "name" in j && HasStr(j, "item_name") && HasStr(j, "description") && HasNumber(j, "max_price")
    ensures ParseMessage(j).Some? ==> ParseMessage(j).value == P2PEvent(LookingFor, Base(j).(
      itemName := StrField(j, "item_name").value, itemDescription := StrField(j, "description").value,
      maxPrice := NumberField(j, "max_price").value))
  {
  }

  /** SEARCH needs item_name and description; a "max_price", which only printing reads, must be a number. */
  lemma ParseSearch(j: JsonObject)
    requires CommandIs(j, "SEARCH")
    ensures ParseMessage(j).Some? <==>
      CommonOk(j) && HasStr(j, "item_name") && HasStr(j, "description") && OptNumber(j, "max_price")
    ensures ParseMessage(j).Some? ==> ParseMessage(j).value == P2PEvent(Search, Base(j).(
      itemName := StrField(j, "item_name").value, itemDescription := StrField(j, "description").value))
  {
  }

  /** OFFER, ACCEPT and REFUSE need item_name, price and name. */
  lemma ParseOfferAcceptRefuse(j: JsonObject, kind: EventType)
    requires kind in {Offer, Accept, Refuse} && CommandIs(j, Name(kind))
    ensures ParseMessage(j).Some? <==> CommonOk(j) && "name" in j && HasStr(j, "item_name") && HasNumber(j, "price")
    ensures ParseMessage(j).Some? ==> ParseMessage(j).value == P2PEvent(kind, Base(j).(
      itemName := StrField(j, "item_name").value, price := NumberField(j, "price").value))
  {
  }

  /**
   * NEGOTIATE takes its price from "max_price", yet validation also demands "price"
   * (a number, since printing reads it) and "name".
   */
  lemma ParseNegotiate(j: JsonObject)
    requires CommandIs(j, "NEGOTIATE")
    ensures ParseMessage(j).Some? <==>
      CommonOk(j) && "name" in j && HasNumber(j, "price") && HasStr(j, "item_name") && HasNumber(j, "max_price")
    ensures ParseMessage(j).Some? ==> ParseMessage(j).value == P2PEvent(Negotiate, Base(j).(
      itemName := StrField(j, "item_name").value, price := NumberField(j, "max_price").value))
  {
  }

  /** FOUND, NOT_FOUND and NOT_AVAILABLE need only item_name; a price is copied when present and is 0 otherwise. */
  lemma ParseOutcome(j: JsonObject, kind: EventType)
    requires kind in {Found, NotFound, NotAvailable} && CommandIs(j, Name(kind))
    ensures ParseMessage(j).Some? <==> CommonOk(j) && HasStr(j, "item_name") && ("price" in j ==> HasNumber(j, "price"))
    ensures ParseMessage(j).Some? ==> ParseMessage(j).value == P2PEvent(kind, Base(j).(
      itemName := StrField(j, "item_name").value,
      price := if "price" in j then NumberField(j, "price").value else 0))
  {
  }

  /** REGISTERED and REGISTER-DENIED need nothing beyond the common fields; a string reason is copied when present. */
  lemma ParseRegistration(j: JsonObject, kind: EventType)
    requires kind in {Registered, RegisterDenied} && CommandIs(j, Name(kind))
    ensures ParseMessage(j).Some? <==> CommonOk(j) && (kind == RegisterDenied && "reason" in j ==> HasStr(j, "reason"))
    ensures ParseMessage(j).Some? ==> ParseMessage(j).value == P2PEvent(kind, Base(j).(
      reason := if kind == RegisterDenied && "reason" in j then StrField(j, "reason").value else ""))
  {
  }

  /** Every other command string, including "DE_REGISTER" and "DE-REGISTER", gives no event. */
  lemma ParseRejectsUnmapped(j: JsonObject, command: string)
    requires "command" in j && j["command"] == JString(command)
    requires StringToEventType(command) in {Unknown, Reserve, Cancel, Buy}
    ensures ParseMessage(j) == None
  {
  }
}
