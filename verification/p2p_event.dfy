/** The protocol's events: their types, their payload and their names (P2PEvent.h). */
module P2PEvents {

  datatype EventType =
    | Register | RegisterDenied | Registered | DeRegister | LookingFor | Search | Offer | NotAvailable
    | Negotiate | Accept | Found | Refuse | NotFound | Reserve | Cancel | Buy | Unknown

  /** The payload. Prices are stored and compared only, so they are integers here. */
  datatype MessageData = MessageData(
    requestNumber: int,
    senderName: string,
    ipAddress: string,
    udpPort: int,
    tcpPort: int,
    itemName: string,
    itemDescription: string,
    price: int,
    maxPrice: int,
    reason: string)

  /** `MessageData(rq, name)`: everything but the request number and the name starts zero or empty. */
  function NewMessageData(rq: int, name: string := ""): (d: MessageData)
    ensures d.requestNumber == rq && d.senderName == name
    ensures d.udpPort == 0 && d.tcpPort == 0 && d.price == 0 && d.maxPrice == 0
    ensures d.ipAddress == "" && d.itemName == "" && d.itemDescription == "" && d.reason == ""
  {
    MessageData(rq, name, "", 0, 0, "", "", 0, 0, "")
  }

  /** An event is a value: `getType` and `getData` give back what it was built from. */
  datatype P2PEvent = P2PEvent(kind: EventType, data: MessageData)

  /** `getName`: the enumerator spelling, except for two hyphenated names. */
  function Name(t: EventType): string
  {
    match t
    case Register => "REGISTER"
    case RegisterDenied => "REGISTER-DENIED"
    case Registered => "REGISTERED"
    case DeRegister => "DE-REGISTER"
    case LookingFor => "LOOKING_FOR"
    case Search => "SEARCH"
    case Offer => "OFFER"
    case NotAvailable => "NOT_AVAILABLE"
    case Negotiate => "NEGOTIATE"
    case Accept => "ACCEPT"
    case Found => "FOUND"
    case Refuse => "REFUSE"
    case NotFound => "NOT_FOUND"
    case Reserve => "RESERVE"
    case Cancel => "CANCEL"
    case Buy => "BUY"
    case Unknown => "UNKNOWN"
  }

  /** The name of an event is the name of its type. */
  function EventName(e: P2PEvent): string
  {
    Name(e.kind)
  }

  /** The 17 names are pairwise distinct. */
  lemma NameInjective(a: EventType, b: EventType)
    ensures Name(a) == Name(b) <==> a == b
  {
  }

  /** Only REGISTER_DENIED and DE_REGISTER carry a hyphen in their names. */
  lemma HyphenatedNames(t: EventType)
    ensures '-' in Name(t) <==> t == RegisterDenied || t == DeRegister
  {
  }
}
