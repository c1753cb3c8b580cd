/** The eight peer protocol states and their names (P2PState.h). */
module P2PStates {

  /** `P2PState` wraps nothing but its type, which never changes, so a state is the enumerator itself. */
  datatype P2PState = Unregistered | Registering | Registered | Searching | Offering | Negotiating | Buying | Error

  /** `getName`: each state's enumerator spelling. */
  function Name(s: P2PState): (n: string)
    ensures n != "UNKNOWN"
  {
    match s
    case Unregistered => "UNREGISTERED"
    case Registering => "REGISTERING"
    case Registered => "REGISTERED"
    case Searching => "SEARCHING"
    case Offering => "OFFERING"
    case Negotiating => "NEGOTIATING"
    case Buying => "BUYING"
    case Error => "ERROR"
  }

  /** Distinct states have distinct names. */
  lemma NameInjective(a: P2PState, b: P2PState)
    ensures Name(a) == Name(b) <==> a == b
  {
  }
}
