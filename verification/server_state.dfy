/** The six server protocol states and their names (src/server/ServerState.h and its older copy ServerState.h). */
module ServerStates {

  datatype ServerState = Listening | ProcessingRegistration | ProcessingSearch | ProcessingOffer | ProcessingPurchase | Error

  /** `getName`: only the first two states have a case; the other four fall through to "UNKNOWN". */
  function Name(s: ServerState): string
  {
    match s
    case Listening => "LISTENING"
    case ProcessingRegistration => "PROCESSING_REGISTRATION"
    case _ => "UNKNOWN"
  }

  /** The four states without a case share the name "UNKNOWN", and only they do. */
  lemma UnknownNamed(s: ServerState)
    ensures Name(s) == "UNKNOWN" <==> s in {ProcessingSearch, ProcessingOffer, ProcessingPurchase, Error}
  {
  }

  /** Hence `getName` is not injective. */
  lemma NameNotInjective()
    ensures exists a: ServerState, b: ServerState :: a != b && Name(a) == Name(b)
  {
    assert Name(ProcessingSearch) == Name(Error);
  }

  /** The two named states are told apart from each other and from the rest. */
  lemma NamedStatesDistinct(s: ServerState)
    ensures Name(s) == "LISTENING" <==> s == Listening
    ensures Name(s) == "PROCESSING_REGISTRATION" <==> s == ProcessingRegistration
  {
  }
}
