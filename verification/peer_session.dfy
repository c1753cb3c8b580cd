/** One registered peer: its socket, its address and its own peer state machine (src/server/PeerSession.h, PeerSession.h). */
module PeerSessions {
  import opened StateMachines
  import opened Machines
  import P2PStates
  import P2PEvents
  import opened Addresses

  class PeerSession {
    /** Set once by the constructor; the class has no mutator for them. */
    const socketFd: int
    const peerAddr: Addr
    /** The owned machine; only `ProcessEvent` changes it. */
    const machine: PeerMachine

    /** The machine is a peer machine: peer names, peer table. */
    ghost predicate Valid()
      reads machine
    {
      && machine.transitions == PeerTable()
      && machine.stateName == P2PStates.Name
      && machine.eventName == P2PEvents.EventName
    }

    /** Stores the descriptor and the address; the new machine is in UNREGISTERED. */
    constructor (socketFd: int, peerAddr: Addr)
      ensures this.socketFd == socketFd && this.peerAddr == peerAddr
      ensures Valid() && fresh(machine) && machine.current == P2PStates.Unregistered
    {
      var m := NewPeerStateMachine();
      this.socketFd := socketFd;
      this.peerAddr := peerAddr;
      machine := m;
    }

    /** Forwards the event to the owned machine and does nothing else. */
    method ProcessEvent(event: P2PEvents.P2PEvent)
      requires Valid()
      modifies machine
      ensures Valid()
      ensures machine.current == PeerNext(old(machine.current), event)
    {
      machine.ProcessEvent(event);
    }
  }
}
