/**
 * The two concrete machines (src/server/PeerStateMachine.h, src/server/ServerStateMachine.h
 * and their older copies PeerStateMachine.h, ServerStateMachine.h): each is a generic machine
 * with a fixed initial state and a single registered transition.
 */
module Machines {
  import opened Wrappers
  import opened StateMachines
  import P2PStates
  import ServerStates
  import P2PEvents

  type PeerMachine = StateMachine<P2PStates.P2PState, P2PEvents.P2PEvent>
  type ServerMachine = StateMachine<ServerStates.ServerState, P2PEvents.P2PEvent>

  /** The peer machine's handler: any REGISTER event leads to REGISTERING; the payload is ignored. */
  function ToRegistering(e: P2PEvents.P2PEvent): Option<P2PStates.P2PState>
  {
    Some(P2PStates.Registering)
  }

  /** The server machine's handler: leads to PROCESSING_REGISTRATION, ignoring the payload. */
  function ToProcessingRegistration(e: P2PEvents.P2PEvent): Option<ServerStates.ServerState>
  {
    Some(ServerStates.ProcessingRegistration)
  }

  /** The placeholder event both constructors register with: REGISTER, request number 0, empty name. */
  function RegisterTemplate(): P2PEvents.P2PEvent
  {
    P2PEvents.P2PEvent(P2PEvents.Register, P2PEvents.NewMessageData(0, ""))
  }

  /** The peer machine's table: one row, one entry. */
  function PeerTable(): Table<P2PStates.P2PState, P2PEvents.P2PEvent>
  {
    map["UNREGISTERED" := map["REGISTER" := ToRegistering]]
  }

  /** The server machine's table: one row, one entry. */
  function ServerTable(): Table<ServerStates.ServerState, P2PEvents.P2PEvent>
  {
    map["LISTENING" := map["REGISTER" := ToProcessingRegistration]]
  }

  function PeerNext(s: P2PStates.P2PState, e: P2PEvents.P2PEvent): P2PStates.P2PState
  {
    Next(PeerTable(), P2PStates.Name, P2PEvents.EventName, s, e)
  }

  function ServerNext(s: ServerStates.ServerState, e: P2PEvents.P2PEvent): ServerStates.ServerState
  {
    Next(ServerTable(), ServerStates.Name, P2PEvents.EventName, s, e)
  }

  /** `PeerStateMachine()`: starts in UNREGISTERED with the single (UNREGISTERED, REGISTER) entry. */
  method NewPeerStateMachine() returns (m: PeerMachine)
    ensures fresh(m)
    ensures m.current == P2PStates.Unregistered && m.transitions == PeerTable()
    ensures m.stateName == P2PStates.Name && m.eventName == P2PEvents.EventName
  {
    m := new StateMachine(P2PStates.Unregistered, P2PStates.Name, P2PEvents.EventName);
    m.AddTransition(P2PStates.Unregistered, RegisterTemplate(), ToRegistering);
  }

  /** `ServerStateMachine()`: starts in LISTENING with the single (LISTENING, REGISTER) entry. */
  method NewServerStateMachine() returns (m: ServerMachine)
    ensures fresh(m)
    ensures m.current == ServerStates.Listening && m.transitions == ServerTable()
    ensures m.stateName == ServerStates.Name && m.eventName == P2PEvents.EventName
  {
    m := new StateMachine(ServerStates.Listening, ServerStates.Name, P2PEvents.EventName);
    m.AddTransition(ServerStates.Listening, RegisterTemplate(), ToProcessingRegistration);
  }

  /** The peer machine moves exactly on REGISTER in UNREGISTERED, to REGISTERING; every other pair is a no-op. */
  lemma PeerTransitions(s: P2PStates.P2PState, e: P2PEvents.P2PEvent)
    ensures PeerNext(s, e) == if s == P2PStates.Unregistered && e.kind == P2PEvents.Register then P2PStates.Registering else s
  {
    P2PStates.NameInjective(s, P2PStates.Unregistered);
    P2PEvents.NameInjective(e.kind, P2PEvents.Register);
  }

  /** The server machine moves exactly on REGISTER in LISTENING, to PROCESSING_REGISTRATION; every other pair is a no-op. */
  lemma ServerTransitions(s: ServerStates.ServerState, e: P2PEvents.P2PEvent)
    ensures ServerNext(s, e) == if s == ServerStates.Listening && e.kind == P2PEvents.Register then ServerStates.ProcessingRegistration else s
  {
    ServerStates.NamedStatesDistinct(s);
    P2PEvents.NameInjective(e.kind, P2PEvents.Register);
  }

  predicate HasRegister(events: seq<P2PEvents.P2PEvent>)
  {
    exists i :: 0 <= i < |events| && events[i].kind == P2PEvents.Register
  }

  /** From UNREGISTERED, a run ends in REGISTERING if it contains a REGISTER event, and in UNREGISTERED otherwise. */
  lemma {:induction false} PeerRun(events: seq<P2PEvents.P2PEvent>)
    ensures Run(PeerTable(), P2PStates.Name, P2PEvents.EventName, P2PStates.Unregistered, events)
         == if HasRegister(events) then P2PStates.Registering else P2PStates.Unregistered
    decreases |events|
  {
    if events != [] {
      PeerTransitions(P2PStates.Unregistered, events[0]);
      if events[0].kind == P2PEvents.Register {
        forall e ensures PeerNext(P2PStates.Registering, e) == P2PStates.Registering {
          PeerTransitions(P2PStates.Registering, e);
        }
        AbsorbingRun(PeerTable(), P2PStates.Name, P2PEvents.EventName, P2PStates.Registering, events[1..]);
        assert HasRegister(events) by { assert events[0].kind == P2PEvents.Register; }
      } else {
        PeerRun(events[1..]);
        assert HasRegister(events) <==> HasRegister(events[1..]) by {
          if HasRegister(events) {
            var i :| 0 <= i < |events| && events[i].kind == P2PEvents.Register;
            assert events[1..][i - 1] == events[i];
          }
          if HasRegister(events[1..]) {
            var i :| 0 <= i < |events[1..]| && events[1..][i].kind == P2PEvents.Register;
            assert events[i + 1] == events[1..][i];
          }
        }
      }
    }
  }

  /**
   * The one shared server machine leaves LISTENING on the first REGISTER it is given and never comes back:
   * after any run it is in LISTENING exactly when the run holds no REGISTER.
   */
  lemma {:induction false} ServerRun(events: seq<P2PEvents.P2PEvent>)
    ensures Run(ServerTable(), ServerStates.Name, P2PEvents.EventName, ServerStates.Listening, events)
         == if HasRegister(events) then ServerStates.ProcessingRegistration else ServerStates.Listening
    decreases |events|
  {
    if events != [] {
      ServerTransitions(ServerStates.Listening, events[0]);
      if events[0].kind == P2PEvents.Register {
        forall e ensures ServerNext(ServerStates.ProcessingRegistration, e) == ServerStates.ProcessingRegistration {
          ServerTransitions(ServerStates.ProcessingRegistration, e);
        }
        AbsorbingRun(ServerTable(), ServerStates.Name, P2PEvents.EventName, ServerStates.ProcessingRegistration, events[1..]);
        assert HasRegister(events) by { assert events[0].kind == P2PEvents.Register; }
      } else {
        ServerRun(events[1..]);
        assert HasRegister(events) <==> HasRegister(events[1..]) by {
          if HasRegister(events) {
            var i :| 0 <= i < |events| && events[i].kind == P2PEvents.Register;
            assert events[1..][i - 1] == events[i];
          }
          if HasRegister(events[1..]) {
            var i :| 0 <= i < |events[1..]| && events[1..][i].kind == P2PEvents.Register;
            assert events[i + 1] == events[1..][i];
          }
        }
      }
    }
  }

  /**
   * Because four server states share the name "UNKNOWN", an entry added for any one of them
   * would fire from all four.
   */
  lemma UnknownStatesShareEntries(table: Table<ServerStates.ServerState, P2PEvents.P2PEvent>, a: ServerStates.ServerState, b: ServerStates.ServerState, e: P2PEvents.P2PEvent)
    requires ServerStates.Name(a) == "UNKNOWN" && ServerStates.Name(b) == "UNKNOWN"
    ensures || (Next(table, ServerStates.Name, P2PEvents.EventName, a, e) == a && Next(table, ServerStates.Name, P2PEvents.EventName, b, e) == b)
            || Next(table, ServerStates.Name, P2PEvents.EventName, a, e) == Next(table, ServerStates.Name, P2PEvents.EventName, b, e)
  {
    SameNameSameMove(table, ServerStates.Name, P2PEvents.EventName, a, b, e);
  }
}
