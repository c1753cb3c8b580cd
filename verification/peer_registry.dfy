/**
 * The server's table of peer sessions, `peer_sessions_`: an identity ("a.b.c.d:port")
 * mapped to a shared session pointer that may be null. One object is shared, by
 * reference, between the server (src/server/ConcurrentServer.h) and its command
 * handlers (src/server/ServerCommandHandlers.h); the mutex that guards it is not modelled.
 */
module PeerRegistries {
  import opened PeerSessions

  class PeerRegistry {
    var sessions: map<string, PeerSession?>

    /** The state machines owned by the live (non-null) sessions. */
    ghost function Machines(): set<object>
      reads this
    {
      set id | id in sessions && sessions[id] != null :: sessions[id].machine
    }

    /** Whether `id` maps to a live session. */
    predicate Live(id: string)
      reads this
    {
      id in sessions && sessions[id] != null
    }

    /** Every live session is a well-formed peer session, and no two identities share a machine. */
    ghost predicate Valid()
      reads this, Machines()
    {
      && (forall id :: Live(id) ==> sessions[id].Valid())
      && (forall i, k :: Live(i) && Live(k) && i != k ==> sessions[i].machine != sessions[k].machine)
    }

    constructor ()
      ensures sessions == map[] && Valid()
    {
      sessions := map[];
    }
  }
}
