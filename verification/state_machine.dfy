/**
 * The generic, table-driven state machine (Statemachine.h).
 *
 * The table maps the NAME of a state and the NAME of an event to a handler;
 * a handler is a total function from the event to an optional next state
 * (`None` stands for the null pointer a handler may return).
 */
module StateMachines {
  import opened Wrappers

  type Handler<S, !E> = E -> Option<S>
  type Table<S, !E> = map<string, map<string, Handler<S, E>>>

  /** The handler registered for the pair of names, if any: there is one exactly when the state's row names the event. */
  function Lookup<S, E>(table: Table<S, E>, stateName: string, eventName: string): (r: Option<Handler<S, E>>)
    ensures r.Some? <==> stateName in table && eventName in table[stateName]
  {
    if stateName in table && eventName in table[stateName] then Some(table[stateName][eventName]) else None
  }

  /** The table after registering `handler` for the pair of names. */
  function Add<S, E>(table: Table<S, E>, stateName: string, eventName: string, handler: Handler<S, E>): (t: Table<S, E>)
    ensures Lookup(t, stateName, eventName) == Some(handler)
    ensures forall s, e :: (s != stateName || e != eventName) ==> Lookup(t, s, e) == Lookup(table, s, e)
  {
    var row := if stateName in table then table[stateName] else map[];
    table[stateName := row[eventName := handler]]
  }

  /**
   * The state reached from `current` on `event`: unchanged when the names have no entry or the
   * handler gives `None`, so a state changes only to what a registered handler returns.
   */
  function Next<S, E>(table: Table<S, E>, stateName: S -> string, eventName: E -> string, current: S, event: E): (r: S)
    ensures r != current ==> Lookup(table, stateName(current), eventName(event)).Some?
    ensures r != current ==> Lookup(table, stateName(current), eventName(event)).value(event) == Some(r)
  {
    match Lookup(table, stateName(current), eventName(event))
    case None => current
    case Some(h) => h(event).GetOr(current)
  }

  /** The state reached after a whole sequence of events, processed in order. */
  function Run<S, E>(table: Table<S, E>, stateName: S -> string, eventName: E -> string, current: S, events: seq<E>): S
    decreases |events|
  {
    if events == [] then current
    else Run(table, stateName, eventName, Next(table, stateName, eventName, current, events[0]), events[1..])
  }

  /** A state name without a row leaves the state unchanged, whatever the event. */
  lemma NoRowNoChange<S, E>(table: Table<S, E>, stateName: S -> string, eventName: E -> string, current: S, event: E)
    requires stateName(current) !in table
    ensures Next(table, stateName, eventName, current, event) == current
  {
  }

  /** A row without an entry for the event's name leaves the state unchanged. */
  lemma NoEntryNoChange<S, E>(table: Table<S, E>, stateName: S -> string, eventName: E -> string, current: S, event: E)
    requires stateName(current) in table && eventName(event) !in table[stateName(current)]
    ensures Next(table, stateName, eventName, current, event) == current
  {
  }

  /** With an entry, the state becomes the handler's result, or stays when the handler gives `None`. */
  lemma EntryFires<S, E>(table: Table<S, E>, stateName: S -> string, eventName: E -> string, current: S, event: E)
    requires Lookup(table, stateName(current), eventName(event)).Some?
    ensures var h := Lookup(table, stateName(current), eventName(event)).value;
      && (h(event).None? ==> Next(table, stateName, eventName, current, event) == current)
      && (h(event).Some? ==> Next(table, stateName, eventName, current, event) == h(event).value)
  {
  }

  /**
   * Lookup goes by names only: two states with the same name either both stay
   * where they are or both move to the same state.
   */
  lemma SameNameSameMove<S, E>(table: Table<S, E>, stateName: S -> string, eventName: E -> string, a: S, b: S, event: E)
    requires stateName(a) == stateName(b)
    ensures || (Next(table, stateName, eventName, a, event) == a && Next(table, stateName, eventName, b, event) == b)
            || Next(table, stateName, eventName, a, event) == Next(table, stateName, eventName, b, event)
  {
  }

  /**
   * A state from which no event leads elsewhere stays put along any run.
   */
  lemma {:induction false} AbsorbingRun<S, E>(table: Table<S, E>, stateName: S -> string, eventName: E -> string, s: S, events: seq<E>)
    requires forall e :: Next(table, stateName, eventName, s, e) == s
    ensures Run(table, stateName, eventName, s, events) == s
    decreases |events|
  {
    if events != [] {
      AbsorbingRun(table, stateName, eventName, s, events[1..]);
    }
  }

  /** The object holding the current state and the transition table. */
  class StateMachine<S, E> {
    /** The states' and events' `getName`. */
    const stateName: S -> string
    const eventName: E -> string
    var current: S
    var transitions: Table<S, E>

    /** A machine starts in the given state, with an empty table. */
    constructor (initial: S, stateName: S -> string, eventName: E -> string)
      ensures current == initial && transitions == map[]
      ensures this.stateName == stateName && this.eventName == eventName
    {
      this.stateName := stateName;
      this.eventName := eventName;
      current := initial;
      transitions := map[];
    }

    /** Registers `handler` for (name of `from`, name of `event`), replacing any earlier one. */
    method AddTransition(from: S, event: E, handler: Handler<S, E>)
      modifies this
      ensures transitions == Add(old(transitions), stateName(from), eventName(event), handler)
      ensures current == old(current)
    {
      var row := if stateName(from) in transitions then transitions[stateName(from)] else map[];
      transitions := transitions[stateName(from) := row[eventName(event) := handler]];
    }

    /** Looks up (name of the current state, name of the event) and moves to the handler's non-null result. */
    method ProcessEvent(event: E)
      modifies this
      ensures current == Next(transitions, stateName, eventName, old(current), event)
      ensures transitions == old(transitions)
    {
      var sn := stateName(current);
      if sn in transitions {
        var row := transitions[sn];
        var en := eventName(event);
        if en in row {
          var newState := row[en](event);
          if newState.Some? {
            current := newState.value;
          }
        }
      }
    }
  }
}
