/** The hydration gate each persisted store keeps beside itself: a flag that
    storage has been read back, and a queue of callbacks waiting for it
    (`onOnboardingHydration`, `onWizardHydration`, `onSessionHydration`,
    `onAuthHydration` and the `onRehydrateStorage` flush). Callbacks are
    identified by number; `calls` records, in order, every callback run. */
module Hydration {

  /** A registered callback, by identity. */
  type Listener = nat

  /** What a gate holds: the flag, the waiting callbacks, and the callbacks
      run so far. */
  datatype GateState = GateState(hydrated: bool, queue: seq<Listener>, calls: seq<Listener>)

  /** Before any storage is read back: not hydrated, nothing queued or run. */
  const InitialGate := GateState(false, [], [])

  /** A hydrated gate never holds waiting callbacks. */
  predicate Settled(s: GateState) {
    s.hydrated ==> s.queue == []
  }

  /** `onXHydration(callback)`: run it now if hydrated, else queue it. */
  function Register(s: GateState, callback: Listener): (t: GateState)
    ensures t.hydrated == s.hydrated
    ensures !s.hydrated ==> t.queue == s.queue + [callback] && t.calls == s.calls
    ensures s.hydrated ==> t.queue == s.queue && t.calls == s.calls + [callback]
    ensures Settled(s) ==> Settled(t)
    ensures Settled(s) ==> t.calls + t.queue == s.calls + s.queue + [callback]
  {
    if s.hydrated then GateState(true, s.queue, s.calls + [callback])
    else GateState(false, s.queue + [callback], s.calls)
  }

  /** `onRehydrateStorage`: set the flag, run the queue in order, empty it. */
  function Flush(s: GateState): (t: GateState)
    ensures t.hydrated && Settled(t)
    ensures t.calls + t.queue == s.calls + s.queue
  {
    GateState(true, [], s.calls + s.queue)
  }

  /** The two things that can happen to a gate. */
  datatype GateEvent = OnHydration(callback: Listener) | Rehydrated

  /** The gate after a sequence of events, from its initial state. */
  function Run(events: seq<GateEvent>): GateState {
    if events == [] then InitialGate
    else
      var s := Run(events[..|events| - 1]);
      match events[|events| - 1]
      case OnHydration(callback) => Register(s, callback)
      case Rehydrated => Flush(s)
  }

  /** The callbacks registered, in order. */
  function Registered(events: seq<GateEvent>): seq<Listener> {
    if events == [] then []
    else
      var earlier := Registered(events[..|events| - 1]);
      match events[|events| - 1]
      case OnHydration(callback) => earlier + [callback]
      case Rehydrated => earlier
  }

  /** No callback is lost, duplicated or reordered: what has run followed by
      what waits is exactly what was registered; the gate is hydrated iff a
      rehydration happened, and then nothing waits. */
  lemma {:induction false} RunAccountsForEveryCallback(events: seq<GateEvent>)
    ensures Run(events).calls + Run(events).queue == Registered(events)
    ensures Settled(Run(events))
    ensures Run(events).hydrated <==> Rehydrated in events
  {
    if events != [] {
      var prefix := events[..|events| - 1];
      RunAccountsForEveryCallback(prefix);
      assert events == prefix + [events[|events| - 1]];
      assert Rehydrated in events <==> Rehydrated in prefix || events[|events| - 1] == Rehydrated;
    }
  }

  /** Until storage has been read back, no callback runs: every
      registration waits in the queue. */
  lemma {:induction false} NothingRunsBeforeRehydration(events: seq<GateEvent>)
    requires Rehydrated !in events
    ensures Run(events).calls == [] && !Run(events).hydrated
    ensures Run(events).queue == Registered(events)
  {
    if events != [] {
      var prefix := events[..|events| - 1];
      assert events == prefix + [events[|events| - 1]];
      assert Rehydrated !in prefix;
      NothingRunsBeforeRehydration(prefix);
    }
  }

  /** Once storage has been read back, every callback ever registered has
      run exactly once, in registration order. */
  lemma AfterRehydrationAllRan(events: seq<GateEvent>)
    requires Rehydrated in events
    ensures Run(events).calls == Registered(events)
  {
    RunAccountsForEveryCallback(events);
  }

  /** A callback registered after hydration runs at once and nothing else
      changes. */
  lemma LateCallbackRunsImmediately(events: seq<GateEvent>, callback: Listener)
    requires Rehydrated in events
    ensures Run(events + [OnHydration(callback)]).calls == Run(events).calls + [callback]
    ensures Run(events + [OnHydration(callback)]).queue == []
  {
    RunAccountsForEveryCallback(events);
    assert (events + [OnHydration(callback)])[..|events|] == events;
  }

  /** The gate object a store module keeps: the flag and listener array are
      module-level variables in the source, updated in place. */
  class Gate {
    var hydrated: bool
    var listeners: seq<Listener>
    var calls: seq<Listener>

    function State(): GateState
      reads this
    {
      GateState(hydrated, listeners, calls)
    }

    constructor()
      ensures State() == InitialGate
    {
      hydrated := false;
      listeners := [];
      calls := [];
    }

    /** `isXHydrated()` */
    function IsHydrated(): (r: bool)
      reads this
      ensures r == State().hydrated
    {
      hydrated
    }

    /** `onXHydration(callback)` */
    method OnHydration(callback: Listener)
      modifies this
      ensures State() == Register(old(State()), callback)
    {
      if hydrated {
        calls := calls + [callback];
      } else {
        listeners := listeners + [callback];
      }
    }

    /** The `onRehydrateStorage` callback: set the flag, call each listener
      in order, then truncate the array. */
    method Rehydrate()
      modifies this
      ensures State() == Flush(old(State()))
    {
      hydrated := true;
      var i := 0;
      while i < |listeners|
        invariant 0 <= i <= |listeners|
        invariant listeners == old(listeners) && hydrated
        invariant calls == old(calls) + listeners[..i]
      {
        calls := calls + [listeners[i]];
        i := i + 1;
      }
      assert listeners[..i] == listeners;
      listeners := [];
    }
  }
}
