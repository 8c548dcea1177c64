/** The root navigator's start-up decisions: when it is ready to render
    (both the session store and the onboarding store have been read back
    from storage) and which route it opens first. */
module RootNavigator {
  import opened Types
  import opened Hydration

  /** `getInitialRoute()` */
  function GetInitialRoute(isAuthenticated: bool, isWizardCompleted: bool): (r: Route)
    ensures r == Home || r == Wizard || r == Auth
    ensures r == Home <==> isAuthenticated && isWizardCompleted
    ensures r == Wizard <==> isAuthenticated && !isWizardCompleted
    ensures r == Auth <==> !isAuthenticated
  {
    if isAuthenticated && isWizardCompleted then Home
    else if isAuthenticated then Wizard
    else Auth
  }

  /** The identity under which `checkHydration` is registered with both gates. */
  const CheckListener: Listener := 0

  /** The two hydration gates the navigator waits on, and its `isReady` flag. */
  datatype Boot = Boot(session: GateState, onboarding: GateState, ready: bool)

  /** `checkHydration()`: become ready when both gates report hydrated. */
  function CheckHydration(b: Boot): (c: Boot)
    ensures c.session == b.session && c.onboarding == b.onboarding
    ensures c.ready <==> b.ready || (b.session.hydrated && b.onboarding.hydrated)
  {
    if b.session.hydrated && b.onboarding.hydrated then b.(ready := true) else b
  }

  /** The mount effect: check once, then register the check with the
      session gate and with the onboarding gate; a gate already hydrated
      runs it at once. */
  function Mount(session: GateState, onboarding: GateState): Boot {
    var b0 := CheckHydration(Boot(session, onboarding, false));
    var b1 := b0.(session := Register(b0.session, CheckListener));
    var b2 := if session.hydrated then CheckHydration(b1) else b1;
    var b3 := b2.(onboarding := Register(b2.onboarding, CheckListener));
    if onboarding.hydrated then CheckHydration(b3) else b3
  }

  /** Which store finished reading back its state. */
  datatype Store = SessionStore | OnboardingStore

  /** One store's `onRehydrateStorage`: flush its gate, running the check if
      it was waiting there. */
  function Rehydrated(b: Boot, store: Store): Boot {
    match store
    case SessionStore =>
      var c := b.(session := Flush(b.session));
      if CheckListener in b.session.queue then CheckHydration(c) else c
    case OnboardingStore =>
      var c := b.(onboarding := Flush(b.onboarding));
      if CheckListener in b.onboarding.queue then CheckHydration(c) else c
  }

  /** The navigator after a sequence of rehydrations. */
  function Replay(b: Boot, events: seq<Store>): Boot
    decreases |events|
  {
    if events == [] then b else Replay(Rehydrated(b, events[0]), events[1..])
  }

  /** While mounted, the check waits on exactly the gates not yet hydrated,
      and the navigator is ready exactly when both are. */
  predicate Waiting(b: Boot) {
    && Settled(b.session) && Settled(b.onboarding)
    && (CheckListener in b.session.queue <==> !b.session.hydrated)
    && (CheckListener in b.onboarding.queue <==> !b.onboarding.hydrated)
    && (b.ready <==> b.session.hydrated && b.onboarding.hydrated)
  }

  lemma MountWaits(session: GateState, onboarding: GateState)
    requires Settled(session) && Settled(onboarding)
    requires CheckListener !in session.queue && CheckListener !in onboarding.queue
    ensures Waiting(Mount(session, onboarding))
    ensures Mount(session, onboarding).session.hydrated == session.hydrated
    ensures Mount(session, onboarding).onboarding.hydrated == onboarding.hydrated
  {
  }

  lemma {:induction false} ReplayWaits(b: Boot, events: seq<Store>)
    requires Waiting(b)
    ensures Waiting(Replay(b, events))
    ensures Replay(b, events).session.hydrated <==> b.session.hydrated || SessionStore in events
    ensures Replay(b, events).onboarding.hydrated <==> b.onboarding.hydrated || OnboardingStore in events
    decreases |events|
  {
    if events != [] {
      ReplayWaits(Rehydrated(b, events[0]), events[1..]);
      assert events == [events[0]] + events[1..];
    }
  }

  /** Leaving the 500 ms timer aside, the navigator renders exactly once
      both stores are hydrated, whichever finishes first and whether or not
      either was hydrated before it mounted. */
  lemma ReadyIffBothHydrated(session: GateState, onboarding: GateState, events: seq<Store>)
    requires Settled(session) && Settled(onboarding)
    requires CheckListener !in session.queue && CheckListener !in onboarding.queue
    ensures Replay(Mount(session, onboarding), events).ready <==>
      (session.hydrated || SessionStore in events) && (onboarding.hydrated || OnboardingStore in events)
  {
    MountWaits(session, onboarding);
    ReplayWaits(Mount(session, onboarding), events);
  }
}
