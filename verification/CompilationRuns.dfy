/** Runs put together from single events, and one in which a waiter is woken for nothing. */
module CompilationRuns {
  import opened Wrappers
  import opened CompilationProtocol

  lemma TwoEvents(s: State, d: Event, e: Event, after: State)
    requires Enabled(s, d) && Enabled(Apply(s, d), e) && Apply(Apply(s, d), e) == after
    ensures Possible(s, [d, e]) && After(s, [d, e]) == after
  {
    hide Enabled, Apply;
    var mid := Apply(s, d);
    assert Possible(after, []) && After(after, []) == after;
    assert [e][1..] == [] && Possible(mid, [e]) && After(mid, [e]) == after;
    assert [d, e][1..] == [e];
  }

  lemma {:induction false} RunsCompose(s: State, ds: seq<Event>, es: seq<Event>)
    requires Possible(s, ds) && Possible(After(s, ds), es)
    ensures Possible(s, ds + es) && After(s, ds + es) == After(After(s, ds), es)
    decreases |ds|
  {
    hide Enabled, Apply;
    if ds == [] {
      assert ds + es == es;
    } else {
      RunsCompose(Apply(s, ds[0]), ds[1..], es);
      assert (ds + es)[1..] == ds[1..] + es;
    }
  }

  function Registering(c: Class, kind: Kind): seq<Event> {
    [Arrive(0, c, kind), TakeLock(0)] + [InsertPhase1(0), InsertPending(0)]
  }

  function RegisteredState(c: Class, kind: Kind): State {
    Init(1).(shared := Init(1).shared.(phase1 := map[c := 0], pending := map[c := 0]),
             holders := map[0 := Holder(c, kind, true, Building1, Unknown)])
  }

  function ArrivedState(c: Class, kind: Kind): State {
    Init(1).(holders := map[0 := Holder(c, kind, false, Starting, Unknown)])
  }

  function LockedState(c: Class, kind: Kind): State {
    Init(1).(shared := Init(1).shared.(lock := Some(0)), holders := map[0 := Holder(c, kind, true, Locked, Unknown)])
  }

  function HalfRegisteredState(c: Class, kind: Kind): State {
    Init(1).(shared := Init(1).shared.(lock := Some(0), phase1 := map[c := 0]),
             holders := map[0 := Holder(c, kind, true, HalfRegistered, Unknown)])
  }

  lemma ArriveApplies(c: Class, kind: Kind)
    ensures Enabled(Init(1), Arrive(0, c, kind)) && Apply(Init(1), Arrive(0, c, kind)) == ArrivedState(c, kind)
  {
    hide HolderStep, RetryStep;
  }

  lemma TakeLockApplies(c: Class, kind: Kind)
    ensures Enabled(ArrivedState(c, kind), TakeLock(0))
    ensures Apply(ArrivedState(c, kind), TakeLock(0)) == LockedState(c, kind)
  {
    hide RetryStep, OtherStep;
  }

  lemma InsertPhase1Applies(c: Class, kind: Kind)
    ensures Enabled(LockedState(c, kind), InsertPhase1(0))
    ensures Apply(LockedState(c, kind), InsertPhase1(0)) == HalfRegisteredState(c, kind)
  {
    hide RetryStep, OtherStep;
  }

  lemma InsertPendingApplies(c: Class, kind: Kind)
    ensures Enabled(HalfRegisteredState(c, kind), InsertPending(0))
    ensures Apply(HalfRegisteredState(c, kind), InsertPending(0)) == RegisteredState(c, kind)
  {
    hide RetryStep, OtherStep;
  }

  lemma RegisteringRuns(c: Class, kind: Kind)
    ensures Possible(Init(1), Registering(c, kind)) && After(Init(1), Registering(c, kind)) == RegisteredState(c, kind)
  {
    hide Enabled, Apply, Possible, After, ArrivedState, LockedState, HalfRegisteredState, RegisteredState;
    ArriveApplies(c, kind);
    TakeLockApplies(c, kind);
    InsertPhase1Applies(c, kind);
    InsertPendingApplies(c, kind);
    TwoEvents(Init(1), Arrive(0, c, kind), TakeLock(0), LockedState(c, kind));
    TwoEvents(LockedState(c, kind), InsertPhase1(0), InsertPending(0), RegisteredState(c, kind));
    RunsCompose(Init(1), [Arrive(0, c, kind), TakeLock(0)], [InsertPhase1(0), InsertPending(0)]);
  }

  // ---------------------------------------------------------------- a wake-up for nothing

  /** A run in which a waiter is woken for a class that is neither cached nor marked failed. */
  lemma EvictionWakesForNothing(c: Class, data: Build)
    ensures var events := Registering(c, Fetching) + WatchingAndStoring(c, data) + EvictingAndWaking(c);
            && Possible(Init(1), events)
            && var s := After(Init(1), events);
               s.waiters == map[0 := Waiter(c, One, Returned(Some(0)))] && s.shared.cache == map[]
                 && s.shared.failed == {}
  {
    RegisteringRuns(c, Fetching);
    WatchAndStore(c, data);
    EvictAndWake(c, data);
    hide Enabled, Apply, Possible, After, Init, RegisteredState, StoredState, WokenState, Registering;
    hide WatchingAndStoring, EvictingAndWaking;
    RunsCompose(Init(1), Registering(c, Fetching), WatchingAndStoring(c, data));
    RunsCompose(Init(1), Registering(c, Fetching) + WatchingAndStoring(c, data), EvictingAndWaking(c));
  }

  function WatchingAndStoring(c: Class, data: Build): seq<Event> {
    [WaitFor(0, c, One), ReadReceiver(0)] + [Build1(0, All(data, None)), Store(0)]
  }

  function EvictingAndWaking(c: Class): seq<Event> {
    [Evict(c)] + [Send1(0), Wake(0)]
  }

  function StoredState(c: Class, data: Build): State {
    RegisteredState(c, Fetching).(
      shared := RegisteredState(c, Fetching).shared.(cache := map[c := Cached(Some(data), None, Some(0))]),
      holders := map[0 := Holder(c, Fetching, true, Sending1(false), Complete)],
      waiters := map[0 := Waiter(c, One, Watching(0))])
  }

  function WokenState(c: Class): State {
    RegisteredState(c, Fetching).(
      shared := RegisteredState(c, Fetching).shared.(lost := {0}, sent1 := {0}),
      holders := map[0 := Holder(c, Fetching, true, Removing1(false), Complete)],
      waiters := map[0 := Waiter(c, One, Returned(Some(0)))])
  }

  function WaitingState(c: Class): State {
    RegisteredState(c, Fetching).(waiters := map[0 := Waiter(c, One, Reading)])
  }

  function WatchingState(c: Class): State {
    RegisteredState(c, Fetching).(waiters := map[0 := Waiter(c, One, Watching(0))])
  }

  function BuiltState(c: Class, data: Build): State {
    WatchingState(c).(
      holders := map[0 := Holder(c, Fetching, true, Storing(Cached(Some(data), None, Some(0))), Complete)])
  }

  lemma WaitApplies(c: Class)
    ensures Enabled(RegisteredState(c, Fetching), WaitFor(0, c, One))
    ensures Apply(RegisteredState(c, Fetching), WaitFor(0, c, One)) == WaitingState(c)
  {
    hide HolderStep, RetryStep;
  }

  lemma ReadApplies(c: Class)
    ensures Enabled(WaitingState(c), ReadReceiver(0)) && Apply(WaitingState(c), ReadReceiver(0)) == WatchingState(c)
  {
    hide HolderStep, RetryStep;
  }

  lemma BuildApplies(c: Class, data: Build)
    ensures Enabled(WatchingState(c), Build1(0, All(data, None)))
    ensures Apply(WatchingState(c), Build1(0, All(data, None))) == BuiltState(c, data)
  {
    hide RetryStep, OtherStep;
  }

  lemma StoreApplies(c: Class, data: Build)
    ensures Enabled(BuiltState(c, data), Store(0)) && Apply(BuiltState(c, data), Store(0)) == StoredState(c, data)
  {
    hide RetryStep, OtherStep;
  }

  lemma WatchAndStore(c: Class, data: Build)
    ensures Possible(RegisteredState(c, Fetching), WatchingAndStoring(c, data))
    ensures After(RegisteredState(c, Fetching), WatchingAndStoring(c, data)) == StoredState(c, data)
  {
    hide Enabled, Apply, Possible, After, RegisteredState, WaitingState, WatchingState, BuiltState, StoredState;
    WaitApplies(c);
    ReadApplies(c);
    BuildApplies(c, data);
    StoreApplies(c, data);
    TwoEvents(RegisteredState(c, Fetching), WaitFor(0, c, One), ReadReceiver(0), WatchingState(c));
    TwoEvents(WatchingState(c), Build1(0, All(data, None)), Store(0), StoredState(c, data));
    RunsCompose(RegisteredState(c, Fetching), [WaitFor(0, c, One), ReadReceiver(0)],
                [Build1(0, All(data, None)), Store(0)]);
  }

  function EvictedState(c: Class): State {
    RegisteredState(c, Fetching).(
      shared := RegisteredState(c, Fetching).shared.(lost := {0}),
      holders := map[0 := Holder(c, Fetching, true, Sending1(false), Complete)],
      waiters := map[0 := Waiter(c, One, Watching(0))])
  }

  lemma EvictAndWake(c: Class, data: Build)
    ensures Possible(StoredState(c, data), EvictingAndWaking(c))
    ensures After(StoredState(c, data), EvictingAndWaking(c)) == WokenState(c)
    ensures var s := WokenState(c);
            s.waiters == map[0 := Waiter(c, One, Returned(Some(0)))] && s.shared.cache == map[] && s.shared.failed == {}
  {
    EvictStored(c, data);
    SendAndWake(c);
    hide Apply, Enabled, RegisteredState, StoredState, EvictedState, WokenState;
    assert EvictingAndWaking(c)[1..] == [Send1(0), Wake(0)];
  }

  lemma EverythingIsLost(c: Class, data: Build)
    ensures LosersOf(StoredState(c, data), Evict(c)) == {0}
  {
  }

  lemma EvictStored(c: Class, data: Build)
    ensures Enabled(StoredState(c, data), Evict(c)) && Apply(StoredState(c, data), Evict(c)) == EvictedState(c)
  {
    hide HolderStep, RetryStep, LosersOf;
    EverythingIsLost(c, data);
    assert map[c := Cached(Some(data), None, Some(0))] - {c} == map[];
  }

  lemma SendAndWake(c: Class)
    ensures Possible(EvictedState(c), [Send1(0), Wake(0)])
            && After(EvictedState(c), [Send1(0), Wake(0)]) == WokenState(c)
    ensures var s := WokenState(c);
            s.waiters == map[0 := Waiter(c, One, Returned(Some(0)))] && s.shared.cache == map[] && s.shared.failed == {}
  {
    TwoEvents(EvictedState(c), Send1(0), Wake(0), WokenState(c));
  }
}
