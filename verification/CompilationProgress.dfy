/** Progress: a task that waits for a compilation can always be woken by steps of that compilation. */
module CompilationProgress {
  import opened Wrappers
  import opened CompilationProtocol
  import opened CompilationSafety

  /** An upper bound on the steps a holder has left. */
  function StepsLeft(h: Holder): nat {
    match h.pc
    case Starting => 13
    case Locked => 12
    case HalfRegistered => 11
    case Building1 => 10
    case Marking => 9
    case Storing(_) => 9
    case Sending1(_) => 8
    case Removing1(_) => 7
    case Building2 => 6
    case Looking(_) => 5
    case Updating(_, _) => 4
    case Sending2 => 3
    case Removing2 => 2
    case Done => 0
  }

  /** What the builds of a holder yield: half a class only where a second build follows. */
  datatype Builds = Builds(first: Phase1, second: Option<Build>)

  predicate CanYield(h: Holder, builds: Builds) {
    builds.first.Half? ==> h.kind.Spawned?
  }

  /** The event a holder waits to do, given what its builds yield. */
  function Due(t: Task, h: Holder, builds: Builds): Event
    requires !h.pc.Done?
  {
    match h.pc
    case Starting => TakeLock(t)
    case Locked => InsertPhase1(t)
    case HalfRegistered => InsertPending(t)
    case Building1 => Build1(t, builds.first)
    case Marking => MarkFailed(t)
    case Storing(_) => Store(t)
    case Sending1(_) => Send1(t)
    case Removing1(_) => Remove1(t)
    case Building2 => Build2(t, builds.second)
    case Looking(_) => Look(t)
    case Updating(_, _) => Update(t)
    case Sending2 => Send2(t)
    case Removing2 => Remove2(t)
  }

  lemma StepsRunOut(sh: Shared, h: Holder, e: Event)
    requires HolderEvent(e) && HolderEnabled(sh, h, e)
    ensures StepsLeft(MoveHolder(sh, h, e)) < StepsLeft(h)
  {
  }

  /**
   No wake-up is lost. In every run the channel a waiter watches was sent, and the waiter can go on; or its
   holder has steps left, and it, or the task whose lock it waits for, can take one, which brings it closer to
   its end. A registered holder at its end has sent both channels.
   */
  lemma NoWakeUpIsLost(maxCompilations: nat, events: seq<Event>, w: Task)
    requires Possible(Init(maxCompilations), events)
    ensures var s := After(Init(maxCompilations), events);
            w in s.waiters && s.waiters[w].pc.Watching? ==>
              var t := s.waiters[w].pc.holder;
              && Owns(s, s.waiters[w].class_, t)
              && if t in Sent(s.shared, s.waiters[w].phase) then Enabled(s, Wake(w))
                 else !s.holders[t].pc.Done? && CanAdvance(s, t)
  {
    InitHolds(maxCompilations);
    RunKeeps(Init(maxCompilations), events, maxCompilations);
    var s := After(Init(maxCompilations), events);
    hide After, Possible, Inv;
    if w in s.waiters && s.waiters[w].pc.Watching? { WatchedAdvances(s, maxCompilations, w); }
  }

  lemma WakeIsEnabled(s: State, w: Task)
    requires w in s.waiters && s.waiters[w].pc.Watching? && s.waiters[w].pc.holder in Sent(s.shared, s.waiters[w].phase)
    ensures Enabled(s, Wake(w))
  {
  }

  lemma NotDoneUntilSent(sh: Shared, t: Task, h: Holder, phase: Phase)
    requires HolderOk(sh, t, h) && h.registered && t !in Sent(sh, phase)
    ensures !h.pc.Done?
  {
  }

  lemma WatchedAdvances(s: State, maxCompilations: nat, w: Task)
    requires Inv(s, maxCompilations) && w in s.waiters && s.waiters[w].pc.Watching?
    ensures var t := s.waiters[w].pc.holder;
            && Owns(s, s.waiters[w].class_, t)
            && if t in Sent(s.shared, s.waiters[w].phase) then Enabled(s, Wake(w))
               else !s.holders[t].pc.Done? && CanAdvance(s, t)
  {
    hide HolderOk, CanAdvance, RecordsOk, CacheOk, WritersOk, RetriesOk, ReadersOk, NamesOk, Enabled;
    var t := s.waiters[w].pc.holder;
    assert WaiterOk(s, s.waiters[w]);
    if t in Sent(s.shared, s.waiters[w].phase) {
      WakeIsEnabled(s, w);
    } else {
      assert HolderOk(s.shared, t, s.holders[t]);
      NotDoneUntilSent(s.shared, t, s.holders[t], s.waiters[w].phase);
      HoldersAdvance(s, t);
    }
  }

  /** Whose turn it is before `t` can go on: the task with the lock, or `t` itself. */
  function Turn(s: State, t: Task): Task {
    if s.shared.lock.Some? then s.shared.lock.value else t
  }

  /** It can do its next event, whatever its builds yield, and has fewer steps left after it. */
  ghost predicate CanAdvance(s: State, t: Task) {
    && Turn(s, t) in s.holders
    && forall builds :: CanYield(s.holders[Turn(s, t)], builds) ==> Advances(s, Turn(s, t), builds)
  }

  ghost predicate Advances(s: State, u: Task, builds: Builds)
    requires u in s.holders
  {
    && !s.holders[u].pc.Done?
    && var e := Due(u, s.holders[u], builds);
       Enabled(s, e) && StepsLeft(Apply(s, e).holders[u]) < StepsLeft(s.holders[u])
  }

  lemma HoldersAdvance(s: State, t: Task)
    requires RegistrationsOk(s) && t in s.holders && !s.holders[t].pc.Done?
    ensures CanAdvance(s, t)
  {
    var u := Turn(s, t);
    assert HolderOk(s.shared, u, s.holders[u]);
    hide HoldersOk, NamesOk;
    forall builds | CanYield(s.holders[u], builds) ensures Advances(s, u, builds) {
      DueAdvances(s, u, builds);
    }
  }

  lemma DueAdvances(s: State, u: Task, builds: Builds)
    requires u in s.holders && HolderOk(s.shared, u, s.holders[u]) && !s.holders[u].pc.Done?
    requires s.shared.lock.Some? ==> s.shared.lock.value == u
    requires CanYield(s.holders[u], builds)
    ensures Advances(s, u, builds)
  {
    var e := Due(u, s.holders[u], builds);
    assert HolderEnabled(s.shared, s.holders[u], e);
    StepsRunOut(s.shared, s.holders[u], e);
    hide HolderOk, HolderEnabled, MoveHolder, HolderEffect, StepsLeft, RetryStep, OtherStep;
  }

  // ---------------------------------------------------------------- a run that ends in the wake-up

  /** Steps until the channel is sent: the holder's, and those of another task that has the lock. */
  function StepsAhead(s: State, t: Task): nat
    requires t in s.holders && (s.shared.lock.Some? ==> s.shared.lock.value in s.holders)
  {
    StepsLeft(s.holders[t]) + (if Turn(s, t) == t then 0 else StepsLeft(s.holders[Turn(s, t)]))
  }

  /** The event belongs to the holder, or to the task that has the lock to begin with. */
  predicate IsStepOf(e: Event, t: Task, locker: Task) {
    HolderEvent(e) && (e.t == t || e.t == locker)
  }

  lemma HasTurn(s: State, t: Task)
    requires RegistrationsOk(s) && t in s.holders
    ensures var u := Turn(s, t);
            && u in s.holders && HolderOk(s.shared, u, s.holders[u])
            && (s.shared.lock.Some? ==> s.shared.lock.value == u)
            && (u != t ==> s.shared.lock == Some(u))
  {
    hide HolderOk;
  }

  lemma DueIsEnabled(s: State, e: Event)
    requires HolderEvent(e) && e.t in s.holders && HolderEnabled(s.shared, s.holders[e.t], e)
    ensures Enabled(s, e)
  {
    hide HolderEnabled;
  }

  lemma TurnAdvances(s: State, maxCompilations: nat, t: Task, builds: Builds)
    requires Inv(s, maxCompilations) && t in s.holders && !s.holders[t].pc.Done?
    requires CanYield(s.holders[t], builds)
    ensures Turn(s, t) in s.holders && !s.holders[Turn(s, t)].pc.Done?
    ensures var u := Turn(s, t);
            var e := Due(u, s.holders[u], builds);
            && HolderEvent(e) && e.t == u && Enabled(s, e)
            && var after := Apply(s, e);
               && t in after.holders && CanYield(after.holders[t], builds)
               && after.waiters == s.waiters
               && (after.shared.lock.Some? ==> after.shared.lock.value in after.holders)
               && StepsAhead(after, t) < StepsAhead(s, t)
               && (Turn(after, t) == u || Turn(after, t) == t)
  {
    hide RecordsOk, CacheOk, WritersOk, WaitersOk, ReadersOk, RetriesOk, HoldersOk, NamesOk, Apply, Enabled;
    hide HolderOk, HolderEnabled, MoveHolder, HolderEffect, StepsLeft, Due;
    HasTurn(s, t);
    var u := Turn(s, t);
    HolderIsDue(s.shared, u, s.holders[u], builds, u == t);
    var e := Due(u, s.holders[u], builds);
    DueIsEnabled(s, e);
    HolderApplies(s, e);
  }

  lemma HolderIsDue(sh: Shared, u: Task, h: Holder, builds: Builds, isTurnOfItself: bool)
    requires HolderOk(sh, u, h) && (sh.lock.Some? ==> sh.lock.value == u)
    requires if isTurnOfItself then !h.pc.Done? && CanYield(h, builds) else sh.lock == Some(u)
    ensures !h.pc.Done?
    ensures var e := Due(u, h, builds);
            && HolderEvent(e) && e.t == u && HolderEnabled(sh, h, e)
            && var after, g := HolderEffect(sh, u, h, e), MoveHolder(sh, h, e);
               && StepsLeft(g) < StepsLeft(h) && g.kind == h.kind
               && (after.lock.Some? ==> after.lock.value == u)
  {
  }

  /**
   From every state that keeps the invariants, and whatever its builds yield, the holder that a waiter watches, with
   the task that has the lock, can run until the waiter is woken, in a bounded number of steps that need no one else.
   */
  lemma {:induction false} WatcherCanBeWoken(s: State, maxCompilations: nat, w: Task, locker: Task, builds: Builds)
    returns (events: seq<Event>)
    requires Inv(s, maxCompilations) && w in s.waiters && s.waiters[w].pc.Watching?
    requires var t := s.waiters[w].pc.holder;
             t in s.holders && CanYield(s.holders[t], builds) && (Turn(s, t) == t || Turn(s, t) == locker)
    requires s.shared.lock.Some? ==> s.shared.lock.value in s.holders
    ensures |events| <= StepsAhead(s, s.waiters[w].pc.holder)
    ensures forall e :: e in events ==> IsStepOf(e, s.waiters[w].pc.holder, locker)
    ensures Wakes(s, events, w)
    decreases StepsAhead(s, s.waiters[w].pc.holder)
  {
    hide Inv, Enabled, Apply, StepsAhead, Turn, Due, CanAdvance, CanYield, Sent, Owns, Wakes, HolderEvent;
    var t := s.waiters[w].pc.holder;
    WatchedAdvances(s, maxCompilations, w);
    if t in Sent(s.shared, s.waiters[w].phase) {
      events := [];
      WakeRuns(s, w);
    } else {
      TurnAdvances(s, maxCompilations, t, builds);
      var e := Due(Turn(s, t), s.holders[Turn(s, t)], builds);
      HolderKeeps(s, e, maxCompilations);
      var others := WatcherCanBeWoken(Apply(s, e), maxCompilations, w, locker, builds);
      events := [e] + others;
      WakesLater(s, e, others, w);
    }
  }

  /** After the events the waiter can be woken, by the task that it watches now. */
  ghost predicate Wakes(s: State, events: seq<Event>, w: Task)
    requires w in s.waiters && s.waiters[w].pc.Watching?
  {
    && Possible(s, events + [Wake(w)])
    && var after := After(s, events + [Wake(w)]);
       w in after.waiters && after.waiters[w].pc == Returned(Some(s.waiters[w].pc.holder))
  }

  lemma WakesLater(s: State, e: Event, others: seq<Event>, w: Task)
    requires w in s.waiters && s.waiters[w].pc.Watching? && Enabled(s, e) && Apply(s, e).waiters == s.waiters
    requires Wakes(Apply(s, e), others, w)
    ensures Wakes(s, [e] + others, w)
  {
    hide Enabled, Apply;
    assert ([e] + others + [Wake(w)])[1..] == others + [Wake(w)];
  }

  lemma WakeRuns(s: State, w: Task)
    requires Enabled(s, Wake(w))
    ensures Wakes(s, [], w)
  {
    var after := Apply(s, Wake(w));
    assert [] + [Wake(w)] == [Wake(w)] && [Wake(w)][1..] == [];
    assert Possible(after, []) && After(after, []) == after;
  }

  lemma NoMoreThan26(s: State, maxCompilations: nat, t: Task)
    requires Inv(s, maxCompilations) && t in s.holders
    ensures s.shared.lock.Some? ==> s.shared.lock.value in s.holders
    ensures StepsAhead(s, t) <= 26
  {
    hide HoldersOk, RecordsOk, CacheOk, WritersOk, WaitersOk, ReadersOk, RetriesOk;
    assert NamesOk(s);
  }

  /** In every run, a waiter that watches a channel can be woken within 26 more steps. */
  lemma EveryWatcherCanBeWoken(maxCompilations: nat, events: seq<Event>, w: Task, builds: Builds)
    requires Possible(Init(maxCompilations), events)
    requires var s := After(Init(maxCompilations), events);
             w in s.waiters && s.waiters[w].pc.Watching?
             && s.waiters[w].pc.holder in s.holders && CanYield(s.holders[s.waiters[w].pc.holder], builds)
    ensures var s := After(Init(maxCompilations), events);
            var t := s.waiters[w].pc.holder;
            exists more ::
              |more| <= 26 && Wakes(s, more, w) && forall e :: e in more ==> IsStepOf(e, t, Turn(s, t))
  {
    hide Inv, After, Possible, Init, StepsAhead, Turn, CanYield, Wakes, IsStepOf;
    InitHolds(maxCompilations);
    RunKeeps(Init(maxCompilations), events, maxCompilations);
    var s := After(Init(maxCompilations), events);
    var t := s.waiters[w].pc.holder;
    NoMoreThan26(s, maxCompilations, t);
    var more := WatcherCanBeWoken(s, maxCompilations, w, Turn(s, t), builds);
  }
}
