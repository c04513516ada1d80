/**
 The reader of inline data looks twice: first at the entry, and then at whether the class is compiling. When that
 tells it the truth about the second phase, and how it can be misled.
 */
module CompilationReaders {
  import opened Wrappers
  import opened CompilationProtocol
  import opened CompilationRuns
  import opened CompilationSafety

  // ---------------------------------------------------------------- the outcome of a second phase

  predicate Ended(s: State, t: Task, succeeded: bool) {
    t in s.holders && if succeeded then s.holders[t].outcome.Phase2Built? else s.holders[t].outcome.Phase2Failed?
  }

  ghost predicate SecondBuild(e: Event, t: Task, succeeded: bool) {
    e.Build2? && e.t == t && (e.built.Some? <==> succeeded)
  }

  lemma OutcomeAfterOne(s: State, e: Event, t: Task, succeeded: bool)
    requires HoldersOk(s) && Enabled(s, e)
    ensures Ended(Apply(s, e), t, succeeded) <==> Ended(s, t, succeeded) || SecondBuild(e, t, succeeded)
  {
    hide Apply, Enabled, HolderOk, HolderEnabled, MoveHolder;
    OnlyOwnSteps(s, e, t);
    if HolderEvent(e) && e.t == t { OwnOutcome(s.shared, t, s.holders[t], e); }
  }

  lemma OwnOutcome(sh: Shared, t: Task, h: Holder, e: Event)
    requires HolderOk(sh, t, h) && HolderEvent(e) && e.t == t && HolderEnabled(sh, h, e)
    ensures MoveHolder(sh, h, e).outcome.Phase2Built? <==> h.outcome.Phase2Built? || SecondBuild(e, t, true)
    ensures MoveHolder(sh, h, e).outcome.Phase2Failed? <==> h.outcome.Phase2Failed? || SecondBuild(e, t, false)
  {
  }

  lemma HoldersKeptOk(s: State, maxCompilations: nat)
    requires Inv(s, maxCompilations)
    ensures HoldersOk(s)
  {
    hide HoldersOk, NamesOk, RecordsOk, CacheOk, WritersOk, WaitersOk, ReadersOk, RetriesOk;
  }

  /** A second phase has ended one way or the other exactly if its build was done with that result. */
  lemma {:induction false} BuildsDecide(
    s: State, maxCompilations: nat, events: seq<Event>, t: Task, succeeded: bool)
    requires Inv(s, maxCompilations) && Possible(s, events)
    ensures Ended(After(s, events), t, succeeded)
            <==> Ended(s, t, succeeded) || exists e :: e in events && SecondBuild(e, t, succeeded)
    decreases |events|
  {
    hide Inv, Enabled, Apply, Ended, SecondBuild;
    if events != [] {
      var e, others := events[0], events[1..];
      OneKeeps(s, e, maxCompilations);
      HoldersKeptOk(s, maxCompilations);
      OutcomeAfterOne(s, e, t, succeeded);
      BuildsDecide(Apply(s, e), maxCompilations, others, t, succeeded);
      assert events == [e] + others;
    }
  }

  // ---------------------------------------------------------------- the reader's conclusion

  /** The reader has taken the second phase of task `t` for failed. */
  predicate Judged(s: State, d: Task, t: Task) {
    d in s.readers && s.readers[d].pc.TookForFailed? && s.readers[d].pc.entry.writer == Some(t)
  }

  /**
   For every run: a reader that takes a second phase for failed does so after it ended, one way or the other; and it
   is right if and only if the second build of the task that wrote its entry failed in the run, and wrong if and only
   if that build succeeded.
   */
  lemma JudgementIsRightIff(maxCompilations: nat, events: seq<Event>, d: Task, t: Task)
    requires Possible(Init(maxCompilations), events)
    ensures var s := After(Init(maxCompilations), events);
            Judged(s, d, t) ==>
              && Owns(s, s.readers[d].class_, t) && s.holders[t].pc.Done?
              && Ended(s, t, true) != Ended(s, t, false)
              && (Ended(s, t, false) <==> exists e :: e in events && SecondBuild(e, t, false))
              && (Ended(s, t, true) <==> exists e :: e in events && SecondBuild(e, t, true))
  {
    InitHolds(maxCompilations);
    RunKeeps(Init(maxCompilations), events, maxCompilations);
    BuildsDecide(Init(maxCompilations), maxCompilations, events, t, false);
    BuildsDecide(Init(maxCompilations), maxCompilations, events, t, true);
    var s := After(Init(maxCompilations), events);
    hide After, Possible, NamesOk, RecordsOk, CacheOk, WaitersOk, RetriesOk, SecondBuild;
    if Judged(s, d, t) {
      assert ReaderOk(s, s.readers[d]);
      assert HolderOk(s.shared, t, s.holders[t]);
    }
  }

  lemma EntryDecides(s: State, d: Task, t: Task)
    requires CacheOk(s) && WritersOk(s) && ReadersOk(s) && Judged(s, d, t)
    ensures d in s.readers
    ensures var c := s.readers[d].class_;
            c in s.shared.cache && s.shared.cache[c].writer == Some(t) ==>
              && (Ended(s, t, false) <==> s.shared.cache[c].data.None?)
              && (Ended(s, t, true) <==> s.shared.cache[c].data.Some?)
  {
    hide HasRecorded, OwnEntryOk, UpdateOk;
    var c := s.readers[d].class_;
    assert ReaderOk(s, s.readers[d]);
    if c in s.shared.cache { assert PartialEntryOk(s, c) && CompleteEntryOk(s, c, s.shared.cache[c]); }
  }

  /**
   A second look at the entry decides it: if, at any time after the reader took the phase for failed, the class has an
   entry of that writer, the phase failed if and only if the entry has no inline data, and succeeded if and only if it
   has.
   */
  lemma SecondLookDecides(maxCompilations: nat, events: seq<Event>, d: Task, t: Task)
    requires Possible(Init(maxCompilations), events)
    ensures var s := After(Init(maxCompilations), events);
            Judged(s, d, t) ==>
              var c := s.readers[d].class_;
              c in s.shared.cache && s.shared.cache[c].writer == Some(t) ==>
                && (Ended(s, t, false) <==> s.shared.cache[c].data.None?)
                && (Ended(s, t, true) <==> s.shared.cache[c].data.Some?)
  {
    hide After, Possible, NamesOk, HoldersOk, RecordsOk, WaitersOk, RetriesOk, CacheOk, WritersOk, ReadersOk;
    hide Ended, Judged;
    InitHolds(maxCompilations);
    RunKeeps(Init(maxCompilations), events, maxCompilations);
    var s := After(Init(maxCompilations), events);
    if Judged(s, d, t) { EntryDecides(s, d, t); }
  }

  // ---------------------------------------------------------------- what happens between the two looks

  lemma RemovesLast(sh: Shared, h: Holder, e: Event, t: Task)
    requires HolderEvent(e) && h.registered && InPending(h.pc)
    ensures e.t == t && HolderEnabled(sh, h, e) ==>
              var g := MoveHolder(sh, h, e);
              g.registered && (InPending(g.pc) || (g.pc.Done? && e == Remove2(t)))
  {
  }

  lemma FinishesByRemoving(s: State, e: Event, t: Task)
    requires t in s.holders && s.holders[t].registered && InPending(s.holders[t].pc) && Enabled(s, e)
    ensures var after := Apply(s, e);
            && t in after.holders && after.holders[t].registered
            && (InPending(after.holders[t].pc) || (after.holders[t].pc.Done? && e == Remove2(t)))
  {
    hide Apply, Enabled, InPending, HolderEnabled, MoveHolder, HolderEvent;
    OnlyOwnSteps(s, e, t);
    if HolderEvent(e) { RemovesLast(s.shared, s.holders[t], e, t); }
  }

  lemma {:induction false} PendingUntilRemoved(s: State, events: seq<Event>, t: Task)
    requires t in s.holders && s.holders[t].registered && InPending(s.holders[t].pc) && Possible(s, events)
    ensures var after := After(s, events);
            t in after.holders && after.holders[t].pc.Done? ==> Remove2(t) in events
    decreases |events|
  {
    if events != [] {
      var e, others := events[0], events[1..];
      FinishesByRemoving(s, e, t);
      hide Enabled, Apply, InPending;
      if e != Remove2(t) { PendingUntilRemoved(Apply(s, e), others, t); }
      assert events == [e] + others;
    } else {
      assert !s.holders[t].pc.Done?;
    }
  }

  lemma ReaderAfterOne(s: State, e: Event, d: Task)
    requires d in s.readers && !s.readers[d].pc.Looking1? && Enabled(s, e)
    ensures var after := Apply(s, e);
            && d in after.readers && after.readers[d].class_ == s.readers[d].class_ && !after.readers[d].pc.Looking1?
            && (after.readers[d].pc.Holding? ==> after.readers[d].pc == s.readers[d].pc)
  {
    hide Apply, Enabled, HolderEnabled, HolderEffect, MoveHolder, RetryEnabled, RetryEffect, MoveRetry, LosersOf;
    if HolderEvent(e) {
      HolderApplies(s, e);
    } else if RetryEvent(e) {
      RetryApplies(s, e);
    } else {
      ReaderStays(s, e, d);
    }
  }

  lemma {:induction false} ReaderHolds(s: State, events: seq<Event>, d: Task)
    requires d in s.readers && !s.readers[d].pc.Looking1? && Possible(s, events)
    ensures var after := After(s, events);
            && d in after.readers && after.readers[d].class_ == s.readers[d].class_
            && (after.readers[d].pc.Holding? ==> after.readers[d].pc == s.readers[d].pc)
    decreases |events|
  {
    if events != [] {
      ReaderAfterOne(s, events[0], d);
      hide Enabled, Apply;
      ReaderHolds(Apply(s, events[0]), events[1..], d);
    }
  }

  /** Its second look finds nothing pending. */
  predicate TakesForFailed(s: State, d: Task) {
    d in s.readers && s.readers[d].pc.Holding? && s.shared.lock.None? && s.readers[d].class_ !in s.shared.pending
  }

  lemma AskApplies(s: State, d: Task)
    requires TakesForFailed(s, d)
    ensures Enabled(s, AskPending(d))
    ensures Apply(s, AskPending(d))
            == s.(readers := s.readers[d := s.readers[d].(pc := TookForFailed(s.readers[d].pc.entry))])
  {
    hide HolderStep, RetryStep;
  }

  /** A reader that takes a phase for failed asked when it was over. */
  lemma AskedWhenDone(s: State, maxCompilations: nat, d: Task)
    requires Inv(s, maxCompilations) && TakesForFailed(s, d)
    ensures s.readers[d].pc.entry.writer.Some? && Enabled(s, AskPending(d))
    ensures var after, t := Apply(s, AskPending(d)), s.readers[d].pc.entry.writer.value;
            && Judged(after, d, t)
            && t in s.holders && s.holders[t].pc.Done?
            && (Ended(after, t, true) ==> Ended(s, t, true) && !Ended(s, t, false))
  {
    hide HoldersOk, NamesOk, RecordsOk, WaitersOk, CacheOk, WritersOk, RetriesOk, HasRecorded, Apply, Enabled;
    AskApplies(s, d);
    assert ReaderOk(s, s.readers[d]);
    LooksAreOk(s, s.readers[d].class_);
  }

  lemma LookUpApplies(s: State, d: Task)
    requires d in s.readers && s.readers[d].pc.Looking1?
    ensures Enabled(s, LookUp(d))
    ensures var c := s.readers[d].class_;
            Apply(s, LookUp(d))
            == s.(readers := s.readers[d := s.readers[d].(
                 pc := if c in s.shared.cache && s.shared.cache[c].data.None? then Holding(s.shared.cache[c])
                       else Answered)])
  {
    hide HolderStep, RetryStep;
  }

  /** The entry that the first look finds without data: its writer is pending, or has failed. */
  lemma LookedAtPartial(s: State, maxCompilations: nat, d: Task)
    requires Inv(s, maxCompilations) && d in s.readers && s.readers[d].pc.Looking1?
    ensures Enabled(s, LookUp(d))
    ensures var looked := Apply(s, LookUp(d));
            && d in looked.readers && !looked.readers[d].pc.Looking1?
            && (looked.readers[d].pc.Holding? ==>
                  && looked.readers[d].pc.entry.writer.Some?
                  && var t := looked.readers[d].pc.entry.writer.value;
                     && t in looked.holders && looked.holders[t].registered
                     && (InPending(looked.holders[t].pc) || Ended(looked, t, false)))
  {
    hide HoldersOk, NamesOk, RecordsOk, WaitersOk, ReadersOk, WritersOk, RetriesOk, Apply, Enabled;
    LookUpApplies(s, d);
    var c := s.readers[d].class_;
    if c in s.shared.cache { assert PartialEntryOk(s, c); }
  }

  /**
   A wrong judgement needs the whole end of a compilation between the two looks: the entry's writer succeeded, and
   removed its registration after the first look and before the second.
   */
  lemma WrongOnlyIfFinishedBetween(
    s: State, maxCompilations: nat, d: Task, between: seq<Event>, looked: State, asking: State)
    requires Inv(s, maxCompilations) && d in s.readers && s.readers[d].pc.Looking1?
    requires Enabled(s, LookUp(d)) && looked == Apply(s, LookUp(d))
    requires Possible(looked, between) && asking == After(looked, between) && TakesForFailed(asking, d)
    ensures asking.readers[d].pc.entry.writer.Some? && Enabled(asking, AskPending(d))
    ensures var end, t := Apply(asking, AskPending(d)), asking.readers[d].pc.entry.writer.value;
            Judged(end, d, t) && (Ended(end, t, true) ==> Remove2(t) in between)
  {
    hide Inv, Enabled, Apply, After, Possible, Ended, InPending;
    OneKeeps(s, LookUp(d), maxCompilations);
    RunKeeps(looked, between, maxCompilations);
    LookedAtPartial(s, maxCompilations, d);
    AskedWhenDone(asking, maxCompilations, d);
    ReaderHolds(looked, between, d);
    var t := asking.readers[d].pc.entry.writer.value;
    BuildsDecide(looked, maxCompilations, between, t, false);
    if Ended(Apply(asking, AskPending(d)), t, true) { PendingUntilRemoved(looked, between, t); }
  }

  // ---------------------------------------------------------------- how the reader is misled

  /** The second phase succeeds and finishes, and then the reader asks. */
  function FinishingFirst(t: Task, data: Build, d: Task): seq<Event> {
    [Build2(t, Some(data)), Look(t)] + [Update(t), Send2(t)] + [Remove2(t), AskPending(d)]
  }

  /** The reader took a success for a failure. */
  ghost predicate Misled(s: State, d: Task, t: Task, c: Class, wasCached: bool, data: Build) {
    Judged(s, d, t) && Ended(s, t, true) && (wasCached ==> c in s.shared.cache && s.shared.cache[c].data == Some(data))
  }

  /**
   From every state in which a reader has found the entry of a task that is still to build its second phase: the build
   may succeed and finish before the reader asks. The reader then takes a success for a failure.
   */
  lemma ReaderCanMisjudge(s: State, maxCompilations: nat, d: Task, t: Task, data: Build)
    requires Inv(s, maxCompilations) && s.shared.lock.None?
    requires d in s.readers && s.readers[d].pc.Holding? && s.readers[d].pc.entry.writer == Some(t)
    requires t in s.holders && s.holders[t].pc.Building2?
    ensures var events, c := FinishingFirst(t, data, d), s.holders[t].class_;
            Possible(s, events) && Misled(After(s, events), d, t, c, c in s.shared.cache, data)
  {
    HeldClass(s, maxCompilations, d);
    hide Enabled, Apply, Possible, After, Inv, LookedState, SentState, Misled;
    LookRuns(s, t, data);
    SendRuns(s, t, data);
    AskRuns(s, d, t, data);
    RunsCompose(s, [Build2(t, Some(data)), Look(t)], [Update(t), Send2(t)]);
    RunsCompose(s, [Build2(t, Some(data)), Look(t)] + [Update(t), Send2(t)], [Remove2(t), AskPending(d)]);
  }

  lemma HeldClass(s: State, maxCompilations: nat, d: Task)
    requires Inv(s, maxCompilations) && d in s.readers && s.readers[d].pc.Holding?
    ensures s.readers[d].pc.entry.writer.Some? && Owns(s, s.readers[d].class_, s.readers[d].pc.entry.writer.value)
  {
    assert ReaderOk(s, s.readers[d]);
  }

  function Existing(s: State, t: Task): Option<Cached>
    requires t in s.holders
  {
    var c := s.holders[t].class_;
    if c in s.shared.cache then Some(s.shared.cache[c]) else None
  }

  function LookedState(s: State, t: Task, data: Build): State
    requires t in s.holders
  {
    s.(holders := s.holders[t := s.holders[t].(pc := Updating(Existing(s, t), data), outcome := Phase2Built)])
  }

  function SentState(s: State, t: Task, data: Build): State
    requires t in s.holders
  {
    var c, existing := s.holders[t].class_, Existing(s, t);
    s.(shared := s.shared.(
         cache := if existing.None? then s.shared.cache else s.shared.cache[c := existing.value.(data := Some(data))],
         sent2 := s.shared.sent2 + {t}),
       holders := s.holders[t := s.holders[t].(pc := Removing2, outcome := Phase2Built)])
  }

  function DoneState(s: State, t: Task, data: Build): State
    requires t in s.holders
  {
    var sent := SentState(s, t, data);
    sent.(shared := sent.shared.(pending := sent.shared.pending - {s.holders[t].class_}),
          holders := s.holders[t := s.holders[t].(pc := Done, outcome := Phase2Built)])
  }

  lemma LookRuns(s: State, t: Task, data: Build)
    requires t in s.holders && s.holders[t].pc.Building2?
    ensures Possible(s, [Build2(t, Some(data)), Look(t)])
            && After(s, [Build2(t, Some(data)), Look(t)]) == LookedState(s, t, data)
  {
    hide Enabled, Apply;
    BuildApplies(s, t, data);
    LookApplies(s, t, data);
    TwoEvents(s, Build2(t, Some(data)), Look(t), LookedState(s, t, data));
  }

  function BuiltState(s: State, t: Task, data: Build): State
    requires t in s.holders
  {
    s.(holders := s.holders[t := s.holders[t].(pc := Looking(data), outcome := Phase2Built)])
  }

  lemma BuildApplies(s: State, t: Task, data: Build)
    requires t in s.holders && s.holders[t].pc.Building2?
    ensures Enabled(s, Build2(t, Some(data))) && Apply(s, Build2(t, Some(data))) == BuiltState(s, t, data)
  {
    hide RetryStep, OtherStep, RetryEvent;
  }

  lemma LookApplies(s: State, t: Task, data: Build)
    requires t in s.holders
    ensures var built := BuiltState(s, t, data);
            Enabled(built, Look(t)) && Apply(built, Look(t)) == LookedState(s, t, data)
  {
    hide RetryStep, OtherStep, RetryEvent;
    var built := BuiltState(s, t, data);
    assert built.holders[t := LookedState(s, t, data).holders[t]] == LookedState(s, t, data).holders;
  }

  function UpdatedState(s: State, t: Task, data: Build): State
    requires t in s.holders
  {
    var sent := SentState(s, t, data);
    sent.(shared := sent.shared.(sent2 := s.shared.sent2),
          holders := s.holders[t := s.holders[t].(pc := Sending2, outcome := Phase2Built)])
  }

  lemma UpdateApplies(s: State, t: Task, data: Build)
    requires t in s.holders
    ensures Enabled(LookedState(s, t, data), Update(t))
    ensures Apply(LookedState(s, t, data), Update(t)) == UpdatedState(s, t, data)
  {
    hide RetryStep, OtherStep;
  }

  lemma Send2Applies(s: State, t: Task, data: Build)
    requires t in s.holders
    ensures Enabled(UpdatedState(s, t, data), Send2(t))
    ensures Apply(UpdatedState(s, t, data), Send2(t)) == SentState(s, t, data)
  {
    hide RetryStep, OtherStep;
  }

  lemma SendRuns(s: State, t: Task, data: Build)
    requires t in s.holders
    ensures var looked := LookedState(s, t, data);
            Possible(looked, [Update(t), Send2(t)]) && After(looked, [Update(t), Send2(t)]) == SentState(s, t, data)
  {
    hide Enabled, Apply;
    UpdateApplies(s, t, data);
    Send2Applies(s, t, data);
    TwoEvents(LookedState(s, t, data), Update(t), Send2(t), SentState(s, t, data));
  }

  lemma Remove2Applies(s: State, t: Task, data: Build)
    requires t in s.holders && s.shared.lock.None?
    ensures Enabled(SentState(s, t, data), Remove2(t))
    ensures Apply(SentState(s, t, data), Remove2(t)) == DoneState(s, t, data)
  {
    hide RetryStep, OtherStep;
  }

  lemma ReaderAtTheEnd(s: State, d: Task, t: Task, data: Build)
    requires t in s.holders && s.shared.lock.None? && d in s.readers && s.readers[d].pc.Holding?
    requires s.readers[d].class_ == s.holders[t].class_
    ensures var done, c := DoneState(s, t, data), s.holders[t].class_;
            && done.readers == s.readers && TakesForFailed(done, d)
            && Ended(done, t, true)
            && (c in s.shared.cache ==> c in done.shared.cache && done.shared.cache[c].data == Some(data))
  {
  }

  lemma AskRuns(s: State, d: Task, t: Task, data: Build)
    requires t in s.holders && s.shared.lock.None?
    requires d in s.readers && s.readers[d].pc.Holding? && s.readers[d].pc.entry.writer == Some(t)
    requires s.readers[d].class_ == s.holders[t].class_
    ensures var sent := SentState(s, t, data);
            && Possible(sent, [Remove2(t), AskPending(d)])
            && var c := s.holders[t].class_;
               Misled(After(sent, [Remove2(t), AskPending(d)]), d, t, c, c in s.shared.cache, data)
  {
    hide Enabled, Apply, SentState, DoneState;
    var sent, done := SentState(s, t, data), DoneState(s, t, data);
    Remove2Applies(s, t, data);
    ReaderAtTheEnd(s, d, t, data);
    AskApplies(done, d);
    TwoEvents(sent, Remove2(t), AskPending(d), Apply(done, AskPending(d)));
  }

  // ---------------------------------------------------------------- a run in which it is misled

  function MisleadingRun(c: Class, data: Build): seq<Event> {
    Registering(c, Spawned) + FirstPhase() + [Request(0, c), LookUp(0)] + FinishingFirst(0, data, 0)
  }

  function FirstPhase(): seq<Event> {
    [Build1(0, Half(None)), Store(0)] + [Send1(0), Remove1(0)]
  }

  function HalfState(c: Class): State {
    var registered := RegisteredState(c, Spawned);
    registered.(
      shared := registered.shared.(cache := map[c := Cached(None, None, Some(0))], phase1 := map[], sent1 := {0}),
      holders := map[0 := Holder(c, Spawned, true, Building2, HalfDone)])
  }

  function HoldingState(c: Class): State {
    HalfState(c).(readers := map[0 := Reader(c, Holding(Cached(None, None, Some(0))))])
  }

  /** From the start: compiled in two phases, both of which succeed, and taken for failed by a reader. */
  lemma ReaderIsMisled(c: Class, data: Build)
    ensures Possible(Init(1), MisleadingRun(c, data))
    ensures var s := After(Init(1), MisleadingRun(c, data));
            && Judged(s, 0, 0) && Ended(s, 0, true)
            && c in s.shared.cache && s.shared.cache[c].data == Some(data)
  {
    HoldingRuns(c);
    InitHolds(1);
    hide Enabled, Apply, Registering, FirstPhase, FinishingFirst, Possible, After, Inv;
    RunKeeps(Init(1), HoldingRun(c), 1);
    ReaderCanMisjudge(HoldingState(c), 1, 0, 0, data);
    RunsCompose(Init(1), HoldingRun(c), FinishingFirst(0, data, 0));
  }

  function HoldingRun(c: Class): seq<Event> {
    Registering(c, Spawned) + FirstPhase() + [Request(0, c), LookUp(0)]
  }

  lemma HoldingRuns(c: Class)
    ensures Possible(Init(1), HoldingRun(c)) && After(Init(1), HoldingRun(c)) == HoldingState(c)
  {
    hide Enabled, Apply, Registering, FirstPhase, RegisteredState, Possible, After, HalfState, HoldingState;
    RegisteringRuns(c, Spawned);
    FirstPhaseRuns(c);
    RequestRuns(c);
    TwoEvents(HalfState(c), Request(0, c), LookUp(0), HoldingState(c));
    RunsCompose(Init(1), Registering(c, Spawned), FirstPhase());
    RunsCompose(Init(1), Registering(c, Spawned) + FirstPhase(), [Request(0, c), LookUp(0)]);
  }

  function RequestedState(c: Class): State {
    HalfState(c).(readers := map[0 := Reader(c, Looking1)])
  }

  lemma RequestApplies(c: Class)
    ensures Enabled(HalfState(c), Request(0, c)) && Apply(HalfState(c), Request(0, c)) == RequestedState(c)
  {
    hide HolderStep, RetryStep;
  }

  lemma RequestRuns(c: Class)
    ensures Enabled(HalfState(c), Request(0, c)) && Enabled(Apply(HalfState(c), Request(0, c)), LookUp(0))
    ensures Apply(Apply(HalfState(c), Request(0, c)), LookUp(0)) == HoldingState(c)
  {
    hide Enabled, Apply;
    RequestApplies(c);
    LookUpApplies(RequestedState(c), 0);
  }

  function StoringState(c: Class): State {
    RegisteredState(c, Spawned).(
      holders := map[0 := Holder(c, Spawned, true, Storing(Cached(None, None, Some(0))), HalfDone)])
  }

  function StoredHalf(c: Class): State {
    var registered := RegisteredState(c, Spawned);
    registered.(
      shared := registered.shared.(cache := map[c := Cached(None, None, Some(0))]),
      holders := map[0 := Holder(c, Spawned, true, Sending1(true), HalfDone)])
  }

  function SentHalf(c: Class): State {
    var stored := StoredHalf(c);
    stored.(shared := stored.shared.(sent1 := {0}),
            holders := map[0 := Holder(c, Spawned, true, Removing1(true), HalfDone)])
  }

  lemma Build1Applies(c: Class)
    ensures Enabled(RegisteredState(c, Spawned), Build1(0, Half(None)))
    ensures Apply(RegisteredState(c, Spawned), Build1(0, Half(None))) == StoringState(c)
  {
    hide RetryStep, OtherStep;
  }

  lemma StoreApplies(c: Class)
    ensures Enabled(StoringState(c), Store(0)) && Apply(StoringState(c), Store(0)) == StoredHalf(c)
  {
    hide RetryStep, OtherStep;
  }

  lemma Send1Applies(c: Class)
    ensures Enabled(StoredHalf(c), Send1(0)) && Apply(StoredHalf(c), Send1(0)) == SentHalf(c)
  {
    hide RetryStep, OtherStep;
  }

  lemma Remove1Applies(c: Class)
    ensures Enabled(SentHalf(c), Remove1(0)) && Apply(SentHalf(c), Remove1(0)) == HalfState(c)
  {
    hide RetryStep, OtherStep;
  }

  lemma FirstPhaseRuns(c: Class)
    ensures Possible(RegisteredState(c, Spawned), FirstPhase())
    ensures After(RegisteredState(c, Spawned), FirstPhase()) == HalfState(c)
  {
    hide Enabled, Apply, Possible, After, RegisteredState, HalfState, StoringState, StoredHalf, SentHalf;
    Build1Applies(c);
    StoreApplies(c);
    Send1Applies(c);
    Remove1Applies(c);
    TwoEvents(RegisteredState(c, Spawned), Build1(0, Half(None)), Store(0), StoredHalf(c));
    TwoEvents(StoredHalf(c), Send1(0), Remove1(0), HalfState(c));
    RunsCompose(RegisteredState(c, Spawned), [Build1(0, Half(None)), Store(0)], [Send1(0), Remove1(0)]);
  }
}
