/**
 The cache of externally compiled classes, updated in place, and the tasks that use it. Each method does, without
 interruption, what a holder's events of the compilation protocol do one by one.
 */
module ExternalClassCaching {
  import opened Wrappers
  import opened CompilationProtocol

  /** One holder's events in a row, while no one else runs. */
  ghost function Solo(sh: Shared, t: Task, h: Holder, events: seq<Event>): Option<(Shared, Holder)>
    decreases |events|
  {
    if events == [] then Some((sh, h))
    else
      var e := events[0];
      if !HolderEvent(e) || e.t != t || !HolderEnabled(sh, h, e) then None
      else Solo(HolderEffect(sh, t, h, e), t, MoveHolder(sh, h, e), events[1..])
  }

  lemma {:induction false} SoloCompose(sh: Shared, t: Task, h: Holder, ds: seq<Event>, es: seq<Event>)
    requires Solo(sh, t, h, ds).Some?
    ensures var (mid, g) := Solo(sh, t, h, ds).value; Solo(sh, t, h, ds + es) == Solo(mid, t, g, es)
    decreases |ds|
  {
    hide HolderEffect, MoveHolder, HolderEnabled;
    if ds == [] {
      assert ds + es == es;
    } else {
      SoloCompose(HolderEffect(sh, t, h, ds[0]), t, MoveHolder(sh, h, ds[0]), ds[1..], es);
      assert (ds + es)[1..] == ds[1..] + es;
    }
  }

  lemma SoloOne(sh: Shared, t: Task, h: Holder, e: Event)
    requires HolderEvent(e) && e.t == t && HolderEnabled(sh, h, e)
    ensures Solo(sh, t, h, [e]) == Some((HolderEffect(sh, t, h, e), MoveHolder(sh, h, e)))
  {
    hide HolderEffect, MoveHolder, HolderEnabled;
    assert Solo(HolderEffect(sh, t, h, e), t, MoveHolder(sh, h, e), [])
        == Some((HolderEffect(sh, t, h, e), MoveHolder(sh, h, e)));
    assert [e][1..] == [];
  }

  lemma SoloTwo(sh: Shared, t: Task, h: Holder, d: Event, e: Event)
    requires HolderEvent(d) && d.t == t && HolderEnabled(sh, h, d)
    requires HolderEvent(e) && e.t == t && HolderEnabled(HolderEffect(sh, t, h, d), MoveHolder(sh, h, d), e)
    ensures var mid, g := HolderEffect(sh, t, h, d), MoveHolder(sh, h, d);
            Solo(sh, t, h, [d, e]) == Some((HolderEffect(mid, t, g, e), MoveHolder(mid, g, e)))
  {
    hide HolderEffect, MoveHolder, HolderEnabled;
    SoloOne(HolderEffect(sh, t, h, d), t, MoveHolder(sh, h, d), e);
    assert [d, e][1..] == [e];
  }

  /** What a holder does alone is a run of the protocol, from any state in which it is where it starts. */
  lemma {:induction false} SoloIsRun(s: State, t: Task, h: Holder, events: seq<Event>)
    requires t in s.holders && s.holders[t] == h && Solo(s.shared, t, h, events).Some?
    ensures Possible(s, events)
    ensures var (sh, g) := Solo(s.shared, t, h, events).value;
            After(s, events) == s.(shared := sh, holders := s.holders[t := g])
    decreases |events|
  {
    if events == [] {
      assert s.holders[t := h] == s.holders;
    } else {
      var e := events[0];
      OneSolo(s, t, h, e);
      hide HolderEffect, MoveHolder, HolderEnabled, Enabled, Apply;
      var next, g := Apply(s, e), MoveHolder(s.shared, h, e);
      SoloIsRun(next, t, g, events[1..]);
      var (_, end) := Solo(next.shared, t, g, events[1..]).value;
      assert s.holders[t := g][t := end] == s.holders[t := end];
    }
  }

  lemma OneSolo(s: State, t: Task, h: Holder, e: Event)
    requires t in s.holders && s.holders[t] == h && HolderEvent(e) && e.t == t && HolderEnabled(s.shared, h, e)
    ensures Enabled(s, e)
    ensures Apply(s, e) == s.(shared := HolderEffect(s.shared, t, h, e),
                              holders := s.holders[t := MoveHolder(s.shared, h, e)])
  {
    hide HolderEffect, MoveHolder, HolderEnabled, RetryStep, OtherStep;
  }

  /**
   So a task that arrives and runs its program while no one else does leaves a state of the protocol: all that is
   proved of runs holds of it, whoever ran before it and runs after it.
   */
  lemma ProgramIsRun(s: State, t: Task, c: Class, phase1: Phase1, phase2: Option<Build>)
    requires t !in s.holders
    requires Solo(s.shared, t, Holder(c, Spawned, false, Starting, Unknown),
                  Registering(t) + Program(t, phase1, phase2)).Some?
    ensures var events := [Arrive(t, c, Spawned)] + (Registering(t) + Program(t, phase1, phase2));
            && Possible(s, events)
            && After(s, events).shared
               == Solo(s.shared, t, Holder(c, Spawned, false, Starting, Unknown),
                       Registering(t) + Program(t, phase1, phase2)).value.0
  {
    var program, h := Registering(t) + Program(t, phase1, phase2), Holder(c, Spawned, false, Starting, Unknown);
    var arrived := s.(holders := s.holders[t := h]);
    assert Enabled(s, Arrive(t, c, Spawned)) && Apply(s, Arrive(t, c, Spawned)) == arrived;
    hide Enabled, Apply, Registering, Program, Solo;
    SoloIsRun(arrived, t, h, program);
    assert ([Arrive(t, c, Spawned)] + program)[1..] == program;
  }

  class ExternalClassCache {
    var cache: map<Class, Cached>
    var failedCompilations: set<Class>
    var pendingCompilations: map<Class, Task>
    var phase1Ready: map<Class, Task>
    var sent1: set<Task>
    var sent2: set<Task>
    ghost var lost: set<Task>

    ghost function View(): Shared reads this {
      Shared(cache, failedCompilations, pendingCompilations, phase1Ready, None, sent1, sent2, lost)
    }

    constructor ()
      ensures View() == Init(0).shared
    {
      cache, failedCompilations, pendingCompilations, phase1Ready, sent1, sent2, lost :=
        map[], {}, map[], map[], {}, {}, {};
    }

    /** `set`. */
    method Set(c: Class, entry: Cached, ghost t: Task, ghost h: Holder)
      requires h.class_ == c && h.pc == Storing(entry)
      modifies `cache
      ensures View() == old(View()).(cache := old(cache)[c := entry])
      ensures View() == HolderEffect(old(View()), t, h, Store(t))
    {
      cache := cache[c := entry];
    }

    method MarkFailed(c: Class, ghost t: Task, ghost h: Holder)
      requires h.class_ == c && h.pc.Marking?
      modifies `failedCompilations
      ensures failedCompilations == old(failedCompilations) + {c}
      ensures View() == HolderEffect(old(View()), t, h, CompilationProtocol.MarkFailed(t))
    {
      failedCompilations := failedCompilations + {c};
    }

    /** `update_inline_data`: the other fields of the entry stay; without an entry nothing happens. */
    method UpdateInlineData(c: Class, data: Build, ghost t: Task, ghost h: Holder)
      requires h.class_ == c && h.pc == Looking(data)
      modifies `cache
      ensures c in old(cache) ==> cache == old(cache)[c := old(cache[c]).(data := Some(data))]
      ensures c !in old(cache) ==> cache == old(cache)
      ensures Solo(old(View()), t, h, [Look(t), Update(t)]) == Some((View(), h.(pc := Sending2)))
    {
      ghost var before := View();
      if c in cache { cache := cache[c := cache[c].(data := Some(data))]; }
      SoloTwo(before, t, h, Look(t), Update(t));
    }

    /** `start_compilation`. */
    method StartCompilation(c: Class, t: Task, ghost kind: Kind) returns (started: bool)
      modifies `phase1Ready, `pendingCompilations
      ensures started <==> c !in old(pendingCompilations)
      ensures !started ==> View() == old(View())
      ensures started ==> Solo(old(View()), t, Holder(c, kind, false, Starting, Unknown), Registering(t))
                          == Some((View(), Holder(c, kind, true, Building1, Unknown)))
    {
      if c in pendingCompilations { return false; }
      ghost var before, h := View(), Holder(c, kind, false, Starting, Unknown);
      phase1Ready := phase1Ready[c := t];
      pendingCompilations := pendingCompilations[c := t];
      started := true;
      SoloTwo(before, t, h, TakeLock(t), InsertPhase1(t));
      ghost var locked := before.(lock := Some(t), phase1 := before.phase1[c := t]);
      SoloOne(locked, t, h.(registered := true, pc := HalfRegistered), InsertPending(t));
      SoloCompose(before, t, h, [TakeLock(t), InsertPhase1(t)], [InsertPending(t)]);
    }

    /** `signal_phase1_ready`. */
    method SignalPhase1Ready(c: Class, t: Task, ghost h: Holder)
      requires h.class_ == c && h.pc.Sending1?
      modifies `sent1, `phase1Ready
      ensures t in sent1 && c !in phase1Ready
      ensures Solo(old(View()), t, h, [Send1(t), Remove1(t)])
              == Some((View(), h.(pc := if h.pc.more then Building2 else Sending2)))
    {
      ghost var before := View();
      sent1 := sent1 + {t};
      phase1Ready := phase1Ready - {c};
      SoloTwo(before, t, h, Send1(t), Remove1(t));
    }

    /** `finish_compilation`. */
    method FinishCompilation(c: Class, t: Task, ghost h: Holder)
      requires h.class_ == c && h.pc.Sending2?
      modifies `sent2, `pendingCompilations
      ensures t in sent2 && c !in pendingCompilations
      ensures Solo(old(View()), t, h, [Send2(t), Remove2(t)]) == Some((View(), h.(pc := Done)))
    {
      ghost var before := View();
      sent2 := sent2 + {t};
      pendingCompilations := pendingCompilations - {c};
      SoloTwo(before, t, h, Send2(t), Remove2(t));
    }
  }

  function Registering(t: Task): seq<Event> {
    [TakeLock(t), InsertPhase1(t)] + [InsertPending(t)]
  }

  /** The events of a task spawned by the verification check, after it was registered. */
  function Program(t: Task, phase1: Phase1, phase2: Option<Build>): seq<Event> {
    FirstPhase(t, phase1) + SecondPhase(t, phase1, phase2) + [Send2(t), Remove2(t)]
  }

  function FirstPhase(t: Task, phase1: Phase1): seq<Event> {
    [Build1(t, phase1), if phase1.Failed? then MarkFailed(t) else Store(t)] + [Send1(t), Remove1(t)]
  }

  function SecondPhase(t: Task, phase1: Phase1, phase2: Option<Build>): seq<Event> {
    if !phase1.Half? then []
    else [Build2(t, phase2)] + if phase2.Some? then [Look(t), Update(t)] else []
  }

  /**
   The spawned task, given what its builds yield: it goes through the protocol's events in the order of the
   program, leaves no registration, and the class cached as far as it was built, or marked failed.
   */
  method CompileInTwoPhases(
    cache: ExternalClassCache, c: Class, t: Task, phase1: Phase1, phase2: Option<Build>) returns (started: bool)
    modifies cache
    ensures started <==> c !in old(cache.pendingCompilations)
    ensures !started ==> cache.View() == old(cache.View())
    ensures started ==>
      && t in cache.sent1 && t in cache.sent2 && c !in cache.phase1Ready && c !in cache.pendingCompilations
      && (if phase1.Failed? then cache.cache == old(cache.cache) && c in cache.failedCompilations
          else cache.cache == old(cache.cache)[c :=
              Cached(if phase1.All? then Some(phase1.data) else phase2, phase1.original, Some(t))])
      && var ran := Solo(old(cache.View()), t, Holder(c, Spawned, false, Starting, Unknown),
                         Registering(t) + Program(t, phase1, phase2));
         ran.Some? && ran.value.0 == cache.View() && ran.value.1.pc.Done?
  {
    hide Solo, Registering, FirstPhase, SecondPhase, HolderEffect, MoveHolder, HolderEnabled, Program;
    ghost var before, start := cache.View(), Holder(c, Spawned, false, Starting, Unknown);
    started := cache.StartCompilation(c, t, Spawned);
    if !started { return; }
    ghost var registered, h1 := cache.View(), Holder(c, Spawned, true, Building1, Unknown);
    ghost var h2 := RunFirstPhase(cache, c, t, phase1);
    ghost var first := cache.View();
    ghost var h3 := RunSecondPhase(cache, c, t, phase1, phase2, h2);
    ghost var second := cache.View();
    cache.FinishCompilation(c, t, h3);
    ProgramComposes(before, registered, first, second, cache.View(), t, start, h1, h2, h3, h3.(pc := Done), phase1,
                    phase2);
  }

  lemma ProgramComposes(
    before: Shared, registered: Shared, first: Shared, second: Shared, after: Shared, t: Task,
    start: Holder, h1: Holder, h2: Holder, h3: Holder, end: Holder, phase1: Phase1, phase2: Option<Build>)
    requires Solo(before, t, start, Registering(t)) == Some((registered, h1))
    requires Solo(registered, t, h1, FirstPhase(t, phase1)) == Some((first, h2))
    requires Solo(first, t, h2, SecondPhase(t, phase1, phase2)) == Some((second, h3))
    requires Solo(second, t, h3, [Send2(t), Remove2(t)]) == Some((after, end))
    ensures Solo(before, t, start, Registering(t) + Program(t, phase1, phase2)) == Some((after, end))
  {
    hide Solo, Registering, FirstPhase, SecondPhase, HolderEffect, MoveHolder, HolderEnabled;
    SoloCompose(registered, t, h1, FirstPhase(t, phase1), SecondPhase(t, phase1, phase2));
    SoloCompose(registered, t, h1, FirstPhase(t, phase1) + SecondPhase(t, phase1, phase2), [Send2(t), Remove2(t)]);
    SoloCompose(before, t, start, Registering(t), Program(t, phase1, phase2));
  }

  method RunFirstPhase(cache: ExternalClassCache, c: Class, t: Task, phase1: Phase1) returns (ghost after: Holder)
    modifies cache`cache, cache`failedCompilations, cache`sent1, cache`phase1Ready
    ensures Solo(old(cache.View()), t, Holder(c, Spawned, true, Building1, Unknown), FirstPhase(t, phase1))
            == Some((cache.View(), after))
    ensures after.class_ == c && after.pc == if phase1.Half? then Building2 else Sending2
    ensures t in cache.sent1 && c !in cache.phase1Ready
    ensures phase1.Failed? ==> cache.cache == old(cache.cache) && c in cache.failedCompilations
    ensures !phase1.Failed? ==>
      cache.cache
      == old(cache.cache)[c := Cached(if phase1.All? then Some(phase1.data) else None, phase1.original, Some(t))]
  {
    ghost var before, h := cache.View(), Holder(c, Spawned, true, Building1, Unknown);
    ghost var built := MoveHolder(before, h, Build1(t, phase1));
    match phase1 {
      case Failed => cache.MarkFailed(c, t, built);
      case All(data, original) => cache.Set(c, Cached(Some(data), original, Some(t)), t, built);
      case Half(original) => cache.Set(c, Cached(None, original, Some(t)), t, built);
    }
    ghost var recorded, g := cache.View(), built.(pc := Sending1(phase1.Half?));
    SoloTwo(before, t, h, Build1(t, phase1), if phase1.Failed? then MarkFailed(t) else Store(t));
    cache.SignalPhase1Ready(c, t, g);
    after := g.(pc := if phase1.Half? then Building2 else Sending2);
    SoloCompose(before, t, h, [Build1(t, phase1), if phase1.Failed? then MarkFailed(t) else Store(t)],
                [Send1(t), Remove1(t)]);
  }

  method RunSecondPhase(
    cache: ExternalClassCache, c: Class, t: Task, phase1: Phase1, phase2: Option<Build>, ghost h: Holder)
    returns (ghost after: Holder)
    requires h.class_ == c && h.pc == if phase1.Half? then Building2 else Sending2
    modifies cache`cache
    ensures Solo(old(cache.View()), t, h, SecondPhase(t, phase1, phase2)) == Some((cache.View(), after))
    ensures after.class_ == c && after.pc.Sending2?
    ensures cache.cache == if phase1.Half? && phase2.Some? && c in old(cache.cache)
                           then old(cache.cache)[c := old(cache.cache[c]).(data := phase2)] else old(cache.cache)
  {
    ghost var before := cache.View();
    after := h;
    if phase1.Half? {
      SoloOne(before, t, h, Build2(t, phase2));
      after := MoveHolder(before, h, Build2(t, phase2));
      if phase2.Some? {
        SoloCompose(before, t, h, [Build2(t, phase2)], [Look(t), Update(t)]);
        cache.UpdateInlineData(c, phase2.value, t, after);
        after := after.(pc := Sending2);
      }
    }
  }
}
