/**
 The nesting level against the tree: the level the builder counts is the depth of the current call, and panics are
 reported at the depth of their call, exactly as long as loops are re-entered at the depth they are returned to.
 */
module CallTraceDepth {
  import opened Wrappers
  import opened CallTrace
  import Tree = CallTraceTree
  import opened CallTraceInvariants

  /** The number of callers above call `id`, up to the root `base`. */
  ghost function Depth(log: Log, base: nat, id: nat): nat
    decreases id
  {
    if id == base || id !in log.calls || log.calls[id].parentCallId >= id then 0
    else 1 + Depth(log, base, log.calls[id].parentCallId)
  }

  ghost predicate LevelsAreDepths(s: State, base: nat) {
    && s.nesting == Depth(s.log, base, s.current)
    && (s.log.panicCallId.Some? ==> s.log.panicLevel == Depth(s.log, base, s.log.panicCallId.value))
  }

  ghost predicate EntersNoLoop(e: Entry) {
    e.fn.Some? ==> !e.fn.value.isLoop
  }

  /** The entry calls a loop that was called before. */
  predicate ReentersLoop(s: State, prev: Entry, e: Entry) {
    e.fp > prev.fp && e.fn.Some? && e.fn.value.isLoop && e.fn.value.name in s.loopParents
  }

  /** The call that the loop was first called from is no deeper and no less deep than the current one. */
  ghost predicate ReentryKeepsDepth(s: State, prev: Entry, e: Entry, base: nat) {
    ReentersLoop(s, prev, e) ==> Depth(s.log, base, s.loopParents[e.fn.value.name]) == Depth(s.log, base, s.current)
  }

  /** The levels are depths before the run and after each of its steps. */
  ghost predicate AlwaysDepths(cfg: Config, s: State, prev: Entry, trace: seq<Entry>, base: nat)
    decreases |trace|
  {
    && LevelsAreDepths(s, base)
    && (trace != [] && Step(cfg, s, prev, trace[0]).Ok? ==>
          AlwaysDepths(cfg, Step(cfg, s, prev, trace[0]).value, trace[0], trace[1..], base))
  }

  /** Every step of the run that re-enters a loop goes to a call of the current call's depth. */
  ghost predicate ReentriesKeepDepth(cfg: Config, s: State, prev: Entry, trace: seq<Entry>, base: nat)
    decreases |trace|
  {
    trace != [] && Step(cfg, s, prev, trace[0]).Ok? ==>
      && ReentryKeepsDepth(s, prev, trace[0], base)
      && ReentriesKeepDepth(cfg, Step(cfg, s, prev, trace[0]).value, trace[0], trace[1..], base)
  }

  lemma {:induction false} DepthStays(cfg: Config, log: Log, after: Log, base: nat, id: nat)
    requires LogInv(cfg, log, base) && Own(log, base, id) && Tree.Keeps(log, after)
    ensures Depth(after, base, id) == Depth(log, base, id)
    decreases id
  {
    hide LogInv;
    if id != base && log.calls[id].parentCallId < id {
      ParentIsSmaller(cfg, log, base, id);
      DepthStays(cfg, log, after, base, log.calls[id].parentCallId);
    }
  }

  lemma ParentIsSmaller(cfg: Config, log: Log, base: nat, id: nat)
    requires LogInv(cfg, log, base) && Own(log, base, id) && id != base
    ensures log.calls[id].parentCallId < id && Own(log, base, log.calls[id].parentCallId)
  {
    assert HasParent(log, base, id);
  }

  lemma RootHasNoParent(cfg: Config, log: Log, base: nat)
    requires LogInv(cfg, log, base)
    ensures base > 0 && Own(log, base, base) && log.calls[base].parentCallId == 0 && Tree.Fresh(log)
    ensures log.panicCallId.Some? ==> Own(log, base, log.panicCallId.value)
  {
  }

  lemma ExecuteAtKeepsPanic(cfg: Config, log: Log, id: nat, e: Entry)
    ensures var r := ExecuteAt(cfg, log, id, e);
            r.Ok? ==> r.value.panicLevel == log.panicLevel && r.value.panicCallId == log.panicCallId
  {
    AddStatementsAdds(cfg, log, id, e.fp, e.statements);
  }

  lemma EnterTracksDepth(cfg: Config, s: State, prev: Entry, e: Entry, base: nat)
    requires StateInv(cfg, s, base) && LevelsAreDepths(s, base) && e.fp > prev.fp
    ensures var r := EnterFunction(cfg, s, e);
            r.Ok? ==> (LevelsAreDepths(r.value, base) <==> ReentryKeepsDepth(s, prev, e, base))
  {
    hide LogInv, Depth;
    if e.fn.Some? && !e.fn.value.isLoop {
      RootHasNoParent(cfg, s.log, base);
      Tree.OpenCallKeeps(cfg, s.log, s.current, e.fn.value, e.fp);
      var after, id := OpenCall(cfg, s.log, s.current, e.fn.value, e.fp).value, s.log.nextCallId;
      assert after.panicLevel == s.log.panicLevel && after.panicCallId == s.log.panicCallId;
      DepthStays(cfg, s.log, after, base, s.current);
      if s.log.panicCallId.Some? { DepthStays(cfg, s.log, after, base, s.log.panicCallId.value); }
      DepthOfChild(after, base, id);
    }
  }

  lemma DepthOfChild(log: Log, base: nat, id: nat)
    requires id in log.calls && id != base && log.calls[id].parentCallId < id
    ensures Depth(log, base, id) == 1 + Depth(log, base, log.calls[id].parentCallId)
  {
  }

  lemma LeaveTracksDepth(cfg: Config, s: State, e: Entry, results: seq<FnIO>, base: nat)
    requires StateInv(cfg, s, base) && LevelsAreDepths(s, base)
    ensures var r := LeaveFunction(s, e, results); r.Ok? ==> LevelsAreDepths(r.value, base)
  {
    hide LogInv, Depth, ReportsPanic;
    RootHasNoParent(cfg, s.log, base);
    var r := LeaveFunction(s, e, results);
    if r.Ok? && r.value != s {
      ParentIsSmaller(cfg, s.log, base, s.current);
      DepthOfChild(s.log, base, s.current);
      Tree.CloseCallKeeps(s.log, s.current, s.nesting, results);
      var after := CloseCall(s.log, s.current, s.nesting, results).value;
      DepthStays(cfg, s.log, after, base, s.current);
      DepthStays(cfg, s.log, after, base, s.log.calls[s.current].parentCallId);
      if s.log.panicCallId.Some? { DepthStays(cfg, s.log, after, base, s.log.panicCallId.value); }
    }
  }

  lemma ExecuteTracksDepth(cfg: Config, s: State, e: Entry, base: nat)
    requires StateInv(cfg, s, base)
    ensures var r := ExecuteAt(cfg, s.log, s.current, e);
            r.Ok? ==> (LevelsAreDepths(s.(log := r.value), base) <==> LevelsAreDepths(s, base))
  {
    hide LogInv, Depth, ExecuteAt;
    RootHasNoParent(cfg, s.log, base);
    Tree.ExecuteAtKeeps(cfg, s.log, s.current, e);
    ExecuteAtKeepsPanic(cfg, s.log, s.current, e);
    var r := ExecuteAt(cfg, s.log, s.current, e);
    if r.Ok? {
      DepthStays(cfg, s.log, r.value, base, s.current);
      if s.log.panicCallId.Some? { DepthStays(cfg, s.log, r.value, base, s.log.panicCallId.value); }
    }
  }

  /** One step: entering a function, leaving one and first entries of loops do no harm. */
  lemma StepTracksDepth(cfg: Config, s: State, prev: Entry, e: Entry, base: nat)
    requires StateInv(cfg, s, base) && LevelsAreDepths(s, base)
    ensures var r := Step(cfg, s, prev, e);
            r.Ok? ==> (LevelsAreDepths(r.value, base) <==> ReentryKeepsDepth(s, prev, e, base))
  {
    hide StateInv, LevelsAreDepths, EnterFunction, LeaveFunction, ExecuteAt, Depth;
    if e.fp > prev.fp { EnterTracksDepth(cfg, s, prev, e, base); }
    LeaveTracksDepth(cfg, s, e, prev.results, base);
    MoveKeeps(cfg, s, prev, e, base);
    var moved := Move(cfg, s, prev, e);
    if moved.Ok? { ExecuteTracksDepth(cfg, moved.value, e, base); }
  }

  lemma {:induction false} RunTracksDepth(cfg: Config, s: State, prev: Entry, trace: seq<Entry>, base: nat)
    requires StateInv(cfg, s, base) && LevelsAreDepths(s, base)
    ensures AlwaysDepths(cfg, s, prev, trace, base) <==> ReentriesKeepDepth(cfg, s, prev, trace, base)
    decreases |trace|
  {
    hide StateInv, LevelsAreDepths, Step, ReentryKeepsDepth;
    if trace != [] {
      StepKeeps(cfg, s, prev, trace[0], base);
      StepTracksDepth(cfg, s, prev, trace[0], base);
      var next := Step(cfg, s, prev, trace[0]);
      if next.Ok? && LevelsAreDepths(next.value, base) {
        RunTracksDepth(cfg, next.value, trace[0], trace[1..], base);
      } else if next.Ok? {
        assert !AlwaysDepths(cfg, next.value, trace[0], trace[1..], base);
      }
    }
  }

  lemma {:induction false} AlwaysMeansAtEnd(cfg: Config, s: State, prev: Entry, trace: seq<Entry>, base: nat)
    requires AlwaysDepths(cfg, s, prev, trace, base)
    ensures var r := Run(cfg, s, prev, trace); r.Ok? ==> LevelsAreDepths(r.value, base)
    decreases |trace|
  {
    hide LevelsAreDepths, Step;
    if trace != [] {
      var next := Step(cfg, s, prev, trace[0]);
      if next.Ok? { AlwaysMeansAtEnd(cfg, next.value, trace[0], trace[1..], base); }
    }
  }

  /**
   For every trace, well nested or not, cut off or not: the level is the depth of the current call throughout the run,
   and the reported panic, before the root's own results are looked at, is at its call's depth, if and only if every
   loop that is called again was first called from a call as deep as the one that calls it again.
   */
  lemma NestingIsDepthIff(
    cfg: Config, calls: map<nat, FunctionCall>, events: map<nat, EventCall>, root: nat, trace: seq<Entry>)
    requires ValidConfig(cfg, root) && trace != []
    requires (forall id :: id in calls ==> id < root) && (forall id :: id in events ==> id < root)
    ensures var start := Start(cfg, calls, events, root, trace[0]);
            AlwaysDepths(cfg, start, trace[0], trace, root) <==> ReentriesKeepDepth(cfg, start, trace[0], trace, root)
  {
    StartHolds(cfg, calls, events, root, trace[0]);
    RunTracksDepth(cfg, Start(cfg, calls, events, root, trace[0]), trace[0], trace, root);
  }

  // ---------------------------------------------------------------- loops that are entered once

  /** No two entries name the same loop. */
  predicate NamesLoopsOnce(trace: seq<Entry>) {
    forall i, j :: 0 <= i < j < |trace| && IsLoopEntry(trace[i]) && IsLoopEntry(trace[j]) ==>
      trace[i].fn.value.name != trace[j].fn.value.name
  }

  predicate IsLoopEntry(e: Entry) {
    e.fn.Some? && e.fn.value.isLoop
  }

  predicate NamesNoneOf(trace: seq<Entry>, loops: map<string, nat>) {
    forall e :: e in trace && IsLoopEntry(e) ==> e.fn.value.name !in loops
  }

  lemma LoopParentsGrow(cfg: Config, s: State, prev: Entry, e: Entry)
    ensures var r := Step(cfg, s, prev, e);
            r.Ok? ==> forall name :: name in r.value.loopParents ==>
                        name in s.loopParents || (IsLoopEntry(e) && name == e.fn.value.name)
  {
    hide OpenCall, CloseCall, ExecuteAt;
  }

  lemma {:induction false} OnceMeansNoReentry(cfg: Config, s: State, prev: Entry, trace: seq<Entry>, base: nat)
    requires NamesLoopsOnce(trace) && NamesNoneOf(trace, s.loopParents)
    ensures ReentriesKeepDepth(cfg, s, prev, trace, base)
    decreases |trace|
  {
    hide Step, Depth;
    if trace != [] && Step(cfg, s, prev, trace[0]).Ok? {
      LoopParentsGrow(cfg, s, prev, trace[0]);
      OnceMeansNoReentry(cfg, Step(cfg, s, prev, trace[0]).value, trace[0], trace[1..], base);
    }
  }

  /** So the level is the depth on every trace that names each loop at most once. */
  lemma NestingIsDepthWithoutReentry(
    cfg: Config, calls: map<nat, FunctionCall>, events: map<nat, EventCall>, root: nat, trace: seq<Entry>)
    requires ValidConfig(cfg, root) && trace != [] && NamesLoopsOnce(trace)
    requires (forall id :: id in calls ==> id < root) && (forall id :: id in events ==> id < root)
    ensures AlwaysDepths(cfg, Start(cfg, calls, events, root, trace[0]), trace[0], trace, root)
    ensures var r := Run(cfg, Start(cfg, calls, events, root, trace[0]), trace[0], trace);
            r.Ok? ==> LevelsAreDepths(r.value, root)
  {
    var start := Start(cfg, calls, events, root, trace[0]);
    hide AlwaysDepths, ReentriesKeepDepth, Run, LevelsAreDepths;
    OnceMeansNoReentry(cfg, start, trace[0], trace, root);
    NestingIsDepthIff(cfg, calls, events, root, trace);
    AlwaysMeansAtEnd(cfg, start, trace[0], trace, root);
  }

  /** In particular on every trace that enters no loop. */
  lemma NestingIsDepth(
    cfg: Config, calls: map<nat, FunctionCall>, events: map<nat, EventCall>, root: nat, trace: seq<Entry>)
    requires ValidConfig(cfg, root) && trace != [] && forall e :: e in trace ==> EntersNoLoop(e)
    requires (forall id :: id in calls ==> id < root) && (forall id :: id in events ==> id < root)
    ensures var r := Run(cfg, Start(cfg, calls, events, root, trace[0]), trace[0], trace);
            r.Ok? ==> LevelsAreDepths(r.value, root)
  {
    forall i | 0 <= i < |trace| ensures !IsLoopEntry(trace[i]) { assert trace[i] in trace; }
    NestingIsDepthWithoutReentry(cfg, calls, events, root, trace);
  }

  lemma StartStands(cfg: Config, root: nat, e: Entry)
    requires root > 0 && e == Entry(1, None, [], [], NoCall)
    ensures var s := Start(cfg, map[], map[], root, e);
            && Step(cfg, s, e, e) == Ok(s) && s.current == root && s.nesting == 0 && s.loopParents == map[]
            && root in s.log.calls
  {
  }

  lemma EntersLoop(cfg: Config, s: State, root: nat, prev: Entry, e: Entry)
    requires s.current == root && s.loopParents == map[] && root in s.log.calls
    requires prev.fp < e.fp && e == Entry(2, Some(Function("loop", true)), [], [], NoCall)
    ensures Step(cfg, s, prev, e) == Ok(s.(loopParents := map["loop" := root]))
  {
  }

  lemma EntersCallee(cfg: Config, s: State, root: nat, prev: Entry, e: Entry) returns (inside: State)
    requires s.current == root && s.nesting == 0 && s.loopParents == map["loop" := root] && root in s.log.calls
    requires prev.fp < e.fp && e == Entry(3, Some(Function("g", false)), [], [], NoCall)
    ensures Step(cfg, s, prev, e) == Ok(inside) && inside.nesting == 1 && inside.loopParents == s.loopParents
  {
    inside := s.(log := OpenCall(cfg, s.log, root, e.fn.value, 3).value, current := s.log.nextCallId, nesting := 1);
    assert inside.log.debugTrace == s.log.debugTrace;
  }

  lemma EntersLoopAgain(cfg: Config, s: State, root: nat, prev: Entry, e: Entry)
    requires s.loopParents == map["loop" := root]
    requires prev.fp < e.fp && e == Entry(4, Some(Function("loop", true)), [], [], NoCall)
    ensures Step(cfg, s, prev, e) == Ok(s.(current := root))
  {
  }

  /** With a loop it may fail: a loop called again from a deeper function moves back to the root, at level one. */
  lemma LoopBreaksTheLevel(cfg: Config, root: nat)
    requires root > 0
    ensures var enter := (fp: nat, f: Function) => Entry(fp, Some(f), [], [], NoCall);
            var loop, g := Function("loop", true), Function("g", false);
            var trace := [Entry(1, None, [], [], NoCall), enter(2, loop), enter(3, g), enter(4, loop)];
            var r := Run(cfg, Start(cfg, map[], map[], root, trace[0]), trace[0], trace);
            r.Ok? && r.value.current == root && r.value.nesting == 1 && !LevelsAreDepths(r.value, root)
  {
    hide Step, OpenCall, Start;
    var loop, g := Function("loop", true), Function("g", false);
    var e0, e1, e2, e3 := Entry(1, None, [], [], NoCall), Entry(2, Some(loop), [], [], NoCall),
                          Entry(3, Some(g), [], [], NoCall), Entry(4, Some(loop), [], [], NoCall);
    var s := Start(cfg, map[], map[], root, e0);
    StartStands(cfg, root, e0);
    var looping := s.(loopParents := map["loop" := root]);
    EntersLoop(cfg, s, root, e0, e1);
    var inG := EntersCallee(cfg, looping, root, e1, e2);
    var back := inG.(current := root);
    EntersLoopAgain(cfg, inG, root, e2, e3);
    assert Run(cfg, back, e3, []) == Ok(back);
    RunOne(cfg, inG, e2, e3, [], back);
    RunOne(cfg, looping, e1, e2, [e3], inG);
    RunOne(cfg, s, e0, e1, [e2, e3], looping);
    RunOne(cfg, s, e0, e0, [e1, e2, e3], s);
    assert [e0] + [e1, e2, e3] == [e0, e1, e2, e3] && [e1] + [e2, e3] == [e1, e2, e3] && [e2] + [e3] == [e2, e3];
  }

  lemma RunOne(cfg: Config, s: State, prev: Entry, e: Entry, rest: seq<Entry>, next: State)
    requires Step(cfg, s, prev, e) == Ok(next)
    ensures Run(cfg, s, prev, [e] + rest) == Run(cfg, next, e, rest)
  {
    assert ([e] + rest)[1..] == rest;
  }
}
