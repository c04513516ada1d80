/**
 The calls, events and ids of a call tree, by recursion over the tree alone: ids are given in preorder,
 events and calls sharing one counter. The builder produces exactly these maps from the flat trace.
 */
module CallTraceNumbering {
  import opened Wrappers
  import opened CallTrace
  import Invariants = CallTraceInvariants
  import opened CallTraceTree

  /** A call that returned, at its depth, with its results. */
  datatype Exit = Exit(id: nat, level: int, results: seq<FnIO>) {
    predicate Panicked() { ReportsPanic(results) == Ok(true) }
  }

  /** What executing a piece of a call adds: ids the call lists, new calls and events, and the calls that returned. */
  datatype Delta = Delta(
    kids: seq<nat>, eventIds: seq<nat>, calls: map<nat, FunctionCall>, events: map<nat, EventCall>,
    exits: seq<Exit>, ids: nat, links: nat)
  {
    function Plus(d: Delta): Delta {
      Delta(kids + d.kids, eventIds + d.eventIds, calls + d.calls, events + d.events, exits + d.exits, ids + d.ids,
            links + d.links)
    }
  }

  const NOTHING := Delta([], [], map[], map[], [], 0, 0)

  /** An entry in call `id`, when `next` is the next id and `k` contract calls are linked already. */
  function EntryDelta(cfg: Config, e: Entry, id: nat, next: nat, k: nat): Delta {
    match e.sysCall
    case ContractCall => NOTHING.(kids := if k < |cfg.children| then [cfg.children[k]] else [], links := 1)
    case EmitEvent(Some(name)) =>
      NOTHING.(kids := [next], eventIds := [next], events := map[next := EventCall(next, cfg.contractCallId, id, name)],
               ids := 1)
    case _ => NOTHING
  }

  function BodyDelta(cfg: Config, body: Body, id: nat, level: int, next: nat, k: nat): Delta
    decreases body, 2
  {
    match body
    case Done => NOTHING
    case Plain(e, rest) =>
      var d := EntryDelta(cfg, e, id, next, k);
      d.Plus(BodyDelta(cfg, rest, id, level, next + d.ids, k + d.links))
    case Call(callee, back, rest) =>
      var d := ReturnDelta(cfg, callee, back, id, level, next, k);
      d.Plus(BodyDelta(cfg, rest, id, level, next + d.ids, k + d.links))
  }

  /** A callee, and the caller's entry after it. */
  function ReturnDelta(cfg: Config, callee: Node, back: Entry, id: nat, level: int, next: nat, k: nat): Delta
    decreases callee, 2
  {
    var c := CalleeDelta(cfg, callee, id, level, next, k);
    c.Plus(EntryDelta(cfg, back, id, next + c.ids, k + c.links))
  }

  /** Everything that happens in call `id` itself, and below it. */
  function NodeDelta(cfg: Config, node: Node, id: nat, level: int, k: nat): Delta
    decreases node, 0
  {
    var d := EntryDelta(cfg, node.first, id, id + 1, k);
    d.Plus(BodyDelta(cfg, node.body, id, level, id + 1 + d.ids, k + d.links))
  }

  /** A callee as its caller `parent` sees it: one listed id, and the calls and events of the whole subtree. */
  function CalleeDelta(cfg: Config, callee: Node, parent: nat, level: int, next: nat, k: nat): Delta
    decreases callee, 1
  {
    var d := NodeDelta(cfg, callee, next, level + 1, k);
    Delta([next], [], d.calls[next := CalleeCall(cfg, callee, next, parent, d)], d.events,
          d.exits + [Exit(next, level + 1, LastOf(callee).results)], 1 + d.ids, d.links)
  }

  function CalleeCall(cfg: Config, callee: Node, id: nat, parent: nat, d: Delta): FunctionCall {
    var f := if callee.first.fn.Some? then callee.first.fn.value else Function("", false);
    FunctionCall(id, parent, d.kids, cfg.contractCallId, d.eventIds, Some(f.name), callee.first.fp,
                 LastOf(callee).results,
                 !f.IsCore(), f.IsCore())
  }

  lemma BodyUnfolds(cfg: Config, body: Body, id: nat, level: int, next: nat, k: nat)
    ensures body.Done? ==> BodyDelta(cfg, body, id, level, next, k) == NOTHING
    ensures body.Plain? ==>
              var d := EntryDelta(cfg, body.entry, id, next, k);
              BodyDelta(cfg, body, id, level, next, k)
              == d.Plus(BodyDelta(cfg, body.rest, id, level, next + d.ids, k + d.links))
    ensures body.Call? ==>
              var d := ReturnDelta(cfg, body.callee, body.back, id, level, next, k);
              BodyDelta(cfg, body, id, level, next, k)
              == d.Plus(BodyDelta(cfg, body.rest, id, level, next + d.ids, k + d.links))
  {
    hide EntryDelta, ReturnDelta, Delta.Plus;
  }

  lemma CalleeUnfolds(cfg: Config, callee: Node, parent: nat, level: int, next: nat, k: nat)
    ensures var d := NodeDelta(cfg, callee, next, level + 1, k);
            CalleeDelta(cfg, callee, parent, level, next, k)
            == Delta([next], [], d.calls[next := CalleeCall(cfg, callee, next, parent, d)], d.events,
                     d.exits + [Exit(next, level + 1, LastOf(callee).results)], 1 + d.ids, d.links)
  {
    hide NodeDelta, CalleeCall, LastOf;
  }

  lemma DenoteBodyUnfolds(cfg: Config, log: Log, id: nat, level: int, body: Body)
    ensures body.Plain? && ExecuteAt(cfg, log, id, body.entry).Ok? ==>
              DenoteBody(cfg, log, id, level, body)
              == DenoteBody(cfg, ExecuteAt(cfg, log, id, body.entry).value, id, level, body.rest)
  {
    hide ExecuteAt;
  }

  lemma DenoteCallUnfolds(cfg: Config, log: Log, id: nat, level: int, body: Body)
    requires body.Call?
    ensures var called := DenoteCall(cfg, log, id, level, body.callee);
            called.Ok? && ExecuteAt(cfg, called.value, id, body.back).Ok? ==>
              DenoteBody(cfg, log, id, level, body)
              == DenoteBody(cfg, ExecuteAt(cfg, called.value, id, body.back).value, id, level, body.rest)
  {
    hide ExecuteAt, DenoteCall;
  }

  // ---------------------------------------------------------------- applying a delta

  /** The deepest panic so far, after one more call has returned. */
  function Report(level: int, id: Option<nat>, x: Exit): (int, Option<nat>) {
    if x.level > level && x.Panicked() then (x.level, Some(x.id)) else (level, id)
  }

  function ReportAll(level: int, id: Option<nat>, exits: seq<Exit>): (int, Option<nat>)
    decreases |exits|
  {
    if exits == [] then (level, id)
    else
      var (l, i) := Report(level, id, exits[0]);
      ReportAll(l, i, exits[1..])
  }

  lemma {:induction false} ReportAllAppends(level: int, id: Option<nat>, xs: seq<Exit>, ys: seq<Exit>)
    ensures ReportAll(level, id, xs + ys)
            == var (l, i) := ReportAll(level, id, xs); ReportAll(l, i, ys)
    decreases |xs|
  {
    if xs == [] {
      assert xs + ys == ys;
    } else {
      var (l, i) := Report(level, id, xs[0]);
      ReportAllAppends(l, i, xs[1..], ys);
      assert (xs + ys)[1..] == xs[1..] + ys;
    }
  }

  /** From `log` to `after`, call `id` executed a piece whose delta is `d`. */
  ghost predicate Applied(log: Log, after: Log, id: nat, d: Delta)
    requires id in log.calls
  {
    && after.nextCallId == log.nextCallId + d.ids
    && after.contractCallIndex == log.contractCallIndex + d.links
    && after.events == log.events + d.events
    && (after.panicLevel, after.panicCallId) == ReportAll(log.panicLevel, log.panicCallId, d.exits)
    && CallsApplied(log, after, id, d)
  }

  ghost predicate CallsApplied(log: Log, after: Log, id: nat, d: Delta)
    requires id in log.calls
  {
    && id !in d.calls && (forall c :: c in d.calls ==> log.nextCallId <= c)
    && after.calls == (log.calls + d.calls)[id := Extended(log.calls[id], d)]
  }

  function Extended(call: FunctionCall, d: Delta): FunctionCall {
    call.(childrenCallIds := call.childrenCallIds + d.kids, eventCallIds := call.eventCallIds + d.eventIds)
  }

  lemma UpdateTwice<V>(a: map<nat, V>, b: map<nat, V>, c: map<nat, V>, id: nat, x: V, y: V)
    ensures ((a + b)[id := x] + c)[id := y] == (a + (b + c))[id := y]
  {
  }

  lemma ExtendTwice(call: FunctionCall, d: Delta, e: Delta)
    ensures Extended(Extended(call, d), e) == Extended(call, d.Plus(e))
  {
    assert call.childrenCallIds + d.kids + e.kids == call.childrenCallIds + (d.kids + e.kids);
    assert call.eventCallIds + d.eventIds + e.eventIds == call.eventCallIds + (d.eventIds + e.eventIds);
  }

  lemma CallsAppliedTwice(log: Log, mid: Log, after: Log, id: nat, d: Delta, e: Delta)
    requires id in log.calls && id in mid.calls && mid.nextCallId == log.nextCallId + d.ids
    requires CallsApplied(log, mid, id, d) && CallsApplied(mid, after, id, e)
    ensures CallsApplied(log, after, id, d.Plus(e))
  {
    hide Extended;
    ExtendTwice(log.calls[id], d, e);
    UpdateTwice(log.calls, d.calls, e.calls, id, mid.calls[id], Extended(mid.calls[id], e));
  }

  lemma AppliedTwice(cfg: Config, log: Log, mid: Log, after: Log, id: nat, d: Delta, e: Delta)
    requires OpenIn(cfg, log, id) && OpenIn(cfg, mid, id) && Applied(log, mid, id, d) && Applied(mid, after, id, e)
    ensures Applied(log, after, id, d.Plus(e))
  {
    hide Extended, ReportAll, CallsApplied, Fresh;
    ReportAllAppends(log.panicLevel, log.panicCallId, d.exits, e.exits);
    assert after.events == log.events + (d.events + e.events);
    CallsAppliedTwice(log, mid, after, id, d, e);
  }

  // ---------------------------------------------------------------- the builder applies the tree's delta

  /** Reading a returned call's results does not fail. */
  ghost predicate Readable(results: seq<FnIO>) {
    forall r :: r in results && r.isPanicResult ==> r.value != []
  }

  ghost predicate AllReadable(exits: seq<Exit>) {
    forall x :: x in exits ==> Readable(x.results)
  }

  lemma {:induction false} ReadableReports(results: seq<FnIO>)
    requires Readable(results)
    ensures ReportsPanic(results).Ok?
  {
    if results != [] { ReadableReports(results[1..]); }
  }

  /** Call `id` is an open call of this build. */
  ghost predicate OpenIn(cfg: Config, log: Log, id: nat) {
    Fresh(log) && id in log.calls && log.calls[id].callId == id && log.calls[id].contractCallId == cfg.contractCallId
  }

  lemma SysCallApplies(cfg: Config, log: Log, id: nat, e: Entry)
    requires OpenIn(cfg, log, id)
    requires var d := EntryDelta(cfg, e, id, log.nextCallId, log.contractCallIndex);
             log.contractCallIndex + d.links <= |cfg.children|
    ensures var d := EntryDelta(cfg, e, id, log.nextCallId, log.contractCallIndex);
            var r := HandleSysCall(cfg, log, id, e.sysCall);
            r.Ok? && OpenIn(cfg, r.value, id) && Applied(log, r.value, id, d)
  {
    NothingApplied(cfg, log, id);
    if e.sysCall.ContractCall? || (e.sysCall.EmitEvent? && e.sysCall.eventName.Some?) {
      assert log.events == log.events + map[];
      assert log.calls == log.calls + map[];
      assert log.calls[id].eventCallIds + [] == log.calls[id].eventCallIds;
    }
  }

  lemma ExecuteAtApplies(cfg: Config, log: Log, id: nat, e: Entry)
    requires OpenIn(cfg, log, id)
    requires var d := EntryDelta(cfg, e, id, log.nextCallId, log.contractCallIndex);
             log.contractCallIndex + d.links <= |cfg.children|
    ensures var d := EntryDelta(cfg, e, id, log.nextCallId, log.contractCallIndex);
            var r := ExecuteAt(cfg, log, id, e);
            r.Ok? && OpenIn(cfg, r.value, id) && Applied(log, r.value, id, d)
  {
    hide HandleSysCall, AddStatements, EntryDelta;
    Invariants.AddStatementsAdds(cfg, log, id, e.fp, e.statements);
    var located := if cfg.debugMode then AddStatements(cfg, log, id, e.fp, e.statements) else log;
    SysCallApplies(cfg, located, id, e);
  }

  lemma {:induction false} DenoteBodyApplies(cfg: Config, log: Log, id: nat, level: int, body: Body, fp: nat)
    requires OpenIn(cfg, log, id) && WellFormedBody(body, fp)
    requires var d := BodyDelta(cfg, body, id, level, log.nextCallId, log.contractCallIndex);
             log.contractCallIndex + d.links <= |cfg.children| && AllReadable(d.exits)
    ensures var d := BodyDelta(cfg, body, id, level, log.nextCallId, log.contractCallIndex);
            var r := DenoteBody(cfg, log, id, level, body);
            r.Ok? && OpenIn(cfg, r.value, id) && Applied(log, r.value, id, d)
    decreases body, 2
  {
    hide Applied, OpenIn, AllReadable;
    match body {
      case Done => NothingApplied(cfg, log, id);
      case Plain(e, rest) => DenotePlainApplies(cfg, log, id, level, body, fp);
      case Call(callee, back, rest) => DenoteCallAndBackApplies(cfg, log, id, level, body, fp);
    }
  }

  lemma {:induction false} DenotePlainApplies(cfg: Config, log: Log, id: nat, level: int, body: Body, fp: nat)
    requires OpenIn(cfg, log, id) && WellFormedBody(body, fp) && body.Plain?
    requires var d := BodyDelta(cfg, body, id, level, log.nextCallId, log.contractCallIndex);
             log.contractCallIndex + d.links <= |cfg.children| && AllReadable(d.exits)
    ensures var d := BodyDelta(cfg, body, id, level, log.nextCallId, log.contractCallIndex);
            var r := DenoteBody(cfg, log, id, level, body);
            r.Ok? && OpenIn(cfg, r.value, id) && Applied(log, r.value, id, d)
    decreases body, 1
  {
    hide ExecuteAt, EntryDelta, Applied, OpenIn, AllReadable, BodyDelta, DenoteBody;
    BodyUnfolds(cfg, body, id, level, log.nextCallId, log.contractCallIndex);
    DenoteBodyUnfolds(cfg, log, id, level, body);
    var e, rest := body.entry, body.rest;
    var d := EntryDelta(cfg, e, id, log.nextCallId, log.contractCallIndex);
    ReadableParts(d, BodyDelta(cfg, rest, id, level, log.nextCallId + d.ids, log.contractCallIndex + d.links));
    ExecuteAtApplies(cfg, log, id, e);
    var mid := ExecuteAt(cfg, log, id, e).value;
    AppliedCounters(cfg, log, mid, id, d);
    DenoteBodyApplies(cfg, mid, id, level, rest, fp);
    AppliedTwice(cfg, log, mid, DenoteBody(cfg, mid, id, level, rest).value, id,
      d, BodyDelta(cfg, rest, id, level, mid.nextCallId, mid.contractCallIndex));
  }

  lemma {:induction false} DenoteCallAndBackApplies(cfg: Config, log: Log, id: nat, level: int, body: Body, fp: nat)
    requires OpenIn(cfg, log, id) && WellFormedBody(body, fp) && body.Call?
    requires var d := BodyDelta(cfg, body, id, level, log.nextCallId, log.contractCallIndex);
             log.contractCallIndex + d.links <= |cfg.children| && AllReadable(d.exits)
    ensures var d := BodyDelta(cfg, body, id, level, log.nextCallId, log.contractCallIndex);
            var r := DenoteBody(cfg, log, id, level, body);
            r.Ok? && OpenIn(cfg, r.value, id) && Applied(log, r.value, id, d)
    decreases body, 1
  {
    hide ExecuteAt, DenoteCall, DenoteBody, ReturnDelta, BodyDelta, Applied, OpenIn, AllReadable;
    BodyUnfolds(cfg, body, id, level, log.nextCallId, log.contractCallIndex);
    DenoteCallUnfolds(cfg, log, id, level, body);
    var callee, back, rest := body.callee, body.back, body.rest;
    var d := ReturnDelta(cfg, callee, back, id, level, log.nextCallId, log.contractCallIndex);
    ReadableParts(d, BodyDelta(cfg, rest, id, level, log.nextCallId + d.ids, log.contractCallIndex + d.links));
    var mid := DenoteReturnApplies(cfg, log, id, level, callee, back, fp);
    AppliedCounters(cfg, log, mid, id, d);
    DenoteBodyApplies(cfg, mid, id, level, rest, fp);
    AppliedTwice(cfg, log, mid, DenoteBody(cfg, mid, id, level, rest).value, id,
      d, BodyDelta(cfg, rest, id, level, mid.nextCallId, mid.contractCallIndex));
  }

  /** A callee, and the caller's entry after it. */
  lemma {:induction false} DenoteReturnApplies(
    cfg: Config, log: Log, id: nat, level: int, callee: Node, back: Entry, fp: nat)
    returns (mid: Log)
    requires OpenIn(cfg, log, id) && Enters(callee, fp) && WellFormed(callee)
    requires var d := ReturnDelta(cfg, callee, back, id, level, log.nextCallId, log.contractCallIndex);
             log.contractCallIndex + d.links <= |cfg.children| && AllReadable(d.exits)
    ensures DenoteCall(cfg, log, id, level, callee).Ok?
    ensures ExecuteAt(cfg, DenoteCall(cfg, log, id, level, callee).value, id, back) == Ok(mid)
    ensures OpenIn(cfg, mid, id)
    ensures Applied(log, mid, id, ReturnDelta(cfg, callee, back, id, level, log.nextCallId, log.contractCallIndex))
    decreases callee, 2
  {
    hide ExecuteAt, DenoteCall, EntryDelta, CalleeDelta, Applied, OpenIn, AllReadable;
    var c := CalleeDelta(cfg, callee, id, level, log.nextCallId, log.contractCallIndex);
    ReadableParts(c, EntryDelta(cfg, back, id, log.nextCallId + c.ids, log.contractCallIndex + c.links));
    DenoteCallApplies(cfg, log, id, level, callee, fp);
    var called := DenoteCall(cfg, log, id, level, callee).value;
    AppliedCounters(cfg, log, called, id, c);
    ExecuteAtApplies(cfg, called, id, back);
    mid := ExecuteAt(cfg, called, id, back).value;
    AppliedTwice(cfg, log, called, mid, id, c, EntryDelta(cfg, back, id, called.nextCallId, called.contractCallIndex));
  }

  lemma ReadableParts(d: Delta, e: Delta)
    requires AllReadable(d.Plus(e).exits)
    ensures AllReadable(d.exits) && AllReadable(e.exits)
  {
    assert forall x :: x in d.exits ==> x in d.Plus(e).exits;
    assert forall x :: x in e.exits ==> x in d.Plus(e).exits;
  }

  lemma NothingApplied(cfg: Config, log: Log, id: nat)
    requires OpenIn(cfg, log, id)
    ensures Applied(log, log, id, NOTHING)
  {
    assert log.calls == log.calls + map[];
    assert log.events == log.events + map[];
    assert Extended(log.calls[id], NOTHING) == log.calls[id];
  }

  lemma AppliedCounters(cfg: Config, log: Log, after: Log, id: nat, d: Delta)
    requires OpenIn(cfg, log, id) && Applied(log, after, id, d)
    ensures after.nextCallId == log.nextCallId + d.ids && after.contractCallIndex == log.contractCallIndex + d.links
  {
  }

  lemma {:induction false} DenoteNodeApplies(cfg: Config, log: Log, id: nat, level: int, node: Node)
    requires OpenIn(cfg, log, id) && WellFormed(node) && log.nextCallId == id + 1
    requires var d := NodeDelta(cfg, node, id, level, log.contractCallIndex);
             log.contractCallIndex + d.links <= |cfg.children| && AllReadable(d.exits)
    ensures var d := NodeDelta(cfg, node, id, level, log.contractCallIndex);
            var r := DenoteNode(cfg, log, id, level, node);
            r.Ok? && OpenIn(cfg, r.value, id) && Applied(log, r.value, id, d)
    decreases node, 0
  {
    hide ExecuteAt, DenoteBody, EntryDelta, BodyDelta, Applied, OpenIn, AllReadable;
    var d := EntryDelta(cfg, node.first, id, id + 1, log.contractCallIndex);
    ReadableParts(d, BodyDelta(cfg, node.body, id, level, id + 1 + d.ids, log.contractCallIndex + d.links));
    ExecuteAtApplies(cfg, log, id, node.first);
    var mid := ExecuteAt(cfg, log, id, node.first).value;
    AppliedCounters(cfg, log, mid, id, d);
    DenoteBodyApplies(cfg, mid, id, level, node.body, node.first.fp);
    AppliedTwice(cfg, log, mid, DenoteBody(cfg, mid, id, level, node.body).value, id,
      d, BodyDelta(cfg, node.body, id, level, mid.nextCallId, mid.contractCallIndex));
  }

  lemma OpenCallOpens(cfg: Config, log: Log, id: nat, callee: Node)
    requires OpenIn(cfg, log, id) && callee.first.fn.Some?
    ensures var begun := OpenCall(cfg, log, id, callee.first.fn.value, callee.first.fp);
            begun.Ok? && OpenIn(cfg, begun.value, log.nextCallId) && begun.value.nextCallId == log.nextCallId + 1
            && begun.value.contractCallIndex == log.contractCallIndex
  {
  }

  lemma OpenCallEffect(cfg: Config, log: Log, id: nat, f: Function, fp: nat, begun: Log)
    requires OpenIn(cfg, log, id) && OpenCall(cfg, log, id, f, fp) == Ok(begun)
    ensures var child := log.nextCallId;
            begun.calls == log.calls[child := NewCall(cfg, child, id, f, fp)]
                             [id := log.calls[id].(childrenCallIds := log.calls[id].childrenCallIds + [child])]
    ensures begun.nextCallId == log.nextCallId + 1 && begun.events == log.events
            && begun.contractCallIndex == log.contractCallIndex
            && begun.panicLevel == log.panicLevel && begun.panicCallId == log.panicCallId
  {
    hide NewCall;
  }

  lemma CloseCallEffect(log: Log, id: nat, level: int, results: seq<FnIO>)
    requires id in log.calls && Readable(results)
    ensures var r := CloseCall(log, id, level, results);
            && r.Ok? && r.value.calls == log.calls[id := log.calls[id].(results := results)]
            && r.value.events == log.events && r.value.nextCallId == log.nextCallId
            && r.value.contractCallIndex == log.contractCallIndex
            && (r.value.panicLevel, r.value.panicCallId)
               == Report(log.panicLevel, log.panicCallId, Exit(id, level, results))
  {
    ReadableReports(results);
    hide ReportsPanic;
  }

  lemma CloseMaps<V>(base: map<nat, V>, added: map<nat, V>, child: nat, id: nat, start: V, listed: V, ran: V, done: V)
    requires id != child && id !in added
    ensures (base[child := start][id := listed] + added)[child := ran][child := done]
            == (base + added[child := done])[id := listed]
  {
  }

  lemma NewCallCompletes(cfg: Config, callee: Node, child: nat, id: nat, d: Delta, start: FunctionCall)
    requires callee.first.fn.Some? && start == NewCall(cfg, child, id, callee.first.fn.value, callee.first.fp)
    ensures Extended(start, d).(results := LastOf(callee).results) == CalleeCall(cfg, callee, child, id, d)
  {
    hide LastOf;
    assert [] + d.kids == d.kids && [] + d.eventIds == d.eventIds;
  }

  lemma CloseCallCalls(cfg: Config, log: Log, begun: Log, ran: Log, id: nat, callee: Node, d: Delta)
    requires OpenIn(cfg, log, id) && callee.first.fn.Some?
    requires OpenCall(cfg, log, id, callee.first.fn.value, callee.first.fp) == Ok(begun)
    requires log.nextCallId in begun.calls && Applied(begun, ran, log.nextCallId, d) && log.nextCallId in ran.calls
    ensures var child := log.nextCallId;
            var done := CalleeCall(cfg, callee, child, id, d);
            && ran.calls[child].(results := LastOf(callee).results) == done
            && ran.calls[child := done]
               == (log.calls + d.calls[child := done])[id :=
                   log.calls[id].(childrenCallIds := log.calls[id].childrenCallIds + [child])]
  {
    hide OpenCall, LastOf, NewCall;
    var child, done := log.nextCallId, CalleeCall(cfg, callee, log.nextCallId, id, d);
    var start := NewCall(cfg, child, id, callee.first.fn.value, callee.first.fp);
    var listed := log.calls[id].(childrenCallIds := log.calls[id].childrenCallIds + [child]);
    OpenCallEffect(cfg, log, id, callee.first.fn.value, callee.first.fp, begun);
    NewCallCompletes(cfg, callee, child, id, d, start);
    CloseMaps(log.calls, d.calls, child, id, start, listed, Extended(start, d), done);
  }

  lemma ReportOne(level: int, id: Option<nat>, x: Exit)
    ensures ReportAll(level, id, [x]) == Report(level, id, x)
  {
    hide Report;
    assert [x][1..] == [] && forall l: int, i: Option<nat> :: ReportAll(l, i, []) == (l, i);
  }

  lemma ListedOnce(call: FunctionCall, child: nat, c: Delta)
    requires c.kids == [child] && c.eventIds == []
    ensures Extended(call, c) == call.(childrenCallIds := call.childrenCallIds + [child])
  {
    assert call.eventCallIds + [] == call.eventCallIds;
  }

  /** The caller goes on after its callee. */
  lemma ClosedIsOpen(
    cfg: Config, log: Log, ran: Log, closed: Log, id: nat, added: map<nat, FunctionCall>, listed: FunctionCall)
    requires OpenIn(cfg, log, id) && Fresh(ran) && closed.nextCallId == ran.nextCallId
    requires closed.calls.Keys == ran.calls.Keys && closed.calls == (log.calls + added)[id := listed]
    requires listed.callId == id && listed.contractCallId == cfg.contractCallId
    ensures OpenIn(cfg, closed, id)
  {
    forall c | c in closed.calls ensures c < closed.nextCallId {
      assert c in ran.calls;
    }
  }

  lemma CloseCallApplies(cfg: Config, log: Log, begun: Log, ran: Log, id: nat, level: int, callee: Node, d: Delta)
    requires OpenIn(cfg, log, id) && callee.first.fn.Some?
    requires OpenCall(cfg, log, id, callee.first.fn.value, callee.first.fp) == Ok(begun)
    requires log.nextCallId in begun.calls && Applied(begun, ran, log.nextCallId, d) && OpenIn(cfg, ran, log.nextCallId)
    requires Readable(LastOf(callee).results)
    ensures var child := log.nextCallId;
            var closed := CloseCall(ran, child, level + 1, LastOf(callee).results);
            var c := Delta([child], [], d.calls[child := CalleeCall(cfg, callee, child, id, d)], d.events,
                           d.exits + [Exit(child, level + 1, LastOf(callee).results)], 1 + d.ids, d.links);
            closed.Ok? && OpenIn(cfg, closed.value, id) && Applied(log, closed.value, id, c)
  {
    hide CalleeCall, LastOf, OpenCall, CloseCall, Report, ReportAll, Readable, Extended;
    var child, results := log.nextCallId, LastOf(callee).results;
    OpenCallEffect(cfg, log, id, callee.first.fn.value, callee.first.fp, begun);
    CloseCallEffect(ran, child, level + 1, results);
    CloseCallCalls(cfg, log, begun, ran, id, callee, d);
    ReportAllAppends(log.panicLevel, log.panicCallId, d.exits, [Exit(child, level + 1, results)]);
    ReportOne(ran.panicLevel, ran.panicCallId, Exit(child, level + 1, results));
    ListedOnce(log.calls[id], child,
               Delta([child], [], d.calls[child := CalleeCall(cfg, callee, child, id, d)], d.events,
                     d.exits + [Exit(child, level + 1, results)], 1 + d.ids, d.links));
    ClosedIsOpen(cfg, log, ran, CloseCall(ran, child, level + 1, results).value, id,
                 d.calls[child := CalleeCall(cfg, callee, child, id, d)],
                 log.calls[id].(childrenCallIds := log.calls[id].childrenCallIds + [child]));
  }

  lemma ReadableExits(exits: seq<Exit>, last: Exit)
    requires AllReadable(exits + [last])
    ensures AllReadable(exits) && Readable(last.results)
  {
    hide Readable;
    var all := exits + [last];
    assert all[|exits|] == last && last in all && forall x :: x in exits ==> x in all;
  }

  lemma IsOpen(cfg: Config, log: Log, id: nat)
    requires OpenIn(cfg, log, id)
    ensures id in log.calls
  {
  }

  lemma {:induction false} DenoteCallApplies(cfg: Config, log: Log, id: nat, level: int, callee: Node, fp: nat)
    requires OpenIn(cfg, log, id) && Enters(callee, fp) && WellFormed(callee)
    requires var d := CalleeDelta(cfg, callee, id, level, log.nextCallId, log.contractCallIndex);
             log.contractCallIndex + d.links <= |cfg.children| && AllReadable(d.exits)
    ensures var d := CalleeDelta(cfg, callee, id, level, log.nextCallId, log.contractCallIndex);
            var r := DenoteCall(cfg, log, id, level, callee);
            r.Ok? && OpenIn(cfg, r.value, id) && Applied(log, r.value, id, d)
    decreases callee, 1
  {
    hide OpenCall, CloseCall, NodeDelta, CalleeDelta, DenoteNode, Applied, OpenIn, LastOf, CalleeCall, ReportAll;
    var child := log.nextCallId;
    var d := NodeDelta(cfg, callee, child, level + 1, log.contractCallIndex);
    CalleeUnfolds(cfg, callee, id, level, child, log.contractCallIndex);
    ReadableExits(d.exits, Exit(child, level + 1, LastOf(callee).results));
    OpenCallOpens(cfg, log, id, callee);
    var begun := OpenCall(cfg, log, id, callee.first.fn.value, callee.first.fp).value;
    IsOpen(cfg, begun, child);
    DenoteNodeApplies(cfg, begun, child, level + 1, callee);
    CloseCallApplies(cfg, log, begun, DenoteNode(cfg, begun, child, level + 1, callee).value, id, level, callee, d);
  }

  // ---------------------------------------------------------------- main results

  /** The id that the builder reports: a returned call's, and the root's only if none panicked. */
  function Reported(exits: seq<Exit>, root: nat, rootResults: seq<FnIO>): Option<nat> {
    var deepest := ReportAll(-1, None, exits).1;
    if deepest.None? && ReportsPanic(rootResults) == Ok(true) then Some(root) else deepest
  }

  lemma RunTree(cfg: Config, s: State, tree: Node)
    requires StandsIn(s, tree.first) && WellFormed(tree)
    ensures Run(cfg, s, tree.first, Flatten(tree))
            == match DenoteNode(cfg, s.log, s.current, s.nesting, tree)
               case Err(a) => Err(a)
               case Ok(log) => Ok(s.(log := log))
  {
    hide Run, ExecuteAt, DenoteNode, FlattenBody;
    StepInPlace(cfg, s, tree.first, tree.first, FlattenBody(tree.body));
    RunNode(cfg, s, tree, []);
    assert FlattenBody(tree.body) + [] == FlattenBody(tree.body);
    RunNothing(cfg, LastOf(tree));
  }

  lemma RunNothing(cfg: Config, prev: Entry)
    ensures forall s: State :: Run(cfg, s, prev, []) == Ok(s)
  {
  }

  /**
   From the flat trace of a call tree the builder ends in the root, at depth zero, with exactly the tree's
   calls and events beside the earlier ones, and with the tree's deepest panic.
   */
  lemma BuildRebuildsTree(
    cfg: Config, calls: map<nat, FunctionCall>, events: map<nat, EventCall>, root: nat, tree: Node)
    requires root > 0 && (forall id :: id in calls ==> id < root) && WellFormed(tree)
    requires var d := NodeDelta(cfg, tree, root, 0, 0); d.links <= |cfg.children| && AllReadable(d.exits)
    requires Readable(LastOf(tree).results)
    ensures var d := NodeDelta(cfg, tree, root, 0, 0);
            var r := Build(cfg, calls, events, root, Flatten(tree));
            && r.Ok? && r.value.current == root && r.value.nesting == 0
            && r.value.log.calls == (calls + d.calls)[root := Extended(RootCall(cfg, root, tree.first), d)]
            && r.value.log.events == events + d.events
            && r.value.log.nextCallId == root + 1 + d.ids
            && r.value.log.contractCallIndex == d.links
            && r.value.log.panicCallId == Reported(d.exits, root, LastOf(tree).results)
  {
    var start := Start(cfg, calls, events, root, tree.first);
    var d := NodeDelta(cfg, tree, root, 0, 0);
    RunTree(cfg, start, tree);
    DenoteNodeApplies(cfg, start.log, root, 0, tree);
    LastIsLast(tree.first, tree.body);
    NodeExitsInside(cfg, tree, root, 0, 0);
    var log := DenoteNode(cfg, start.log, root, 0, tree).value;
    hide Run, DenoteNode, NodeDelta, LastOf;
    RootApplied(cfg, calls, events, root, tree.first, d, log);
    CheckRootReports(log, d.exits, root, LastOf(tree).results);
  }

  lemma RootApplied(
    cfg: Config, calls: map<nat, FunctionCall>, events: map<nat, EventCall>, root: nat, first: Entry, d: Delta,
    log: Log)
    requires var start := Start(cfg, calls, events, root, first).log; Applied(start, log, root, d)
    requires ExitsInside(d, 0)
    ensures log.calls == (calls + d.calls)[root := Extended(RootCall(cfg, root, first), d)]
    ensures log.events == events + d.events && log.nextCallId == root + 1 + d.ids && log.contractCallIndex == d.links
    ensures (log.panicLevel, log.panicCallId) == ReportAll(-1, None, d.exits)
    ensures forall x :: x in d.exits ==> x.id in log.calls
    ensures root in log.calls
  {
    hide Extended, RootCall, ReportAll;
    RootMaps(calls, d.calls, root, RootCall(cfg, root, first), Extended(RootCall(cfg, root, first), d));
  }

  lemma CheckRootReports(log: Log, exits: seq<Exit>, root: nat, results: seq<FnIO>)
    requires log.panicCallId == ReportAll(-1, None, exits).1
    requires (forall x :: x in exits ==> x.id in log.calls) && root in log.calls && Readable(results)
    ensures CheckRoot(log, root, results) == Ok(log.(panicCallId := Reported(exits, root, results)))
  {
    ReadableReports(results);
    ReportedReturned(-1, None, exits);
  }

  lemma RootMaps<V>(a: map<nat, V>, b: map<nat, V>, id: nat, x: V, y: V)
    ensures (a[id := x] + b)[id := y] == (a + b)[id := y]
  {
  }

  lemma {:induction false} ReportedReturned(level: int, id: Option<nat>, exits: seq<Exit>)
    ensures var r := ReportAll(level, id, exits).1;
            r == id || exists x :: x in exits && r == Some(x.id)
    decreases |exits|
  {
    if exits != [] {
      var (l, i) := Report(level, id, exits[0]);
      ReportedReturned(l, i, exits[1..]);
      assert exits[0] in exits;
    }
  }

  /** Every call that returned is one of the new calls, and deeper than `level`. */
  ghost predicate ExitsInside(d: Delta, level: int) {
    forall x :: x in d.exits ==> x.id in d.calls && x.level > level
  }

  lemma InsidePlus(d: Delta, e: Delta, level: int)
    requires ExitsInside(d, level) && ExitsInside(e, level)
    ensures ExitsInside(d.Plus(e), level)
  {
  }

  lemma EntryExitsInside(cfg: Config, e: Entry, id: nat, level: int, next: nat, k: nat)
    ensures ExitsInside(EntryDelta(cfg, e, id, next, k), level)
  {
  }

  lemma NothingInside(level: int)
    ensures ExitsInside(NOTHING, level)
  {
  }

  lemma {:induction false} BodyExitsInside(cfg: Config, body: Body, id: nat, level: int, next: nat, k: nat)
    ensures ExitsInside(BodyDelta(cfg, body, id, level, next, k), level)
    decreases body, 2
  {
    hide ExitsInside, EntryDelta, ReturnDelta, BodyDelta, Delta.Plus;
    NothingInside(level);
    BodyUnfolds(cfg, body, id, level, next, k);
    match body {
      case Done =>
      case Plain(e, rest) =>
        var d := EntryDelta(cfg, e, id, next, k);
        EntryExitsInside(cfg, e, id, level, next, k);
        BodyExitsInside(cfg, rest, id, level, next + d.ids, k + d.links);
        InsidePlus(d, BodyDelta(cfg, rest, id, level, next + d.ids, k + d.links), level);
      case Call(callee, back, rest) =>
        var d := ReturnDelta(cfg, callee, back, id, level, next, k);
        ReturnExitsInside(cfg, callee, back, id, level, next, k);
        BodyExitsInside(cfg, rest, id, level, next + d.ids, k + d.links);
        InsidePlus(d, BodyDelta(cfg, rest, id, level, next + d.ids, k + d.links), level);
    }
  }

  lemma {:induction false} ReturnExitsInside(
    cfg: Config, callee: Node, back: Entry, id: nat, level: int, next: nat, k: nat)
    ensures ExitsInside(ReturnDelta(cfg, callee, back, id, level, next, k), level)
    decreases callee, 2
  {
    hide ExitsInside, EntryDelta, CalleeDelta, Delta.Plus;
    var c := CalleeDelta(cfg, callee, id, level, next, k);
    CalleeExitsInside(cfg, callee, id, level, next, k);
    EntryExitsInside(cfg, back, id, level, next + c.ids, k + c.links);
    InsidePlus(c, EntryDelta(cfg, back, id, next + c.ids, k + c.links), level);
  }

  lemma {:induction false} CalleeExitsInside(cfg: Config, callee: Node, parent: nat, level: int, next: nat, k: nat)
    ensures ExitsInside(CalleeDelta(cfg, callee, parent, level, next, k), level)
    decreases callee, 1
  {
    NodeExitsInside(cfg, callee, next, level + 1, k);
    hide NodeDelta, CalleeCall;
  }

  lemma {:induction false} NodeExitsInside(cfg: Config, node: Node, id: nat, level: int, k: nat)
    ensures ExitsInside(NodeDelta(cfg, node, id, level, k), level)
    decreases node, 0
  {
    hide ExitsInside, EntryDelta, BodyDelta;
    var d := EntryDelta(cfg, node.first, id, id + 1, k);
    EntryExitsInside(cfg, node.first, id, level, id + 1, k);
    BodyExitsInside(cfg, node.body, id, level, id + 1 + d.ids, k + d.links);
    InsidePlus(d, BodyDelta(cfg, node.body, id, level, id + 1 + d.ids, k + d.links), level);
  }

  /** The reported call is the first of the returned calls that panicked at the greatest depth. */
  lemma {:induction false} DeepestPanicIsReported(exits: seq<Exit>)
    requires forall x :: x in exits ==> x.level >= 0
    ensures var (level, id) := ReportAll(-1, None, exits);
            && (id.None? <==> forall x :: x in exits ==> !x.Panicked())
            && (id.None? ==> level == -1)
            && (id.Some? ==> exists j ::
                  0 <= j < |exits| && IsDeepest(exits, j) && exits[j].id == id.value && exits[j].level == level)
    decreases |exits|
  {
    if exits != [] {
      var front, last := exits[..|exits| - 1], exits[|exits| - 1];
      assert exits == front + [last];
      DeepestPanicIsReported(front);
      ReportAllAppends(-1, None, front, [last]);
      var (level, id) := ReportAll(-1, None, front);
      ReportOne(level, id, last);
      hide ReportAll, Exit.Panicked;
      if id.Some? {
        var j :| 0 <= j < |front| && IsDeepest(front, j) && front[j].id == id.value && front[j].level == level;
        DeepestOfTwo(front, last, j);
      } else {
        FirstPanic(front, last);
      }
    }
  }

  lemma DeepestOfTwo(front: seq<Exit>, last: Exit, j: nat)
    requires j < |front| && IsDeepest(front, j)
    ensures var exits := front + [last];
            && !(forall x :: x in exits ==> !x.Panicked())
            && if last.level > front[j].level && last.Panicked() then IsDeepest(exits, |front|) else IsDeepest(exits, j)
  {
    hide Exit.Panicked;
    var exits := front + [last];
    assert exits[j] in exits;
    assert forall i :: 0 <= i < |front| ==> exits[i] == front[i];
  }

  lemma FirstPanic(front: seq<Exit>, last: Exit)
    requires forall x :: x in front ==> !x.Panicked()
    ensures var exits := front + [last];
            && last in exits && (last.Panicked() ==> IsDeepest(exits, |front|))
            && (!last.Panicked() ==> forall x :: x in exits ==> !x.Panicked())
  {
    hide Exit.Panicked;
    assert forall i :: 0 <= i < |front| ==> (front + [last])[i] in front;
  }

  ghost predicate IsDeepest(exits: seq<Exit>, j: nat)
    requires j < |exits|
  {
    && exits[j].Panicked()
    && forall i :: 0 <= i < |exits| && exits[i].Panicked() ==>
       exits[i].level <= exits[j].level && (i < j ==> exits[i].level < exits[j].level)
  }

  /** A subtree's calls and events take up exactly one interval of ids, and no id is used for both. */
  ghost predicate Contiguous(d: Delta, first: nat, end: nat) {
    && (forall x: nat :: (x in d.calls || x in d.events) <==> first <= x < end)
    && (forall x: nat :: !(x in d.calls && x in d.events))
  }

  lemma ContiguousPlus(d: Delta, e: Delta, first: nat)
    requires Contiguous(d, first, first + d.ids) && Contiguous(e, first + d.ids, first + d.ids + e.ids)
    ensures Contiguous(d.Plus(e), first, first + d.Plus(e).ids)
  {
  }

  lemma EntryIdsAreContiguous(cfg: Config, e: Entry, id: nat, next: nat, k: nat)
    ensures var d := EntryDelta(cfg, e, id, next, k); Contiguous(d, next, next + d.ids)
  {
  }

  lemma NothingContiguous(first: nat)
    ensures Contiguous(NOTHING, first, first)
  {
  }

  lemma {:induction false} BodyIdsAreContiguous(cfg: Config, body: Body, id: nat, level: int, next: nat, k: nat)
    ensures var d := BodyDelta(cfg, body, id, level, next, k); Contiguous(d, next, next + d.ids)
    decreases body, 2
  {
    hide Contiguous, EntryDelta, ReturnDelta, BodyDelta, Delta.Plus;
    NothingContiguous(next);
    BodyUnfolds(cfg, body, id, level, next, k);
    match body {
      case Done =>
      case Plain(e, rest) =>
        EntryIdsAreContiguous(cfg, e, id, next, k);
        var d := EntryDelta(cfg, e, id, next, k);
        BodyIdsAreContiguous(cfg, rest, id, level, next + d.ids, k + d.links);
        ContiguousPlus(d, BodyDelta(cfg, rest, id, level, next + d.ids, k + d.links), next);
      case Call(callee, back, rest) =>
        ReturnIdsAreContiguous(cfg, callee, back, id, level, next, k);
        var d := ReturnDelta(cfg, callee, back, id, level, next, k);
        BodyIdsAreContiguous(cfg, rest, id, level, next + d.ids, k + d.links);
        ContiguousPlus(d, BodyDelta(cfg, rest, id, level, next + d.ids, k + d.links), next);
    }
  }

  lemma {:induction false} ReturnIdsAreContiguous(
    cfg: Config, callee: Node, back: Entry, id: nat, level: int, next: nat, k: nat)
    ensures var d := ReturnDelta(cfg, callee, back, id, level, next, k); Contiguous(d, next, next + d.ids)
    decreases callee, 2
  {
    hide Contiguous, EntryDelta, CalleeDelta;
    var c := CalleeDelta(cfg, callee, id, level, next, k);
    CalleeIdsAreContiguous(cfg, callee, id, level, next, k);
    EntryIdsAreContiguous(cfg, back, id, next + c.ids, k + c.links);
    ContiguousPlus(c, EntryDelta(cfg, back, id, next + c.ids, k + c.links), next);
  }

  lemma AddedCallIsContiguous(d: Delta, c: Delta, next: nat, call: FunctionCall)
    requires Contiguous(d, next + 1, next + 1 + d.ids)
    requires c.calls == d.calls[next := call] && c.events == d.events && c.ids == 1 + d.ids
    ensures Contiguous(c, next, next + c.ids)
  {
  }

  lemma {:induction false} CalleeIdsAreContiguous(cfg: Config, callee: Node, parent: nat, level: int, next: nat, k: nat)
    ensures var d := CalleeDelta(cfg, callee, parent, level, next, k); Contiguous(d, next, next + d.ids)
    decreases callee, 1
  {
    NodeIdsAreContiguous(cfg, callee, next, level + 1, k);
    hide NodeDelta, CalleeCall, Contiguous;
    var d := NodeDelta(cfg, callee, next, level + 1, k);
    AddedCallIsContiguous(d, CalleeDelta(cfg, callee, parent, level, next, k), next,
                          CalleeCall(cfg, callee, next, parent, d));
  }

  /** Call `id`'s callees and events, at any depth, take up exactly the interval that follows `id`. */
  lemma {:induction false} NodeIdsAreContiguous(cfg: Config, node: Node, id: nat, level: int, k: nat)
    ensures var d := NodeDelta(cfg, node, id, level, k); Contiguous(d, id + 1, id + 1 + d.ids)
    decreases node, 0
  {
    hide Contiguous, EntryDelta, BodyDelta;
    var d := EntryDelta(cfg, node.first, id, id + 1, k);
    EntryIdsAreContiguous(cfg, node.first, id, id + 1, k);
    BodyIdsAreContiguous(cfg, node.body, id, level, id + 1 + d.ids, k + d.links);
    ContiguousPlus(d, BodyDelta(cfg, node.body, id, level, id + 1 + d.ids, k + d.links), id + 1);
  }
}
