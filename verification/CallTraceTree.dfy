/**
 The call trace builder against call trees. A tree is flattened into the trace that executing it leaves;
 the builder, which sees only the flat trace, behaves as a recursion over the tree does.
 */
module CallTraceTree {
  import opened Wrappers
  import opened CallTrace
  import Invariants = CallTraceInvariants

  /** A call: its first entry, whose frame pointer is the call's, and what it does after that. */
  datatype Node = Node(first: Entry, body: Body)
  /** `back` is the caller's entry after the callee has returned. */
  datatype Body = Done | Plain(entry: Entry, rest: Body) | Call(callee: Node, back: Entry, rest: Body)

  function Flatten(node: Node): (trace: seq<Entry>)
    ensures trace != [] && trace[0] == node.first
  {
    [node.first] + FlattenBody(node.body)
  }

  function FlattenBody(body: Body): seq<Entry> {
    match body
    case Done => []
    case Plain(e, rest) => [e] + FlattenBody(rest)
    case Call(callee, back, rest) => Flatten(callee) + ([back] + FlattenBody(rest))
  }

  /** Every rise of the frame pointer enters a named function that is no loop; every drop returns to the caller's. */
  ghost predicate WellFormed(node: Node) {
    WellFormedBody(node.body, node.first.fp)
  }

  ghost predicate WellFormedBody(body: Body, fp: nat) {
    match body
    case Done => true
    case Plain(e, rest) => e.fp == fp && WellFormedBody(rest, fp)
    case Call(callee, back, rest) =>
      Enters(callee, fp) && WellFormed(callee) && back.fp == fp && WellFormedBody(rest, fp)
  }

  ghost predicate Enters(callee: Node, fp: nat) {
    callee.first.fp > fp && callee.first.fn.Some? && !callee.first.fn.value.isLoop
  }

  /** The entry executed last. */
  function LastOf(node: Node): Entry { LastOfBody(node.first, node.body) }

  function LastOfBody(before: Entry, body: Body): Entry
    decreases body
  {
    match body
    case Done => before
    case Plain(e, rest) => LastOfBody(e, rest)
    case Call(_, back, rest) => LastOfBody(back, rest)
  }

  lemma {:induction false} LastIsLast(before: Entry, body: Body)
    ensures var trace := [before] + FlattenBody(body); trace[|trace| - 1] == LastOfBody(before, body)
    ensures WellFormedBody(body, before.fp) ==> LastOfBody(before, body).fp == before.fp
    decreases body
  {
    match body {
      case Done =>
      case Plain(e, rest) => LastIsLast(e, rest);
      case Call(_, back, rest) =>
        LastIsLast(back, rest);
        var tail := [back] + FlattenBody(rest);
        assert FlattenBody(body)[|FlattenBody(body)| - 1] == tail[|tail| - 1];
    }
  }

  // ---------------------------------------------------------------- the meaning of a tree

  function DenoteNode(cfg: Config, log: Log, id: nat, level: int, node: Node): Stepped<Log>
    decreases node, 0
  {
    var log :- ExecuteAt(cfg, log, id, node.first);
    DenoteBody(cfg, log, id, level, node.body)
  }

  /** A callee of call `id`, from its opening to its closing. */
  function DenoteCall(cfg: Config, log: Log, id: nat, level: int, callee: Node): Stepped<Log>
    decreases callee, 1
  {
    if callee.first.fn.None? then Err(MissingCall)
    else
      var child := log.nextCallId;
      var log :- OpenCall(cfg, log, id, callee.first.fn.value, callee.first.fp);
      var log :- DenoteNode(cfg, log, child, level + 1, callee);
      CloseCall(log, child, level + 1, LastOf(callee).results)
  }

  function DenoteBody(cfg: Config, log: Log, id: nat, level: int, body: Body): Stepped<Log>
    decreases body, 2
  {
    match body
    case Done => Ok(log)
    case Plain(e, rest) =>
      var log :- ExecuteAt(cfg, log, id, e);
      DenoteBody(cfg, log, id, level, rest)
    case Call(callee, back, rest) =>
      var log :- DenoteCall(cfg, log, id, level, callee);
      var log :- ExecuteAt(cfg, log, id, back);
      DenoteBody(cfg, log, id, level, rest)
  }

  // ---------------------------------------------------------------- what a subtree leaves alone

  ghost predicate Fresh(log: Log) {
    forall id :: id in log.calls ==> id < log.nextCallId
  }

  /** Calls stay, with their parents and frame pointers. */
  ghost predicate Keeps(log: Log, after: Log) {
    && Fresh(after) && log.nextCallId <= after.nextCallId
    && forall id :: id in log.calls ==>
         id in after.calls && after.calls[id].parentCallId == log.calls[id].parentCallId
           && after.calls[id].fp == log.calls[id].fp
  }

  lemma SysCallKeeps(cfg: Config, log: Log, id: nat, sysCall: SysCall)
    requires Fresh(log) && id in log.calls
    ensures var r := HandleSysCall(cfg, log, id, sysCall); r.Ok? ==> Keeps(log, r.value)
  {
  }

  lemma ExecuteAtKeeps(cfg: Config, log: Log, id: nat, e: Entry)
    requires Fresh(log) && id in log.calls
    ensures var r := ExecuteAt(cfg, log, id, e); r.Ok? ==> Keeps(log, r.value)
  {
    hide AddStatements, HandleSysCall;
    Invariants.AddStatementsAdds(cfg, log, id, e.fp, e.statements);
    var located := if cfg.debugMode then AddStatements(cfg, log, id, e.fp, e.statements) else log;
    SysCallKeeps(cfg, located, id, e.sysCall);
  }

  lemma OpenCallKeeps(cfg: Config, log: Log, parent: nat, f: Function, fp: nat)
    requires Fresh(log) && parent in log.calls
    ensures var r := OpenCall(cfg, log, parent, f, fp);
            && r.Ok? && Keeps(log, r.value) && log.nextCallId in r.value.calls
            && r.value.calls[log.nextCallId].parentCallId == parent && r.value.calls[log.nextCallId].fp == fp
  {
  }

  lemma CloseCallKeeps(log: Log, id: nat, level: int, results: seq<FnIO>)
    requires Fresh(log) && id in log.calls
    ensures var r := CloseCall(log, id, level, results); r.Ok? ==> Keeps(log, r.value)
  {
  }

  lemma {:induction false} DenoteCallKeeps(cfg: Config, log: Log, id: nat, level: int, callee: Node)
    requires Fresh(log) && id in log.calls
    ensures var r := DenoteCall(cfg, log, id, level, callee); r.Ok? ==> Keeps(log, r.value)
    decreases callee
  {
    hide Fresh, OpenCall, CloseCall, ExecuteAt;
    if callee.first.fn.Some? {
      var child := log.nextCallId;
      OpenCallKeeps(cfg, log, id, callee.first.fn.value, callee.first.fp);
      var begun := OpenCall(cfg, log, id, callee.first.fn.value, callee.first.fp).value;
      ExecuteAtKeeps(cfg, begun, child, callee.first);
      var executed := ExecuteAt(cfg, begun, child, callee.first);
      if executed.Ok? {
        DenoteBodyKeeps(cfg, executed.value, child, level + 1, callee.body);
        var ran := DenoteBody(cfg, executed.value, child, level + 1, callee.body);
        if ran.Ok? { CloseCallKeeps(ran.value, child, level + 1, LastOf(callee).results); }
      }
    }
  }

  lemma {:induction false} DenoteBodyKeeps(cfg: Config, log: Log, id: nat, level: int, body: Body)
    requires Fresh(log) && id in log.calls
    ensures var r := DenoteBody(cfg, log, id, level, body); r.Ok? ==> Keeps(log, r.value)
    decreases body
  {
    hide Fresh, ExecuteAt, DenoteCall;
    match body {
      case Done =>
        assert Fresh(log);
      case Plain(e, rest) =>
        ExecuteAtKeeps(cfg, log, id, e);
        var executed := ExecuteAt(cfg, log, id, e);
        if executed.Ok? { DenoteBodyKeeps(cfg, executed.value, id, level, rest); }
      case Call(callee, back, rest) =>
        DenoteCallKeeps(cfg, log, id, level, callee);
        var called := DenoteCall(cfg, log, id, level, callee);
        if called.Ok? {
          ExecuteAtKeeps(cfg, called.value, id, back);
          var executed := ExecuteAt(cfg, called.value, id, back);
          if executed.Ok? { DenoteBodyKeeps(cfg, executed.value, id, level, rest); }
        }
    }
  }

  // ---------------------------------------------------------------- the builder follows the tree

  /** The builder stands in call `s.current`, whose frame pointer it saw last. */
  ghost predicate StandsIn(s: State, prev: Entry) {
    && Fresh(s.log) && s.current in s.log.calls && s.current > 0 && s.log.calls[s.current].fp == prev.fp
  }

  function Resume(cfg: Config, s: State, log: Stepped<Log>, prev: Entry, tail: seq<Entry>): Stepped<State> {
    match log
    case Err(a) => Err(a)
    case Ok(log) => Run(cfg, s.(log := log), prev, tail)
  }

  lemma StepInPlace(cfg: Config, s: State, prev: Entry, e: Entry, tail: seq<Entry>)
    requires StandsIn(s, prev) && e.fp == prev.fp
    ensures Run(cfg, s, prev, [e] + tail) == Resume(cfg, s, ExecuteAt(cfg, s.log, s.current, e), e, tail)
  {
    assert ([e] + tail)[1..] == tail;
  }

  lemma StepIn(cfg: Config, s: State, prev: Entry, callee: Node, tail: seq<Entry>)
    requires StandsIn(s, prev) && Enters(callee, prev.fp)
    ensures var begun := OpenCall(cfg, s.log, s.current, callee.first.fn.value, callee.first.fp);
            && begun.Ok?
            && var inside := s.(log := begun.value, current := s.log.nextCallId, nesting := s.nesting + 1);
               Run(cfg, s, prev, [callee.first] + tail)
               == Resume(cfg, inside, ExecuteAt(cfg, inside.log, inside.current, callee.first), callee.first, tail)
  {
    assert ([callee.first] + tail)[1..] == tail;
  }

  lemma StepOut(cfg: Config, s: State, last: Entry, back: Entry, tail: seq<Entry>)
    requires s.current in s.log.calls && back.fp < last.fp
    requires var parent := s.log.calls[s.current].parentCallId;
             parent > 0 && parent in s.log.calls && s.log.calls[parent].fp == back.fp
    ensures Run(cfg, s, last, [back] + tail)
            == match CloseCall(s.log, s.current, s.nesting, last.results)
               case Err(a) => Err(a)
               case Ok(log) =>
                 var outside := s.(log := log, current := s.log.calls[s.current].parentCallId,
                                   nesting := s.nesting - 1);
                 Resume(cfg, outside, ExecuteAt(cfg, log, outside.current, back), back, tail)
  {
    assert ([back] + tail)[1..] == tail;
  }

  lemma {:induction false} RunBody(cfg: Config, s: State, prev: Entry, body: Body, tail: seq<Entry>)
    requires StandsIn(s, prev) && WellFormedBody(body, prev.fp)
    ensures Run(cfg, s, prev, FlattenBody(body) + tail)
            == Resume(cfg, s, DenoteBody(cfg, s.log, s.current, s.nesting, body), LastOfBody(prev, body), tail)
    decreases body
  {
    hide ExecuteAt, Fresh, DenoteCall, Run;
    match body {
      case Done =>
        assert FlattenBody(body) + tail == tail;
      case Plain(e, rest) =>
        assert FlattenBody(body) + tail == [e] + (FlattenBody(rest) + tail);
        StepInPlace(cfg, s, prev, e, FlattenBody(rest) + tail);
        ExecuteAtKeeps(cfg, s.log, s.current, e);
        var executed := ExecuteAt(cfg, s.log, s.current, e);
        if executed.Ok? { RunBody(cfg, s.(log := executed.value), e, rest, tail); }
      case Call(callee, back, rest) =>
        assert FlattenBody(body) + tail == Flatten(callee) + ([back] + (FlattenBody(rest) + tail));
        RunCall(cfg, s, prev, callee, back, FlattenBody(rest) + tail);
        DenoteCallKeeps(cfg, s.log, s.current, s.nesting, callee);
        var called := DenoteCall(cfg, s.log, s.current, s.nesting, callee);
        if called.Ok? {
          ExecuteAtKeeps(cfg, called.value, s.current, back);
          var executed := ExecuteAt(cfg, called.value, s.current, back);
          if executed.Ok? { RunBody(cfg, s.(log := executed.value), back, rest, tail); }
        }
    }
  }

  lemma CurrentIsBelow(s: State, prev: Entry)
    requires StandsIn(s, prev)
    ensures s.current < s.log.nextCallId
  {
  }

  /** Entering, running and leaving a callee, and the caller's entry after it. */
  lemma {:induction false} RunCall(cfg: Config, s: State, prev: Entry, callee: Node, back: Entry, tail: seq<Entry>)
    requires StandsIn(s, prev) && Enters(callee, prev.fp) && WellFormed(callee) && back.fp == prev.fp
    ensures Run(cfg, s, prev, Flatten(callee) + ([back] + tail))
            == match DenoteCall(cfg, s.log, s.current, s.nesting, callee)
               case Err(a) => Err(a)
               case Ok(log) => Resume(cfg, s, ExecuteAt(cfg, log, s.current, back), back, tail)
    decreases callee, 1
  {
    hide OpenCall, ExecuteAt, CloseCall, Run, Fresh, DenoteNode, FlattenBody, LastOfBody, WellFormedBody;
    CurrentIsBelow(s, prev);
    var first, after := callee.first, [back] + tail;
    StepIn(cfg, s, prev, callee, FlattenBody(callee.body) + after);
    assert Flatten(callee) + after == [first] + (FlattenBody(callee.body) + after);
    OpenCallKeeps(cfg, s.log, s.current, first.fn.value, first.fp);
    var begun := OpenCall(cfg, s.log, s.current, first.fn.value, first.fp).value;
    var inside := s.(log := begun, current := s.log.nextCallId, nesting := s.nesting + 1);
    RunNode(cfg, inside, callee, after);
    var ran := DenoteNode(cfg, begun, inside.current, inside.nesting, callee);
    LastIsLast(first, callee.body);
    if ran.Ok? {
      StepOut(cfg, inside.(log := ran.value), LastOf(callee), back, tail);
    }
  }

  /** A call's entries, once its first entry has been entered, up to its last one. */
  lemma {:induction false} RunNode(cfg: Config, inside: State, node: Node, after: seq<Entry>)
    requires StandsIn(inside, node.first) && WellFormed(node)
    ensures var ran := DenoteNode(cfg, inside.log, inside.current, inside.nesting, node);
            && (ran.Ok? ==> Keeps(inside.log, ran.value))
            && Resume(cfg, inside, ExecuteAt(cfg, inside.log, inside.current, node.first), node.first,
                      FlattenBody(node.body) + after)
               == Resume(cfg, inside, ran, LastOf(node), after)
    decreases node, 0
  {
    hide ExecuteAt, Run, Fresh, DenoteBody, FlattenBody;
    ExecuteAtKeeps(cfg, inside.log, inside.current, node.first);
    var executed := ExecuteAt(cfg, inside.log, inside.current, node.first);
    if executed.Ok? {
      RunBody(cfg, inside.(log := executed.value), node.first, node.body, after);
      DenoteBodyKeeps(cfg, executed.value, inside.current, inside.nesting, node.body);
    }
  }
}
