/** The builder as it runs: maps, counters and a trace state, updated in place for each trace entry. */
module CallTraceBuilding {
  import opened Wrappers
  import opened CallTrace
  import Invariants = CallTraceInvariants

  class CallTraceBuilder {
    const cfg: Config
    var functionCalls: map<nat, FunctionCall>
    var eventCalls: map<nat, EventCall>
    var nextCallId: nat
    var currentCallId: nat
    var nestingLevel: int
    var loopParentMap: map<string, nat>
    var contractCallIndex: nat
    var deepestPanicLevel: int
    var deepestPanicCallId: Option<nat>
    var debuggerTrace: seq<DebugEntry>
    var prevLocation: Option<Location>
    var prevLocations: seq<Location>

    constructor (cfg: Config, calls: map<nat, FunctionCall>, events: map<nat, EventCall>, nextCallId: nat)
      ensures this.cfg == cfg && functionCalls == calls && eventCalls == events && this.nextCallId == nextCallId
    {
      this.cfg, functionCalls, eventCalls, this.nextCallId := cfg, calls, events, nextCallId;
    }

    ghost function Written(): Log reads this {
      Log(functionCalls, eventCalls, nextCallId, contractCallIndex, deepestPanicLevel, deepestPanicCallId,
          debuggerTrace, prevLocation, prevLocations)
    }

    ghost function Now(): State reads this {
      State(Written(), currentCallId, nestingLevel, loopParentMap)
    }

    /** The builder is where `expected` says, or has stopped for the reason `expected` gives. */
    ghost predicate Reached(expected: Stepped<State>, abort: Option<Abort>) reads this {
      match expected
      case Ok(s) => abort == None && Now() == s
      case Err(a) => abort == Some(a)
    }

    /** The builder wrote what `expected` says from the same place in the tree, or has stopped. */
    twostate predicate Wrote(expected: Stepped<Log>, new abort: Option<Abort>) reads this {
      && (currentCallId, nestingLevel, loopParentMap) == old((currentCallId, nestingLevel, loopParentMap))
      && match expected
         case Ok(log) => abort == None && Written() == log
         case Err(a) => abort == Some(a)
    }

    method CreateNewFunctionCall(f: Function, fp: nat) returns (abort: Option<Abort>)
      modifies this
      ensures Reached(
        match OpenCall(cfg, old(Written()), old(currentCallId), f, fp)
        case Err(a) => Err(a)
        case Ok(log) => Ok(old(Now()).(log := log, current := old(nextCallId))), abort)
    {
      var id := nextCallId;
      functionCalls := functionCalls[id := NewCall(cfg, id, currentCallId, f, fp)];
      nextCallId := id + 1;
      if currentCallId !in functionCalls { return Some(MissingCall); }
      var parent := functionCalls[currentCallId];
      functionCalls := functionCalls[currentCallId := parent.(childrenCallIds := parent.childrenCallIds + [id])];
      currentCallId := id;
      abort := None;
    }

    method HandleFunctionEntry(e: Entry) returns (abort: Option<Abort>)
      modifies this
      ensures Reached(EnterFunction(cfg, old(Now()), e), abort)
    {
      abort := None;
      if e.fn.Some? {
        var f := e.fn.value;
        if f.isLoop {
          if f.name in loopParentMap {
            currentCallId := loopParentMap[f.name];
          } else {
            loopParentMap := loopParentMap[f.name := currentCallId];
          }
        } else {
          abort := CreateNewFunctionCall(f, e.fp);
          if abort.None? { nestingLevel := nestingLevel + 1; }
        }
      }
    }

    /** The loop over results that looks for the first panic. */
    method FindPanic(results: seq<FnIO>) returns (panicked: Stepped<bool>)
      ensures panicked == ReportsPanic(results)
    {
      for i := 0 to |results|
        invariant ReportsPanic(results) == ReportsPanic(results[i..])
      {
        assert results[i..][0] == results[i] && results[i..][1..] == results[i + 1..];
        if results[i].isPanicResult {
          if results[i].value == [] { return Err(EmptyPanicValue); }
          if results[i].value[0] == "1" { return Ok(true); }
        }
      }
      panicked := Ok(false);
    }

    method CheckForPanicResult(results: seq<FnIO>) returns (abort: Option<Abort>)
      modifies this
      ensures Wrote(CheckPanic(old(Written()), currentCallId, nestingLevel, results), abort)
    {
      if nestingLevel > deepestPanicLevel {
        var panicked := FindPanic(results);
        if panicked.Err? { return Some(panicked.error); }
        if panicked.value {
          deepestPanicLevel, deepestPanicCallId := nestingLevel, Some(currentCallId);
        }
      }
      abort := None;
    }

    method HandleFunctionExit(e: Entry, results: seq<FnIO>) returns (abort: Option<Abort>)
      modifies this
      ensures Reached(LeaveFunction(old(Now()), e, results), abort)
    {
      if currentCallId !in functionCalls { return Some(MissingCall); }
      var parent := functionCalls[currentCallId].parentCallId;
      abort := None;
      if parent != 0 {
        if parent !in functionCalls { return Some(MissingCall); }
        if functionCalls[parent].fp == e.fp {
          abort := CheckForPanicResult(results);
          if abort.Some? { return; }
          functionCalls := functionCalls[currentCallId := functionCalls[currentCallId].(results := results)];
          currentCallId := parent;
          nestingLevel := nestingLevel - 1;
        }
      }
    }

    /** The loops over Sierra statements and their Cairo locations. */
    method ProcessDebuggerTrace(e: Entry)
      modifies `debuggerTrace, `prevLocation, `prevLocations
      ensures Written() == AddStatements(cfg, old(Written()), currentCallId, e.fp, e.statements)
    {
      for i := 0 to |e.statements|
        invariant AddStatements(cfg, Written(), currentCallId, e.fp, e.statements[i..])
                  == AddStatements(cfg, old(Written()), currentCallId, e.fp, e.statements)
      {
        assert e.statements[i..][0] == e.statements[i] && e.statements[i..][1..] == e.statements[i + 1..];
        ProcessLocations(e.fp, e.statements[i]);
        prevLocations := e.statements[i].locations;
      }
    }

    method ProcessLocations(fp: nat, s: StatementLocations)
      modifies `debuggerTrace, `prevLocation
      ensures Written() == AddLocations(cfg, old(Written()), currentCallId, fp, s, 0)
    {
      for j := 0 to |s.locations|
        invariant AddLocations(cfg, Written(), currentCallId, fp, s, j)
                  == AddLocations(cfg, old(Written()), currentCallId, fp, s, 0)
      {
        var location := s.locations[j];
        if prevLocation.None? || (location != prevLocation.value && s.locations != prevLocations) {
          debuggerTrace := debuggerTrace + [WithLocation(s.sierraIndex, j, cfg.contractCallId, currentCallId, fp)];
        }
        prevLocation := Some(location);
      }
    }

    method HandleSystemCalls(sysCall: SysCall) returns (abort: Option<Abort>)
      modifies this
      ensures Wrote(HandleSysCall(cfg, old(Written()), currentCallId, sysCall), abort)
    {
      match sysCall {
        case ContractCall =>
          if currentCallId !in functionCalls { return Some(MissingCall); }
          if contractCallIndex >= |cfg.children| { return Some(MissingContractChild); }
          var callee, call := cfg.children[contractCallIndex], functionCalls[currentCallId];
          functionCalls := functionCalls[currentCallId := call.(childrenCallIds := call.childrenCallIds + [callee])];
          if cfg.debugMode { debuggerTrace := debuggerTrace + [WithContractCall(callee)]; }
          contractCallIndex := contractCallIndex + 1;
        case EmitEvent(Some(name)) =>
          if currentCallId in functionCalls {
            var call, event := functionCalls[currentCallId], nextCallId;
            functionCalls := functionCalls[currentCallId := call.(
              eventCallIds := call.eventCallIds + [event], childrenCallIds := call.childrenCallIds + [event])];
            nextCallId := nextCallId + 1;
            eventCalls := eventCalls[event := EventCall(event, call.contractCallId, call.callId, name)];
          }
        case _ =>
      }
      abort := None;
    }

    method ProcessTraceEntry(prev: Entry, e: Entry) returns (abort: Option<Abort>)
      modifies this
      ensures Reached(Step(cfg, old(Now()), prev, e), abort)
    {
      abort := None;
      if e.fp > prev.fp {
        abort := HandleFunctionEntry(e);
      } else if e.fp < prev.fp {
        abort := HandleFunctionExit(e, prev.results);
      } else if cfg.debugMode && currentCallId !in functionCalls {
        abort := Some(MissingCall);
      }
      if abort.Some? { return; }
      if cfg.debugMode { ProcessDebuggerTrace(e); }
      abort := HandleSystemCalls(e.sysCall);
    }

    method CheckRootPanicResult(root: nat, results: seq<FnIO>) returns (abort: Option<Abort>)
      modifies this
      ensures Wrote(CheckRoot(old(Written()), root, results), abort)
    {
      if deepestPanicCallId.None? {
        var panicked := FindPanic(results);
        if panicked.Err? { return Some(panicked.error); }
        if panicked.value { deepestPanicCallId := Some(root); }
      }
      abort := if deepestPanicCallId.Some?
        && deepestPanicCallId.value !in functionCalls then Some(MissingCall) else None;
    }

    /** The root call and a fresh trace state. */
    method CreateRootFunctionCall(first: Entry)
      modifies this
      ensures Now() == Start(cfg, old(functionCalls), old(eventCalls), old(nextCallId), first)
    {
      hide RootCall;
      var root := nextCallId;
      functionCalls := functionCalls[root := RootCall(cfg, root, first)];
      nextCallId := root + 1;
      ResetPosition(root);
      ResetWritten();
    }

    method ResetPosition(root: nat)
      modifies `currentCallId, `nestingLevel, `loopParentMap
      ensures currentCallId == root && nestingLevel == 0 && loopParentMap == map[]
    {
      currentCallId, nestingLevel, loopParentMap := root, 0, map[];
    }

    method ResetWritten()
      modifies `contractCallIndex, `deepestPanicLevel, `deepestPanicCallId
      modifies `debuggerTrace, `prevLocation, `prevLocations
      ensures Written() == Log(functionCalls, eventCalls, nextCallId, 0, -1, None, [], None, [])
    {
      contractCallIndex, deepestPanicLevel, deepestPanicCallId := 0, -1, None;
      debuggerTrace, prevLocation, prevLocations := [], None, [];
    }

    /** The loop over the trace. */
    method ProcessTrace(trace: seq<Entry>) returns (abort: Option<Abort>)
      requires trace != []
      modifies this
      ensures Reached(Run(cfg, old(Now()), trace[0], trace), abort)
    {
      hide Step;
      var prev := trace[0];
      for i := 0 to |trace|
        invariant Run(cfg, Now(), prev, trace[i..]) == Run(cfg, old(Now()), trace[0], trace)
      {
        assert trace[i..][0] == trace[i] && trace[i..][1..] == trace[i + 1..];
        abort := ProcessTraceEntry(prev, trace[i]);
        if abort.Some? { return; }
        prev := trace[i];
      }
      abort := None;
    }

    /** `build`: it reaches the state of the specification, and that state is a tree of calls. */
    method Build(trace: seq<Entry>) returns (abort: Option<Abort>)
      modifies this
      ensures Reached(CallTrace.Build(cfg, old(functionCalls), old(eventCalls), old(nextCallId), trace), abort)
      ensures abort == None && Invariants.ValidConfig(cfg, old(nextCallId))
              && (forall id :: id in old(functionCalls) ==> id < old(nextCallId))
              && (forall id :: id in old(eventCalls) ==> id < old(nextCallId))
              ==> Invariants.StateInv(cfg, Now(), old(nextCallId))
    {
      if trace == [] { return Some(EmptyTrace); }
      ghost var calls, events := functionCalls, eventCalls;
      var root := nextCallId;
      hide Run, CheckRoot, Invariants.StateInv, Invariants.ValidConfig;
      CreateRootFunctionCall(trace[0]);
      abort := ProcessTrace(trace);
      if abort.Some? { return; }
      abort := CheckRootPanicResult(root, trace[|trace| - 1].results);
      if Invariants.ValidConfig(cfg, root) && (forall id :: id in calls ==> id < root)
        && (forall id :: id in events ==> id < root) {
        Invariants.BuildKeepsTree(cfg, calls, events, root, trace);
      }
    }
  }
}
