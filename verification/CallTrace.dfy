/**
 Reconstruction of the function calls of one contract call from its VM trace. The builder sees only
 whether the frame pointer rises, falls or stays, and what the mappings know about each trace entry.
 */
module CallTrace {
  import opened Wrappers

  // ---------------------------------------------------------------- what the builder reads

  datatype Function = Function(name: string, isLoop: bool) {
    predicate IsCore() { "core::" <= name }
  }

  /** A result of a function: whether its type is a panic result, and its felts. */
  datatype FnIO = FnIO(isPanicResult: bool, value: seq<string>)

  datatype SysCall = NoCall | StorageWrite | ContractCall | EmitEvent(eventName: Option<string>)

  type Location = string
  datatype StatementLocations = StatementLocations(sierraIndex: nat, locations: seq<Location>)

  /**
   A trace entry with what the mappings yield at its pc: the named function there, the results of the
   statement there, the Cairo locations of its Sierra statements, and its system call.
   */
  datatype Entry = Entry(
    fp: nat, fn: Option<Function>, results: seq<FnIO>, statements: seq<StatementLocations>, sysCall: SysCall)

  /** `children` are the ids of the contract calls made by this contract call, in order. */
  datatype Config = Config(contractCallId: nat, children: seq<nat>, debugMode: bool)

  // ---------------------------------------------------------------- what it builds

  datatype FunctionCall = FunctionCall(
    callId: nat, parentCallId: nat, childrenCallIds: seq<nat>, contractCallId: nat, eventCallIds: seq<nat>,
    fnName: Option<string>, fp: nat, results: seq<FnIO>, debuggerDataAvailable: bool, isHidden: bool)

  datatype EventCall = EventCall(callId: nat, contractCallId: nat, functionCallId: nat, name: string)

  datatype DebugEntry =
    | WithLocation(sierraIndex: nat, locationIndex: nat, contractCallId: nat, functionCallId: nat, fp: nat)
    | WithContractCall(calleeId: nat)

  /** The maps and counters that do not depend on where in the call tree the builder is. */
  datatype Log = Log(
    calls: map<nat, FunctionCall>,
    events: map<nat, EventCall>,
    nextCallId: nat,
    contractCallIndex: nat,
    panicLevel: int,
    panicCallId: Option<nat>,
    debugTrace: seq<DebugEntry>,
    prevLocation: Option<Location>,
    prevLocations: seq<Location>)

  datatype State = State(log: Log, current: nat, nesting: int, loopParents: map<string, nat>)

  /** The ways a run can stop: an `unwrap` or an index that fails. */
  datatype Abort = EmptyTrace | MissingCall | MissingContractChild | EmptyPanicValue

  type Stepped<T> = Result<T, Abort>

  // ---------------------------------------------------------------- single effects

  function NewCall(cfg: Config, id: nat, parent: nat, f: Function, fp: nat): FunctionCall {
    FunctionCall(id, parent, [], cfg.contractCallId, [], Some(f.name), fp, [], !f.IsCore(), f.IsCore())
  }

  function RootCall(cfg: Config, id: nat, entry: Entry): FunctionCall {
    var name := if entry.fn.Some? then Some(entry.fn.value.name) else None;
    FunctionCall(id, 0, [], cfg.contractCallId, [], name, entry.fp, [], true, true)
  }

  /** `create_new_function_call`: a fresh call, listed by its parent. */
  function OpenCall(cfg: Config, log: Log, parent: nat, f: Function, fp: nat): Stepped<Log> {
    var id := log.nextCallId;
    var calls := log.calls[id := NewCall(cfg, id, parent, f, fp)];
    if parent !in calls then Err(MissingCall)
    else Ok(log.(
      calls := calls[parent := calls[parent].(childrenCallIds := calls[parent].childrenCallIds + [id])],
      nextCallId := id + 1))
  }

  /** Whether one of the results reports a panic; reading the first felt of a panic result may fail. */
  function ReportsPanic(results: seq<FnIO>): Stepped<bool> {
    if results == [] then Ok(false)
    else if !results[0].isPanicResult then ReportsPanic(results[1..])
    else if results[0].value == [] then Err(EmptyPanicValue)
    else if results[0].value[0] == "1" then Ok(true)
    else ReportsPanic(results[1..])
  }

  /** `check_for_panic_result`: results are looked at only while the call is deeper than the deepest panic. */
  function CheckPanic(log: Log, id: nat, level: int, results: seq<FnIO>): Stepped<Log> {
    if level <= log.panicLevel then Ok(log)
    else
      var panicked :- ReportsPanic(results);
      Ok(if panicked then log.(panicLevel := level, panicCallId := Some(id)) else log)
  }

  function CloseCall(log: Log, id: nat, level: int, results: seq<FnIO>): Stepped<Log> {
    var checked :- CheckPanic(log, id, level, results);
    if id !in checked.calls then Err(MissingCall)
    else Ok(checked.(calls := checked.calls[id := checked.calls[id].(results := results)]))
  }

  /** `process_debugger_trace` over the locations of one Sierra statement. */
  function AddLocations(cfg: Config, log: Log, id: nat, fp: nat, s: StatementLocations, from: nat): Log
    requires from <= |s.locations|
    decreases |s.locations| - from
  {
    if from == |s.locations| then log
    else
      var location := s.locations[from];
      var isNew := log.prevLocation.None? || (location != log.prevLocation.value && s.locations != log.prevLocations);
      var entry := WithLocation(s.sierraIndex, from, cfg.contractCallId, id, fp);
      var added := log.(
        debugTrace := if isNew then log.debugTrace + [entry] else log.debugTrace,
        prevLocation := Some(location));
      AddLocations(cfg, added, id, fp, s, from + 1)
  }

  function AddStatements(cfg: Config, log: Log, id: nat, fp: nat, statements: seq<StatementLocations>): Log
    decreases |statements|
  {
    if statements == [] then log
    else
      var added := AddLocations(cfg, log, id, fp, statements[0], 0);
      AddStatements(cfg, added.(prevLocations := statements[0].locations), id, fp, statements[1..])
  }

  /** `handle_system_calls` in call `id`. */
  function HandleSysCall(cfg: Config, log: Log, id: nat, sysCall: SysCall): Stepped<Log> {
    match sysCall
    case NoCall => Ok(log)
    case StorageWrite => Ok(log)
    case ContractCall =>
      if id !in log.calls then Err(MissingCall)
      else if log.contractCallIndex >= |cfg.children| then Err(MissingContractChild)
      else
        var callee := cfg.children[log.contractCallIndex];
        Ok(log.(
          calls := log.calls[id := log.calls[id].(childrenCallIds := log.calls[id].childrenCallIds + [callee])],
          debugTrace := if cfg.debugMode then log.debugTrace + [WithContractCall(callee)] else log.debugTrace,
          contractCallIndex := log.contractCallIndex + 1))
    case EmitEvent(None) => Ok(log)
    case EmitEvent(Some(name)) =>
      if id !in log.calls then Ok(log)
      else
        var call, event := log.calls[id], log.nextCallId;
        Ok(log.(
          calls := log.calls[id := call.(
            eventCallIds := call.eventCallIds + [event], childrenCallIds := call.childrenCallIds + [event])],
          events := log.events[event := EventCall(event, call.contractCallId, call.callId, name)],
          nextCallId := event + 1))
  }

  /** The effects of an entry executed in call `id`, besides entering or leaving a call. */
  function ExecuteAt(cfg: Config, log: Log, id: nat, e: Entry): Stepped<Log> {
    var located := if cfg.debugMode then AddStatements(cfg, log, id, e.fp, e.statements) else log;
    HandleSysCall(cfg, located, id, e.sysCall)
  }

  // ---------------------------------------------------------------- the state machine

  /** `handle_function_entry`. */
  function EnterFunction(cfg: Config, s: State, e: Entry): Stepped<State> {
    match e.fn
    case None => Ok(s)
    case Some(f) =>
      if f.isLoop then
        if f.name in s.loopParents then Ok(s.(current := s.loopParents[f.name]))
        else Ok(s.(loopParents := s.loopParents[f.name := s.current]))
      else
        var log :- OpenCall(cfg, s.log, s.current, f, e.fp);
        Ok(s.(log := log, current := s.log.nextCallId, nesting := s.nesting + 1))
  }

  /** `handle_function_exit`, with the results of the step before. */
  function LeaveFunction(s: State, e: Entry, results: seq<FnIO>): Stepped<State> {
    if s.current !in s.log.calls then Err(MissingCall)
    else
      var parent := s.log.calls[s.current].parentCallId;
      if parent == 0 then Ok(s)
      else if parent !in s.log.calls then Err(MissingCall)
      else if s.log.calls[parent].fp != e.fp then Ok(s)
      else
        var log :- CloseCall(s.log, s.current, s.nesting, results);
        Ok(s.(log := log, current := parent, nesting := s.nesting - 1))
  }

  function Move(cfg: Config, s: State, prev: Entry, e: Entry): Stepped<State> {
    if e.fp > prev.fp then EnterFunction(cfg, s, e)
    else if e.fp < prev.fp then LeaveFunction(s, e, prev.results)
    else if cfg.debugMode && s.current !in s.log.calls then Err(MissingCall)  // its code location is refreshed
    else Ok(s)
  }

  function Step(cfg: Config, s: State, prev: Entry, e: Entry): Stepped<State> {
    var moved :- Move(cfg, s, prev, e);
    var log :- ExecuteAt(cfg, moved.log, moved.current, e);
    Ok(moved.(log := log))
  }

  function Run(cfg: Config, s: State, prev: Entry, trace: seq<Entry>): Stepped<State>
    decreases |trace|
  {
    if trace == [] then Ok(s)
    else
      var next :- Step(cfg, s, prev, trace[0]);
      Run(cfg, next, trace[0], trace[1..])
  }

  /** What the builder starts from: the maps and the counter are shared by all contract calls. */
  function Start(
    cfg: Config, calls: map<nat, FunctionCall>, events: map<nat, EventCall>, nextCallId: nat, first: Entry): State {
    State(
      Log(calls[nextCallId := RootCall(cfg, nextCallId, first)], events, nextCallId + 1, 0, -1, None, [], None, []),
      nextCallId, 0, map[])
  }

  /** `check_root_panic_result`: the root is reported only if no call was. */
  function CheckRoot(log: Log, root: nat, results: seq<FnIO>): Stepped<Log> {
    var panicked :- if log.panicCallId.None? then ReportsPanic(results) else Ok(false);
    var reported := if panicked then Some(root) else log.panicCallId;
    if reported.Some? && reported.value !in log.calls then Err(MissingCall)
    else Ok(log.(panicCallId := reported))
  }

  /** `build`, from maps and a counter that all contract calls share. */
  function Build(
    cfg: Config, calls: map<nat, FunctionCall>, events: map<nat, EventCall>, nextCallId: nat,
    trace: seq<Entry>): Stepped<State> {
    if trace == [] then Err(EmptyTrace)
    else
      var s :- Run(cfg, Start(cfg, calls, events, nextCallId, trace[0]), trace[0], trace);
      var log :- CheckRoot(s.log, nextCallId, trace[|trace| - 1].results);
      Ok(s.(log := log))
  }
}
