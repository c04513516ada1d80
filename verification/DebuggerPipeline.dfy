/**
 The builders one after the other, as the debugger runs them: contract calls are numbered, the function calls of each
 are built with one counter and one pair of maps, and their debugger traces are merged. No lookup on the way fails.
 */
module DebuggerPipeline {
  import opened Wrappers
  import opened CallTrace
  import opened CallTraceInvariants
  import opened DebuggerTrace
  import Contracts = ContractCalls
  import Calls = CallTraceBuilding
  import Merging = DebuggerTraceBuilding
  import Numbering = ContractCallsBuilding

  // ---------------------------------------------------------------- whose call a function call is

  /** Function calls made since `base` carry the id of their contract call. */
  ghost predicate Belongs(cfg: Config, log: Log, base: nat) {
    forall id :: Own(log, base, id) ==> log.calls[id].contractCallId == cfg.contractCallId
  }

  lemma MoveBelongs(cfg: Config, s: State, prev: Entry, e: Entry, base: nat)
    requires Belongs(cfg, s.log, base)
    ensures var r := Move(cfg, s, prev, e); r.Ok? ==> Belongs(cfg, r.value.log, base)
  {
    hide ReportsPanic;
  }

  lemma ExecuteBelongs(cfg: Config, log: Log, id: nat, e: Entry, base: nat)
    requires Belongs(cfg, log, base)
    ensures var r := ExecuteAt(cfg, log, id, e); r.Ok? ==> Belongs(cfg, r.value, base)
  {
    AddStatementsAdds(cfg, log, id, e.fp, e.statements);
    hide AddStatements;
  }

  lemma {:induction false} RunBelongs(cfg: Config, s: State, prev: Entry, trace: seq<Entry>, base: nat)
    requires Belongs(cfg, s.log, base)
    ensures var r := Run(cfg, s, prev, trace); r.Ok? ==> Belongs(cfg, r.value.log, base)
    decreases |trace|
  {
    hide Belongs, Move, ExecuteAt;
    if trace != [] {
      MoveBelongs(cfg, s, prev, trace[0], base);
      var moved := Move(cfg, s, prev, trace[0]);
      if moved.Ok? { ExecuteBelongs(cfg, moved.value.log, moved.value.current, trace[0], base); }
      var next := CallTrace.Step(cfg, s, prev, trace[0]);
      if next.Ok? { RunBelongs(cfg, next.value, trace[0], trace[1..], base); }
    }
  }

  lemma BuildBelongs(
    cfg: Config, calls: map<nat, FunctionCall>, events: map<nat, EventCall>, nextCallId: nat, trace: seq<Entry>)
    requires forall id :: id in calls ==> id < nextCallId
    ensures var r := Build(cfg, calls, events, nextCallId, trace); r.Ok? ==> Belongs(cfg, r.value.log, nextCallId)
  {
    if trace != [] {
      var start := Start(cfg, calls, events, nextCallId, trace[0]);
      assert Belongs(cfg, start.log, nextCallId);
      hide Run, ReportsPanic;
      RunBelongs(cfg, start, trace[0], trace, nextCallId);
    }
  }

  // ---------------------------------------------------------------- all contract calls in turn

  datatype Built = Built(
    calls: map<nat, FunctionCall>, events: map<nat, EventCall>, nextCallId: nat, traces: map<nat, seq<DebugEntry>>)

  /** `create_function_calls_map_generic` over the calls with VM data, in whatever order the map yields them. */
  function BuildAll(
    contractCalls: map<nat, Contracts.ContractCall>, vmTraces: map<nat, seq<Entry>>, order: seq<nat>, built: Built):
    Stepped<Built>
    requires forall id :: id in order ==> id in contractCalls && id in vmTraces
    decreases |order|
  {
    if order == [] then Ok(built)
    else
      var id := order[0];
      var cfg := Config(id, contractCalls[id].childrenCallIds, true);
      var s :- Build(cfg, built.calls, built.events, built.nextCallId, vmTraces[id]);
      BuildAll(contractCalls, vmTraces, order[1..],
               Built(s.log.calls, s.log.events, s.log.nextCallId, built.traces[id := s.log.debugTrace]))
  }

  /** The counter stands above all ids, contract calls have increasing children below `limit`. */
  ghost predicate Numbered(contractCalls: map<nat, Contracts.ContractCall>, limit: nat, built: Built) {
    && 0 < limit <= built.nextCallId
    && (forall id :: id in contractCalls ==> Contracts.Increasing(contractCalls[id].childrenCallIds, 1, limit))
    && (forall id :: id in built.calls ==> id < built.nextCallId)
    && (forall id :: id in built.events ==> id < built.nextCallId)
  }

  /** What a debugger trace names is known: its functions are in the map, and its callees start its call's children. */
  ghost predicate Traced(contractCall: Contracts.ContractCall, calls: map<nat, FunctionCall>, trace: seq<DebugEntry>) {
    && (forall i :: 0 <= i < |trace| && trace[i].WithLocation? ==> trace[i].functionCallId in calls)
    && Callees(trace) <= contractCall.childrenCallIds
  }

  ghost predicate Resolved(contractCalls: map<nat, Contracts.ContractCall>, built: Built) {
    && (forall id :: id in built.traces ==>
          id in contractCalls && Traced(contractCalls[id], built.calls, built.traces[id]))
    && forall f :: f in built.calls ==> built.calls[f].contractCallId in contractCalls
  }

  lemma TracedGrows(
    contractCall: Contracts.ContractCall, calls: map<nat, FunctionCall>, more: map<nat, FunctionCall>,
    trace: seq<DebugEntry>)
    requires Traced(contractCall, calls, trace) && forall id :: id in calls ==> id in more
    ensures Traced(contractCall, more, trace)
  {
  }

  lemma InvariantResolves(cfg: Config, log: Log, base: nat)
    requires LogInv(cfg, log, base) && cfg.debugMode
    ensures base < log.nextCallId && FreshIds(log)
    ensures forall i :: 0 <= i < |log.debugTrace| && log.debugTrace[i].WithLocation? ==>
              log.debugTrace[i].functionCallId in log.calls
    ensures Callees(log.debugTrace) <= cfg.children
  {
  }

  lemma ChildrenAreValid(contractCall: Contracts.ContractCall, limit: nat, base: nat, cfg: Config)
    requires Contracts.Increasing(contractCall.childrenCallIds, 1, limit) && 0 < limit <= base
    requires cfg.children == contractCall.childrenCallIds
    ensures ValidConfig(cfg, base)
  {
  }

  /** One more contract call is built. */
  lemma BuildOneResolves(
    contractCalls: map<nat, Contracts.ContractCall>, limit: nat, built: Built, id: nat, vmTrace: seq<Entry>)
    requires Numbered(contractCalls, limit, built) && Resolved(contractCalls, built) && id in contractCalls
    ensures var r := Build(Config(id, contractCalls[id].childrenCallIds, true),
                           built.calls, built.events, built.nextCallId, vmTrace);
            && (r.Err? ==> r.error != MissingCall)
            && (r.Ok? ==>
                  var after := Built(r.value.log.calls, r.value.log.events, r.value.log.nextCallId,
                                     built.traces[id := r.value.log.debugTrace]);
                  Numbered(contractCalls, limit, after) && Resolved(contractCalls, after))
  {
    hide Build, Traced, LogInv, Contracts.Increasing, ValidConfig;
    var cfg := Config(id, contractCalls[id].childrenCallIds, true);
    var r := Build(cfg, built.calls, built.events, built.nextCallId, vmTrace);
    ChildrenAreValid(contractCalls[id], limit, built.nextCallId, cfg);
    BuildKeepsTree(cfg, built.calls, built.events, built.nextCallId, vmTrace);
    BuildBelongs(cfg, built.calls, built.events, built.nextCallId, vmTrace);
    if r.Ok? {
      var log := r.value.log;
      InvariantResolves(cfg, log, built.nextCallId);
      OwnTraceIsTraced(contractCalls[id], log);
      CallsBelong(contractCalls, cfg, built.calls, log, built.nextCallId);
      hide Belongs;
      MoreResolved(contractCalls, built, id, log);
    }
  }

  lemma CallsBelong(
    contractCalls: map<nat, Contracts.ContractCall>, cfg: Config, calls: map<nat, FunctionCall>, log: Log, base: nat)
    requires cfg.contractCallId in contractCalls
    requires forall f :: f in calls ==> calls[f].contractCallId in contractCalls
    requires Belongs(cfg, log, base)
    requires forall id :: id in calls ==> id in log.calls && log.calls[id] == calls[id]
    requires forall id :: id in log.calls && id < base ==> id in calls
    ensures forall f :: f in log.calls ==> log.calls[f].contractCallId in contractCalls
  {
    forall f | f in log.calls ensures log.calls[f].contractCallId in contractCalls {
      if f < base {
        assert log.calls[f] == calls[f];
      } else {
        assert Own(log, base, f);
      }
    }
  }

  lemma MoreResolved(contractCalls: map<nat, Contracts.ContractCall>, built: Built, id: nat, log: Log)
    requires Resolved(contractCalls, built) && id in contractCalls
    requires Traced(contractCalls[id], log.calls, log.debugTrace) && forall f :: f in built.calls ==> f in log.calls
    requires forall f :: f in log.calls ==> log.calls[f].contractCallId in contractCalls
    ensures Resolved(contractCalls, Built(log.calls, log.events, log.nextCallId, built.traces[id := log.debugTrace]))
  {
    hide Traced;
    forall other | other in built.traces && other != id
      ensures Traced(contractCalls[other], log.calls, built.traces[other])
    {
      TracedGrows(contractCalls[other], built.calls, log.calls, built.traces[other]);
    }
  }

  lemma OwnTraceIsTraced(contractCall: Contracts.ContractCall, log: Log)
    requires forall i :: 0 <= i < |log.debugTrace| && log.debugTrace[i].WithLocation? ==>
               log.debugTrace[i].functionCallId in log.calls
    requires Callees(log.debugTrace) <= contractCall.childrenCallIds
    ensures Traced(contractCall, log.calls, log.debugTrace)
  {
  }

  /** All of them: no lookup fails, and everything that the traces name is there. */
  lemma {:induction false} BuildAllResolves(
    contractCalls: map<nat, Contracts.ContractCall>, vmTraces: map<nat, seq<Entry>>, order: seq<nat>, limit: nat,
    built: Built)
    requires forall id :: id in order ==> id in contractCalls && id in vmTraces
    requires Numbered(contractCalls, limit, built) && Resolved(contractCalls, built)
    ensures var r := BuildAll(contractCalls, vmTraces, order, built);
            && (r.Err? ==> r.error != MissingCall)
            && (r.Ok? ==> Numbered(contractCalls, limit, r.value) && Resolved(contractCalls, r.value))
    decreases |order|
  {
    hide Build, Numbered, Resolved;
    if order != [] {
      var id := order[0];
      BuildOneResolves(contractCalls, limit, built, id, vmTraces[id]);
      var r := Build(Config(id, contractCalls[id].childrenCallIds, true),
                     built.calls, built.events, built.nextCallId, vmTraces[id]);
      if r.Ok? {
        BuildAllResolves(contractCalls, vmTraces, order[1..], limit,
                         Built(r.value.log.calls, r.value.log.events, r.value.log.nextCallId,
                               built.traces[id := r.value.log.debugTrace]));
      }
    }
  }

  // ---------------------------------------------------------------- the merge

  /** Every call and function that a contract call or its trace names is there. */
  ghost predicate Closed(contracts: map<nat, Contract>, functions: set<nat>) {
    forall id :: id in contracts ==> ClosedCall(contracts, functions, contracts[id])
  }

  ghost predicate ClosedCall(contracts: map<nat, Contract>, functions: set<nat>, c: Contract) {
    && (forall i :: 0 <= i < |c.children| ==> c.children[i] in contracts)
    && (c.trace.Some? ==> ClosedTrace(contracts, functions, c.trace.value))
  }

  ghost predicate ClosedTrace(contracts: map<nat, Contract>, functions: set<nat>, trace: seq<DebugEntry>) {
    forall i :: 0 <= i < |trace| ==>
      match trace[i]
      case WithLocation(_, _, _, f, _) => f in functions
      case WithContractCall(callee) => callee in contracts
  }

  /** Then the merge of any of the calls meets no missing one. */
  lemma {:induction false} MergeNeverStops(contracts: map<nat, Contract>, functions: set<nat>, limit: nat, id: nat)
    requires Ordered(contracts, limit) && Closed(contracts, functions) && id in contracts
    ensures Merge(contracts, functions, limit, id).Ok?
    decreases Height(limit, id), 1, 0
  {
    hide ClosedTrace;
    assert ClosedCall(contracts, functions, contracts[id]);
    if HasTrace(contracts[id]) {
      StepsNeverStop(contracts, functions, limit, id, contracts[id].trace.value);
    } else {
      ChildrenNeverStop(contracts, functions, limit, id, contracts[id].children);
    }
  }

  lemma {:induction false} StepsNeverStop(
    contracts: map<nat, Contract>, functions: set<nat>, limit: nat, id: nat, trace: seq<DebugEntry>)
    requires Ordered(contracts, limit) && Closed(contracts, functions) && id < limit
    requires forall i :: 0 <= i < |trace| && trace[i].WithContractCall? ==> id < trace[i].calleeId
    requires ClosedTrace(contracts, functions, trace)
    ensures MergeSteps(contracts, functions, limit, id, trace).Ok?
    decreases Height(limit, id), 0, |trace|
  {
    hide Closed, Merge;
    if trace != [] {
      if trace[0].WithContractCall? { MergeNeverStops(contracts, functions, limit, trace[0].calleeId); }
      StepsNeverStop(contracts, functions, limit, id, trace[1..]);
    }
  }

  lemma {:induction false} ChildrenNeverStop(
    contracts: map<nat, Contract>, functions: set<nat>, limit: nat, id: nat, children: seq<nat>)
    requires Ordered(contracts, limit) && Closed(contracts, functions) && id < limit
    requires forall i :: 0 <= i < |children| ==> id < children[i] && children[i] in contracts
    ensures MergeChildren(contracts, functions, limit, id, children).Ok?
    decreases Height(limit, id), 0, |children|
  {
    hide Closed, Merge;
    if children != [] {
      MergeNeverStops(contracts, functions, limit, children[0]);
      ChildrenNeverStop(contracts, functions, limit, id, children[1..]);
    }
  }

  // ---------------------------------------------------------------- from the call tree to the merged trace

  /** The contract calls as the merge finds them: with the debugger traces of those that were built. */
  function Contracted(
    contractCalls: map<nat, Contracts.ContractCall>, traces: map<nat, seq<DebugEntry>>): map<nat, Contract> {
    map id | id in contractCalls ::
      Contract(contractCalls[id].childrenCallIds, if id in traces then Some(traces[id]) else None)
  }

  lemma ResolvedIsClosed(contractCalls: map<nat, Contracts.ContractCall>, built: Built)
    requires Contracts.AllLinked(contractCalls) && Resolved(contractCalls, built)
    ensures Closed(Contracted(contractCalls, built.traces), built.calls.Keys)
  {
    var contracts := Contracted(contractCalls, built.traces);
    forall id | id in contracts ensures ClosedCall(contracts, built.calls.Keys, contracts[id]) {
      assert Contracts.Linked(contractCalls, id);
      if id in built.traces {
        assert Traced(contractCalls[id], built.calls, built.traces[id]);
        TracedIsClosed(contractCalls, built, id);
      }
    }
  }

  lemma TracedIsClosed(contractCalls: map<nat, Contracts.ContractCall>, built: Built, id: nat)
    requires id in contractCalls && id in built.traces && Contracts.Linked(contractCalls, id)
    requires Traced(contractCalls[id], built.calls, built.traces[id])
    ensures ClosedTrace(Contracted(contractCalls, built.traces), built.calls.Keys, built.traces[id])
  {
    var trace := built.traces[id];
    forall i | 0 <= i < |trace| && trace[i].WithContractCall? ensures trace[i].calleeId in contractCalls {
      CalleeIsListed(trace, i);
      var callees := Callees(trace);
      var k :| 0 <= k < |callees| && callees[k] == trace[i].calleeId;
      assert contractCalls[id].childrenCallIds[k] == callees[k];
    }
  }

  /** What is there before the first contract call is built: nothing but the counter. */
  function Nothing(nextCallId: nat): Built {
    Built(map[], map[], nextCallId, map[])
  }

  /** The end of each call's interval of ids, the root's included. */
  function EndOf(nested: seq<Contracts.CallTree>): nat -> nat {
    (id: nat) => if id == 1 then 2 + Contracts.Size(nested)
                 else if id in Ends(nested, 2) then Ends(nested, 2)[id] else 0
  }

  lemma EndsAgree(nested: seq<Contracts.CallTree>)
    ensures EndOf(nested)(1) == 2 + Contracts.Size(nested) && Agrees(EndOf(nested), Ends(nested, 2))
  {
    EndsAreContiguous(nested, 2);
  }

  lemma NothingResolves(failed: bool, nested: seq<Contracts.CallTree>)
    ensures var calls, limit := Contracts.AllCalls(failed, nested), 2 + Contracts.Size(nested);
            Numbered(calls, limit, Nothing(limit)) && Resolved(calls, Nothing(limit))
  {
    hide Contracts.AllCalls, Contracts.Size;
    Contracts.AllCallsAreATree(failed, nested);
    ChildrenIncrease(Contracts.AllCalls(failed, nested), 2 + Contracts.Size(nested));
  }

  lemma ChildrenIncrease(calls: map<nat, Contracts.ContractCall>, limit: nat)
    requires Contracts.Interval(calls, 1, limit) && Contracts.AllLinked(calls)
    ensures forall id :: id in calls ==> Contracts.Increasing(calls[id].childrenCallIds, 1, limit)
  {
    forall id | id in calls ensures Contracts.Increasing(calls[id].childrenCallIds, 1, limit) {
      assert Contracts.Linked(calls, id);
    }
  }

  /**
   For every call tree, VM traces of any of its calls and any order of the calls: the builders stop only for a trace
   that is empty, makes more calls than its contract call or panics without a felt. If they do not stop, neither does
   the merge: every contract call and function call is found, also by the last loop over function calls, and the
   merged trace holds the root's entries and those of every other call in order.
   */
  lemma NoLookupFails(
    failed: bool, nested: seq<Contracts.CallTree>, vmTraces: map<nat, seq<Entry>>, order: seq<nat>)
    requires forall id :: id in order ==> id in Contracts.AllCalls(failed, nested) && id in vmTraces
    ensures var calls, limit := Contracts.AllCalls(failed, nested), 2 + Contracts.Size(nested);
            match BuildAll(calls, vmTraces, order, Nothing(limit))
            case Err(a) => a != MissingCall
            case Ok(built) =>
              var contracts := Contracted(calls, built.traces);
              && Ordered(contracts, limit) && 1 in contracts
              && (forall f :: f in built.calls ==> built.calls[f].contractCallId in contracts)
              && (forall id :: id in contracts ==>
                    var merged := Merge(contracts, built.calls.Keys, limit, id);
                    merged.Ok? && InOrder(contracts, merged.value, id, id + 1, EndOf(nested)(id),
                                          OwnLocations(contracts[id])))
  {
    var calls, limit := Contracts.AllCalls(failed, nested), 2 + Contracts.Size(nested);
    NothingResolves(failed, nested);
    BuildAllResolves(calls, vmTraces, order, limit, Nothing(limit));
    var r := BuildAll(calls, vmTraces, order, Nothing(limit));
    if r.Ok? { MergesInOrder(failed, nested, r.value); }
  }

  lemma MergesInOrder(failed: bool, nested: seq<Contracts.CallTree>, built: Built)
    requires Resolved(Contracts.AllCalls(failed, nested), built)
    ensures var calls, limit := Contracts.AllCalls(failed, nested), 2 + Contracts.Size(nested);
            var contracts := Contracted(calls, built.traces);
            && Ordered(contracts, limit) && 1 in contracts
            && (forall f :: f in built.calls ==> built.calls[f].contractCallId in contracts)
            && (forall id :: id in contracts ==>
                  var merged := Merge(contracts, built.calls.Keys, limit, id);
                  merged.Ok? && InOrder(contracts, merged.value, id, id + 1, EndOf(nested)(id),
                                        OwnLocations(contracts[id])))
  {
    hide Contracts.AllCalls, Contracts.AllLinked, Contracts.Interval, Contracts.ParentsAgree, Contracts.Size, Resolved;
    hide Ends, Agrees, EndOf, Merge, InOrder, OwnLocations, Closed, Ordered, AreTraced, Contracted;
    var calls, limit := Contracts.AllCalls(failed, nested), 2 + Contracts.Size(nested);
    var contracts := Contracted(calls, built.traces);
    Contracts.AllCallsAreATree(failed, nested);
    RootIsThere(calls, limit);
    EndsAgree(nested);
    ContractedIsTraced(calls, built);
    BuildersNestCalls(failed, nested, contracts, EndOf(nested));
    ResolvedIsClosed(calls, built);
    assert Ordered(contracts, limit);
    forall id | id in contracts
      ensures var merged := Merge(contracts, built.calls.Keys, limit, id);
              merged.Ok? && InOrder(contracts, merged.value, id, id + 1, EndOf(nested)(id), OwnLocations(contracts[id]))
    {
      MergeNeverStops(contracts, built.calls.Keys, limit, id);
      MergeKeepsOrder(contracts, built.calls.Keys, limit, EndOf(nested), id,
                      Merge(contracts, built.calls.Keys, limit, id).value);
    }
  }

  lemma RootIsThere(calls: map<nat, Contracts.ContractCall>, limit: nat)
    requires Contracts.Interval(calls, 1, limit) && 1 < limit
    ensures 1 in calls
  {
  }

  lemma ContractedIsTraced(calls: map<nat, Contracts.ContractCall>, built: Built)
    requires Resolved(calls, built)
    ensures var contracts := Contracted(calls, built.traces);
            AreTraced(contracts, calls) && contracts.Keys == calls.Keys
            && forall f :: f in built.calls ==> built.calls[f].contractCallId in contracts
  {
    forall id | id in calls && id in built.traces ensures Callees(built.traces[id]) <= calls[id].childrenCallIds {
      assert Traced(calls[id], built.calls, built.traces[id]);
    }
  }

  // ---------------------------------------------------------------- the builders as they run

  /** The loop of `create_function_calls_map_generic`: one builder after the other on the same maps and counter. */
  method CreateFunctionCallsMap(
    contractCalls: map<nat, Contracts.ContractCall>, vmTraces: map<nat, seq<Entry>>, order: seq<nat>, nextCallId: nat)
    returns (abort: Option<Abort>, built: Built)
    requires forall id :: id in order ==> id in contractCalls && id in vmTraces
    ensures match BuildAll(contractCalls, vmTraces, order, Nothing(nextCallId))
            case Err(a) => abort == Some(a)
            case Ok(all) => abort == None && built == all
  {
    abort, built := None, Nothing(nextCallId);
    hide Build;
    for i := 0 to |order|
      invariant abort == None
      invariant BuildAll(contractCalls, vmTraces, order[i..], built)
             == BuildAll(contractCalls, vmTraces, order, Nothing(nextCallId))
    {
      var id := order[i];
      assert order[i..][0] == id && order[i..][1..] == order[i + 1..];
      var cfg := Config(id, contractCalls[id].childrenCallIds, true);
      var builder := new Calls.CallTraceBuilder(cfg, built.calls, built.events, built.nextCallId);
      abort := builder.Build(vmTraces[id]);
      if abort.Some? { return; }
      built := Built(builder.functionCalls, builder.eventCalls, builder.nextCallId,
                     built.traces[id := builder.debuggerTrace]);
    }
    assert order[|order|..] == [];
  }

  /** The merge of what was built, when it meets no missing call. */
  method MergeTraces(contracts: map<nat, Contract>, calls: map<nat, FunctionCall>, ghost limit: nat)
    returns (trace: seq<Step>, functionIndexes: map<nat, Option<nat>>)
    requires Ordered(contracts, limit) && Merge(contracts, calls.Keys, limit, 1).Ok?
    requires forall f :: f in calls ==> calls[f].contractCallId in contracts
    ensures trace == Merge(contracts, calls.Keys, limit, 1).value
    ensures functionIndexes.Keys == calls.Keys
    ensures forall f :: f in calls ==> functionIndexes[f] == Merging.StepIndex(trace, f, calls[f].contractCallId)
  {
    hide Merge, Ordered, Merging.StepIndex, First;
    var owners := map f | f in calls :: calls[f].contractCallId;
    assert owners.Keys == calls.Keys;
    var failure, contractIndexes;
    failure, trace, contractIndexes, functionIndexes := Merging.Build(contracts, owners, limit, 1);
  }

  /** From the transaction's call tree to the merged trace and its step indices, with all three builders. */
  method DebugTransaction(
    failed: bool, nested: seq<Contracts.CallTree>, vmTraces: map<nat, seq<Entry>>, order: seq<nat>)
    returns (abort: Option<Abort>, trace: seq<Step>, functionIndexes: map<nat, Option<nat>>)
    requires forall id :: id in order ==> id in Contracts.AllCalls(failed, nested) && id in vmTraces
    ensures var calls, limit := Contracts.AllCalls(failed, nested), 2 + Contracts.Size(nested);
            match BuildAll(calls, vmTraces, order, Nothing(limit))
            case Err(a) => abort == Some(a) && a != MissingCall
            case Ok(built) =>
              var contracts := Contracted(calls, built.traces);
              && abort == None && 1 in contracts
              && InOrder(contracts, trace, 1, 2, limit, OwnLocations(contracts[1]))
              && functionIndexes.Keys == built.calls.Keys
              && (forall f :: f in functionIndexes ==>
                    functionIndexes[f] == Merging.StepIndex(trace, f, built.calls[f].contractCallId))
  {
    NoLookupFails(failed, nested, vmTraces, order);
    EndsAgree(nested);
    hide BuildAll, Merge, InOrder, OwnLocations, Ordered, Merging.StepIndex, First, Contracted, Nothing, EndOf, Agrees;
    hide Contracts.AllCalls, Contracts.AllLinked, Contracts.ParentsAgree, Contracts.ReportAll, Contracts.Size;
    var builder := new Numbering.ContractCallsMapBuilder();
    var chart := builder.Build(failed, nested);
    var calls, limit := builder.contractCalls, builder.nextCallId;
    var built;
    abort, built := CreateFunctionCallsMap(calls, vmTraces, order, limit);
    trace, functionIndexes := [], map[];
    if abort == None {
      trace, functionIndexes := MergeTraces(Contracted(calls, built.traces), built.calls, limit);
    }
  }
}
