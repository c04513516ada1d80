/** The merge as it runs: one growing trace, and step indices recorded on the way. */
module DebuggerTraceBuilding {
  import opened Wrappers
  import opened CallTrace
  import opened DebuggerTrace

  function Or<T>(a: Option<T>, b: Option<T>): Option<T> {
    if a.Some? then a else b
  }

  lemma AppendJoins(a: seq<Step>, first: Merging, others: Merging)
    ensures Append(a, Join(first, others))
            == match first case Err(f) => Err(f) case Ok(steps) => Append(a + steps, others)
  {
    if first.Ok? && others.Ok? { assert a + (first.value + others.value) == a + first.value + others.value; }
  }

  lemma AppendTwice(a: seq<Step>, b: seq<Step>, others: Merging)
    ensures Append(a, Append(b, others)) == Append(a + b, others)
  {
    if others.Ok? { assert a + (b + others.value) == a + b + others.value; }
  }

  ghost predicate FunctionsIndexed(trace: seq<Step>, functionSteps: map<nat, Option<nat>>) {
    forall f :: f in functionSteps ==> functionSteps[f] == First(trace, OfFunction(f))
  }

  ghost predicate ContractsIndexed(trace: seq<Step>, contractSteps: map<nat, nat>) {
    && (forall c :: c in contractSteps <==> First(trace, OfContract(c)).Some?)
    && (forall c :: c in contractSteps ==> First(trace, OfContract(c)) == Some(contractSteps[c]))
  }

  lemma FunctionRecorded(trace: seq<Step>, functionSteps: map<nat, Option<nat>>, entry: DebugEntry, owner: nat)
    requires FunctionsIndexed(trace, functionSteps) && entry.WithLocation? && entry.functionCallId in functionSteps
    ensures FunctionsIndexed(
              trace + [Step(Located(entry), owner)],
              if functionSteps[entry.functionCallId].None? then functionSteps[entry.functionCallId := Some(|trace|)]
              else functionSteps)
  {
    hide First;
    forall f { FirstAfter(trace, Step(Located(entry), owner), OfFunction(f)); }
  }

  lemma ContractRecorded(trace: seq<Step>, contractSteps: map<nat, nat>, entry: DebugEntry, owner: nat)
    requires ContractsIndexed(trace, contractSteps) && entry.WithLocation?
    ensures ContractsIndexed(
              trace + [Step(Located(entry), owner)],
              if owner !in contractSteps then contractSteps[owner := |trace|] else contractSteps)
  {
    hide First;
    forall c { FirstAfter(trace, Step(Located(entry), owner), OfContract(c)); }
  }

  lemma NothingRecorded(
    trace: seq<Step>, functionSteps: map<nat, Option<nat>>, contractSteps: map<nat, nat>, s: Step)
    requires FunctionsIndexed(trace, functionSteps) && ContractsIndexed(trace, contractSteps) && !s.IsLocation()
    ensures FunctionsIndexed(trace + [s], functionSteps) && ContractsIndexed(trace + [s], contractSteps)
  {
    hide First;
    forall f { FirstAfter(trace, s, OfFunction(f)); }
    forall c { FirstAfter(trace, s, OfContract(c)); }
  }

  class DebuggerTraceBuilder {
    var trace: seq<Step>
    var contractSteps: map<nat, nat>
    var functionSteps: map<nat, Option<nat>>

    constructor (functions: set<nat>)
      ensures trace == [] && Indexed() && functionSteps.Keys == functions
    {
      trace, contractSteps, functionSteps := [], map[], map f | f in functions :: None;
    }

    /** The recorded indices are the first positions in the trace so far. */
    ghost predicate Indexed() reads this {
      FunctionsIndexed(trace, functionSteps) && ContractsIndexed(trace, contractSteps)
    }

    method Push(s: Step)
      requires Indexed() && !s.IsLocation()
      modifies `trace
      ensures trace == old(trace) + [s] && Indexed()
    {
      NothingRecorded(trace, functionSteps, contractSteps, s);
      hide FunctionsIndexed, ContractsIndexed;
      trace := trace + [s];
    }

    /** A location entry is pushed, and its function call and contract call get its position if they have none. */
    method PushLocation(entry: DebugEntry, owner: nat)
      requires Indexed() && entry.WithLocation? && entry.functionCallId in functionSteps
      modifies this
      ensures trace == old(trace) + [Step(Located(entry), owner)] && Indexed()
              && functionSteps.Keys == old(functionSteps.Keys)
    {
      hide FunctionsIndexed, ContractsIndexed;
      FunctionRecorded(trace, functionSteps, entry, owner);
      ContractRecorded(trace, contractSteps, entry, owner);
      trace := trace + [Step(Located(entry), owner)];
      var position := |trace| - 1;
      if functionSteps[entry.functionCallId].None? {
        functionSteps := functionSteps[entry.functionCallId := Some(position)];
      }
      if owner !in contractSteps { contractSteps := contractSteps[owner := position]; }
    }

    /** `merge_debugger_trace`. */
    method MergeDebuggerTrace(
      contracts: map<nat, Contract>, ghost limit: nat, id: nat) returns (failure: Option<Failure>)
      requires Ordered(contracts, limit) && Indexed()
      modifies this
      ensures functionSteps.Keys == old(functionSteps.Keys)
      ensures match Merge(contracts, old(functionSteps.Keys), limit, id)
              case Err(f) => failure == Some(f)
              case Ok(steps) => failure == None && trace == old(trace) + steps && Indexed()
      decreases Height(limit, id), 1, 0
    {
      if id !in contracts { return Some(ContractCallNotFound); }
      if HasTrace(contracts[id]) {
        failure := MergeExecutionTrace(contracts, limit, id, contracts[id].trace.value);
      } else {
        ghost var before, functions := trace, functionSteps.Keys;
        var s := Step(Untraced(id, if contracts[id].trace.Some? then TraceIsEmpty else NoDebuggerData), id);
        Push(s);
        failure := MergeAll(contracts, limit, id, contracts[id].children);
        AppendTwice(before, [s], MergeChildren(contracts, functions, limit, id, contracts[id].children));
      }
    }

    method MergeExecutionTrace(
      contracts: map<nat, Contract>, ghost limit: nat, id: nat, steps: seq<DebugEntry>)
      returns (failure: Option<Failure>)
      requires Ordered(contracts, limit) && Indexed() && id < limit
      requires CallsLater(steps, id)
      modifies this
      ensures functionSteps.Keys == old(functionSteps.Keys)
      ensures match Append(old(trace), MergeSteps(contracts, old(functionSteps.Keys), limit, id, steps))
              case Err(f) => failure == Some(f)
              case Ok(merged) => failure == None && trace == merged && Indexed()
      decreases Height(limit, id), 0, |steps|
    {
      ghost var functions := functionSteps.Keys;
      for i := 0 to |steps|
        invariant Indexed() && functionSteps.Keys == functions
        invariant Append(trace, MergeSteps(contracts, functions, limit, id, steps[i..]))
                  == Append(old(trace), MergeSteps(contracts, functions, limit, id, steps))
      {
        assert steps[i..][0] == steps[i] && steps[i..][1..] == steps[i + 1..];
        ghost var before, others := trace, MergeSteps(contracts, functions, limit, id, steps[i + 1..]);
        match steps[i] {
          case WithLocation(_, _, _, f, _) =>
            if f !in functionSteps { return Some(FunctionCallNotFound); }
            PushLocation(steps[i], id);
            AppendTwice(before, [Step(Located(steps[i]), id)], others);
          case WithContractCall(callee) =>
            failure := MergeDebuggerTrace(contracts, limit, callee);
            AppendJoins(before, Merge(contracts, functions, limit, callee), others);
            if failure.Some? { return; }
        }
      }
      assert trace + [] == trace;
      failure := None;
    }

    method MergeAll(
      contracts: map<nat, Contract>, ghost limit: nat, id: nat, children: seq<nat>) returns (failure: Option<Failure>)
      requires Ordered(contracts, limit) && Indexed() && id < limit
      requires forall i :: 0 <= i < |children| ==> id < children[i]
      modifies this
      ensures functionSteps.Keys == old(functionSteps.Keys)
      ensures match Append(old(trace), MergeChildren(contracts, old(functionSteps.Keys), limit, id, children))
              case Err(f) => failure == Some(f)
              case Ok(merged) => failure == None && trace == merged && Indexed()
      decreases Height(limit, id), 0, |children|
    {
      ghost var functions := functionSteps.Keys;
      for i := 0 to |children|
        invariant Indexed() && functionSteps.Keys == functions
        invariant Append(trace, MergeChildren(contracts, functions, limit, id, children[i..]))
                  == Append(old(trace), MergeChildren(contracts, functions, limit, id, children))
      {
        assert children[i..][0] == children[i] && children[i..][1..] == children[i + 1..];
        ghost var before, others := trace, MergeChildren(contracts, functions, limit, id, children[i + 1..]);
        failure := MergeDebuggerTrace(contracts, limit, children[i]);
        AppendJoins(before, Merge(contracts, functions, limit, children[i]), others);
        if failure.Some? { return; }
      }
      assert trace + [] == trace;
      failure := None;
    }
  }

  /** The step index of a function call: its first location entry, or else its contract call's. */
  function StepIndex(steps: seq<Step>, f: nat, contract: nat): Option<nat> {
    Or(First(steps, OfFunction(f)), First(steps, OfContract(contract)))
  }

  /**
   A step index points to the first location entry of the function call; a function call without one has the
   index of the first location entry of its contract call; and there is none only if neither has an entry.
   */
  lemma StepIndexIsFirst(steps: seq<Step>, f: nat, contract: nat)
    ensures var visited := exists i :: 0 <= i < |steps| && Concerns(steps[i], OfFunction(f));
            var key := if visited then OfFunction(f) else OfContract(contract);
            match StepIndex(steps, f, contract)
            case None => forall i :: 0 <= i < |steps| ==> !Concerns(steps[i], key)
            case Some(n) =>
              n < |steps| && Concerns(steps[n], key) && forall i :: 0 <= i < n ==> !Concerns(steps[i], key)
  {
    FirstIsFirst(steps, OfFunction(f));
    FirstIsFirst(steps, OfContract(contract));
  }

  /** `build`: `functions` maps each function call to its contract call. */
  method Build(contracts: map<nat, Contract>, functions: map<nat, nat>, ghost limit: nat, root: nat)
    returns (failure: Option<Failure>, trace: seq<Step>, contractIndexes: map<nat, nat>,
             functionIndexes: map<nat, Option<nat>>)
    requires Ordered(contracts, limit)
    ensures match Merge(contracts, functions.Keys, limit, root)
            case Err(f) => failure == Some(f)
            case Ok(steps) =>
              if exists f :: f in functions && First(steps, OfFunction(f)).None? && functions[f] !in contracts then
                failure == Some(ContractCallNotFound)
              else
                && failure == None && trace == steps
                && (forall c :: c in contractIndexes <==> First(trace, OfContract(c)).Some?)
                && (forall c :: c in contractIndexes ==> First(trace, OfContract(c)) == Some(contractIndexes[c]))
                && functionIndexes.Keys == functions.Keys
                && (forall f :: f in functions ==> functionIndexes[f] == StepIndex(trace, f, functions[f]))
  {
    var builder := new DebuggerTraceBuilder(functions.Keys);
    failure := builder.MergeDebuggerTrace(contracts, limit, root);
    trace, contractIndexes, functionIndexes := [], map[], map[];
    if failure.Some? { return; }
    trace, contractIndexes := builder.trace, builder.contractSteps;
    hide Merge, First;
    assert trace == Merge(contracts, functions.Keys, limit, root).value by {
      assert [] + builder.trace == builder.trace;
    }
    failure, functionIndexes := FillIndexes(contracts, functions, trace, contractIndexes, builder.functionSteps);
  }

  /** Function calls without an index get that of their contract call. */
  method FillIndexes(
    contracts: map<nat, Contract>, functions: map<nat, nat>, ghost trace: seq<Step>, contractIndexes: map<nat, nat>,
    functionSteps: map<nat, Option<nat>>)
    returns (failure: Option<Failure>, functionIndexes: map<nat, Option<nat>>)
    requires FunctionsIndexed(trace, functionSteps) && functionSteps.Keys == functions.Keys
    requires ContractsIndexed(trace, contractIndexes)
    ensures if exists f :: f in functions && First(trace, OfFunction(f)).None? && functions[f] !in contracts then
              failure == Some(ContractCallNotFound)
            else
              && failure == None && functionIndexes.Keys == functions.Keys
              && forall f :: f in functions ==> functionIndexes[f] == StepIndex(trace, f, functions[f])
  {
    hide First;
    failure, functionIndexes := None, functionSteps;
    var todo := functions.Keys;
    while todo != {}
      invariant todo <= functions.Keys && functionIndexes.Keys == functions.Keys
      invariant forall f :: f in todo ==> functionIndexes[f] == First(trace, OfFunction(f))
      invariant forall f :: f in functions && f !in todo ==> functionIndexes[f] == StepIndex(trace, f, functions[f])
      invariant forall f :: f in functions && f !in todo && First(trace, OfFunction(f)).None? ==>
                functions[f] in contracts
      decreases |todo|
    {
      var f :| f in todo;
      todo := todo - {f};
      if functionIndexes[f].None? {
        var c := functions[f];
        if c !in contracts { return Some(ContractCallNotFound), functionIndexes; }
        functionIndexes := functionIndexes[f := if c in contractIndexes then Some(contractIndexes[c]) else None];
      }
    }
  }
}
