/**
 The debugger trace of a transaction: the traces of its contract calls merged in the order of execution, and the
 step at which each function call and each contract call is first seen.
 */
module DebuggerTrace {
  import opened Wrappers
  import opened CallTrace
  import Invariants = CallTraceInvariants
  import Contracts = ContractCalls

  /** A contract call: the calls it made, and its own debugger trace if there is one. */
  datatype Contract = Contract(children: seq<nat>, trace: Option<seq<DebugEntry>>)

  datatype Reason = TraceIsEmpty | NoDebuggerData

  datatype MergedEntry = Located(entry: DebugEntry) | Untraced(contractCallId: nat, reason: Reason)

  /** An entry of the merged trace with the contract call whose trace it comes from. */
  datatype Step = Step(entry: MergedEntry, owner: nat) {
    predicate IsLocation() { entry.Located? && entry.entry.WithLocation? }
  }

  datatype Failure = ContractCallNotFound | FunctionCallNotFound

  type Merging = Result<seq<Step>, Failure>

  // ---------------------------------------------------------------- termination

  predicate HasTrace(c: Contract) { c.trace.Some? && c.trace.value != [] }

  /** The calls that merging a contract call goes on to: those in its trace, or else all it made. */
  function CalleesOf(c: Contract): seq<nat> {
    if HasTrace(c) then Invariants.Callees(c.trace.value) else c.children
  }

  /** Callees have larger ids than their caller, and ids are below `limit`. */
  ghost predicate Ordered(contracts: map<nat, Contract>, limit: nat) {
    && (forall id :: id in contracts ==> id < limit)
    && (forall id, i :: id in contracts && 0 <= i < |contracts[id].children| ==> id < contracts[id].children[i])
    && (forall id, i :: id in contracts && contracts[id].trace.Some? && 0 <= i < |contracts[id].trace.value| ==>
          contracts[id].trace.value[i].WithContractCall? ==> id < contracts[id].trace.value[i].calleeId)
  }

  ghost predicate CallsLater(trace: seq<DebugEntry>, id: nat) {
    forall i :: 0 <= i < |trace| && trace[i].WithContractCall? ==> id < trace[i].calleeId
  }

  ghost function Height(limit: nat, id: nat): nat { if id < limit then limit - id else 0 }

  /** The contract calls are those of the map, and their traces link the children of each in order. */
  ghost predicate AreTraced(contracts: map<nat, Contract>, calls: map<nat, Contracts.ContractCall>) {
    && contracts.Keys == calls.Keys
    && forall id :: id in calls ==>
         && contracts[id].children == calls[id].childrenCallIds
         && (contracts[id].trace.Some? ==> Invariants.Callees(contracts[id].trace.value) <= contracts[id].children)
  }

  /** The two builders make ordered calls: children are numbered after their parents, and traces call children. */
  lemma BuildersOrderCalls(calls: map<nat, Contracts.ContractCall>, contracts: map<nat, Contract>, limit: nat)
    requires Contracts.AllLinked(calls) && Contracts.Interval(calls, 1, limit) && AreTraced(contracts, calls)
    ensures Ordered(contracts, limit)
  {
    forall id, i | id in contracts && 0 <= i < |contracts[id].children| ensures id < contracts[id].children[i] {
      assert Contracts.Linked(calls, id);
    }
    forall id, i | id in contracts && contracts[id].trace.Some? && 0 <= i < |contracts[id].trace.value|
                   && contracts[id].trace.value[i].WithContractCall?
      ensures id < contracts[id].trace.value[i].calleeId
    {
      CalleeIsListed(contracts[id].trace.value, i);
      var callees := Invariants.Callees(contracts[id].trace.value);
      var k :| 0 <= k < |callees| && callees[k] == contracts[id].trace.value[i].calleeId;
      assert contracts[id].children[k] == callees[k];
    }
  }

  lemma {:induction false} CalleeIsListed(trace: seq<DebugEntry>, i: nat)
    requires i < |trace| && trace[i].WithContractCall?
    ensures trace[i].calleeId in Invariants.Callees(trace)
    decreases |trace|
  {
    if i < |trace| - 1 { CalleeIsListed(trace[..|trace| - 1], i); }
  }

  // ---------------------------------------------------------------- the merged trace

  function Append(a: seq<Step>, b: Merging): Merging {
    match b
    case Err(f) => Err(f)
    case Ok(steps) => Ok(a + steps)
  }

  function Join(a: Merging, b: Merging): Merging {
    match a
    case Err(f) => Err(f)
    case Ok(steps) => Append(steps, b)
  }

  /** `merge_debugger_trace`; `functions` are the known function calls. */
  function Merge(contracts: map<nat, Contract>, functions: set<nat>, ghost limit: nat, id: nat): Merging
    requires Ordered(contracts, limit)
    decreases Height(limit, id), 1, 0
  {
    if id !in contracts then Err(ContractCallNotFound)
    else if HasTrace(contracts[id]) then MergeSteps(contracts, functions, limit, id, contracts[id].trace.value)
    else
      var reason := if contracts[id].trace.Some? then TraceIsEmpty else NoDebuggerData;
      Append([Step(Untraced(id, reason), id)], MergeChildren(contracts, functions, limit, id, contracts[id].children))
  }

  function MergeSteps(
    contracts: map<nat, Contract>, functions: set<nat>, ghost limit: nat, id: nat, trace: seq<DebugEntry>): Merging
    requires Ordered(contracts, limit) && id < limit
    requires CallsLater(trace, id)
    decreases Height(limit, id), 0, |trace|
  {
    if trace == [] then Ok([])
    else
      match trace[0]
      case WithLocation(_, _, _, f, _) =>
        if f !in functions then Err(FunctionCallNotFound)
        else Append([Step(Located(trace[0]), id)], MergeSteps(contracts, functions, limit, id, trace[1..]))
      case WithContractCall(callee) =>
        Join(Merge(contracts, functions, limit, callee), MergeSteps(contracts, functions, limit, id, trace[1..]))
  }

  function MergeChildren(
    contracts: map<nat, Contract>, functions: set<nat>, ghost limit: nat, id: nat, children: seq<nat>): Merging
    requires Ordered(contracts, limit) && id < limit
    requires forall i :: 0 <= i < |children| ==> id < children[i]
    decreases Height(limit, id), 0, |children|
  {
    if children == [] then Ok([])
    else Join(Merge(contracts, functions, limit, children[0]),
              MergeChildren(contracts, functions, limit, id, children[1..]))
  }

  // ---------------------------------------------------------------- first steps

  datatype Key = OfFunction(functionCallId: nat) | OfContract(contractCallId: nat)

  predicate Concerns(s: Step, key: Key) {
    s.IsLocation() && match key
                      case OfFunction(f) => s.entry.entry.functionCallId == f
                      case OfContract(c) => s.owner == c
  }

  /** The position of the first location entry that concerns `key`. */
  function First(steps: seq<Step>, key: Key): Option<nat>
    decreases |steps|
  {
    if steps == [] then None
    else
      var earlier := First(steps[..|steps| - 1], key);
      if earlier.Some? then earlier
      else if Concerns(steps[|steps| - 1], key) then Some(|steps| - 1)
      else None
  }

  lemma FirstAfter(steps: seq<Step>, s: Step, key: Key)
    ensures First(steps + [s], key)
            == if First(steps, key).Some? then First(steps, key) else if Concerns(s, key) then Some(|steps|) else None
  {
    assert (steps + [s])[..|steps|] == steps;
  }

  lemma {:induction false} FirstIsFirst(steps: seq<Step>, key: Key)
    ensures match First(steps, key)
            case None => forall i :: 0 <= i < |steps| ==> !Concerns(steps[i], key)
            case Some(n) =>
              n < |steps| && Concerns(steps[n], key) && forall i :: 0 <= i < n ==> !Concerns(steps[i], key)
    decreases |steps|
  {
    if steps != [] {
      var front := steps[..|steps| - 1];
      FirstIsFirst(front, key);
      assert forall i :: 0 <= i < |front| ==> front[i] == steps[i];
    }
  }

  // ---------------------------------------------------------------- each trace once, in order

  function Locations(trace: seq<DebugEntry>): seq<DebugEntry> {
    if trace == [] then []
    else (if trace[0].WithLocation? then [trace[0]] else []) + Locations(trace[1..])
  }

  /** The location entries of one contract call within the merged trace, in order. */
  function OwnedBy(steps: seq<Step>, owner: nat): seq<DebugEntry> {
    if steps == [] then []
    else
      (if steps[0].IsLocation() && steps[0].owner == owner then [steps[0].entry.entry] else [])
      + OwnedBy(steps[1..], owner)
  }

  lemma {:induction false} OwnedByJoins(a: seq<Step>, b: seq<Step>, owner: nat)
    ensures OwnedBy(a + b, owner) == OwnedBy(a, owner) + OwnedBy(b, owner)
    decreases |a|
  {
    if a == [] {
      assert a + b == b;
    } else {
      assert (a + b)[1..] == a[1..] + b;
      OwnedByJoins(a[1..], b, owner);
    }
  }

  /** Preorder numbering: a call's subtree is the interval from its id to `end`, and callees' intervals follow. */
  ghost predicate Nested(contracts: map<nat, Contract>, limit: nat, end: nat -> nat) {
    && Ordered(contracts, limit)
    && forall id :: id in contracts ==> id < end(id) && Follow(CalleesOf(contracts[id]), id + 1, end(id), end)
  }

  ghost predicate Follow(ids: seq<nat>, first: nat, last: nat, end: nat -> nat)
    decreases |ids|
  {
    ids == [] || (first <= ids[0] < end(ids[0]) <= last && Follow(ids[1..], end(ids[0]), last, end))
  }

  /** All entries come from call `id`, or from calls of the interval. */
  ghost predicate OwnersWithin(steps: seq<Step>, id: nat, first: nat, end: nat) {
    forall i :: 0 <= i < |steps| ==> steps[i].owner == id || first <= steps[i].owner < end
  }

  /** A call's location entries are all there, in the order of its own trace; or none is. */
  ghost predicate Whole(contracts: map<nat, Contract>, steps: seq<Step>, c: nat) {
    OwnedBy(steps, c) == [] || (c in contracts && OwnedBy(steps, c) == OwnLocations(contracts[c]))
  }

  function OwnLocations(c: Contract): seq<DebugEntry> {
    if HasTrace(c) then Locations(c.trace.value) else []
  }

  lemma {:induction false} OthersOwnNothing(steps: seq<Step>, id: nat, first: nat, end: nat, owner: nat)
    requires OwnersWithin(steps, id, first, end) && owner != id && !(first <= owner < end)
    ensures OwnedBy(steps, owner) == []
    decreases |steps|
  {
    if steps != [] { OthersOwnNothing(steps[1..], id, first, end, owner); }
  }

  /** A callee's entries, then the rest of the caller's. */
  lemma WholeJoins(
    contracts: map<nat, Contract>, below: seq<Step>, others: seq<Step>, id: nat, callee: nat, mid: nat,
    end: nat, c: nat)
    requires id < callee < mid <= end && c != id
    requires OwnersWithin(below, callee, callee, mid) && OwnersWithin(others, id, mid, end)
    requires Whole(contracts, below, c) && Whole(contracts, others, c)
    ensures Whole(contracts, below + others, c)
  {
    OwnedByJoins(below, others, c);
    if callee <= c < mid {
      OthersOwnNothing(others, id, mid, end, c);
    } else {
      OthersOwnNothing(below, callee, callee, mid, c);
    }
  }

  lemma OneCallee(trace: seq<DebugEntry>)
    requires |trace| == 1
    ensures Invariants.Callees(trace[1..]) == []
    ensures Invariants.Callees(trace) == if trace[0].WithContractCall? then [trace[0].calleeId] else []
  {
    assert trace[..0] == [] && trace[1..] == [];
  }

  lemma LastCallee(trace: seq<DebugEntry>)
    requires trace != []
    ensures var last := trace[|trace| - 1];
            Invariants.Callees(trace)
            == Invariants.Callees(trace[..|trace| - 1]) + if last.WithContractCall? then [last.calleeId] else []
  {
    var front := Invariants.Callees(trace[..|trace| - 1]);
    assert front + [] == front;
  }

  lemma {:induction false} CalleesUnfold(trace: seq<DebugEntry>)
    requires trace != []
    ensures Invariants.Callees(trace)
            == (if trace[0].WithContractCall? then [trace[0].calleeId] else []) + Invariants.Callees(trace[1..])
    decreases |trace|
  {
    hide Invariants.Callees;
    if |trace| == 1 {
      OneCallee(trace);
    } else {
      CalleesUnfold(trace[..|trace| - 1]);
      LastCallee(trace);
      LastCallee(trace[1..]);
      assert trace[1..][|trace[1..]| - 1] == trace[|trace| - 1];
      assert trace[..|trace| - 1][1..] == trace[1..][..|trace| - 2];
    }
  }

  /** What holds of the steps merged for call `id` itself, and for all others. */
  ghost predicate InOrder(
    contracts: map<nat, Contract>, steps: seq<Step>, id: nat, first: nat, end: nat, own: seq<DebugEntry>) {
    && OwnersWithin(steps, id, first, end) && OwnedBy(steps, id) == own
    && forall c :: c != id ==> Whole(contracts, steps, c)
  }

  lemma InOrderJoins(
    contracts: map<nat, Contract>, below: seq<Step>, others: seq<Step>, id: nat, callee: nat, mid: nat,
    end: nat, own: seq<DebugEntry>)
    requires id < callee < mid <= end && callee in contracts
    requires InOrder(contracts, below, callee, callee + 1, mid, OwnLocations(contracts[callee]))
    requires InOrder(contracts, others, id, mid, end, own)
    ensures InOrder(contracts, below + others, id, callee, end, own)
  {
    forall c | c != id ensures Whole(contracts, below + others, c) {
      assert Whole(contracts, below, c) && Whole(contracts, others, c);
      WholeJoins(contracts, below, others, id, callee, mid, end, c);
    }
    OwnedByJoins(below, others, id);
    OthersOwnNothing(below, callee, callee, mid, id);
    assert [] + own == own;
  }

  lemma InOrderAppends(
    contracts: map<nat, Contract>, s: Step, others: seq<Step>, id: nat, first: nat, end: nat,
    own: seq<DebugEntry>)
    requires s.owner == id && InOrder(contracts, others, id, first, end, own)
    ensures InOrder(contracts, [s] + others, id, first, end, (if s.IsLocation() then [s.entry.entry] else []) + own)
  {
    assert ([s] + others)[1..] == others;
    forall c | c != id ensures Whole(contracts, [s] + others, c) {
      assert OwnedBy([s] + others, c) == [] + OwnedBy(others, c);
      assert Whole(contracts, others, c);
    }
  }

  lemma NothingInOrder(contracts: map<nat, Contract>, id: nat, first: nat, end: nat)
    ensures InOrder(contracts, [], id, first, end, [])
  {
  }

  /**
   Under preorder numbering the merged trace of a call has the call's own location entries exactly once and in
   order, only entries of calls below it besides, and of each of these all in order or none.
   */
  lemma {:induction false} MergeKeepsOrder(
    contracts: map<nat, Contract>, functions: set<nat>, limit: nat, end: nat -> nat, id: nat, steps: seq<Step>)
    requires Nested(contracts, limit, end) && Merge(contracts, functions, limit, id) == Ok(steps)
    ensures id in contracts && InOrder(contracts, steps, id, id + 1, end(id), OwnLocations(contracts[id]))
    decreases Height(limit, id), 1, 0
  {
    hide InOrder, MergeSteps, MergeChildren, Locations, Follow;
    if HasTrace(contracts[id]) {
      StepsKeepOrder(contracts, functions, limit, end, id, contracts[id].trace.value, id + 1, steps);
    } else {
      var reason := if contracts[id].trace.Some? then TraceIsEmpty else NoDebuggerData;
      var below := MergeChildren(contracts, functions, limit, id, contracts[id].children).value;
      ChildrenKeepOrder(contracts, functions, limit, end, id, contracts[id].children, id + 1, below);
      InOrderAppends(contracts, Step(Untraced(id, reason), id), below, id, id + 1, end(id), []);
    }
  }

  lemma {:induction false} StepsKeepOrder(
    contracts: map<nat, Contract>, functions: set<nat>, limit: nat, end: nat -> nat, id: nat, trace: seq<DebugEntry>,
    first: nat, steps: seq<Step>)
    requires Nested(contracts, limit, end) && id < limit && id < first <= end(id)
    requires CallsLater(trace, id)
    requires Follow(Invariants.Callees(trace), first, end(id), end)
    requires MergeSteps(contracts, functions, limit, id, trace) == Ok(steps)
    ensures InOrder(contracts, steps, id, first, end(id), Locations(trace))
    decreases Height(limit, id), 0, |trace|
  {
    hide InOrder, Merge, MergeSteps, Nested, Invariants.Callees, Follow, Locations, CallsLater, OwnLocations, Ordered;
    NestedIsOrdered(contracts, limit, end);
    if trace == [] {
      NoSteps(contracts, functions, limit, id);
      NothingInOrder(contracts, id, first, end(id));
    } else {
      StepsUnfold(contracts, functions, limit, id, trace, steps);
      FollowUnfolds(trace, first, end(id), end);
      var others := MergeSteps(contracts, functions, limit, id, trace[1..]).value;
      if trace[0].WithLocation? {
        StepsKeepOrder(contracts, functions, limit, end, id, trace[1..], first, others);
        InOrderAppends(contracts, Step(Located(trace[0]), id), others, id, first, end(id), Locations(trace[1..]));
      } else {
        var callee := trace[0].calleeId;
        var below := Merge(contracts, functions, limit, callee).value;
        MergeKeepsOrder(contracts, functions, limit, end, callee, below);
        StepsKeepOrder(contracts, functions, limit, end, id, trace[1..], end(callee), others);
        InOrderJoins(contracts, below, others, id, callee, end(callee), end(id), Locations(trace[1..]));
        InOrderWidens(contracts, below + others, id, callee, first, end(id), Locations(trace));
      }
    }
  }

  lemma NestedIsOrdered(contracts: map<nat, Contract>, limit: nat, end: nat -> nat)
    requires Nested(contracts, limit, end)
    ensures Ordered(contracts, limit)
  {
  }

  lemma NoSteps(contracts: map<nat, Contract>, functions: set<nat>, limit: nat, id: nat)
    requires Ordered(contracts, limit) && id < limit
    ensures CallsLater([], id) && MergeSteps(contracts, functions, limit, id, []) == Ok([]) && Locations([]) == []
  {
  }

  /** The first entry and the others. */
  lemma StepsUnfold(
    contracts: map<nat, Contract>, functions: set<nat>, limit: nat, id: nat, trace: seq<DebugEntry>, steps: seq<Step>)
    requires Ordered(contracts, limit) && id < limit && trace != [] && CallsLater(trace, id)
    requires MergeSteps(contracts, functions, limit, id, trace) == Ok(steps)
    ensures CallsLater(trace[1..], id) && MergeSteps(contracts, functions, limit, id, trace[1..]).Ok?
    ensures var others := MergeSteps(contracts, functions, limit, id, trace[1..]).value;
            if trace[0].WithLocation? then
              && steps == [Step(Located(trace[0]), id)] + others
              && Locations(trace) == [trace[0]] + Locations(trace[1..])
            else
              && id < trace[0].calleeId && Merge(contracts, functions, limit, trace[0].calleeId).Ok?
              && steps == Merge(contracts, functions, limit, trace[0].calleeId).value + others
              && Locations(trace) == Locations(trace[1..])
  {
    hide Merge, Ordered;
    assert [] + Locations(trace[1..]) == Locations(trace[1..]);
  }

  lemma FollowUnfolds(trace: seq<DebugEntry>, first: nat, last: nat, end: nat -> nat)
    requires trace != [] && Follow(Invariants.Callees(trace), first, last, end)
    ensures match trace[0]
            case WithLocation(_, _, _, _, _) => Follow(Invariants.Callees(trace[1..]), first, last, end)
            case WithContractCall(callee) =>
              first <= callee < end(callee) <= last && Follow(Invariants.Callees(trace[1..]), end(callee), last, end)
  {
    CalleesUnfold(trace);
    hide Invariants.Callees;
    var others := Invariants.Callees(trace[1..]);
    assert [] + others == others;
    if trace[0].WithContractCall? { assert ([trace[0].calleeId] + others)[1..] == others; }
  }

  lemma InOrderWidens(
    contracts: map<nat, Contract>, steps: seq<Step>, id: nat, first: nat, earlier: nat, end: nat,
    own: seq<DebugEntry>)
    requires earlier <= first && InOrder(contracts, steps, id, first, end, own)
    ensures InOrder(contracts, steps, id, earlier, end, own)
  {
  }

  lemma {:induction false} ChildrenKeepOrder(
    contracts: map<nat, Contract>, functions: set<nat>, limit: nat, end: nat -> nat, id: nat, children: seq<nat>,
    first: nat, steps: seq<Step>)
    requires Nested(contracts, limit, end) && id < limit && id < first <= end(id)
    requires forall i :: 0 <= i < |children| ==> id < children[i]
    requires Follow(children, first, end(id), end)
    requires MergeChildren(contracts, functions, limit, id, children) == Ok(steps)
    ensures InOrder(contracts, steps, id, first, end(id), [])
    decreases Height(limit, id), 0, |children|
  {
    if children == [] {
      NothingInOrder(contracts, id, first, end(id));
    } else {
      hide InOrder, Merge, Nested;
      var below := Merge(contracts, functions, limit, children[0]).value;
      var others := MergeChildren(contracts, functions, limit, id, children[1..]).value;
      MergeKeepsOrder(contracts, functions, limit, end, children[0], below);
      ChildrenKeepOrder(contracts, functions, limit, end, id, children[1..], end(children[0]), others);
      InOrderJoins(contracts, below, others, id, children[0], end(children[0]), end(id), []);
      InOrderWidens(contracts, below + others, id, children[0], first, end(id), []);
    }
  }

  // ---------------------------------------------------------------- the contract call builder nests calls

  /** Where the subtree of each call ends. */
  function Ends(nodes: seq<Contracts.CallTree>, next: nat): map<nat, nat> {
    if nodes == [] then map[]
    else
      match nodes[0]
      case DeployWithoutConstructor => Ends(nodes[1..], next)
      case EntryPoint(_, _, nested) =>
        var mid := next + 1 + Contracts.Size(nested);
        Ends(nested, next + 1)[next := mid] + Ends(nodes[1..], mid)
  }

  ghost predicate Agrees(end: nat -> nat, ends: map<nat, nat>) {
    forall id :: id in ends ==> end(id) == ends[id]
  }

  ghost predicate AllFollow(calls: map<nat, Contracts.ContractCall>, end: nat -> nat) {
    forall id :: id in calls ==> id < end(id) && Follow(calls[id].childrenCallIds, id + 1, end(id), end)
  }

  lemma {:induction false} EndsAreContiguous(nodes: seq<Contracts.CallTree>, next: nat)
    ensures forall id: nat :: id in Ends(nodes, next) <==> next <= id < next + Contracts.Size(nodes)
    decreases nodes
  {
    if nodes != [] {
      match nodes[0] {
        case DeployWithoutConstructor => EndsAreContiguous(nodes[1..], next);
        case EntryPoint(_, _, nested) =>
          EndsAreContiguous(nested, next + 1);
          EndsAreContiguous(nodes[1..], next + 1 + Contracts.Size(nested));
      }
    }
  }

  lemma EndsSplit(nodes: seq<Contracts.CallTree>, next: nat, end: nat -> nat)
    requires nodes != [] && nodes[0].EntryPoint? && Agrees(end, Ends(nodes, next))
    ensures var nested, mid := nodes[0].nested, next + 1 + Contracts.Size(nodes[0].nested);
            end(next) == mid && Agrees(end, Ends(nested, next + 1)) && Agrees(end, Ends(nodes[1..], mid))
  {
    var nested, mid := nodes[0].nested, next + 1 + Contracts.Size(nodes[0].nested);
    EndsAreContiguous(nested, next + 1);
    EndsAreContiguous(nodes[1..], mid);
    var below, others := Ends(nested, next + 1), Ends(nodes[1..], mid);
    assert Ends(nodes, next) == below[next := mid] + others;
    hide Ends, Contracts.Size;
    assert below.Keys !! others.Keys && next !in below && next !in others;
    AgreesSplits(end, below, next, mid, others);
  }

  lemma AgreesSplits(end: nat -> nat, below: map<nat, nat>, next: nat, mid: nat, others: map<nat, nat>)
    requires Agrees(end, below[next := mid] + others) && below.Keys !! others.Keys && next !in below && next !in others
    ensures end(next) == mid && Agrees(end, below) && Agrees(end, others)
  {
    var all := below[next := mid] + others;
    assert next in all && all[next] == mid;
    forall id | id in below ensures end(id) == below[id] { assert id in all && all[id] == below[id]; }
    forall id | id in others ensures end(id) == others[id] { assert id in all && all[id] == others[id]; }
  }

  lemma {:induction false} CallsFollow(
    nodes: seq<Contracts.CallTree>, parent: nat, level: nat, next: nat, end: nat -> nat)
    requires Agrees(end, Ends(nodes, next))
    ensures Follow(Contracts.Ids(nodes, next), next, next + Contracts.Size(nodes), end)
    ensures AllFollow(Contracts.Calls(nodes, parent, level, next), end)
    decreases nodes
  {
    hide Ends, Agrees, AllFollow, Follow, Contracts.Calls, Contracts.Below, Contracts.Ids, Contracts.Size;
    if nodes == [] {
      NothingFollows(parent, level, next, end);
    } else if nodes[0].DeployWithoutConstructor? {
      Contracts.DeployUnfolds(nodes, parent, level, next);
      DeployHasNoEnd(nodes, next);
      CallsFollow(nodes[1..], parent, level, next, end);
    } else {
      var call, mid := nodes[0], next + 1 + Contracts.Size(nodes[0].nested);
      EndsSplit(nodes, next, end);
      Contracts.EntryUnfolds(nodes, parent, level, next);
      BelowUnfolds(call, parent, level, next);
      CallsFollow(call.nested, next, level + 1, next + 1, end);
      CallsFollow(nodes[1..], parent, level, mid, end);
      OwnFollows(Contracts.Calls(call.nested, next, level + 1, next + 1), next,
        Contracts.ContractCall(next, parent, Contracts.Ids(call.nested, next + 1), level + 1, call.hidden, call.failed),
        end);
      AllFollowJoins(Contracts.Below(call.hidden, call.failed, call.nested, parent, level, next),
        Contracts.Calls(nodes[1..], parent, level, mid), end);
      FollowOn(next, mid, next + Contracts.Size(nodes), Contracts.Ids(nodes[1..], mid), end);
    }
  }

  lemma NothingFollows(parent: nat, level: nat, next: nat, end: nat -> nat)
    ensures AllFollow(Contracts.Calls([], parent, level, next), end)
    ensures Follow(Contracts.Ids([], next), next, next + Contracts.Size([]), end)
  {
  }

  lemma DeployHasNoEnd(nodes: seq<Contracts.CallTree>, next: nat)
    requires nodes != [] && nodes[0].DeployWithoutConstructor?
    ensures Ends(nodes, next) == Ends(nodes[1..], next)
  {
  }

  lemma BelowUnfolds(call: Contracts.CallTree, parent: nat, level: nat, id: nat)
    requires call.EntryPoint?
    ensures Contracts.Below(call.hidden, call.failed, call.nested, parent, level, id)
            == Contracts.Calls(call.nested, id, level + 1, id + 1)
                 [id := Contracts.ContractCall(id, parent, Contracts.Ids(call.nested, id + 1), level + 1, call.hidden,
                                               call.failed)]
  {
  }

  lemma OwnFollows(calls: map<nat, Contracts.ContractCall>, id: nat, own: Contracts.ContractCall, end: nat -> nat)
    requires AllFollow(calls, end) && id < end(id) && Follow(own.childrenCallIds, id + 1, end(id), end)
    ensures AllFollow(calls[id := own], end)
  {
  }

  lemma AllFollowJoins(a: map<nat, Contracts.ContractCall>, b: map<nat, Contracts.ContractCall>, end: nat -> nat)
    requires AllFollow(a, end) && AllFollow(b, end)
    ensures AllFollow(a + b, end)
  {
  }

  lemma FollowOn(id: nat, mid: nat, last: nat, others: seq<nat>, end: nat -> nat)
    requires id < mid <= last && end(id) == mid && Follow(others, mid, last, end)
    ensures Follow([id] + others, id, last, end)
  {
    assert ([id] + others)[1..] == others;
  }

  lemma {:induction false} FollowPrefix(ids: seq<nat>, prefix: seq<nat>, first: nat, last: nat, end: nat -> nat)
    requires Follow(ids, first, last, end) && prefix <= ids
    ensures Follow(prefix, first, last, end)
    decreases |ids|
  {
    if prefix != [] { FollowPrefix(ids[1..], prefix[1..], end(ids[0]), last, end); }
  }

  /** With the ids of the contract call builder, and traces that link children in order, the calls are nested. */
  lemma BuildersNestCalls(failed: bool, nested: seq<Contracts.CallTree>, contracts: map<nat, Contract>, end: nat -> nat)
    requires AreTraced(contracts, Contracts.AllCalls(failed, nested))
    requires end(1) == 2 + Contracts.Size(nested) && Agrees(end, Ends(nested, 2))
    ensures Nested(contracts, 2 + Contracts.Size(nested), end)
  {
    hide Contracts.AllCalls, Contracts.Size, Contracts.AllLinked, Contracts.Interval, Ordered, AllFollow, Ends, Agrees;
    hide AreTraced, Follow, CalleesOf;
    var calls := Contracts.AllCalls(failed, nested);
    Contracts.AllCallsAreATree(failed, nested);
    BuildersOrderCalls(calls, contracts, 2 + Contracts.Size(nested));
    RootFollows(failed, nested, end);
    ContractsFollow(calls, contracts, end);
  }

  lemma RootFollows(failed: bool, nested: seq<Contracts.CallTree>, end: nat -> nat)
    requires end(1) == 2 + Contracts.Size(nested) && Agrees(end, Ends(nested, 2))
    ensures AllFollow(Contracts.AllCalls(failed, nested), end)
  {
    hide Contracts.Calls, Contracts.Ids, Contracts.Size, AllFollow, Follow, Ends, Agrees;
    CallsFollow(nested, 1, 0, 2, end);
    OwnFollows(Contracts.Calls(nested, 1, 0, 2), 1, Contracts.RootCall(failed, nested), end);
  }

  lemma ContractsFollow(calls: map<nat, Contracts.ContractCall>, contracts: map<nat, Contract>, end: nat -> nat)
    requires AllFollow(calls, end) && AreTraced(contracts, calls)
    ensures forall id :: id in contracts ==> id < end(id) && Follow(CalleesOf(contracts[id]), id + 1, end(id), end)
  {
    hide Follow;
    forall id | id in contracts ensures id < end(id) && Follow(CalleesOf(contracts[id]), id + 1, end(id), end) {
      FollowPrefix(calls[id].childrenCallIds, CalleesOf(contracts[id]), id + 1, end(id), end);
    }
  }
}
