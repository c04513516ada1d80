/** The builder of the contract call map: counter, map, failure and flame chart, updated during the traversal. */
module ContractCallsBuilding {
  import opened Wrappers
  import opened ContractCalls

  /** The map after call `current` has made the calls of `nodes`. */
  ghost function Extended(
    calls: map<nat, ContractCall>, current: nat, nodes: seq<CallTree>, level: nat, next: nat): map<nat, ContractCall>
    requires current in calls
  {
    (calls + Calls(nodes, current, level, next))
      [current := calls[current].(childrenCallIds := calls[current].childrenCallIds + Ids(nodes, next))]
  }

  ghost predicate IsFresh(calls: map<nat, ContractCall>, next: nat) {
    forall id :: id in calls ==> id < next
  }

  // ---------------------------------------------------------------- one node, then the others

  lemma ExtendedOnce(
    calls: map<nat, ContractCall>, current: nat, node: CallTree, others: seq<CallTree>, level: nat, next: nat)
    requires IsFresh(calls, next) && current in calls
    ensures var mid := Extended(calls, current, [node], level, next);
            && current in mid && IsFresh(mid, next + Size([node]))
            && Extended(mid, current, others, level, next + Size([node]))
               == Extended(calls, current, [node] + others, level, next)
            && Size([node] + others) == Size([node]) + Size(others)
  {
    hide Calls, Ids, Size, Interval;
    var a, b := Calls([node], current, level, next), Calls(others, current, level, next + Size([node]));
    CallsAreContiguous([node], current, level, next);
    FirstAndOthers(node, others, current, level, next);
    StaysFresh(calls, a, current, level, next, [node]);
    var front, back, kids := Ids([node], next), Ids(others, next + Size([node])), calls[current].childrenCallIds;
    assert (kids + front) + back == kids + (front + back);
    AddTwice(calls, a, b, current, calls[current].(childrenCallIds := kids + front),
             calls[current].(childrenCallIds := kids + (front + back)));
  }

  lemma StaysFresh(
    calls: map<nat, ContractCall>, a: map<nat, ContractCall>, current: nat, level: nat, next: nat,
    nodes: seq<CallTree>)
    requires IsFresh(calls, next) && current in calls && a == Calls(nodes, current, level, next)
    requires Interval(a, next, next + Size(nodes))
    ensures IsFresh(Extended(calls, current, nodes, level, next), next + Size(nodes))
  {
    hide Calls, Ids, Size;
  }

  lemma AddTwice<V>(m: map<nat, V>, a: map<nat, V>, b: map<nat, V>, id: nat, x: V, y: V)
    ensures ((m + a)[id := x] + b)[id := y] == (m + (a + b))[id := y]
  {
  }

  lemma NothingThere(current: nat, level: nat, next: nat)
    ensures Size([]) == 0 && Ids([], next) == [] && Calls([], current, level, next) == map[]
            && Chart([], next) == [] && Failures([], level, next) == []
  {
  }

  lemma NoneBefore<V>(calls: map<nat, V>, ids: seq<nat>, chart: seq<FlameNode>, failures: seq<Failure>)
    ensures map[] + calls == calls && [] + ids == ids && [] + chart == chart && [] + failures == failures
  {
  }

  lemma ChartUnfolds(nodes: seq<CallTree>, level: nat, next: nat)
    requires nodes != [] && nodes[0].EntryPoint?
    ensures var call, mid := nodes[0], next + 1 + Size(nodes[0].nested);
            && Chart(nodes, next)
               == (if call.hidden then Chart(call.nested, next + 1)
                   else [FlameNode(next, Chart(call.nested, next + 1))])
                 + Chart(nodes[1..], mid)
            && Failures(nodes, level, next)
               == (if call.failed then [Failure(next, level + 1)] else []) + Failures(call.nested, level + 1, next + 1)
                 + Failures(nodes[1..], level, mid)
  {
    hide Size;
  }

  lemma FirstAndOthers(node: CallTree, others: seq<CallTree>, current: nat, level: nat, next: nat)
    ensures var nodes, mid := [node] + others, next + Size([node]);
            && Size(nodes) == Size([node]) + Size(others)
            && Ids(nodes, next) == Ids([node], next) + Ids(others, mid)
            && Calls(nodes, current, level, next)
               == Calls([node], current, level, next) + Calls(others, current, level, mid)
            && Chart(nodes, next) == Chart([node], next) + Chart(others, mid)
            && Failures(nodes, level, next) == Failures([node], level, next) + Failures(others, level, mid)
  {
    hide Below, Size, Ids, Calls, Chart, Failures;
    var nodes := [node] + others;
    assert nodes[1..] == others && nodes[0] == node && [node][1..] == [];
    NothingThere(current, level, next);
    NothingThere(current, level, next + Size([node]));
    if node.DeployWithoutConstructor? {
      DeployUnfolds(nodes, current, level, next);
      DeployUnfolds([node], current, level, next);
      NoneBefore(Calls(others, current, level, next), Ids(others, next), Chart(others, next),
                 Failures(others, level, next));
    } else {
      EntryUnfolds(nodes, current, level, next);
      ChartUnfolds(nodes, level, next);
      CallUnfolds(node, current, level, next);
    }
  }

  lemma {:induction false} ReportAllJoins(reported: Option<Failure>, a: seq<Failure>, b: seq<Failure>)
    ensures ReportAll(reported, a + b) == ReportAll(ReportAll(reported, a), b)
    decreases |a|
  {
    if a == [] {
      assert a + b == b;
    } else {
      assert (a + b)[1..] == a[1..] + b;
      ReportAllJoins(Report(reported, a[0]), a[1..], b);
    }
  }

  // ---------------------------------------------------------------- one call and what is below it

  lemma CallUnfolds(node: CallTree, current: nat, level: nat, next: nat)
    requires node.EntryPoint?
    ensures var nested := node.nested;
            && Size([node]) == 1 + Size(nested) && Ids([node], next) == [next]
            && Calls([node], current, level, next) == Below(node.hidden, node.failed, nested, current, level, next)
            && Chart([node], next)
               == (if node.hidden then Chart(nested, next + 1) else [FlameNode(next, Chart(nested, next + 1))])
            && Failures([node], level, next)
               == (if node.failed then [Failure(next, level + 1)] else []) + Failures(nested, level + 1, next + 1)
  {
    var none := next + 1 + Size(node.nested);
    assert [node][1..] == [];
    assert Size([]) == 0 && Ids([], none) == [] && Chart([], none) == [] && Failures([], level, none) == [];
    var below := Below(node.hidden, node.failed, node.nested, current, level, next);
    hide Below;
    assert below + map[] == below;
  }

  lemma CallExtends(
    calls: map<nat, ContractCall>, current: nat, node: CallTree, level: nat, next: nat,
    begun: map<nat, ContractCall>)
    requires node.EntryPoint? && IsFresh(calls, next) && current in calls
    requires begun == calls[next := ContractCall(next, current, [], level + 1, node.hidden, node.failed)]
                           [current := calls[current].(childrenCallIds := calls[current].childrenCallIds + [next])]
    ensures next in begun && IsFresh(begun, next + 1)
    ensures Extended(begun, next, node.nested, level + 1, next + 1) == Extended(calls, current, [node], level, next)
  {
    CallUnfolds(node, current, level, next);
    CallsAreContiguous(node.nested, next, level + 1, next + 1);
    var below := Calls(node.nested, next, level + 1, next + 1);
    var own := ContractCall(next, current, Ids(node.nested, next + 1), level + 1, node.hidden, node.failed);
    assert [] + Ids(node.nested, next + 1) == Ids(node.nested, next + 1);
    assert Below(node.hidden, node.failed, node.nested, current, level, next) == below[next := own];
    hide Calls, Ids, Size, Below;
    CloseMaps(calls, below, next, current, ContractCall(next, current, [], level + 1, node.hidden, node.failed),
      begun[current], own);
  }

  lemma CloseMaps<V>(m: map<nat, V>, below: map<nat, V>, id: nat, parent: nat, start: V, listed: V, own: V)
    requires parent != id && parent !in below
    ensures (m[id := start][parent := listed] + below)[id := own] == (m + below[id := own])[parent := listed]
  {
  }

  lemma IsBelow(calls: map<nat, ContractCall>, next: nat, current: nat)
    requires IsFresh(calls, next) && current in calls
    ensures current < next
  {
  }

  // ---------------------------------------------------------------- the builder

  class ContractCallsMapBuilder {
    var contractCalls: map<nat, ContractCall>
    var nextCallId: nat
    var deepestFailedCallId: Option<nat>
    var deepestFailedLevel: nat

    ghost function Reported(): Option<Failure> reads this {
      if deepestFailedCallId.None? then None else Some(Failure(deepestFailedCallId.value, deepestFailedLevel))
    }

    ghost predicate Valid() reads this {
      IsFresh(contractCalls, nextCallId)
    }

    /** `new_from_cheatnet_state`: the whole map, and the flame chart. */
    constructor ()
      ensures contractCalls == map[] && nextCallId == 1 && Reported() == None
    {
      contractCalls, nextCallId, deepestFailedCallId, deepestFailedLevel := map[], 1, None, 0;
    }

    method Build(failed: bool, nested: seq<CallTree>) returns (flameChart: seq<FlameNode>)
      requires contractCalls == map[] && nextCallId == 1 && Reported() == None
      modifies this
      ensures contractCalls == AllCalls(failed, nested) && nextCallId == 2 + Size(nested)
      ensures AllLinked(contractCalls) && ParentsAgree(contractCalls)
      ensures flameChart == Chart(nested, 2) && Preorder(flameChart, 0) == VisibleCalls(contractCalls, 1, nextCallId)
      ensures Reported() == ReportAll(None, Failures(nested, 0, 2))
    {
      hide Extended, AllCalls, RootCall, Size, Interval, AllLinked, ParentsAgree, VisibleCalls, Preorder, Chart;
      hide Failures, ReportAll;
      contractCalls := map[1 := ContractCall(1, 0, [], 0, true, failed)];
      nextCallId := 2;
      RootExtends(failed, nested);
      AllCallsAreATree(failed, nested);
      FlameChartShowsVisibleCalls(failed, nested);
      flameChart := Traverse(1, nested, [], 0);
      assert [] + Chart(nested, 2) == Chart(nested, 2);
    }

    /** `traverse_cheatnet_state_calltrace`: `chart` is the list that the visible calls are pushed to. */
    method Traverse(
      current: nat, nodes: seq<CallTree>, chart: seq<FlameNode>, level: nat) returns (after: seq<FlameNode>)
      requires Valid() && current in contractCalls
      modifies this
      ensures Valid()
      ensures contractCalls == Extended(old(contractCalls), current, nodes, level, old(nextCallId))
      ensures nextCallId == old(nextCallId) + Size(nodes)
      ensures after == chart + Chart(nodes, old(nextCallId))
      ensures Reported() == ReportAll(old(Reported()), Failures(nodes, level, old(nextCallId)))
      decreases nodes
    {
      hide Extended, Size, Chart, Failures, ReportAll, IsFresh;
      after := chart;
      assert nodes[0..] == nodes;
      for i := 0 to |nodes|
        invariant Valid() && current in contractCalls
        invariant Extended(contractCalls, current, nodes[i..], level, nextCallId)
                  == Extended(old(contractCalls), current, nodes, level, old(nextCallId))
        invariant nextCallId + Size(nodes[i..]) == old(nextCallId) + Size(nodes)
        invariant after + Chart(nodes[i..], nextCallId) == chart + Chart(nodes, old(nextCallId))
        invariant ReportAll(Reported(), Failures(nodes[i..], level, nextCallId))
                  == ReportAll(old(Reported()), Failures(nodes, level, old(nextCallId)))
      {
        ghost var calls, next, before, reported := contractCalls, nextCallId, after, Reported();
        assert nodes[i..] == [nodes[i]] + nodes[i + 1..];
        ExtendedOnce(calls, current, nodes[i], nodes[i + 1..], level, next);
        FirstAndOthers(nodes[i], nodes[i + 1..], current, level, next);
        after := ProcessCall(current, nodes[i], after, level);
        ReportAllJoins(reported, Failures([nodes[i]], level, next), Failures(nodes[i + 1..], level, nextCallId));
        assert before + (Chart([nodes[i]], next) + Chart(nodes[i + 1..], nextCallId))
            == before + Chart([nodes[i]], next) + Chart(nodes[i + 1..], nextCallId);
      }
      assert nodes[|nodes|..] == [];
      NothingLeft(contractCalls, current, level, nextCallId, after, Reported());
    }

    /** `process_call`. */
    method ProcessCall(current: nat, node: CallTree, chart: seq<FlameNode>, level: nat) returns (after: seq<FlameNode>)
      requires Valid() && current in contractCalls
      modifies this
      ensures Valid()
      ensures contractCalls == Extended(old(contractCalls), current, [node], level, old(nextCallId))
      ensures nextCallId == old(nextCallId) + Size([node])
      ensures after == chart + Chart([node], old(nextCallId))
      ensures Reported() == ReportAll(old(Reported()), Failures([node], level, old(nextCallId)))
      decreases node
    {
      hide Extended, Size, Chart, Failures, ReportAll, Report, IsFresh, Calls, Ids;
      if node.DeployWithoutConstructor? {
        SkippedDeploy(contractCalls, current, level, nextCallId, chart, Reported());
        return chart;
      }
      ghost var calls, next, reported := contractCalls, nextCallId, Reported();
      IsBelow(calls, next, current);
      var id := nextCallId;
      RecordFailure(node.failed, id, level + 1);
      nextCallId := nextCallId + 1;
      contractCalls := contractCalls[id := ContractCall(id, current, [], level + 1, node.hidden, node.failed)];
      var parent := contractCalls[current];
      contractCalls := contractCalls[current := parent.(childrenCallIds := parent.childrenCallIds + [id])];
      CallExtends(calls, current, node, level, next, contractCalls);
      CallUnfolds(node, current, level, next);
      ReportAllJoins(reported, if node.failed then [Failure(next, level + 1)] else [],
                     Failures(node.nested, level + 1, next + 1));
      if node.hidden {
        after := Traverse(id, node.nested, chart, level + 1);
      } else {
        var children := Traverse(id, node.nested, [], level + 1);
        assert [] + Chart(node.nested, next + 1) == Chart(node.nested, next + 1);
        after := chart + [FlameNode(id, children)];
      }
    }

    method RecordFailure(failed: bool, id: nat, level: nat)
      modifies `deepestFailedCallId, `deepestFailedLevel
      ensures Reported() == ReportAll(old(Reported()), if failed then [Failure(id, level)] else [])
    {
      if failed {
        assert ReportAll(old(Reported()), [Failure(id, level)])
            == ReportAll(Report(old(Reported()), Failure(id, level)), []);
        if deepestFailedCallId.Some? {
          if level > deepestFailedLevel { deepestFailedCallId := Some(id); }
        } else {
          deepestFailedCallId, deepestFailedLevel := Some(id), level;
        }
      }
    }
  }

  lemma RootExtends(failed: bool, nested: seq<CallTree>)
    ensures Extended(map[1 := ContractCall(1, 0, [], 0, true, failed)], 1, nested, 0, 2) == AllCalls(failed, nested)
  {
    CallsAreContiguous(nested, 1, 0, 2);
    assert [] + Ids(nested, 2) == Ids(nested, 2);
    var calls := Calls(nested, 1, 0, 2);
    hide Calls, Ids, Size;
    assert (map[1 := ContractCall(1, 0, [], 0, true, failed)] + calls)[1 := RootCall(failed, nested)]
        == calls[1 := RootCall(failed, nested)];
  }

  lemma NothingLeft(
    calls: map<nat, ContractCall>, current: nat, level: nat, next: nat, chart: seq<FlameNode>,
    reported: Option<Failure>)
    requires current in calls
    ensures Extended(calls, current, [], level, next) == calls && Size([]) == 0 && chart + Chart([], next) == chart
    ensures ReportAll(reported, Failures([], level, next)) == reported
  {
    assert calls[current].childrenCallIds + [] == calls[current].childrenCallIds && calls + map[] == calls;
    assert chart + [] == chart;
  }

  lemma SkippedDeploy(
    calls: map<nat, ContractCall>, current: nat, level: nat, next: nat, chart: seq<FlameNode>,
    reported: Option<Failure>)
    requires current in calls
    ensures ReportAll(reported, Failures([DeployWithoutConstructor], level, next)) == reported
    ensures Extended(calls, current, [DeployWithoutConstructor], level, next) == calls
    ensures Size([DeployWithoutConstructor]) == 0 && Failures([DeployWithoutConstructor], level, next) == []
    ensures chart + Chart([DeployWithoutConstructor], next) == chart
  {
    assert [DeployWithoutConstructor][1..] == [];
    assert Calls([DeployWithoutConstructor], current, level, next) == Calls([], current, level, next) == map[];
    assert Ids([DeployWithoutConstructor], next) == Ids([], next) == [];
    assert calls + map[] == calls;
    assert calls[current].childrenCallIds + [] == calls[current].childrenCallIds;
  }
}
