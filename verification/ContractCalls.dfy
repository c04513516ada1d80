/**
 The map of contract calls, numbered while the call tree is traversed, and the flame chart of the visible ones.
 First the map and the chart by recursion over the tree alone, then the builder that produces them in place.
 */
module ContractCalls {
  import opened Wrappers

  /** A traced call; `hidden` if it goes to the fee token. Deployments without a constructor are skipped. */
  datatype CallTree = EntryPoint(hidden: bool, failed: bool, nested: seq<CallTree>) | DeployWithoutConstructor

  datatype ContractCall = ContractCall(
    callId: nat, parentCallId: nat, childrenCallIds: seq<nat>, nestingLevel: nat, isHidden: bool, isFailed: bool)

  datatype FlameNode = FlameNode(callId: nat, children: seq<FlameNode>)

  // ---------------------------------------------------------------- by recursion over the tree

  function Size(nodes: seq<CallTree>): nat {
    if nodes == [] then 0
    else
      match nodes[0]
      case DeployWithoutConstructor => Size(nodes[1..])
      case EntryPoint(_, _, nested) => 1 + Size(nested) + Size(nodes[1..])
  }

  /** The ids of the calls themselves, without what is below them. */
  function Ids(nodes: seq<CallTree>, next: nat): seq<nat> {
    if nodes == [] then []
    else
      match nodes[0]
      case DeployWithoutConstructor => Ids(nodes[1..], next)
      case EntryPoint(_, _, nested) => [next] + Ids(nodes[1..], next + 1 + Size(nested))
  }

  function Calls(nodes: seq<CallTree>, parent: nat, level: nat, next: nat): map<nat, ContractCall>
    decreases nodes, 0
  {
    if nodes == [] then map[]
    else
      match nodes[0]
      case DeployWithoutConstructor => Calls(nodes[1..], parent, level, next)
      case EntryPoint(hidden, failed, nested) =>
        Below(hidden, failed, nested, parent, level, next) + Calls(nodes[1..], parent, level, next + 1 + Size(nested))
  }

  /** A call with everything below it. */
  function Below(
    hidden: bool, failed: bool, nested: seq<CallTree>, parent: nat, level: nat, id: nat): map<nat, ContractCall>
    decreases nested, 1
  {
    Calls(nested, id, level + 1, id + 1)[id := ContractCall(id, parent, Ids(nested, id + 1), level + 1, hidden, failed)]
  }

  function Chart(nodes: seq<CallTree>, next: nat): seq<FlameNode> {
    if nodes == [] then []
    else
      match nodes[0]
      case DeployWithoutConstructor => Chart(nodes[1..], next)
      case EntryPoint(hidden, _, nested) =>
        var below := Chart(nested, next + 1);
        (if hidden then below else [FlameNode(next, below)]) + Chart(nodes[1..], next + 1 + Size(nested))
  }

  datatype Failure = Failure(id: nat, level: nat)

  /** The failed calls in the order in which the builder comes to them. */
  function Failures(nodes: seq<CallTree>, level: nat, next: nat): seq<Failure> {
    if nodes == [] then []
    else
      match nodes[0]
      case DeployWithoutConstructor => Failures(nodes[1..], level, next)
      case EntryPoint(_, failed, nested) =>
        (if failed then [Failure(next, level + 1)] else [])
        + Failures(nested, level + 1, next + 1) + Failures(nodes[1..], level, next + 1 + Size(nested))
  }

  /** What the builder keeps of the failures: the level is set by the first one only. */
  function Report(reported: Option<Failure>, f: Failure): Option<Failure> {
    match reported
    case None => Some(f)
    case Some(r) => if f.level > r.level then Some(Failure(f.id, r.level)) else reported
  }

  function ReportAll(reported: Option<Failure>, failures: seq<Failure>): Option<Failure>
    decreases |failures|
  {
    if failures == [] then reported else ReportAll(Report(reported, failures[0]), failures[1..])
  }

  // ---------------------------------------------------------------- the whole tree

  /** The root call has id 1, no parent and level 0, and is hidden. */
  function RootCall(failed: bool, nested: seq<CallTree>): ContractCall {
    ContractCall(1, 0, Ids(nested, 2), 0, true, failed)
  }

  function AllCalls(failed: bool, nested: seq<CallTree>): map<nat, ContractCall> {
    Calls(nested, 1, 0, 2)[1 := RootCall(failed, nested)]
  }

  // ---------------------------------------------------------------- numbering

  ghost predicate Interval(calls: map<nat, ContractCall>, first: nat, end: nat) {
    forall id: nat :: id in calls <==> first <= id < end
  }

  lemma IntervalJoin(a: map<nat, ContractCall>, b: map<nat, ContractCall>, first: nat, mid: nat, end: nat)
    requires Interval(a, first, mid) && Interval(b, mid, end) && first <= mid <= end
    ensures Interval(a + b, first, end)
  {
  }

  /** Ids are given in preorder: the calls of a list of trees take up exactly the next ids. */
  lemma {:induction false} CallsAreContiguous(nodes: seq<CallTree>, parent: nat, level: nat, next: nat)
    ensures Interval(Calls(nodes, parent, level, next), next, next + Size(nodes))
    decreases nodes, 0
  {
    if nodes == [] {
    } else {
      CallsAreContiguous(nodes[1..], parent, level,
                         if nodes[0].EntryPoint? then next + 1 + Size(nodes[0].nested) else next);
      if nodes[0].EntryPoint? {
        var mid := next + 1 + Size(nodes[0].nested);
        BelowIsContiguous(nodes[0].hidden, nodes[0].failed, nodes[0].nested, parent, level, next);
        hide Interval, Below;
        IntervalJoin(Below(nodes[0].hidden, nodes[0].failed, nodes[0].nested, parent, level, next),
          Calls(nodes[1..], parent, level, mid), next, mid, mid + Size(nodes[1..]));
      }
    }
  }

  /** A call's subtree is the interval that starts at its id. */
  lemma {:induction false} BelowIsContiguous(
    hidden: bool, failed: bool, nested: seq<CallTree>, parent: nat, level: nat, id: nat)
    ensures Interval(Below(hidden, failed, nested, parent, level, id), id, id + 1 + Size(nested))
    decreases nested, 1
  {
    CallsAreContiguous(nested, id, level + 1, id + 1);
    hide Calls, Ids, Size;
  }

  // ---------------------------------------------------------------- links

  /** The call's children are its, in order, and it is one of its parent's. */
  ghost predicate Linked(calls: map<nat, ContractCall>, id: nat)
    requires id in calls
  {
    var call := calls[id];
    && call.callId == id
    && (forall i, j :: 0 <= i < j < |call.childrenCallIds| ==> call.childrenCallIds[i] < call.childrenCallIds[j])
    && forall i :: 0 <= i < |call.childrenCallIds| ==>
         var child := call.childrenCallIds[i];
         id < child && child in calls && calls[child].parentCallId == id
           && calls[child].nestingLevel == call.nestingLevel + 1
  }

  ghost predicate AllLinked(calls: map<nat, ContractCall>) {
    forall id :: id in calls ==> Linked(calls, id)
  }

  /** Every call is listed by its parent: by `parent`, in `ids`, or by another call of the map. */
  ghost predicate Listed(calls: map<nat, ContractCall>, parent: nat, ids: seq<nat>) {
    forall id :: id in calls ==>
      var p := calls[id].parentCallId;
      if id in ids then p == parent else p in calls && p < id && id in calls[p].childrenCallIds
  }

  ghost predicate Increasing(ids: seq<nat>, first: nat, end: nat) {
    && (forall i :: 0 <= i < |ids| ==> first <= ids[i] < end)
    && forall i, j :: 0 <= i < j < |ids| ==> ids[i] < ids[j]
  }

  lemma {:induction false} IdsIncrease(nodes: seq<CallTree>, next: nat)
    ensures Increasing(Ids(nodes, next), next, next + Size(nodes))
    decreases nodes
  {
    if nodes != [] && nodes[0].EntryPoint? {
      IdsIncrease(nodes[1..], next + 1 + Size(nodes[0].nested));
    } else if nodes != [] {
      IdsIncrease(nodes[1..], next);
    }
  }

  /** The listed calls have that parent, and the level below it. */
  ghost predicate Children(calls: map<nat, ContractCall>, ids: seq<nat>, parent: nat, level: nat) {
    forall i :: 0 <= i < |ids| ==>
      ids[i] in calls && calls[ids[i]].parentCallId == parent && calls[ids[i]].nestingLevel == level + 1
  }

  ghost predicate WellLinked(calls: map<nat, ContractCall>, ids: seq<nat>, parent: nat, level: nat) {
    AllLinked(calls) && Listed(calls, parent, ids) && Children(calls, ids, parent, level)
  }

  lemma LinksJoin(
    a: map<nat, ContractCall>, b: map<nat, ContractCall>, first: nat, mid: nat, end: nat, ids: seq<nat>,
    more: seq<nat>, parent: nat, level: nat)
    requires Interval(a, first, mid) && Interval(b, mid, end)
    requires Increasing(ids, first, mid) && Increasing(more, mid, end)
    requires WellLinked(a, ids, parent, level) && WellLinked(b, more, parent, level)
    ensures WellLinked(a + b, ids + more, parent, level)
  {
    LinkedJoin(a, b, first, mid, end);
    ListedJoin(a, b, first, mid, end, ids, more, parent);
  }

  lemma LinkedJoin(a: map<nat, ContractCall>, b: map<nat, ContractCall>, first: nat, mid: nat, end: nat)
    requires Interval(a, first, mid) && Interval(b, mid, end) && AllLinked(a) && AllLinked(b)
    ensures AllLinked(a + b)
  {
    forall id | id in a + b ensures Linked(a + b, id) {
      if id in b { assert Linked(b, id); } else { assert Linked(a, id); }
    }
  }

  lemma ListedJoin(
    a: map<nat, ContractCall>, b: map<nat, ContractCall>, first: nat, mid: nat, end: nat, ids: seq<nat>,
    more: seq<nat>, parent: nat)
    requires Interval(a, first, mid) && Interval(b, mid, end)
    requires Increasing(ids, first, mid) && Increasing(more, mid, end)
    requires Listed(a, parent, ids) && Listed(b, parent, more)
    ensures Listed(a + b, parent, ids + more)
  {
    forall id | id in a + b
      ensures var p := (a + b)[id].parentCallId;
              if id in ids + more then p == parent else p in a + b && p < id && id in (a + b)[p].childrenCallIds
    {
      if id in ids { assert id in a; }
      if id in more { assert id in b; }
    }
  }

  lemma {:induction false} CallsAreLinked(nodes: seq<CallTree>, parent: nat, level: nat, next: nat)
    ensures WellLinked(Calls(nodes, parent, level, next), Ids(nodes, next), parent, level)
    decreases nodes, 0
  {
    hide Interval, Below, WellLinked, Calls, Ids, Size, Increasing;
    if nodes == [] {
      NothingLinked(parent, level, next);
    } else if nodes[0].EntryPoint? {
      var nested, mid := nodes[0].nested, next + 1 + Size(nodes[0].nested);
      EntryUnfolds(nodes, parent, level, next);
      CallsAreLinked(nodes[1..], parent, level, mid);
      BelowIsLinked(nodes[0].hidden, nodes[0].failed, nested, parent, level, next);
      BelowIsContiguous(nodes[0].hidden, nodes[0].failed, nested, parent, level, next);
      CallsAreContiguous(nodes[1..], parent, level, mid);
      IdsIncrease(nodes[1..], mid);
      LinksJoin(Below(nodes[0].hidden, nodes[0].failed, nested, parent, level, next),
                Calls(nodes[1..], parent, level, mid), next, mid, mid + Size(nodes[1..]),
                [next], Ids(nodes[1..], mid), parent, level);
    } else {
      DeployUnfolds(nodes, parent, level, next);
      CallsAreLinked(nodes[1..], parent, level, next);
    }
  }

  lemma NothingLinked(parent: nat, level: nat, next: nat)
    ensures WellLinked(Calls([], parent, level, next), Ids([], next), parent, level)
  {
    assert Calls([], parent, level, next) == map[];
  }

  lemma DeployUnfolds(nodes: seq<CallTree>, parent: nat, level: nat, next: nat)
    requires nodes != [] && nodes[0].DeployWithoutConstructor?
    ensures Size(nodes) == Size(nodes[1..]) && Failures(nodes, level, next) == Failures(nodes[1..], level, next)
    ensures Ids(nodes, next) == Ids(nodes[1..], next)
    ensures Calls(nodes, parent, level, next) == Calls(nodes[1..], parent, level, next)
    ensures Chart(nodes, next) == Chart(nodes[1..], next)
  {
  }

  lemma EntryUnfolds(nodes: seq<CallTree>, parent: nat, level: nat, next: nat)
    requires nodes != [] && nodes[0].EntryPoint?
    ensures var call, mid := nodes[0], next + 1 + Size(nodes[0].nested);
            && Size(nodes) == 1 + Size(call.nested) + Size(nodes[1..])
            && Ids(nodes, next) == [next] + Ids(nodes[1..], mid) && Increasing([next], next, mid)
            && Calls(nodes, parent, level, next)
               == Below(call.hidden, call.failed, call.nested, parent, level, next)
                 + Calls(nodes[1..], parent, level, mid)
  {
  }

  lemma {:induction false} BelowIsLinked(
    hidden: bool, failed: bool, nested: seq<CallTree>, parent: nat, level: nat, id: nat)
    ensures WellLinked(Below(hidden, failed, nested, parent, level, id), [id], parent, level)
    decreases nested, 1
  {
    CallsAreLinked(nested, id, level + 1, id + 1);
    CallsAreContiguous(nested, id, level + 1, id + 1);
    IdsIncrease(nested, id + 1);
    var own := ContractCall(id, parent, Ids(nested, id + 1), level + 1, hidden, failed);
    var calls := Calls(nested, id, level + 1, id + 1);
    hide Calls, Ids, Size;
    OwnIsLinked(calls, own, id + 1 + Size(nested));
  }

  /** A call on top of its children's calls. */
  lemma OwnIsLinked(calls: map<nat, ContractCall>, own: ContractCall, end: nat)
    requires Interval(calls, own.callId + 1, end) && Increasing(own.childrenCallIds, own.callId + 1, end)
             && own.nestingLevel > 0
    requires WellLinked(calls, own.childrenCallIds, own.callId, own.nestingLevel)
    ensures WellLinked(calls[own.callId := own], [own.callId], own.parentCallId, own.nestingLevel - 1)
  {
    var all := calls[own.callId := own];
    assert Listed(all, own.parentCallId, [own.callId]) by { hide AllLinked, Linked, Children; }
    hide Listed, AllLinked, Increasing;
    OwnLinks(calls, own, end);
  }

  lemma OwnLinks(calls: map<nat, ContractCall>, own: ContractCall, end: nat)
    requires Interval(calls, own.callId + 1, end) && Increasing(own.childrenCallIds, own.callId + 1, end)
    requires AllLinked(calls) && Children(calls, own.childrenCallIds, own.callId, own.nestingLevel)
    ensures AllLinked(calls[own.callId := own])
  {
    var all := calls[own.callId := own];
    forall id | id in all ensures Linked(all, id) {
      if id != own.callId { assert Linked(calls, id); }
    }
  }

  /** Every call but the root, 1, is one level below an earlier call that lists it, and nothing else lists it. */
  ghost predicate ParentsAgree(calls: map<nat, ContractCall>) {
    && (forall id :: id in calls && id != 1 ==> HasParent(calls, id))
    && (forall p, id :: p in calls && id in calls && id in calls[p].childrenCallIds ==> p == calls[id].parentCallId)
  }

  ghost predicate HasParent(calls: map<nat, ContractCall>, id: nat)
    requires id in calls
  {
    var p := calls[id].parentCallId;
    p in calls && p < id && id in calls[p].childrenCallIds && calls[id].nestingLevel == calls[p].nestingLevel + 1
  }

  /**
   The builder's map: ids 1 to n in preorder, each subtree an interval of ids, children in order, and parents
   and children agree.
   */
  lemma AllCallsAreATree(failed: bool, nested: seq<CallTree>)
    ensures var calls := AllCalls(failed, nested);
            Interval(calls, 1, 2 + Size(nested)) && AllLinked(calls) && ParentsAgree(calls)
  {
    CallsAreContiguous(nested, 1, 0, 2);
    CallsAreLinked(nested, 1, 0, 2);
    IdsIncrease(nested, 2);
    hide Calls, Ids, Size, AllLinked, ParentsAgree, WellLinked, Increasing;
    RootIsLinked(Calls(nested, 1, 0, 2), RootCall(failed, nested), 2 + Size(nested));
  }

  lemma RootIsLinked(calls: map<nat, ContractCall>, root: ContractCall, end: nat)
    requires root.callId == 1 && root.nestingLevel == 0 && root.parentCallId == 0
    requires Interval(calls, 2, end) && Increasing(root.childrenCallIds, 2, end)
             && WellLinked(calls, root.childrenCallIds, 1, 0)
    ensures AllLinked(calls[1 := root]) && ParentsAgree(calls[1 := root])
  {
    hide Interval, Increasing, AllLinked, Listed, Children, Linked, HasParent;
    var all := calls[1 := root];
    OwnLinks(calls, root, end);
    forall id | id in all && id != 1 ensures HasParent(all, id) {
      ParentLists(calls, root, end, id);
      ChildAgrees(all, all[id].parentCallId, id);
    }
    forall p, id | p in all && id in all && id in all[p].childrenCallIds ensures p == all[id].parentCallId {
      ChildAgrees(all, p, id);
    }
  }

  /** A listed child names its parent, and is one level below it. */
  lemma ChildAgrees(calls: map<nat, ContractCall>, p: nat, id: nat)
    requires AllLinked(calls) && p in calls && id in calls && id in calls[p].childrenCallIds
    ensures p == calls[id].parentCallId && p < id && calls[id].nestingLevel == calls[p].nestingLevel + 1
    ensures HasParent(calls, id)
  {
    assert Linked(calls, p);
    hide AllLinked;
  }

  /** A call below the root is listed by the parent that it names. */
  lemma ParentLists(calls: map<nat, ContractCall>, root: ContractCall, end: nat, id: nat)
    requires Interval(calls, 2, end) && Listed(calls, 1, root.childrenCallIds) && id in calls
    ensures var all := calls[1 := root];
            all[id].parentCallId in all && id in all && id in all[all[id].parentCallId].childrenCallIds
  {
    assert 1 !in calls;
  }

  // ---------------------------------------------------------------- the flame chart

  /** The nearest visible call at or above `id`; 0 if there is none. */
  function Anchor(calls: map<nat, ContractCall>, id: nat): nat
    decreases id
  {
    if id !in calls || !calls[id].isHidden then id
    else if calls[id].parentCallId < id then Anchor(calls, calls[id].parentCallId)
    else 0
  }

  /** Each visible call of the interval, by id, with the nearest visible call above it. */
  function VisibleCalls(calls: map<nat, ContractCall>, first: nat, end: nat): seq<(nat, nat)>
    decreases end - first
  {
    if first >= end then []
    else
      (if first in calls && !calls[first].isHidden then [(first, Anchor(calls, calls[first].parentCallId))] else [])
      + VisibleCalls(calls, first + 1, end)
  }

  /** The nodes of a chart in preorder, each with the node it hangs from. */
  function Preorder(nodes: seq<FlameNode>, from: nat): seq<(nat, nat)> {
    if nodes == [] then []
    else [(nodes[0].callId, from)] + PreorderBelow(nodes[0]) + Preorder(nodes[1..], from)
  }

  function PreorderBelow(node: FlameNode): seq<(nat, nat)> {
    Preorder(node.children, node.callId)
  }

  lemma {:induction false} PreorderJoins(a: seq<FlameNode>, b: seq<FlameNode>, from: nat)
    ensures Preorder(a + b, from) == Preorder(a, from) + Preorder(b, from)
    decreases |a|
  {
    if a == [] {
      assert a + b == b;
    } else {
      assert (a + b)[1..] == a[1..] + b;
      PreorderJoins(a[1..], b, from);
    }
  }

  lemma {:induction false} VisibleCallsJoin(calls: map<nat, ContractCall>, first: nat, mid: nat, end: nat)
    requires first <= mid <= end
    ensures VisibleCalls(calls, first, end) == VisibleCalls(calls, first, mid) + VisibleCalls(calls, mid, end)
    decreases mid - first
  {
    if first < mid {
      VisibleCallsJoin(calls, first + 1, mid, end);
      hide Anchor;
    }
  }

  ghost predicate Holds(all: map<nat, ContractCall>, part: map<nat, ContractCall>) {
    forall id :: id in part ==> id in all && all[id] == part[id]
  }

  /** The chart of a list of trees shows its visible calls in id order, each below the nearest visible caller. */
  lemma {:induction false} ChartShowsVisible(
    all: map<nat, ContractCall>, nodes: seq<CallTree>, parent: nat, level: nat, next: nat)
    requires parent < next && Holds(all, Calls(nodes, parent, level, next))
    ensures Preorder(Chart(nodes, next), Anchor(all, parent)) == VisibleCalls(all, next, next + Size(nodes))
    decreases nodes
  {
    hide Chart, Calls, Below, Size, Holds, Anchor, VisibleCalls, Preorder;
    if nodes == [] {
      NothingShown(all, next, Anchor(all, parent));
    } else if nodes[0].DeployWithoutConstructor? {
      DeployUnfolds(nodes, parent, level, next);
      ChartShowsVisible(all, nodes[1..], parent, level, next);
    } else {
      var call := nodes[0];
      var mid, end := next + 1 + Size(call.nested), next + Size(nodes);
      ChartUnfolds(nodes, next);
      PartsHold(all, nodes, parent, level, next);
      ChartShowsVisible(all, call.nested, next, level + 1, next + 1);
      ChartShowsVisible(all, nodes[1..], parent, level, mid);
      OwnChartShows(all, call.hidden, Chart(call.nested, next + 1), next, mid);
      var own := if call.hidden then Chart(call.nested, next + 1) else [FlameNode(next, Chart(call.nested, next + 1))];
      PreorderJoins(own, Chart(nodes[1..], mid), Anchor(all, parent));
      VisibleCallsJoin(all, next, mid, end);
    }
  }

  lemma NothingShown(all: map<nat, ContractCall>, next: nat, from: nat)
    ensures Preorder(Chart([], next), from) == [] == VisibleCalls(all, next, next + Size([]))
  {
  }

  lemma ChartUnfolds(nodes: seq<CallTree>, next: nat)
    requires nodes != [] && nodes[0].EntryPoint?
    ensures var call, mid := nodes[0], next + 1 + Size(nodes[0].nested);
            && mid <= next + Size(nodes) && mid + Size(nodes[1..]) == next + Size(nodes)
            && Chart(nodes, next)
               == (if call.hidden then Chart(call.nested, next + 1)
                   else [FlameNode(next, Chart(call.nested, next + 1))])
                  + Chart(nodes[1..], mid)
  {
  }

  lemma PartsHold(all: map<nat, ContractCall>, nodes: seq<CallTree>, parent: nat, level: nat, next: nat)
    requires nodes != [] && nodes[0].EntryPoint? && Holds(all, Calls(nodes, parent, level, next))
    ensures var call, mid := nodes[0], next + 1 + Size(nodes[0].nested);
            && Holds(all, Calls(call.nested, next, level + 1, next + 1))
            && Holds(all, Calls(nodes[1..], parent, level, mid))
            && next in all && all[next].isHidden == call.hidden && all[next].parentCallId == parent
  {
    hide Calls, Below, Size, Interval, Holds;
    var call, mid := nodes[0], next + 1 + Size(nodes[0].nested);
    EntryUnfolds(nodes, parent, level, next);
    BelowIsContiguous(call.hidden, call.failed, call.nested, parent, level, next);
    CallsAreContiguous(nodes[1..], parent, level, mid);
    CallsAreContiguous(call.nested, next, level + 1, next + 1);
    HoldsParts(all, Below(call.hidden, call.failed, call.nested, parent, level, next),
               Calls(nodes[1..], parent, level, mid), next, mid, mid + Size(nodes[1..]));
    OwnHolds(all, call.hidden, call.failed, call.nested, parent, level, next);
  }

  lemma HoldsParts(
    all: map<nat, ContractCall>, a: map<nat, ContractCall>, b: map<nat, ContractCall>, first: nat, mid: nat, end: nat)
    requires Holds(all, a + b) && Interval(a, first, mid) && Interval(b, mid, end)
    ensures Holds(all, a) && Holds(all, b)
  {
    forall id | id in a ensures id in all && all[id] == a[id] { assert id in a + b && id !in b; }
    forall id | id in b ensures id in all && all[id] == b[id] { assert id in a + b; }
  }

  lemma OwnHolds(
    all: map<nat, ContractCall>, hidden: bool, failed: bool, nested: seq<CallTree>, parent: nat, level: nat, id: nat)
    requires Holds(all, Below(hidden, failed, nested, parent, level, id))
    requires Interval(Calls(nested, id, level + 1, id + 1), id + 1, id + 1 + Size(nested))
    ensures Holds(all, Calls(nested, id, level + 1, id + 1))
    ensures id in all && all[id].isHidden == hidden && all[id].parentCallId == parent
  {
    hide Calls, Ids, Size;
    var below := Below(hidden, failed, nested, parent, level, id);
    var calls := Calls(nested, id, level + 1, id + 1);
    assert id in below && id !in calls;
    forall other | other in calls ensures other in all && all[other] == calls[other] { assert other in below; }
  }

  lemma OwnChartShows(all: map<nat, ContractCall>, hidden: bool, below: seq<FlameNode>, id: nat, end: nat)
    requires id in all && all[id].isHidden == hidden && all[id].parentCallId < id < end
    requires Preorder(below, Anchor(all, id)) == VisibleCalls(all, id + 1, end)
    ensures Preorder(if hidden then below else [FlameNode(id, below)], Anchor(all, all[id].parentCallId))
            == VisibleCalls(all, id, end)
  {
    if !hidden {
      var node := FlameNode(id, below);
      assert Preorder([node], Anchor(all, all[id].parentCallId))
          == [(id, Anchor(all, all[id].parentCallId))] + PreorderBelow(node) + Preorder([], 0);
    }
  }

  /** In the flame chart the visible calls stand in preorder, and each below its nearest visible caller, if any. */
  lemma FlameChartShowsVisibleCalls(failed: bool, nested: seq<CallTree>)
    ensures Preorder(Chart(nested, 2), 0) == VisibleCalls(AllCalls(failed, nested), 1, 2 + Size(nested))
  {
    var all := AllCalls(failed, nested);
    CallsAreContiguous(nested, 1, 0, 2);
    assert Holds(all, Calls(nested, 1, 0, 2));
    ChartShowsVisible(all, nested, 1, 0, 2);
    assert Anchor(all, 1) == Anchor(all, 0) == 0;
    hide Chart, Calls, Size, Preorder, Anchor;
  }

  // ---------------------------------------------------------------- the reported failure

  /** The last failure deeper than the first one, if there is any. */
  ghost predicate IsReported(failures: seq<Failure>, i: nat)
    requires i < |failures|
  {
    && (i == 0 || failures[i].level > failures[0].level)
    && forall j :: i < j < |failures| ==> failures[j].level <= failures[0].level
  }

  /** What the builder reports: the last failure deeper than the first failed call, or else the first one. */
  lemma {:induction false} LastDeeperFailureIsReported(failures: seq<Failure>)
    ensures match ReportAll(None, failures)
            case None => failures == []
            case Some(r) => failures != [] && r.level == failures[0].level
                            && exists i :: 0 <= i < |failures| && IsReported(failures, i) && failures[i].id == r.id
    decreases |failures|
  {
    if failures != [] {
      var front, last := failures[..|failures| - 1], failures[|failures| - 1];
      assert failures == front + [last];
      LastDeeperFailureIsReported(front);
      ReportAllAppends(None, front, last);
      if front == [] {
        assert IsReported(failures, 0);
      } else {
        var i :| 0 <= i < |front| && IsReported(front, i) && front[i].id == ReportAll(None, front).value.id;
        if last.level > failures[0].level {
          assert IsReported(failures, |front|);
        } else {
          assert IsReported(failures, i);
        }
      }
    }
  }

  lemma {:induction false} ReportAllAppends(reported: Option<Failure>, front: seq<Failure>, last: Failure)
    ensures ReportAll(reported, front + [last]) == Report(ReportAll(reported, front), last)
    decreases |front|
  {
    if front == [] {
      assert (front + [last])[1..] == [];
    } else {
      assert (front + [last])[1..] == front[1..] + [last];
      ReportAllAppends(Report(reported, front[0]), front[1..], last);
    }
  }

  // ---------------------------------------------------------------- exactly when it is the deepest failure

  /** The failures are the failed calls of the map, once each, in the order of their ids. */
  ghost predicate AreFailedCalls(failures: seq<Failure>, calls: map<nat, ContractCall>, first: nat, end: nat) {
    && (forall i, j :: 0 <= i < j < |failures| ==> failures[i].id < failures[j].id)
    && HaveFailed(failures, calls, first, end) && AreListed(calls, failures)
  }

  ghost predicate HaveFailed(failures: seq<Failure>, calls: map<nat, ContractCall>, first: nat, end: nat) {
    forall i :: 0 <= i < |failures| ==> first <= failures[i].id < end && IsFailedCall(failures[i], calls)
  }

  ghost predicate AreListed(calls: map<nat, ContractCall>, failures: seq<Failure>) {
    forall id :: id in calls && calls[id].isFailed ==> Failure(id, calls[id].nestingLevel) in failures
  }

  ghost predicate IsFailedCall(f: Failure, calls: map<nat, ContractCall>) {
    f.id in calls && calls[f.id].isFailed && calls[f.id].nestingLevel == f.level
  }

  lemma FailedCallsJoin(
    a: map<nat, ContractCall>, b: map<nat, ContractCall>, first: nat, mid: nat, end: nat,
    failures: seq<Failure>, more: seq<Failure>)
    requires Interval(a, first, mid) && Interval(b, mid, end) && first <= mid <= end
    requires AreFailedCalls(failures, a, first, mid) && AreFailedCalls(more, b, mid, end)
    ensures AreFailedCalls(failures + more, a + b, first, end)
  {
    var all := failures + more;
    forall i | 0 <= i < |all| ensures first <= all[i].id < end && IsFailedCall(all[i], a + b) {
      if i < |failures| {
        assert IsFailedCall(failures[i], a);
      } else {
        assert IsFailedCall(more[i - |failures|], b);
      }
    }
    forall id | id in a + b && (a + b)[id].isFailed ensures Failure(id, (a + b)[id].nestingLevel) in all {
      if id in b {
        assert Failure(id, b[id].nestingLevel) in more;
      } else {
        assert Failure(id, a[id].nestingLevel) in failures;
      }
    }
  }

  lemma {:induction false} FailuresAreFailedCalls(nodes: seq<CallTree>, parent: nat, level: nat, next: nat)
    ensures AreFailedCalls(Failures(nodes, level, next), Calls(nodes, parent, level, next), next, next + Size(nodes))
    decreases nodes
  {
    hide Calls, Below, Failures, FailuresBelow, AreFailedCalls, Interval, Size;
    if nodes == [] {
      NoFailures(parent, level, next);
    } else if nodes[0].DeployWithoutConstructor? {
      DeployUnfolds(nodes, parent, level, next);
      FailuresAreFailedCalls(nodes[1..], parent, level, next);
    } else {
      var call, mid := nodes[0], next + 1 + Size(nodes[0].nested);
      EntryUnfolds(nodes, parent, level, next);
      FailuresUnfold(nodes, level, next);
      FailuresAreFailedCalls(call.nested, next, level + 1, next + 1);
      FailuresAreFailedCalls(nodes[1..], parent, level, mid);
      OwnFailure(call.hidden, call.failed, call.nested, parent, level, next);
      BelowIsContiguous(call.hidden, call.failed, call.nested, parent, level, next);
      CallsAreContiguous(nodes[1..], parent, level, mid);
      FailedCallsJoin(Below(call.hidden, call.failed, call.nested, parent, level, next),
                      Calls(nodes[1..], parent, level, mid), next, mid, next + Size(nodes),
                      FailuresBelow(call.failed, call.nested, level, next), Failures(nodes[1..], level, mid));
    }
  }

  lemma NoFailures(parent: nat, level: nat, next: nat)
    ensures AreFailedCalls(Failures([], level, next), Calls([], parent, level, next), next, next + Size([]))
  {
  }

  /** The failures of one call and what is below it. */
  function FailuresBelow(failed: bool, nested: seq<CallTree>, level: nat, id: nat): seq<Failure> {
    (if failed then [Failure(id, level + 1)] else []) + Failures(nested, level + 1, id + 1)
  }

  lemma FailuresUnfold(nodes: seq<CallTree>, level: nat, next: nat)
    requires nodes != [] && nodes[0].EntryPoint?
    ensures Failures(nodes, level, next)
         == FailuresBelow(nodes[0].failed, nodes[0].nested, level, next)
            + Failures(nodes[1..], level, next + 1 + Size(nodes[0].nested))
  {
  }

  lemma OwnFailure(hidden: bool, failed: bool, nested: seq<CallTree>, parent: nat, level: nat, id: nat)
    requires AreFailedCalls(
               Failures(nested, level + 1, id + 1), Calls(nested, id, level + 1, id + 1), id + 1, id + 1 + Size(nested))
    ensures AreFailedCalls(FailuresBelow(failed, nested, level, id),
                           Below(hidden, failed, nested, parent, level, id), id, id + 1 + Size(nested))
  {
    CallsAreContiguous(nested, id, level + 1, id + 1);
    var own := ContractCall(id, parent, Ids(nested, id + 1), level + 1, hidden, failed);
    var calls, below := Calls(nested, id, level + 1, id + 1), Below(hidden, failed, nested, parent, level, id);
    var failures, all := Failures(nested, level + 1, id + 1), FailuresBelow(failed, nested, level, id);
    assert below == calls[id := own];
    hide Calls, Below, Ids, Size, Failures, AreFailedCalls, Interval;
    OwnFailedCall(failures, all, calls, own, id + 1 + Size(nested));
  }

  lemma OwnFailedCall(
    failures: seq<Failure>, all: seq<Failure>, calls: map<nat, ContractCall>, own: ContractCall, end: nat)
    requires AreFailedCalls(failures, calls, own.callId + 1, end) && Interval(calls, own.callId + 1, end)
    requires own.callId < end
    requires all == (if own.isFailed then [Failure(own.callId, own.nestingLevel)] else []) + failures
    ensures AreFailedCalls(all, calls[own.callId := own], own.callId, end)
  {
    OwnHasFailed(failures, all, calls, own, end);
    OwnIsListed(failures, all, calls, own);
  }

  lemma OwnHasFailed(
    failures: seq<Failure>, all: seq<Failure>, calls: map<nat, ContractCall>, own: ContractCall, end: nat)
    requires HaveFailed(failures, calls, own.callId + 1, end) && own.callId < end
    requires all == (if own.isFailed then [Failure(own.callId, own.nestingLevel)] else []) + failures
    ensures HaveFailed(all, calls[own.callId := own], own.callId, end)
  {
    forall i | 0 <= i < |all|
      ensures own.callId <= all[i].id < end && IsFailedCall(all[i], calls[own.callId := own])
    {
      if !(own.isFailed && i == 0) { assert IsFailedCall(failures[if own.isFailed then i - 1 else i], calls); }
    }
  }

  lemma OwnIsListed(failures: seq<Failure>, all: seq<Failure>, calls: map<nat, ContractCall>, own: ContractCall)
    requires AreListed(calls, failures)
    requires all == (if own.isFailed then [Failure(own.callId, own.nestingLevel)] else []) + failures
    ensures AreListed(calls[own.callId := own], all)
  {
    var below := calls[own.callId := own];
    forall id | id in below && below[id].isFailed ensures Failure(id, below[id].nestingLevel) in all {
      if id == own.callId {
        assert all[0] == Failure(id, own.nestingLevel);
      } else {
        assert Failure(id, calls[id].nestingLevel) in failures;
      }
    }
  }

  /** Where in the failures the reported one stands. */
  function LastDeeper(failures: seq<Failure>): (i: nat)
    requires failures != []
    ensures i < |failures| && IsReported(failures, i)
  {
    var last := |failures| - 1;
    if last == 0 || failures[last].level > failures[0].level then last else LastDeeper(failures[..last])
  }

  lemma ReportedIsLastDeeper(failures: seq<Failure>)
    requires failures != []
    ensures ReportAll(None, failures) == Some(Failure(failures[LastDeeper(failures)].id, failures[0].level))
  {
    LastDeeperFailureIsReported(failures);
    var i, r := LastDeeper(failures), ReportAll(None, failures).value;
    var k :| 0 <= k < |failures| && IsReported(failures, k) && failures[k].id == r.id;
    assert k == i;
  }

  /** A failed call of the transaction, other than the root. */
  ghost predicate FailedBelowRoot(calls: map<nat, ContractCall>, id: nat) {
    id in calls && id != 1 && calls[id].isFailed
  }

  ghost predicate NoneFailedBelowRoot(calls: map<nat, ContractCall>) {
    forall id: nat :: id in calls ==> !FailedBelowRoot(calls, id)
  }

  /** The last failure that is deeper than the first one. */
  predicate IsLastDeeper(failures: seq<Failure>, k: nat)
    requires k < |failures|
  {
    failures[k].level > failures[0].level && forall m :: k < m < |failures| ==> failures[m].level <= failures[0].level
  }

  /** No failure is deeper than the last one that is deeper than the first; so it is also where none is. */
  predicate LastDeeperIsDeepest(failures: seq<Failure>) {
    forall j, k :: 0 <= j < |failures| && 0 <= k < |failures| && IsLastDeeper(failures, k) ==>
      failures[j].level <= failures[k].level
  }

  /** No failed call of the transaction is deeper. */
  ghost predicate IsDeepestFailed(calls: map<nat, ContractCall>, id: nat)
    requires id in calls
  {
    forall other: nat :: FailedBelowRoot(calls, other) ==> calls[other].nestingLevel <= calls[id].nestingLevel
  }

  /**
   The reported call is a failed one, and none is reported only if none failed. It is the deepest failed call, or one
   of them, exactly if, among the failed calls of the tree in order, the last one deeper than the first is no less deep
   than any other; and always where none is deeper than the first.
   */
  lemma ReportedIsDeepestIff(failed: bool, nested: seq<CallTree>)
    ensures var calls, failures := AllCalls(failed, nested), Failures(nested, 0, 2);
            match ReportAll(None, failures)
            case None => NoneFailedBelowRoot(calls)
            case Some(r) =>
              FailedBelowRoot(calls, r.id) && (IsDeepestFailed(calls, r.id) <==> LastDeeperIsDeepest(failures))
  {
    hide Calls, Failures, Size, RootCall, AreFailedCalls, Interval, ReportAll, LastDeeperIsDeepest, FailedBelowRoot;
    hide LastDeeper, IsDeepestFailed, IsReported, NoneFailedBelowRoot;
    var below, root, failures := Calls(nested, 1, 0, 2), RootCall(failed, nested), Failures(nested, 0, 2);
    var end := 2 + Size(nested);
    FailuresAreFailedCalls(nested, 1, 0, 2);
    CallsAreContiguous(nested, 1, 0, 2);
    if failures == [] {
      NoneFailed(below, root, end);
    } else {
      ReportedIsLastDeeper(failures);
      var i := LastDeeper(failures);
      DeepestAmongFailures(failures, below, end, i);
      DeepestBelowRoot(below, root, end, failures[i].id);
      DeepestIsLastDeeper(failures);
    }
  }

  /** What is deepest among the failures is deepest among the failed calls. */
  lemma DeepestAmongFailures(failures: seq<Failure>, calls: map<nat, ContractCall>, end: nat, i: nat)
    requires AreFailedCalls(failures, calls, 2, end) && i < |failures|
    ensures IsFailedCall(failures[i], calls)
    ensures (forall id :: id in calls && calls[id].isFailed ==> calls[id].nestingLevel <= failures[i].level)
            <==> forall j :: 0 <= j < |failures| ==> failures[j].level <= failures[i].level
  {
    if forall id :: id in calls && calls[id].isFailed ==> calls[id].nestingLevel <= failures[i].level {
      forall j | 0 <= j < |failures| ensures failures[j].level <= failures[i].level {
        assert IsFailedCall(failures[j], calls);
      }
    }
    if forall j :: 0 <= j < |failures| ==> failures[j].level <= failures[i].level {
      forall id | id in calls && calls[id].isFailed ensures calls[id].nestingLevel <= failures[i].level {
        var k :| 0 <= k < |failures| && failures[k] == Failure(id, calls[id].nestingLevel);
      }
    }
  }

  /** The reported position is the last deeper one, or the first where none is deeper. */
  lemma DeepestIsLastDeeper(failures: seq<Failure>)
    requires failures != []
    ensures (forall j :: 0 <= j < |failures| ==> failures[j].level <= failures[LastDeeper(failures)].level)
            <==> LastDeeperIsDeepest(failures)
  {
    var i := LastDeeper(failures);
    hide LastDeeper;
    if i > 0 {
      assert IsLastDeeper(failures, i);
      assert forall k :: 0 <= k < |failures| && IsLastDeeper(failures, k) ==> k == i;
    }
  }

  /** So it is exactly if no failed call with a smaller id is deeper: later ones never are. */
  lemma NoEarlierIsDeeper(failed: bool, nested: seq<CallTree>)
    ensures var calls := AllCalls(failed, nested);
            match ReportAll(None, Failures(nested, 0, 2))
            case None => NoneFailedBelowRoot(calls)
            case Some(r) =>
              && FailedBelowRoot(calls, r.id)
              && (IsDeepestFailed(calls, r.id)
                  <==> (forall id: nat :: FailedBelowRoot(calls, id) && id < r.id ==>
                          calls[id].nestingLevel <= calls[r.id].nestingLevel))
  {
    hide Calls, Failures, Size, RootCall, AreFailedCalls, Interval, ReportAll, FailedBelowRoot;
    hide LastDeeper, IsDeepestFailed, IsReported, NoneFailedBelowRoot;
    var below, root, failures := Calls(nested, 1, 0, 2), RootCall(failed, nested), Failures(nested, 0, 2);
    var end := 2 + Size(nested);
    FailuresAreFailedCalls(nested, 1, 0, 2);
    CallsAreContiguous(nested, 1, 0, 2);
    if failures == [] {
      NoneFailed(below, root, end);
    } else {
      ReportedIsLastDeeper(failures);
      var i := LastDeeper(failures);
      LaterFailuresAreHigher(failures, below, end, i);
      DeepestIfNoEarlier(below, root, end, failures[i].id);
    }
  }

  /** The failed calls below the root are those of the builder's map. */
  lemma DeepestBelowRoot(below: map<nat, ContractCall>, root: ContractCall, end: nat, id: nat)
    requires Interval(below, 2, end) && id in below
    ensures id in below[1 := root] && (FailedBelowRoot(below[1 := root], id) <==> below[id].isFailed)
    ensures IsDeepestFailed(below[1 := root], id)
            <==> forall other :: other in below && below[other].isFailed ==>
                   below[other].nestingLevel <= below[id].nestingLevel
  {
    var all := below[1 := root];
    assert forall other: nat :: FailedBelowRoot(all, other) <==> other in below && below[other].isFailed;
    assert forall other :: other in below ==> all[other] == below[other];
  }

  lemma DeepestIfNoEarlier(below: map<nat, ContractCall>, root: ContractCall, end: nat, id: nat)
    requires Interval(below, 2, end) && id in below && below[id].isFailed
    requires forall other: nat :: other in below && below[other].isFailed && other > id ==>
               below[other].nestingLevel <= below[id].nestingLevel
    ensures var all := below[1 := root];
            && id in all && FailedBelowRoot(all, id)
            && (IsDeepestFailed(all, id)
                <==> (forall other: nat :: FailedBelowRoot(all, other) && other < id ==>
                        all[other].nestingLevel <= all[id].nestingLevel))
  {
    var all := below[1 := root];
    assert forall other: nat :: FailedBelowRoot(all, other) <==> other in below && below[other].isFailed;
    assert forall other :: other in below ==> all[other] == below[other];
  }

  lemma NoneFailed(calls: map<nat, ContractCall>, root: ContractCall, end: nat)
    requires AreFailedCalls([], calls, 2, end)
    ensures NoneFailedBelowRoot(calls[1 := root]) && ReportAll(None, []) == None
  {
  }

  /** No failed call with a larger id than the reported one is deeper. */
  lemma LaterFailuresAreHigher(failures: seq<Failure>, calls: map<nat, ContractCall>, end: nat, i: nat)
    requires AreFailedCalls(failures, calls, 2, end) && i < |failures| && IsReported(failures, i)
    ensures IsFailedCall(failures[i], calls)
    ensures forall id: nat :: id in calls && calls[id].isFailed && id > failures[i].id ==>
                           calls[id].nestingLevel <= failures[i].level
  {
    forall id | id in calls && calls[id].isFailed && id > failures[i].id
      ensures calls[id].nestingLevel <= failures[i].level
    {
      var k :| 0 <= k < |failures| && failures[k] == Failure(id, calls[id].nestingLevel);
      assert k > i;
    }
  }

  /** It need not be the deepest failure: a later failure above the deepest one takes its place. */
  lemma DeepestFailureIsLost()
    ensures var fails := EntryPoint(false, true, []);
            var level2 := EntryPoint(false, false, [fails]);
            var level3 := EntryPoint(false, false, [level2]);
            && Failures([fails, level3, level2], 0, 2) == [Failure(2, 1), Failure(5, 3), Failure(7, 2)]
            && ReportAll(None, Failures([fails, level3, level2], 0, 2)) == Some(Failure(7, 1))
  {
    var fails := EntryPoint(false, true, []);
    var level2 := EntryPoint(false, false, [fails]);
    var level3 := EntryPoint(false, false, [level2]);
    var one, three, two := Failure(2, 1), Failure(5, 3), Failure(7, 2);
    assert Failures([fails], 1, 7) == [two] && Failures([fails], 2, 5) == [three];
    assert Failures([level2], 1, 4) == [three];
    assert [level3, level2][1..] == [level2] && [fails, level3, level2][1..] == [level3, level2];
    assert Failures([level2], 0, 6) == [two] && Size([level2]) == 2;
    assert Failures([level3, level2], 0, 3) == [three, two];
    assert [one, three, two][1..] == [three, two] && [three, two][1..] == [two] && [two][1..] == [];
    assert ReportAll(Some(Failure(7, 1)), []) == Some(Failure(7, 1));
    assert ReportAll(Some(Failure(5, 1)), [two]) == Some(Failure(7, 1));
    assert ReportAll(Some(one), [three, two]) == Some(Failure(7, 1));
  }
}
