/** What every run of the call trace builder keeps, loops and unnamed functions included. */
module CallTraceInvariants {
  import opened Wrappers
  import opened CallTrace

  /** `id` is a call made since the counter stood at `base`. */
  ghost predicate Own(log: Log, base: nat, id: nat) {
    base <= id && id in log.calls
  }

  /** Ids of contract calls come from the same counter, earlier, and are not function call ids. */
  ghost predicate ValidConfig(cfg: Config, base: nat) {
    && base > 0
    && (forall i :: 0 <= i < |cfg.children| ==> cfg.children[i] < base)
    && forall i, j :: 0 <= i < j < |cfg.children| ==> cfg.children[i] != cfg.children[j]
  }

  ghost predicate FreshIds(log: Log) {
    && (forall id :: id in log.calls ==> id < log.nextCallId)
    && (forall id :: id in log.events ==> id < log.nextCallId)
  }

  ghost function Kids(log: Log, id: nat): seq<nat>
    requires id in log.calls
  {
    log.calls[id].childrenCallIds
  }

  /** Every call but the root has an earlier parent that lists it. */
  ghost predicate ParentsList(log: Log, base: nat) {
    && Own(log, base, base) && log.calls[base].parentCallId == 0
    && forall id :: Own(log, base, id) ==> log.calls[id].callId == id && (id != base ==> HasParent(log, base, id))
  }

  ghost predicate HasParent(log: Log, base: nat, id: nat)
    requires id in log.calls
  {
    var parent := log.calls[id].parentCallId;
    parent < id && Own(log, base, parent) && id in Kids(log, parent)
  }

  /** No id is listed twice, in one list or in two. */
  ghost predicate ListedOnce(log: Log, base: nat) {
    forall p, q, i, j ::
      Own(log, base, p) && Own(log, base, q) && 0 <= i < |Kids(log, p)| && 0 <= j < |Kids(log, q)|
      && Kids(log, p)[i] == Kids(log, q)[j]
      ==> p == q && i == j
  }

  /** A listed id is a child call, an event of the call, or one of the contract calls linked so far. */
  ghost predicate ListedIsKnown(cfg: Config, log: Log, base: nat) {
    forall p, i :: Own(log, base, p) && 0 <= i < |Kids(log, p)| ==> Known(cfg, log, base, p, Kids(log, p)[i])
  }

  ghost predicate Known(cfg: Config, log: Log, base: nat, p: nat, x: nat) {
    || (base < x && x in log.calls && log.calls[x].parentCallId == p)
    || (base < x && x in log.events && log.events[x].functionCallId == p)
    || exists k :: 0 <= k < log.contractCallIndex && k < |cfg.children| && cfg.children[k] == x
  }

  /** Events have their own ids, and the call that emitted one lists it as an event and as a child. */
  ghost predicate EventsListed(log: Log, base: nat) {
    forall x :: x in log.events && base <= x ==> base < x && x !in log.calls && EventListed(log, base, x)
  }

  ghost predicate EventListed(log: Log, base: nat, x: nat)
    requires x in log.events
  {
    var f := log.events[x].functionCallId;
    log.events[x].callId == x && Own(log, base, f) && x in Kids(log, f) && x in log.calls[f].eventCallIds
  }

  /** Every contract call linked so far is listed by some call. */
  ghost predicate ContractCallsLinked(cfg: Config, log: Log, base: nat) {
    && log.contractCallIndex <= |cfg.children|
    && forall k :: 0 <= k < log.contractCallIndex ==> LinkedBy(cfg.children[k], log, base)
  }

  ghost predicate LinkedBy(callee: nat, log: Log, base: nat) {
    exists p :: Own(log, base, p) && callee in Kids(log, p)
  }

  function Callees(debugTrace: seq<DebugEntry>): seq<nat> {
    if debugTrace == [] then []
    else
      var front := Callees(debugTrace[..|debugTrace| - 1]);
      match debugTrace[|debugTrace| - 1]
      case WithContractCall(callee) => front + [callee]
      case WithLocation(_, _, _, _, _) => front
  }

  /** The debugger trace names existing calls, and its contract calls are the linked ones, in order. */
  ghost predicate DebugTraceResolves(cfg: Config, log: Log, base: nat) {
    && (forall i :: 0 <= i < |log.debugTrace| && log.debugTrace[i].WithLocation? ==>
          Own(log, base, log.debugTrace[i].functionCallId) && log.debugTrace[i].contractCallId == cfg.contractCallId)
    && log.contractCallIndex <= |cfg.children|
    && Callees(log.debugTrace) == if cfg.debugMode then cfg.children[..log.contractCallIndex] else []
  }

  ghost predicate PanicIsOwn(log: Log, base: nat) {
    log.panicCallId.Some? ==> Own(log, base, log.panicCallId.value)
  }

  /** Ids are fresh and the calls, events and linked contract calls form a tree. */
  ghost predicate TreeInv(cfg: Config, log: Log, base: nat) {
    && ValidConfig(cfg, base) && FreshIds(log) && base < log.nextCallId
    && ParentsList(log, base) && ListedOnce(log, base) && ListedIsKnown(cfg, log, base)
    && EventsListed(log, base) && ContractCallsLinked(cfg, log, base)
  }

  ghost predicate LogInv(cfg: Config, log: Log, base: nat) {
    TreeInv(cfg, log, base) && DebugTraceResolves(cfg, log, base) && PanicIsOwn(log, base)
  }

  ghost predicate StateInv(cfg: Config, s: State, base: nat) {
    && LogInv(cfg, s.log, base)
    && Own(s.log, base, s.current)
    && forall name :: name in s.loopParents ==> Own(s.log, base, s.loopParents[name])
  }

  /** Calls and events from before the run are untouched, and none of the run's calls disappears. */
  ghost predicate Extends(before: Log, after: Log, base: nat) {
    && before.nextCallId <= after.nextCallId
    && (forall id :: id < base ==> (id in before.calls <==> id in after.calls))
    && (forall id :: id < base && id in before.calls ==> after.calls[id] == before.calls[id])
    && (forall id :: id in before.calls ==> id in after.calls)
    && (forall id :: id < base ==> (id in before.events <==> id in after.events))
    && (forall id :: id in before.events ==> id in after.events && after.events[id] == before.events[id])
  }

  // ---------------------------------------------------------------- listing one more id

  /** From `log` to `after`, call `p` lists `x` in addition, and at most one call, without children, is new. */
  ghost predicate Lists(log: Log, after: Log, base: nat, p: nat, x: nat) {
    && Own(log, base, p)
    && (forall q :: q in log.calls ==> q in after.calls)
    && (forall q :: Own(after, base, q) && q !in log.calls ==> Kids(after, q) == [])
    && (forall q :: Own(log, base, q) ==>
          && after.calls[q].callId == log.calls[q].callId
          && after.calls[q].parentCallId == log.calls[q].parentCallId
          && log.calls[q].eventCallIds <= after.calls[q].eventCallIds
          && Kids(after, q) == if q == p then Kids(log, q) + [x] else Kids(log, q))
  }

  lemma UnlistedStaysOnce(log: Log, after: Log, base: nat, p: nat, x: nat)
    requires ListedOnce(log, base) && Lists(log, after, base, p, x)
    requires forall q, i :: Own(log, base, q) && 0 <= i < |Kids(log, q)| ==> Kids(log, q)[i] != x
    ensures ListedOnce(after, base)
  {
    forall q, r, i, j |
      Own(after, base, q) && Own(after, base, r) && 0 <= i < |Kids(after, q)| && 0 <= j < |Kids(after, r)|
      && Kids(after, q)[i] == Kids(after, r)[j]
      ensures q == r && i == j
    {
      assert Own(log, base, q) && Own(log, base, r);
      if i < |Kids(log, q)| { assert Kids(after, q)[i] == Kids(log, q)[i]; }
      if j < |Kids(log, r)| { assert Kids(after, r)[j] == Kids(log, r)[j]; }
    }
  }

  lemma KnownStaysKnown(cfg: Config, log: Log, after: Log, base: nat, p: nat, x: nat)
    requires ListedIsKnown(cfg, log, base) && Lists(log, after, base, p, x)
    requires Known(cfg, after, base, p, x)
    requires log.contractCallIndex <= after.contractCallIndex
    requires forall y :: y in log.events ==> y in after.events && after.events[y] == log.events[y]
    ensures ListedIsKnown(cfg, after, base)
  {
    forall q, i | Own(after, base, q) && 0 <= i < |Kids(after, q)|
      ensures Known(cfg, after, base, q, Kids(after, q)[i])
    {
      assert Own(log, base, q);
      if i < |Kids(log, q)| {
        assert Kids(after, q)[i] == Kids(log, q)[i];
        assert Known(cfg, log, base, q, Kids(log, q)[i]);
      }
    }
  }

  lemma ParentsStay(log: Log, after: Log, base: nat, p: nat, x: nat)
    requires ParentsList(log, base) && Lists(log, after, base, p, x)
    requires forall id :: Own(after, base, id) && id !in log.calls ==>
             after.calls[id].callId == id && HasParent(after, base, id)
    ensures ParentsList(after, base)
  {
    forall id | Own(after, base, id)
      ensures after.calls[id].callId == id && (id != base ==> HasParent(after, base, id))
    {
      if id in log.calls && id != base { assert HasParent(log, base, id); }
    }
  }

  lemma EventsStay(log: Log, after: Log, base: nat, p: nat, x: nat)
    requires EventsListed(log, base) && Lists(log, after, base, p, x)
    requires forall y :: y in log.events ==> y in after.events && after.events[y] == log.events[y]
    requires forall y :: y in after.events && y !in log.events ==> base < y && EventListed(after, base, y)
    requires forall y :: y in after.events ==> y !in after.calls || y < base
    ensures EventsListed(after, base)
  {
    forall y | y in after.events && base <= y ensures base < y && y !in after.calls && EventListed(after, base, y) {
      if y in log.events { assert EventListed(log, base, y); }
    }
  }

  lemma LinksStay(cfg: Config, log: Log, after: Log, base: nat, p: nat, x: nat)
    requires ContractCallsLinked(cfg, log, base) && Lists(log, after, base, p, x)
    requires after.contractCallIndex <= |cfg.children|
    requires forall k :: log.contractCallIndex <= k < after.contractCallIndex ==> cfg.children[k] == x
    ensures ContractCallsLinked(cfg, after, base)
  {
    forall k | 0 <= k < after.contractCallIndex ensures LinkedBy(cfg.children[k], after, base) {
      if k < log.contractCallIndex {
        assert LinkedBy(cfg.children[k], log, base);
      } else {
        assert Own(after, base, p) && Kids(after, p)[|Kids(log, p)|] == x;
      }
    }
  }

  lemma ListedIsOld(cfg: Config, log: Log, base: nat, q: nat, i: nat)
    requires TreeInv(cfg, log, base) && Own(log, base, q) && i < |Kids(log, q)|
    ensures Kids(log, q)[i] < log.nextCallId
    ensures log.contractCallIndex < |cfg.children| ==> Kids(log, q)[i] != cfg.children[log.contractCallIndex]
  {
    assert Known(cfg, log, base, q, Kids(log, q)[i]);
  }

  /** Listing a fresh id, or the next contract call, keeps the tree. */
  lemma ListingKeeps(cfg: Config, log: Log, after: Log, base: nat, p: nat, x: nat)
    requires TreeInv(cfg, log, base) && Lists(log, after, base, p, x)
    requires FreshIds(after) && base < after.nextCallId && Known(cfg, after, base, p, x)
    requires x == log.nextCallId || (log.contractCallIndex < |cfg.children| && x == cfg.children[log.contractCallIndex])
    requires forall id :: Own(after, base, id) && id !in log.calls ==>
             after.calls[id].callId == id && HasParent(after, base, id)
    requires forall y :: y in log.events ==> y in after.events && after.events[y] == log.events[y]
    requires forall y :: y in after.events && y !in log.events ==> base < y && EventListed(after, base, y)
    requires forall y :: y in after.events ==> y !in after.calls || y < base
    requires log.contractCallIndex <= after.contractCallIndex <= |cfg.children|
    requires forall k :: log.contractCallIndex <= k < after.contractCallIndex ==> cfg.children[k] == x
    ensures TreeInv(cfg, after, base)
  {
    hide ListedOnce, ListedIsKnown, ParentsList, EventsListed, ContractCallsLinked, ValidConfig, Lists, Known;
    hide HasParent, EventListed;
    forall q, i | Own(log, base, q) && 0 <= i < |Kids(log, q)| ensures Kids(log, q)[i] != x {
      ListedIsOld(cfg, log, base, q, i);
    }
    UnlistedStaysOnce(log, after, base, p, x);
    KnownStaysKnown(cfg, log, after, base, p, x);
    ParentsStay(log, after, base, p, x);
    EventsStay(log, after, base, p, x);
    LinksStay(cfg, log, after, base, p, x);
  }

  lemma ReportsStay(cfg: Config, log: Log, after: Log, base: nat)
    requires DebugTraceResolves(cfg, log, base) && PanicIsOwn(log, base)
    requires forall id :: id in log.calls ==> id in after.calls
    requires after.debugTrace == log.debugTrace && after.contractCallIndex == log.contractCallIndex
    requires after.panicCallId == log.panicCallId
             || (after.panicCallId.Some? && Own(after, base, after.panicCallId.value))
    ensures DebugTraceResolves(cfg, after, base) && PanicIsOwn(after, base)
  {
  }

  // ---------------------------------------------------------------- each effect keeps the invariant

  lemma OpenCallAdds(cfg: Config, log: Log, parent: nat, f: Function, fp: nat, after: Log)
    requires FreshIds(log) && parent in log.calls && OpenCall(cfg, log, parent, f, fp) == Ok(after)
    ensures var added := NewCall(cfg, log.nextCallId, parent, f, fp);
            && after.calls == log.calls[log.nextCallId := added]
                 [parent := log.calls[parent].(childrenCallIds := log.calls[parent].childrenCallIds + [log.nextCallId])]
            && added.childrenCallIds == [] && added.callId == log.nextCallId && added.parentCallId == parent
    ensures after.nextCallId == log.nextCallId + 1 && after.events == log.events
  {
  }

  lemma AddedExtends(log: Log, base: nat, parent: nat, after: Log, added: FunctionCall)
    requires FreshIds(log) && Own(log, base, parent) && base < log.nextCallId
    requires after.calls == log.calls[log.nextCallId := added]
               [parent := log.calls[parent].(childrenCallIds := log.calls[parent].childrenCallIds + [log.nextCallId])]
    requires after.nextCallId == log.nextCallId + 1 && after.events == log.events
    ensures Extends(log, after, base) && FreshIds(after)
  {
  }

  lemma AddedIsListed(log: Log, base: nat, parent: nat, after: Log, added: FunctionCall)
    requires FreshIds(log) && Own(log, base, parent) && base < log.nextCallId && added.childrenCallIds == []
    requires after.calls == log.calls[log.nextCallId := added]
               [parent := log.calls[parent].(childrenCallIds := log.calls[parent].childrenCallIds + [log.nextCallId])]
    ensures Lists(log, after, base, parent, log.nextCallId)
  {
  }

  lemma OpenCallLists(cfg: Config, log: Log, base: nat, parent: nat, f: Function, fp: nat, after: Log)
    requires FreshIds(log) && Own(log, base, parent) && base < log.nextCallId
    requires OpenCall(cfg, log, parent, f, fp) == Ok(after)
    ensures Extends(log, after, base)
    ensures Lists(log, after, base, parent, log.nextCallId) && FreshIds(after)
    ensures Own(after, base, log.nextCallId)
    ensures after.calls[log.nextCallId].callId == log.nextCallId && after.calls[log.nextCallId].parentCallId == parent
    ensures forall q :: q in after.calls ==> q in log.calls || q == log.nextCallId
  {
    hide Extends, Lists;
    OpenCallAdds(cfg, log, parent, f, fp, after);
    AddedExtends(log, base, parent, after, NewCall(cfg, log.nextCallId, parent, f, fp));
    AddedIsListed(log, base, parent, after, NewCall(cfg, log.nextCallId, parent, f, fp));
  }

  lemma OpenCallKeepsTree(cfg: Config, log: Log, base: nat, parent: nat, after: Log)
    requires TreeInv(cfg, log, base) && Lists(log, after, base, parent, log.nextCallId) && FreshIds(after)
    requires Own(after, base, log.nextCallId) && after.nextCallId == log.nextCallId + 1
    requires after.calls[log.nextCallId].callId == log.nextCallId && after.calls[log.nextCallId].parentCallId == parent
    requires forall q :: q in after.calls ==> q in log.calls || q == log.nextCallId
    requires after.events == log.events && after.contractCallIndex == log.contractCallIndex
    ensures TreeInv(cfg, after, base)
  {
    var id := log.nextCallId;
    assert Kids(after, parent)[|Kids(log, parent)|] == id;
    assert HasParent(after, base, id);
    assert Known(cfg, after, base, parent, id);
    forall y | y in after.events ensures y !in after.calls || y < base {
      assert y < id;
    }
    ListingKeeps(cfg, log, after, base, parent, id);
  }

  lemma OpenCallKeeps(cfg: Config, log: Log, base: nat, parent: nat, f: Function, fp: nat, after: Log)
    requires LogInv(cfg, log, base) && Own(log, base, parent)
    requires OpenCall(cfg, log, parent, f, fp) == Ok(after)
    ensures LogInv(cfg, after, base) && Extends(log, after, base) && Own(after, base, log.nextCallId)
  {
    OpenCallLists(cfg, log, base, parent, f, fp, after);
    OpenCallKeepsTree(cfg, log, base, parent, after);
    ReportsStay(cfg, log, after, base);
  }

  /** Who lists what, and the ids, did not change. */
  ghost predicate SameLists(log: Log, after: Log) {
    && after.calls.Keys == log.calls.Keys && after.events == log.events
    && after.nextCallId == log.nextCallId && after.contractCallIndex == log.contractCallIndex
    && forall q :: q in log.calls ==>
         && after.calls[q].callId == log.calls[q].callId && after.calls[q].parentCallId == log.calls[q].parentCallId
         && Kids(after, q) == Kids(log, q) && after.calls[q].eventCallIds == log.calls[q].eventCallIds
  }

  lemma SameListsKeepTree(cfg: Config, log: Log, after: Log, base: nat)
    requires TreeInv(cfg, log, base) && SameLists(log, after)
    ensures TreeInv(cfg, after, base)
  {
    forall id | Own(after, base, id) && id != base ensures HasParent(after, base, id) {
      assert HasParent(log, base, id);
    }
    forall p, i | Own(after, base, p) && 0 <= i < |Kids(after, p)|
      ensures Known(cfg, after, base, p, Kids(after, p)[i])
    {
      assert Known(cfg, log, base, p, Kids(log, p)[i]);
    }
    forall x | x in after.events && base <= x ensures EventListed(after, base, x) { assert EventListed(log, base, x); }
    forall k | 0 <= k < after.contractCallIndex ensures LinkedBy(cfg.children[k], after, base) {
      assert LinkedBy(cfg.children[k], log, base);
    }
  }

  /** Closing a call sets its results, and perhaps the reported panic. */
  lemma CloseCallSets(log: Log, id: nat, level: int, results: seq<FnIO>, after: Log)
    requires id in log.calls && CloseCall(log, id, level, results) == Ok(after)
    ensures after == log.(calls := log.calls[id := log.calls[id].(results := results)],
                          panicLevel := after.panicLevel, panicCallId := after.panicCallId)
    ensures after.panicCallId == log.panicCallId || after.panicCallId == Some(id)
  {
    hide ReportsPanic;
  }

  lemma CloseCallFacts(log: Log, base: nat, id: nat, level: int, results: seq<FnIO>, after: Log)
    requires Own(log, base, id) && CloseCall(log, id, level, results) == Ok(after)
    ensures SameLists(log, after) && Extends(log, after, base) && after.debugTrace == log.debugTrace
    ensures after.panicCallId == log.panicCallId || after.panicCallId == Some(id)
  {
    hide CloseCall;
    CloseCallSets(log, id, level, results, after);
  }

  lemma CloseCallKeeps(cfg: Config, log: Log, base: nat, id: nat, level: int, results: seq<FnIO>)
    requires LogInv(cfg, log, base) && Own(log, base, id)
    ensures var r := CloseCall(log, id, level, results);
            && (r.Err? ==> r.error == EmptyPanicValue)
            && (r.Ok? ==> LogInv(cfg, r.value, base) && Extends(log, r.value, base))
  {
    ReportsPanicFails(results);
    var r := CloseCall(log, id, level, results);
    if r.Ok? {
      CloseCallFacts(log, base, id, level, results, r.value);
      hide CloseCall, TreeInv, DebugTraceResolves;
      SameListsKeepTree(cfg, log, r.value, base);
      ReportsStay(cfg, log, r.value, base);
    }
  }

  lemma {:induction false} ReportsPanicFails(results: seq<FnIO>)
    ensures ReportsPanic(results).Err? ==> ReportsPanic(results).error == EmptyPanicValue
  {
    if results != [] { ReportsPanicFails(results[1..]); }
  }

  /** Only location entries of call `id` were added to the debugger trace. */
  ghost predicate LocationsAdded(cfg: Config, log: Log, after: Log, id: nat) {
    && after == log.(debugTrace := after.debugTrace, prevLocation := after.prevLocation,
                     prevLocations := after.prevLocations)
    && Callees(after.debugTrace) == Callees(log.debugTrace)
    && log.debugTrace <= after.debugTrace
    && forall i :: |log.debugTrace| <= i < |after.debugTrace| ==>
         var e := after.debugTrace[i];
         e.WithLocation? && e.functionCallId == id && e.contractCallId == cfg.contractCallId
  }

  lemma {:induction false} AddLocationsAdds(cfg: Config, log: Log, id: nat, fp: nat, s: StatementLocations, from: nat)
    requires from <= |s.locations|
    ensures LocationsAdded(cfg, log, AddLocations(cfg, log, id, fp, s, from), id)
    decreases |s.locations| - from
  {
    hide LocationsAdded;
    if from == |s.locations| {
      NothingAdded(cfg, log, id);
    } else {
      var added := LocationAdds(cfg, log, id, fp, s, from);
      AddLocationsAdds(cfg, added, id, fp, s, from + 1);
      AddedTwice(cfg, log, added, AddLocations(cfg, added, id, fp, s, from + 1), id);
    }
  }

  lemma NothingAdded(cfg: Config, log: Log, id: nat)
    ensures LocationsAdded(cfg, log, log, id)
  {
  }

  lemma CalleesBeforeLocation(trace: seq<DebugEntry>, entry: DebugEntry)
    requires entry.WithLocation?
    ensures Callees(trace + [entry]) == Callees(trace)
  {
    assert (trace + [entry])[..|trace|] == trace;
  }

  lemma AddLocationsUnfolds(
    cfg: Config, log: Log, id: nat, fp: nat, s: StatementLocations, from: nat, added: Log)
    requires from < |s.locations|
    requires var location := s.locations[from];
             var isNew :=
               log.prevLocation.None? || (location != log.prevLocation.value && s.locations != log.prevLocations);
             added == log.(
               debugTrace := if isNew then
                               log.debugTrace + [WithLocation(s.sierraIndex, from, cfg.contractCallId, id, fp)]
                             else log.debugTrace,
               prevLocation := Some(location))
    ensures AddLocations(cfg, log, id, fp, s, from) == AddLocations(cfg, added, id, fp, s, from + 1)
  {
  }

  /** One location adds at most its own entry. */
  lemma LocationAdds(cfg: Config, log: Log, id: nat, fp: nat, s: StatementLocations, from: nat) returns (added: Log)
    requires from < |s.locations|
    ensures LocationsAdded(cfg, log, added, id)
    ensures AddLocations(cfg, log, id, fp, s, from) == AddLocations(cfg, added, id, fp, s, from + 1)
  {
    hide Callees, AddLocations;
    var location := s.locations[from];
    var isNew := log.prevLocation.None? || (location != log.prevLocation.value && s.locations != log.prevLocations);
    var entry := WithLocation(s.sierraIndex, from, cfg.contractCallId, id, fp);
    added := log.(debugTrace := if isNew then log.debugTrace + [entry] else log.debugTrace,
                  prevLocation := Some(location));
    AddLocationsUnfolds(cfg, log, id, fp, s, from, added);
    CalleesBeforeLocation(log.debugTrace, entry);
  }

  lemma AddedTwice(cfg: Config, log: Log, mid: Log, after: Log, id: nat)
    requires LocationsAdded(cfg, log, mid, id) && LocationsAdded(cfg, mid, after, id)
    ensures LocationsAdded(cfg, log, after, id)
  {
    hide Callees;
  }

  lemma {:induction false} AddStatementsAdds(
    cfg: Config, log: Log, id: nat, fp: nat, statements: seq<StatementLocations>)
    ensures LocationsAdded(cfg, log, AddStatements(cfg, log, id, fp, statements), id)
    decreases |statements|
  {
    hide LocationsAdded, AddLocations;
    if statements == [] {
      NothingAdded(cfg, log, id);
    } else {
      AddLocationsAdds(cfg, log, id, fp, statements[0], 0);
      var located := AddLocations(cfg, log, id, fp, statements[0], 0);
      var added := located.(prevLocations := statements[0].locations);
      RememberedAdds(cfg, log, located, id, statements[0].locations);
      AddStatementsAdds(cfg, added, id, fp, statements[1..]);
      AddedTwice(cfg, log, added, AddStatements(cfg, added, id, fp, statements[1..]), id);
    }
  }

  lemma RememberedAdds(cfg: Config, log: Log, after: Log, id: nat, locations: seq<Location>)
    requires LocationsAdded(cfg, log, after, id)
    ensures LocationsAdded(cfg, log, after.(prevLocations := locations), id)
  {
    hide Callees;
  }

  lemma EventsAreNotCalls(cfg: Config, log: Log, base: nat)
    requires TreeInv(cfg, log, base)
    ensures base < log.nextCallId && log.contractCallIndex <= |cfg.children|
    ensures forall y :: y in log.events ==> y !in log.calls || y < base
  {
  }

  lemma LinkedChildIsKnown(cfg: Config, log: Log, base: nat, id: nat, k: nat)
    requires k < log.contractCallIndex && k < |cfg.children|
    ensures Known(cfg, log, base, id, cfg.children[k])
  {
  }

  lemma LinkLists(cfg: Config, log: Log, base: nat, id: nat, after: Log)
    requires Own(log, base, id) && FreshIds(log)
    requires HandleSysCall(cfg, log, id, ContractCall) == Ok(after)
    ensures log.contractCallIndex < |cfg.children| && after.contractCallIndex == log.contractCallIndex + 1
    ensures Extends(log, after, base) && FreshIds(after) && after.nextCallId == log.nextCallId
            && after.events == log.events
    ensures Lists(log, after, base, id, cfg.children[log.contractCallIndex]) && after.calls.Keys == log.calls.Keys
    ensures after.panicCallId == log.panicCallId
    ensures after.debugTrace
            == if cfg.debugMode then log.debugTrace + [WithContractCall(cfg.children[log.contractCallIndex])]
              else log.debugTrace
  {
  }

  lemma LinkKeepsTree(cfg: Config, log: Log, base: nat, id: nat, after: Log, callee: nat)
    requires TreeInv(cfg, log, base) && FreshIds(after)
    requires log.contractCallIndex < |cfg.children| && callee == cfg.children[log.contractCallIndex]
    requires Lists(log, after, base, id, callee)
    requires forall q :: q in after.calls ==> q in log.calls
    requires after.nextCallId == log.nextCallId && after.events == log.events
    requires after.contractCallIndex == log.contractCallIndex + 1
    ensures TreeInv(cfg, after, base)
  {
    hide ListedOnce, ListedIsKnown, ParentsList, EventsListed, ContractCallsLinked, ValidConfig, Lists, Known;
    hide HasParent, EventListed;
    LinkedChildIsKnown(cfg, after, base, id, log.contractCallIndex);
    EventsAreNotCalls(cfg, log, base);
    ListingKeeps(cfg, log, after, base, id, callee);
  }

  lemma LinkKeeps(cfg: Config, log: Log, base: nat, id: nat, after: Log)
    requires LogInv(cfg, log, base) && Own(log, base, id)
    requires HandleSysCall(cfg, log, id, ContractCall) == Ok(after)
    ensures LogInv(cfg, after, base) && Extends(log, after, base)
  {
    LinkLists(cfg, log, base, id, after);
    hide HandleSysCall, Lists, FreshIds, Extends;
    LinkKeepsTree(cfg, log, base, id, after, cfg.children[log.contractCallIndex]);
    LinkIsTraced(cfg, log, after, base);
  }

  lemma LinkIsTraced(cfg: Config, log: Log, after: Log, base: nat)
    requires DebugTraceResolves(cfg, log, base) && PanicIsOwn(log, base) && after.calls.Keys == log.calls.Keys
    requires log.contractCallIndex < |cfg.children| && after.contractCallIndex == log.contractCallIndex + 1
    requires after.panicCallId == log.panicCallId
    requires after.debugTrace
             == if cfg.debugMode then log.debugTrace + [WithContractCall(cfg.children[log.contractCallIndex])]
               else log.debugTrace
    ensures DebugTraceResolves(cfg, after, base) && PanicIsOwn(after, base)
  {
    var callee := cfg.children[log.contractCallIndex];
    assert (log.debugTrace + [WithContractCall(callee)])[..|log.debugTrace|] == log.debugTrace;
  }

  lemma EmitLists(cfg: Config, log: Log, base: nat, id: nat, name: string, after: Log)
    requires Own(log, base, id) && FreshIds(log) && base < log.nextCallId && log.calls[id].callId == id
    requires HandleSysCall(cfg, log, id, EmitEvent(Some(name))) == Ok(after)
    ensures Extends(log, after, base) && FreshIds(after) && after.nextCallId == log.nextCallId + 1
    ensures Lists(log, after, base, id, log.nextCallId) && after.calls.Keys == log.calls.Keys
    ensures EventListed(after, base, log.nextCallId)
    ensures after.events.Keys == log.events.Keys + {log.nextCallId}
    ensures after.panicCallId == log.panicCallId && after.debugTrace == log.debugTrace
            && after.contractCallIndex == log.contractCallIndex
    ensures after.events[log.nextCallId].functionCallId == id
  {
    assert Kids(after, id)[|Kids(log, id)|] == log.nextCallId;
    assert after.calls[id].eventCallIds[|log.calls[id].eventCallIds|] == log.nextCallId;
  }

  lemma EmitKeepsTree(cfg: Config, log: Log, base: nat, id: nat, after: Log)
    requires TreeInv(cfg, log, base) && FreshIds(after) && after.nextCallId == log.nextCallId + 1
    requires Lists(log, after, base, id, log.nextCallId) && after.calls.Keys == log.calls.Keys
    requires after.events.Keys == log.events.Keys + {log.nextCallId}
    requires forall y :: y in log.events ==> after.events[y] == log.events[y]
    requires EventListed(after, base, log.nextCallId) && after.events[log.nextCallId].functionCallId == id
    requires after.contractCallIndex == log.contractCallIndex
    ensures TreeInv(cfg, after, base)
  {
    assert Known(cfg, after, base, id, log.nextCallId);
    ListingKeeps(cfg, log, after, base, id, log.nextCallId);
  }

  lemma EmitKeeps(cfg: Config, log: Log, base: nat, id: nat, name: string, after: Log)
    requires LogInv(cfg, log, base) && Own(log, base, id)
    requires HandleSysCall(cfg, log, id, EmitEvent(Some(name))) == Ok(after)
    ensures LogInv(cfg, after, base) && Extends(log, after, base)
  {
    assert FreshIds(log) && base < log.nextCallId && log.calls[id].callId == id;
    EmitLists(cfg, log, base, id, name, after);
    hide HandleSysCall, Lists, EventListed;
    EmitKeepsTree(cfg, log, base, id, after);
    ReportsStay(cfg, log, after, base);
  }

  lemma SysCallKeeps(cfg: Config, log: Log, base: nat, id: nat, sysCall: SysCall)
    requires LogInv(cfg, log, base) && Own(log, base, id)
    ensures var r := HandleSysCall(cfg, log, id, sysCall);
            && (r.Err? ==> r.error == MissingContractChild)
            && (r.Ok? ==> LogInv(cfg, r.value, base) && Extends(log, r.value, base))
  {
    var r := HandleSysCall(cfg, log, id, sysCall);
    if r.Ok? {
      if sysCall.ContractCall? {
        LinkKeeps(cfg, log, base, id, r.value);
      } else if sysCall.EmitEvent? && sysCall.eventName.Some? {
        EmitKeeps(cfg, log, base, id, sysCall.eventName.value, r.value);
      }
    }
  }

  lemma LocatingKeeps(cfg: Config, log: Log, after: Log, base: nat, id: nat)
    requires LogInv(cfg, log, base) && Own(log, base, id) && LocationsAdded(cfg, log, after, id)
    ensures LogInv(cfg, after, base) && Extends(log, after, base)
  {
    hide TreeInv, Callees;
    SameListsKeepTree(cfg, log, after, base);
  }

  lemma ExecuteAtKeeps(cfg: Config, log: Log, base: nat, id: nat, e: Entry)
    requires LogInv(cfg, log, base) && Own(log, base, id)
    ensures var r := ExecuteAt(cfg, log, id, e);
            && (r.Err? ==> r.error == MissingContractChild)
            && (r.Ok? ==> LogInv(cfg, r.value, base) && Extends(log, r.value, base))
  {
    hide LogInv, HandleSysCall;
    var located := if cfg.debugMode then AddStatements(cfg, log, id, e.fp, e.statements) else log;
    if cfg.debugMode {
      AddStatementsAdds(cfg, log, id, e.fp, e.statements);
      LocatingKeeps(cfg, log, located, base, id);
    }
    SysCallKeeps(cfg, located, base, id, e.sysCall);
  }

  // ---------------------------------------------------------------- runs

  lemma OpenCallIsOk(cfg: Config, log: Log, parent: nat, f: Function, fp: nat)
    requires parent in log.calls
    ensures OpenCall(cfg, log, parent, f, fp).Ok?
  {
  }

  lemma EnterKeeps(cfg: Config, s: State, e: Entry, base: nat)
    requires StateInv(cfg, s, base)
    ensures var r := EnterFunction(cfg, s, e);
            r.Ok? && StateInv(cfg, r.value, base) && Extends(s.log, r.value.log, base)
  {
    hide LogInv, OpenCall;
    if e.fn.Some? && !e.fn.value.isLoop {
      OpenCallIsOk(cfg, s.log, s.current, e.fn.value, e.fp);
      OpenCallKeeps(cfg, s.log, base, s.current, e.fn.value, e.fp,
                    OpenCall(cfg, s.log, s.current, e.fn.value, e.fp).value);
    }
  }

  lemma ParentIsOwn(cfg: Config, log: Log, base: nat, id: nat)
    requires LogInv(cfg, log, base) && Own(log, base, id)
    ensures var parent := log.calls[id].parentCallId; parent == 0 || Own(log, base, parent)
  {
    assert id == base || HasParent(log, base, id);
  }

  lemma LeaveKeeps(cfg: Config, s: State, e: Entry, results: seq<FnIO>, base: nat)
    requires StateInv(cfg, s, base)
    ensures var r := LeaveFunction(s, e, results);
            && (r.Err? ==> r.error == EmptyPanicValue)
            && (r.Ok? ==> StateInv(cfg, r.value, base) && Extends(s.log, r.value.log, base))
  {
    hide LogInv, CloseCall;
    ParentIsOwn(cfg, s.log, base, s.current);
    CloseCallKeeps(cfg, s.log, base, s.current, s.nesting, results);
  }

  lemma MoveKeeps(cfg: Config, s: State, prev: Entry, e: Entry, base: nat)
    requires StateInv(cfg, s, base)
    ensures var r := Move(cfg, s, prev, e);
            && (r.Err? ==> r.error == EmptyPanicValue)
            && (r.Ok? ==> StateInv(cfg, r.value, base) && Extends(s.log, r.value.log, base))
  {
    hide LogInv, EnterFunction, LeaveFunction;
    EnterKeeps(cfg, s, e, base);
    LeaveKeeps(cfg, s, e, prev.results, base);
  }

  lemma StepKeeps(cfg: Config, s: State, prev: Entry, e: Entry, base: nat)
    requires StateInv(cfg, s, base)
    ensures var r := Step(cfg, s, prev, e);
            && (r.Err? ==> r.error == EmptyPanicValue || r.error == MissingContractChild)
            && (r.Ok? ==> StateInv(cfg, r.value, base) && Extends(s.log, r.value.log, base))
  {
    hide LogInv, Move, ExecuteAt;
    MoveKeeps(cfg, s, prev, e, base);
    var moved := Move(cfg, s, prev, e);
    if moved.Ok? {
      ExecuteAtKeeps(cfg, moved.value.log, base, moved.value.current, e);
    }
  }

  lemma {:induction false} RunKeeps(cfg: Config, s: State, prev: Entry, trace: seq<Entry>, base: nat)
    requires StateInv(cfg, s, base)
    ensures var r := Run(cfg, s, prev, trace);
            && (r.Err? ==> r.error == EmptyPanicValue || r.error == MissingContractChild)
            && (r.Ok? ==> StateInv(cfg, r.value, base) && Extends(s.log, r.value.log, base))
    decreases |trace|
  {
    hide StateInv, Step;
    if trace != [] {
      StepKeeps(cfg, s, prev, trace[0], base);
      var next := Step(cfg, s, prev, trace[0]);
      if next.Ok? { RunKeeps(cfg, next.value, trace[0], trace[1..], base); }
    }
  }

  lemma StartHolds(
    cfg: Config, calls: map<nat, FunctionCall>, events: map<nat, EventCall>, nextCallId: nat, first: Entry)
    requires ValidConfig(cfg, nextCallId)
    requires (forall id :: id in calls ==> id < nextCallId) && (forall id :: id in events ==> id < nextCallId)
    ensures StateInv(cfg, Start(cfg, calls, events, nextCallId, first), nextCallId)
  {
    var log := Start(cfg, calls, events, nextCallId, first).log;
    assert forall id :: Own(log, nextCallId, id) ==> id == nextCallId && Kids(log, id) == [];
  }

  lemma CheckRootKeeps(cfg: Config, log: Log, base: nat, results: seq<FnIO>)
    requires LogInv(cfg, log, base)
    ensures var r := CheckRoot(log, base, results);
            && (r.Err? ==> r.error == EmptyPanicValue)
            && (r.Ok? ==> LogInv(cfg, r.value, base) && r.value.calls == log.calls && r.value.events == log.events)
  {
    ReportsPanicFails(results);
    var r := CheckRoot(log, base, results);
    if r.Ok? { SameListsKeepTree(cfg, log, r.value, base); }
  }

  /**
   For every trace: no map lookup of the builder fails, so a run can only stop on an empty trace, on more
   contract calls than the contract call made, or on an empty panic result; and the maps it leaves form a
   call tree beside everything that was there before.
   */
  lemma BuildKeepsTree(
    cfg: Config, calls: map<nat, FunctionCall>, events: map<nat, EventCall>, nextCallId: nat,
    trace: seq<Entry>)
    requires ValidConfig(cfg, nextCallId)
    requires (forall id :: id in calls ==> id < nextCallId) && (forall id :: id in events ==> id < nextCallId)
    ensures match Build(cfg, calls, events, nextCallId, trace)
            case Err(a) => a == EmptyTrace || a == EmptyPanicValue || a == MissingContractChild
            case Ok(s) =>
              && StateInv(cfg, s, nextCallId)
              && (forall id :: id in calls ==> id in s.log.calls && s.log.calls[id] == calls[id])
              && (forall id :: id in s.log.calls && id < nextCallId ==> id in calls)
              && (forall id :: id in events ==> id in s.log.events && s.log.events[id] == events[id])
  {
    hide LogInv, CheckRoot, Run;
    if trace != [] {
      var start := Start(cfg, calls, events, nextCallId, trace[0]);
      StartHolds(cfg, calls, events, nextCallId, trace[0]);
      RunKeeps(cfg, start, trace[0], trace, nextCallId);
      var ran := Run(cfg, start, trace[0], trace);
      if ran.Ok? { CheckRootKeeps(cfg, ran.value.log, nextCallId, trace[|trace| - 1].results); }
    }
  }
}
