/** What the order of the structs decides: when no order leaves a mark, and when some order leaves none. */
module TypeOrders {
  import opened CircularReferences
  import opened TypeExpander
  import opened TypeExpanding

  ghost predicate LeavesNoMark(abi: Abi, order: seq<Name>)
    requires AreStructs(abi, order)
  {
    NoEntryHasMark(InOrder(abi, order).0.expanded)
  }

  /** How many members of structs have the struct as their type. */
  ghost function UsesOf(abi: Abi, name: Name): nat {
    |Positions(abi, abi.structs.Keys, {name})|
  }

  ghost predicate AreRootsOfTrees(abi: Abi, starts: seq<Name>) {
    forall name :: name in abi.structs ==> UsesOf(abi, name) == if name in starts then 0 else 1
  }

  lemma TreesFromStarts(abi: Abi, starts: seq<Name>)
    ensures IsTreeFrom(abi, abi.structs.Keys, Elements(starts)) <==> AreRootsOfTrees(abi, starts)
  {
    hide Positions;
    forall name | name in abi.structs
      ensures UsesOf(abi, name) == |Positions(abi, abi.structs.Keys, {name})|
    {
    }
  }

  lemma OrderLeavesNoMarkIff(abi: Abi, order: seq<Name>)
    requires IsOrder(abi, order)
    ensures LeavesNoMark(abi, order) <==> AreRootsOfTrees(abi, InOrder(abi, order).1)
  {
    hide InOrder, EntriesOk, Total, Counted, NoEntryHasMark, IsTreeFrom, Positions, Elements, AreRootsOfTrees;
    OrderSettles(abi, order);
    var (s, starts) := InOrder(abi, order);
    NoEntryHasMarkIff(abi, s, starts);
    TreesFromStarts(abi, starts);
  }

  ghost function ToSeq(names: set<Name>): (order: seq<Name>)
    ensures Elements(order) == names && |order| == |names|
  {
    if names == {} then []
    else
      var name :| name in names;
      NewElement(ToSeq(names - {name}), name);
      ToSeq(names - {name}) + [name]
  }

  /** The struct is the type of no member of a struct. */
  ghost predicate IsRoot(abi: Abi, name: Name) {
    UsesOf(abi, name) == 0
  }

  /** No struct contains a struct. */
  ghost predicate IsFlat(abi: Abi) {
    forall name :: name in abi.structs ==> IsRoot(abi, name)
  }

  /** The structs form trees: each is the type of at most one member, and lies below one that is of none. */
  ghost predicate IsForest(abi: Abi) {
    forall name :: name in abi.structs ==> UsesOf(abi, name) <= 1 && HangsFromRoot(abi, name)
  }

  ghost predicate HangsFromRoot(abi: Abi, name: Name) {
    exists root :: root in abi.structs && IsRoot(abi, root) && name in Reachable(abi, root)
  }

  // ---------------------------------------------------------------- what an order starts from

  /** A visited struct that is no start is inlined, so it is the type of a member. */
  lemma NoStartIsNoRoot(abi: Abi, s: State, starts: seq<Name>, name: Name)
    requires Counted(abi, s, starts) && s.visited == abi.structs.Keys && name in abi.structs && name !in starts
    ensures !IsRoot(abi, name)
  {
    assert {name} <= abi.structs.Keys && CountedFor(abi, s, starts, Elements(starts), {name});
    hide Positions, TotalMarks;
    assert {name} * (s.visited - Elements(starts)) == {name};
  }

  lemma {:induction false} FirstStarts(abi: Abi, order: seq<Name>)
    requires AreStructs(abi, order) && order != []
    ensures var (s, starts) := InOrder(abi, order);
            starts != [] && starts[0] == order[0]
    decreases |order|
  {
    hide Expand;
    if |order| == 1 {
      NoOrder(abi);
      assert order[..0] == [];
    } else {
      FirstStarts(abi, order[..|order| - 1]);
    }
  }

  /** Whatever is visited lies below a start. */
  ghost predicate HangFrom(abi: Abi, visited: set<Name>, starts: seq<Name>) {
    forall name :: name in visited ==> exists start :: start in starts && name in Reachable(abi, start)
  }

  lemma MoreHang(abi: Abi, before: set<Name>, after: set<Name>, starts: seq<Name>, last: Name)
    requires HangFrom(abi, before, starts) && after - before <= Reachable(abi, last)
    ensures HangFrom(abi, after, starts + [last])
  {
    hide Reachable;
    forall name | name in after
      ensures exists start :: start in starts + [last] && name in Reachable(abi, start)
    {
      if name in before {
        var start :| start in starts && name in Reachable(abi, start);
        assert start in starts + [last];
      } else {
        assert last in starts + [last];
      }
    }
  }

  lemma MoreCovered(abi: Abi, before: set<Name>, after: set<Name>)
    requires before <= after && Covers(abi, before, before) && Covers(abi, after - before, after)
    ensures Covers(abi, after, after)
  {
  }

  lemma {:induction false} VisitedHangs(abi: Abi, order: seq<Name>)
    requires AreStructs(abi, order)
    ensures var (s, starts) := InOrder(abi, order);
            HangFrom(abi, s.visited, starts) && Covers(abi, s.visited, s.visited)
            && Elements(starts) <= Elements(order) && Elements(order) <= s.visited
    decreases |order|
  {
    hide Reachable, Expand, Covers, HangFrom, InOrder;
    if order == [] {
      NoOrder(abi);
      NothingHangs(abi);
    } else {
      var front, last := order[..|order| - 1], order[|order| - 1];
      assert order == front + [last];
      VisitedHangs(abi, front);
      OrderContinues(abi, front, last);
      NewElement(front, last);
      var (s, starts) := InOrder(abi, front);
      if last !in s.visited {
        NewElement(starts, last);
        VisitsReachable(abi, last, s);
        var after := Expand(abi, last, s).1;
        MoreHang(abi, s.visited, after.visited, starts, last);
        MoreCovered(abi, s.visited, after.visited);
      }
    }
  }

  lemma NothingHangs(abi: Abi)
    ensures HangFrom(abi, {}, []) && Covers(abi, {}, {})
  {
  }

  /** Once everything is visited, no struct becomes a start. */
  lemma {:induction false} NoMoreStarts(abi: Abi, front: seq<Name>, more: seq<Name>)
    requires AreStructs(abi, front) && AreStructs(abi, more)
    requires InOrder(abi, front).0.visited == abi.structs.Keys
    ensures AreStructs(abi, front + more) && InOrder(abi, front + more) == InOrder(abi, front)
    decreases |more|
  {
    if more == [] {
      assert front + more == front;
    } else {
      var init, last := more[..|more| - 1], more[|more| - 1];
      assert front + more == (front + init) + [last];
      NoMoreStarts(abi, front, init);
      OrderContinues(abi, front + init, last);
    }
  }

  // ---------------------------------------------------------------- no order

  lemma NamedFirst(abi: Abi, name: Name, order: seq<Name>)
    requires name in abi.structs && order == [name] + ToSeq(abi.structs.Keys - {name})
    ensures IsOrder(abi, order)
  {
    var others := ToSeq(abi.structs.Keys - {name});
    assert forall other :: other in others <==> other in Elements(others);
    assert abi.structs.Keys == (abi.structs.Keys - {name}) + {name};
  }

  lemma Contained(abi: Abi, name: Name)
    requires name in abi.structs && !IsRoot(abi, name)
    ensures exists order :: IsOrder(abi, order) && !LeavesNoMark(abi, order)
  {
    hide InOrder, NoEntryHasMark, UsesOf;
    var order := [name] + ToSeq(abi.structs.Keys - {name});
    NamedFirst(abi, name, order);
    FirstStarts(abi, order);
    OrderLeavesNoMarkIff(abi, order);
    var starts := InOrder(abi, order).1;
    assert starts[0] in starts;
  }

  /** Every order of the structs leaves no mark if and only if no struct contains a struct. */
  lemma NoOrderMarksIff(abi: Abi)
    ensures (forall order :: IsOrder(abi, order) ==> LeavesNoMark(abi, order)) <==> IsFlat(abi)
  {
    hide LeavesNoMark, AreStructs, Elements, IsRoot;
    if IsFlat(abi) {
      forall order | IsOrder(abi, order) ensures LeavesNoMark(abi, order) {
        FlatLeavesNoMark(abi, order);
      }
    } else {
      var name :| name in abi.structs && !IsRoot(abi, name);
      Contained(abi, name);
    }
  }

  lemma FlatLeavesNoMark(abi: Abi, order: seq<Name>)
    requires IsFlat(abi) && IsOrder(abi, order)
    ensures LeavesNoMark(abi, order)
  {
    hide InOrder, Elements, AreStructs, Counted, EntriesOk, Total, LeavesNoMark, AreRootsOfTrees, IsFlat;
    OrderLeavesNoMarkIff(abi, order);
    OrderSettles(abi, order);
    var (s, starts) := InOrder(abi, order);
    AllStart(abi, s, starts);
  }

  lemma AllStart(abi: Abi, s: State, starts: seq<Name>)
    requires IsFlat(abi) && Counted(abi, s, starts) && s.visited == abi.structs.Keys
    ensures AreRootsOfTrees(abi, starts)
  {
    hide UsesOf, Counted;
    forall name | name in abi.structs ensures UsesOf(abi, name) == if name in starts then 0 else 1 {
      assert IsRoot(abi, name);
      if name !in starts { NoStartIsNoRoot(abi, s, starts, name); }
    }
  }

  // ---------------------------------------------------------------- some order

  /** Some order of the structs leaves no mark if and only if the structs form trees: then the roots go first. */
  lemma SomeOrderLeavesNoMarkIff(abi: Abi)
    ensures (exists order :: IsOrder(abi, order) && LeavesNoMark(abi, order)) <==> IsForest(abi)
  {
    hide LeavesNoMark, AreStructs, Elements, IsForest;
    if IsForest(abi) { RootsFirst(abi); }
    if order :| IsOrder(abi, order) && LeavesNoMark(abi, order) { NoMarkMeansForest(abi, order); }
  }

  lemma NoMarkMeansForest(abi: Abi, order: seq<Name>)
    requires IsOrder(abi, order) && LeavesNoMark(abi, order)
    ensures IsForest(abi)
  {
    hide InOrder, Elements, AreStructs, LeavesNoMark, AreRootsOfTrees, IsForest, HangFrom, Covers, Settled;
    OrderLeavesNoMarkIff(abi, order);
    OrderSettles(abi, order);
    VisitedHangs(abi, order);
    var (s, starts) := InOrder(abi, order);
    TreesAreForest(abi, order, s.visited, starts);
  }

  lemma TreesAreForest(abi: Abi, order: seq<Name>, visited: set<Name>, starts: seq<Name>)
    requires Elements(starts) <= Elements(order) == abi.structs.Keys == visited
    requires AreRootsOfTrees(abi, starts) && HangFrom(abi, visited, starts)
    ensures IsForest(abi)
  {
    hide UsesOf, Reachable, HangsFromRoot, Elements;
    forall name | name in abi.structs ensures UsesOf(abi, name) <= 1 && HangsFromRoot(abi, name) {
      HangsFromStart(abi, order, visited, starts, name);
    }
  }

  lemma HangsFromStart(abi: Abi, order: seq<Name>, visited: set<Name>, starts: seq<Name>, name: Name)
    requires Elements(starts) <= Elements(order) == abi.structs.Keys
    requires AreRootsOfTrees(abi, starts) && HangFrom(abi, visited, starts) && name in visited
    ensures HangsFromRoot(abi, name)
  {
    hide AreRootsOfTrees, IsRoot, Reachable, Elements;
    var start :| start in starts && name in Reachable(abi, start);
    StartIsRoot(abi, order, starts, start);
  }

  lemma StartIsRoot(abi: Abi, order: seq<Name>, starts: seq<Name>, start: Name)
    requires Elements(starts) <= Elements(order) <= abi.structs.Keys && AreRootsOfTrees(abi, starts) && start in starts
    ensures start in abi.structs && IsRoot(abi, start)
  {
    hide UsesOf;
    assert start in Elements(starts);
  }

  lemma PathFromRoot(abi: Abi, name: Name) returns (root: Name, path: seq<Name>)
    requires HangsFromRoot(abi, name)
    ensures root in abi.structs && IsRoot(abi, root) && IsPath(abi, path, root, name)
  {
    hide IsRoot, IsPath;
    root :| root in abi.structs && IsRoot(abi, root) && name in Reachable(abi, root);
    path :| IsPath(abi, path, root, name);
  }

  lemma RootsReachAll(abi: Abi, visited: set<Name>)
    requires IsForest(abi) && Covers(abi, visited, visited) && Roots(abi) <= visited <= abi.structs.Keys
    ensures visited == abi.structs.Keys
  {
    hide IsRoot, UsesOf, HangsFromRoot, Covers, IsPath;
    forall name | name in abi.structs ensures name in visited {
      var root, path := PathFromRoot(abi, name);
      assert root in Roots(abi);
      PathIsVisited(abi, visited, path, root, name);
    }
  }

  ghost function Roots(abi: Abi): set<Name> {
    set name | name in abi.structs && IsRoot(abi, name)
  }

  lemma RootsFirst(abi: Abi)
    requires IsForest(abi)
    ensures exists order :: IsOrder(abi, order) && LeavesNoMark(abi, order)
  {
    hide InOrder, LeavesNoMark, Covers, IsForest, HangFrom, Elements, AreStructs, AreRootsOfTrees;
    hide Counted, EntriesOk, Total;
    var first, others := ToSeq(Roots(abi)), ToSeq(abi.structs.Keys - Roots(abi));
    RootsAreStructs(abi, first, others);
    VisitedHangs(abi, first);
    OrderSettles(abi, first);
    var (s, starts) := InOrder(abi, first);
    RootsReachAll(abi, s.visited);
    NoMoreStarts(abi, first, others);
    RootsStart(abi, s, starts);
    OrdersJoin(abi, first, others);
    OrderLeavesNoMarkIff(abi, first + others);
  }

  lemma RootsAreStructs(abi: Abi, first: seq<Name>, others: seq<Name>)
    requires Elements(first) == Roots(abi) && Elements(others) == abi.structs.Keys - Roots(abi)
    ensures AreStructs(abi, first) && AreStructs(abi, others)
  {
    hide IsRoot;
    assert forall name :: name in first ==> name in Elements(first);
    assert forall name :: name in others ==> name in Elements(others);
  }

  lemma OrdersJoin(abi: Abi, first: seq<Name>, others: seq<Name>)
    requires AreStructs(abi, first) && Elements(first) == Roots(abi) && |first| == |Roots(abi)|
    requires AreStructs(abi, others) && Elements(others) == abi.structs.Keys - Roots(abi)
    requires |others| == |abi.structs.Keys - Roots(abi)|
    ensures IsOrder(abi, first + others)
  {
    hide IsRoot;
    assert abi.structs.Keys == Roots(abi) + (abi.structs.Keys - Roots(abi));
  }

  /** If the starts are roots, they are the roots. */
  lemma RootsStart(abi: Abi, s: State, starts: seq<Name>)
    requires IsForest(abi) && Settled(abi, s, starts) && s.visited == abi.structs.Keys && Elements(starts) <= Roots(abi)
    ensures AreRootsOfTrees(abi, starts)
  {
    hide UsesOf, Counted, EntriesOk, Total, HangsFromRoot;
    forall name | name in abi.structs ensures UsesOf(abi, name) == if name in starts then 0 else 1 {
      if name in starts {
        assert name in Elements(starts) && name in Roots(abi);
      } else {
        NoStartIsNoRoot(abi, s, starts, name);
      }
    }
  }
}
