/** The traversal of all structs as it runs, on one map of entries and one set of visited names. */
module TypeExpanding {
  import opened CircularReferences
  import opened TypeExpander

  ghost function Prepend(front: seq<Expanded>, r: (seq<Expanded>, State)): (seq<Expanded>, State) {
    (front + r.0, r.1)
  }

  lemma PrependOne(front: seq<Expanded>, one: Expanded, r: (seq<Expanded>, State))
    ensures Prepend(front, ([one] + r.0, r.1)) == Prepend(front + [one], r)
  {
    assert front + ([one] + r.0) == front + [one] + r.0;
  }

  // ---------------------------------------------------------------- all starts together

  /** The starts with everything inlined in their entries, counted. */
  ghost function Total(expanded: map<Name, seq<Expanded>>, starts: seq<Name>): multiset<Name>
    requires forall start :: start in starts ==> start in expanded
    decreases |starts|
  {
    if starts == [] then multiset{}
    else
      var last := starts[|starts| - 1];
      Total(expanded, starts[..|starts| - 1]) + (multiset{last} + Inlined(expanded[last]))
  }

  lemma NothingExpanded(abi: Abi)
    ensures EntriesOk(abi, State(map[], {})) && Total(map[], []) == multiset{} == multiset({})
  {
  }

  /** One more start: its entry, and what it adds to the count. */
  lemma StartExpands(abi: Abi, name: Name, before: State, starts: seq<Name>)
    requires name in abi.structs && name !in before.visited && EntriesOk(abi, before)
             && before.expanded.Keys == before.visited
    requires (forall start :: start in starts ==> start in before.expanded)
             && Total(before.expanded, starts) == multiset(before.visited)
    ensures var after := Expand(abi, name, before).1;
            && EntriesOk(abi, after) && after.expanded.Keys == after.visited
            && (forall start :: start in starts + [name] ==> start in after.expanded)
            && Total(after.expanded, starts + [name]) == multiset(after.visited)
  {
    hide EntriesOk, Inlined, EntryOk, Total, Expand;
    var (members, after) := Expand(abi, name, before);
    ExpandKeepsEntries(abi, name, before);
    ExpandInlinesOnce(abi, name, before);
    TotalGrows(before.expanded, after.expanded, starts, name);
    Visits(before.visited, after.visited);
  }

  lemma Visits(before: set<Name>, after: set<Name>)
    requires before <= after
    ensures after == before + (after - before) && multiset(after) == multiset(before) + multiset(after - before)
  {
  }

  lemma {:induction false} TotalStays(
    before: map<Name, seq<Expanded>>, after: map<Name, seq<Expanded>>, starts: seq<Name>)
    requires Keeps(before, after) && forall start :: start in starts ==> start in before
    ensures Total(after, starts) == Total(before, starts)
    decreases |starts|
  {
    if starts != [] {
      assert starts[|starts| - 1] in starts;
      TotalStays(before, after, starts[..|starts| - 1]);
    }
  }

  lemma TotalGrows(before: map<Name, seq<Expanded>>, after: map<Name, seq<Expanded>>, starts: seq<Name>, name: Name)
    requires Keeps(before, after) && name in after && forall start :: start in starts ==> start in before
    ensures forall start :: start in starts + [name] ==> start in after
    ensures Total(after, starts + [name]) == Total(before, starts) + (multiset{name} + Inlined(after[name]))
  {
    TotalStays(before, after, starts);
    assert (starts + [name])[..|starts|] == starts;
  }

  // ---------------------------------------------------------------- marks over all starts

  ghost predicate NoEntryHasMark(expanded: map<Name, seq<Expanded>>) {
    forall name :: name in expanded ==> HasNoMark(expanded[name])
  }

  function Elements(starts: seq<Name>): set<Name> {
    set start | start in starts
  }

  ghost function TotalMarks(expanded: map<Name, seq<Expanded>>, starts: seq<Name>, names: set<Name>): nat
    requires forall start :: start in starts ==> start in expanded
    decreases |starts|
  {
    if starts == [] then 0
    else
      var last := starts[|starts| - 1];
      TotalMarks(expanded, starts[..|starts| - 1], names) + Marks(expanded[last], names)
  }

  /** Marks, and inlined structs among `names`, make up all positions of visited structs. */
  ghost predicate CountedFor(abi: Abi, s: State, starts: seq<Name>, elements: set<Name>, names: set<Name>)
    requires s.visited <= abi.structs.Keys && forall start :: start in starts ==> start in s.expanded
  {
    TotalMarks(s.expanded, starts, names) + |names * (s.visited - elements)| == |Positions(abi, s.visited, names)|
  }

  /** The starts are distinct visited structs, and the count holds for all names. */
  ghost predicate Counted(abi: Abi, s: State, starts: seq<Name>) {
    && s.visited <= abi.structs.Keys && s.expanded.Keys == s.visited
    && Elements(starts) <= s.visited && |Elements(starts)| == |starts|
    && (forall start :: start in starts ==> start in s.expanded)
    && forall names :: names <= abi.structs.Keys ==> CountedFor(abi, s, starts, Elements(starts), names)
  }

  lemma NothingCounted(abi: Abi)
    ensures Counted(abi, State(map[], {}), [])
  {
    assert Elements([]) == {};
    forall names: set<Name> ensures |names * ({} - Elements([]))| == 0 == |Positions(abi, {}, names)| {
      assert names * ({} - Elements([])) == {} && Positions(abi, {}, names) == {};
    }
  }

  lemma {:induction false} TotalMarksStay(
    before: map<Name, seq<Expanded>>, after: map<Name, seq<Expanded>>, starts: seq<Name>, names: set<Name>)
    requires Keeps(before, after) && forall start :: start in starts ==> start in before
    ensures TotalMarks(after, starts, names) == TotalMarks(before, starts, names)
    decreases |starts|
  {
    if starts != [] {
      assert starts[|starts| - 1] in starts;
      TotalMarksStay(before, after, starts[..|starts| - 1], names);
    }
  }

  lemma TotalMarksGrow(
    before: map<Name, seq<Expanded>>, after: map<Name, seq<Expanded>>, starts: seq<Name>, name: Name, names: set<Name>)
    requires Keeps(before, after) && name in after && forall start :: start in starts ==> start in before
    ensures forall start :: start in starts + [name] ==> start in after
    ensures TotalMarks(after, starts + [name], names) == TotalMarks(before, starts, names) + Marks(after[name], names)
  {
    TotalMarksStay(before, after, starts, names);
    assert (starts + [name])[..|starts|] == starts;
  }

  lemma CountsAdd(
    abi: Abi, before: set<Name>, visited: set<Name>, starts: set<Name>, name: Name, names: set<Name>, total: nat,
    marks: nat)
    requires before <= abi.structs.Keys && visited <= abi.structs.Keys && before !! visited
    requires starts <= before && name in visited
    requires total + |names * (before - starts)| == |Positions(abi, before, names)|
    requires marks + |names * (visited - {name})| == |Positions(abi, visited, names)|
    ensures total + marks + |names * (before + visited - (starts + {name}))|
            == |Positions(abi, before + visited, names)|
  {
    hide Positions;
    PositionsJoin(abi, before, visited, names);
    PositionsJoin(abi, before - starts, visited - {name}, names);
    assert before + visited - (starts + {name}) == (before - starts) + (visited - {name});
  }

  lemma StartCountsFor(
    abi: Abi, name: Name, before: State, after: State, starts: seq<Name>, elements: set<Name>, names: set<Name>)
    requires name in abi.structs && name !in before.visited && names <= abi.structs.Keys
    requires before.visited <= abi.structs.Keys && elements <= before.visited
    requires (forall start :: start in starts ==> start in before.expanded)
             && CountedFor(abi, before, starts, elements, names)
    requires after == Expand(abi, name, before).1 && Keeps(before.expanded, after.expanded)
    requires name in after.expanded && after.expanded[name] == Expand(abi, name, before).0
    ensures after.visited <= abi.structs.Keys && forall start :: start in starts + [name] ==> start in after.expanded
    ensures CountedFor(abi, after, starts + [name], elements + {name}, names)
  {
    var visited := after.visited - before.visited;
    MarksOfStruct(abi, name, before, names);
    TotalMarksGrow(before.expanded, after.expanded, starts, name, names);
    assert after.visited == before.visited + visited;
    var members := after.expanded[name];
    hide Expand, Marks, Positions, TotalMarks, Keeps;
    CountsAdd(abi, before.visited, visited, elements, name, names,
              TotalMarks(before.expanded, starts, names), Marks(members, names));
  }

  lemma StartIsCounted(abi: Abi, name: Name, before: State, starts: seq<Name>)
    requires name in abi.structs && name !in before.visited && EntriesOk(abi, before) && Counted(abi, before, starts)
    ensures Counted(abi, Expand(abi, name, before).1, starts + [name])
  {
    hide Expand, EntriesOk, CountedFor, Keeps, Elements;
    var after := Expand(abi, name, before).1;
    ExpandKeepsEntries(abi, name, before);
    NewElement(starts, name);
    EntriesGrow(abi, before, after);
    StartCountsAll(abi, name, before, after, starts);
    OneMore(Elements(starts), name);
  }

  lemma OneMore(elements: set<Name>, name: Name)
    requires name !in elements
    ensures |elements + {name}| == |elements| + 1
  {
  }

  lemma StartCountsAll(abi: Abi, name: Name, before: State, after: State, starts: seq<Name>)
    requires name in abi.structs && name !in before.visited && Counted(abi, before, starts)
    requires after == Expand(abi, name, before).1 && Keeps(before.expanded, after.expanded)
    requires name in after.expanded && after.expanded[name] == Expand(abi, name, before).0
    ensures after.visited <= abi.structs.Keys && forall start :: start in starts + [name] ==> start in after.expanded
    ensures forall names :: names <= abi.structs.Keys ==>
              CountedFor(abi, after, starts + [name], Elements(starts) + {name}, names)
  {
    hide Expand, CountedFor, Keeps, Elements;
    forall names | names <= abi.structs.Keys
      ensures after.visited <= abi.structs.Keys && forall start :: start in starts + [name] ==> start in after.expanded
      ensures CountedFor(abi, after, starts + [name], Elements(starts) + {name}, names)
    {
      StartCountsFor(abi, name, before, after, starts, Elements(starts), names);
    }
    assert {} <= abi.structs.Keys;
    StartCountsFor(abi, name, before, after, starts, Elements(starts), {});
  }

  lemma NewElement(starts: seq<Name>, name: Name)
    ensures Elements(starts + [name]) == Elements(starts) + {name}
  {
  }

  lemma EntriesGrow(abi: Abi, before: State, after: State)
    requires Extends(abi, before, after) && before.expanded.Keys == before.visited && before.visited <= after.visited
    ensures after.expanded.Keys == after.visited && forall name :: name in before.expanded ==> name in after.expanded
  {
  }

  lemma {:induction false} NoTotalMarks(expanded: map<Name, seq<Expanded>>, starts: seq<Name>, names: set<Name>)
    requires forall start :: start in starts ==> start in expanded
    ensures TotalMarks(expanded, starts, names) == 0
            <==> forall start :: start in starts ==> Marks(expanded[start], names) == 0
    decreases |starts|
  {
    if starts != [] {
      var front, last := starts[..|starts| - 1], starts[|starts| - 1];
      assert starts == front + [last];
      NoTotalMarks(expanded, front, names);
    }
  }

  lemma {:induction false} StartOrInlined(expanded: map<Name, seq<Expanded>>, starts: seq<Name>, name: Name)
    requires (forall start :: start in starts ==> start in expanded) && name in Total(expanded, starts)
    ensures exists start :: start in starts && (start == name || name in Inlined(expanded[start]))
    decreases |starts|
  {
    var front, last := starts[..|starts| - 1], starts[|starts| - 1];
    assert starts == front + [last];
    if name in Total(expanded, front) {
      StartOrInlined(expanded, front, name);
    } else {
      assert last in starts;
    }
  }

  /** An entry has no mark if the start that it is inlined below has none. */
  lemma StartsDecide(abi: Abi, s: State, starts: seq<Name>)
    requires EntriesOk(abi, s) && (forall start :: start in starts ==> start in s.expanded)
    requires Total(s.expanded, starts) == multiset(s.expanded.Keys)
    ensures NoEntryHasMark(s.expanded) <==> forall start :: start in starts ==> HasNoMark(s.expanded[start])
  {
    EntriesAreFaithful(abi, s);
    hide EntriesOk, HasNoMark, Inlined, AllFaithful, Total;
    if forall start :: start in starts ==> HasNoMark(s.expanded[start]) {
      forall name | name in s.expanded ensures HasNoMark(s.expanded[name]) {
        assert name in Total(s.expanded, starts);
        StartOrInlined(s.expanded, starts, name);
        var start :| start in starts && (start == name || name in Inlined(s.expanded[start]));
        if start != name { InlinedHasNoMark(abi, s.expanded, s.expanded[start], name); }
      }
    }
  }

  lemma NoEntryHasMarkIff(abi: Abi, s: State, starts: seq<Name>)
    requires EntriesOk(abi, s) && Counted(abi, s, starts) && s.visited == abi.structs.Keys
    requires Total(s.expanded, starts) == multiset(s.expanded.Keys)
    ensures NoEntryHasMark(s.expanded) <==> IsTreeFrom(abi, abi.structs.Keys, Elements(starts))
    ensures NoEntryHasMark(s.expanded)
            <==> |Positions(abi, abi.structs.Keys, abi.structs.Keys)| == |abi.structs| - |starts|
  {
    StartsDecide(abi, s, starts);
    EntriesAreFaithful(abi, s);
    hide EntriesOk, HasNoMark, Marks, Total, TotalMarks, NoEntryHasMark, IsTreeFrom, Positions, AllFaithful;
    var all := abi.structs.Keys;
    forall start | start in starts ensures HasNoMark(s.expanded[start]) <==> Marks(s.expanded[start], all) == 0 {
      NoMarkMeansNone(abi, s.expanded, s.expanded[start]);
    }
    NoTotalMarks(s.expanded, starts, all);
    TotalNoneOfAny(s.expanded, starts, all);
    MarksDecide(abi, all, Elements(starts), n => TotalMarks(s.expanded, starts, n));
    assert |abi.structs| == |all|;
  }

  lemma TotalNoneOfAny(expanded: map<Name, seq<Expanded>>, starts: seq<Name>, names: set<Name>)
    requires forall start :: start in starts ==> start in expanded
    ensures TotalMarks(expanded, starts, names) == 0
            <==> forall n :: n in names ==> TotalMarks(expanded, starts, {n}) == 0
  {
    hide Marks, TotalMarks;
    NoTotalMarks(expanded, starts, names);
    forall n ensures TotalMarks(expanded, starts, {n}) == 0
                     <==> forall start :: start in starts ==> Marks(expanded[start], {n}) == 0 {
      NoTotalMarks(expanded, starts, {n});
    }
    forall start | start in starts
      ensures Marks(expanded[start], names) == 0 <==> forall n :: n in names ==> Marks(expanded[start], {n}) == 0
    {
      NoneOfAny(expanded[start], names);
    }
  }

  // ---------------------------------------------------------------- the structs in an order

  ghost predicate AreStructs(abi: Abi, order: seq<Name>) {
    forall name :: name in order ==> name in abi.structs
  }

  /** All structs are tried, each once, in this order. */
  ghost predicate IsOrder(abi: Abi, order: seq<Name>) {
    AreStructs(abi, order) && Elements(order) == abi.structs.Keys && |order| == |abi.structs.Keys|
  }

  /** The state after trying the structs of `order` one by one, and those that were not visited before. */
  ghost function InOrder(abi: Abi, order: seq<Name>): (State, seq<Name>)
    requires AreStructs(abi, order)
    decreases |order|
  {
    if order == [] then (State(map[], {}), [])
    else
      var last := order[|order| - 1];
      var (s, starts) := InOrder(abi, order[..|order| - 1]);
      if last in s.visited then (s, starts) else (Expand(abi, last, s).1, starts + [last])
  }

  lemma OrderContinues(abi: Abi, order: seq<Name>, name: Name)
    requires AreStructs(abi, order) && name in abi.structs
    ensures AreStructs(abi, order + [name])
    ensures var (s, starts) := InOrder(abi, order);
            InOrder(abi, order + [name])
            == if name in s.visited then (s, starts) else (Expand(abi, name, s).1, starts + [name])
  {
    hide Expand;
    assert (order + [name])[..|order|] == order;
  }

  /** The entries are as they should be, and over the starts, each visited struct is inlined once, or is a start. */
  ghost predicate Settled(abi: Abi, s: State, starts: seq<Name>) {
    && EntriesOk(abi, s) && s.expanded.Keys == s.visited && Counted(abi, s, starts)
    && (forall start :: start in starts ==> start in s.expanded)
    && Total(s.expanded, starts) == multiset(s.visited)
  }

  lemma {:induction false} OrderSettles(abi: Abi, order: seq<Name>)
    requires AreStructs(abi, order)
    ensures var (s, starts) := InOrder(abi, order);
            Settled(abi, s, starts) && Elements(order) <= s.visited <= abi.structs.Keys
    decreases |order|
  {
    hide Expand, EntriesOk, Total, CountedFor, InOrder;
    if order == [] {
      NothingExpanded(abi);
      NothingCounted(abi);
      NoOrder(abi);
    } else {
      var front, last := order[..|order| - 1], order[|order| - 1];
      assert order == front + [last];
      OrderSettles(abi, front);
      OrderContinues(abi, front, last);
      NewElement(front, last);
      var (s, starts) := InOrder(abi, front);
      if last !in s.visited {
        StartExpands(abi, last, s, starts);
        StartIsCounted(abi, last, s, starts);
      }
    }
  }

  /** All structs were tried, one after the other. */
  lemma WholeOrder(abi: Abi, order: seq<Name>)
    requires IsOrder(abi, order)
    ensures var (s, starts) := InOrder(abi, order);
            && s.expanded.Keys == abi.structs.Keys && EntriesOk(abi, s)
            && (forall start :: start in starts ==> start in s.expanded)
            && Total(s.expanded, starts) == multiset(abi.structs.Keys)
            && (NoEntryHasMark(s.expanded) <==> IsTreeFrom(abi, abi.structs.Keys, Elements(starts)))
            && (NoEntryHasMark(s.expanded)
                <==> |Positions(abi, abi.structs.Keys, abi.structs.Keys)| == |abi.structs| - |starts|)
  {
    hide Expand, EntriesOk, Total, NoEntryHasMark, IsTreeFrom, Positions, InOrder, Elements, AreStructs;
    OrderSettles(abi, order);
    var (s, starts) := InOrder(abi, order);
    hide Counted;
    NoEntryHasMarkIff(abi, s, starts);
  }

  lemma Tried(all: set<Name>, todo: set<Name>, name: Name)
    requires todo <= all && name in todo
    ensures (all - todo) + {name} == all - (todo - {name}) && |all - (todo - {name})| == |all - todo| + 1
  {
    assert (all - todo) + {name} == all - (todo - {name});
  }

  lemma NothingTried(abi: Abi)
    ensures AreStructs(abi, []) && InOrder(abi, []) == (State(map[], {}), [])
    ensures Elements([]) == {} == abi.structs.Keys - abi.structs.Keys && |abi.structs.Keys - abi.structs.Keys| == 0
  {
  }

  lemma NoOrder(abi: Abi)
    ensures InOrder(abi, []) == (State(map[], {}), []) && Elements([]) == {}
  {
  }

  // ---------------------------------------------------------------- all structs

  class StructExpander {
    const abi: Abi
    var expanded: map<Name, seq<Expanded>>
    var visited: set<Name>

    constructor (abi: Abi)
      ensures this.abi == abi && Now() == State(map[], {})
    {
      this.abi, expanded, visited := abi, map[], {};
    }

    ghost function Now(): State reads this {
      State(expanded, visited)
    }

    /** `expand_struct_recursively`: a struct that is expanded already is taken from there. */
    method ExpandStruct(name: Name) returns (members: seq<Expanded>)
      requires name in expanded || (name in abi.structs && name !in visited)
      requires expanded.Keys <= visited
      modifies this
      ensures expanded.Keys <= visited
      ensures name in old(expanded) ==> Now() == old(Now()) && members == expanded[name]
      ensures name !in old(expanded) ==> (members, Now()) == Expand(abi, name, old(Now()))
      decreases abi.structs.Keys - visited, 0
    {
      if name in expanded { return expanded[name]; }
      visited := visited + {name};
      ghost var entered := Now();
      var definition := abi.structs[name];
      members := [];
      assert definition[0..] == definition;
      assert [] + ExpandMembers(abi, definition, entered).0 == ExpandMembers(abi, definition, entered).0;
      for i := 0 to |definition|
        invariant entered.visited <= visited && expanded.Keys <= visited
        invariant Prepend(members, ExpandMembers(abi, definition[i..], Now()))
                  == ExpandMembers(abi, definition, entered)
      {
        assert definition[i..][0] == definition[i] && definition[i..][1..] == definition[i + 1..];
        ghost var before, so_far := Now(), members;
        var m := definition[i];
        if m.ty in abi.structs && m.ty !in visited {
          var nested := ExpandStruct(m.ty);
          members := members + [Nested(m.name, m.ty, nested)];
        } else {
          members := members + [Unexpanded(abi, m)];
        }
        PrependOne(so_far, members[|members| - 1], ExpandMembers(abi, definition[i + 1..], Now()));
      }
      assert definition[|definition|..] == [] && members + [] == members;
      expanded := expanded[name := members];
    }

    /**
     `expand_structs_recursively`, in any order of the names: every struct gets its entry, and over the structs
     that the traversal starts from, each struct is either a start or inlined in exactly one place. No entry holds a
     mark if and only if the structs form trees with the starts as roots: each other struct is the type of exactly one
     member, and the starts of none; in numbers, there are as many struct-typed members as structs that are no starts.
     */
    method ExpandAll() returns (ghost order: seq<Name>, ghost starts: seq<Name>)
      requires Now() == State(map[], {})
      modifies this
      ensures IsOrder(abi, order) && (Now(), starts) == InOrder(abi, order)
      ensures expanded.Keys == abi.structs.Keys && EntriesOk(abi, Now())
      ensures (forall start :: start in starts ==> start in expanded)
              && Total(expanded, starts) == multiset(abi.structs.Keys)
      ensures NoEntryHasMark(expanded) <==> IsTreeFrom(abi, abi.structs.Keys, Elements(starts))
      ensures NoEntryHasMark(expanded)
              <==> |Positions(abi, abi.structs.Keys, abi.structs.Keys)| == |abi.structs| - |starts|
    {
      hide Expand, EntriesOk, Total, NoEntryHasMark, IsTreeFrom, Positions, InOrder, Elements, AreStructs;
      NothingTried(abi);
      order, starts := [], [];
      var todo := abi.structs.Keys;
      while todo != {}
        invariant AreStructs(abi, order) && todo <= abi.structs.Keys
        invariant Elements(order) == abi.structs.Keys - todo && |order| == |abi.structs.Keys - todo|
        invariant expanded.Keys <= visited && (Now(), starts) == InOrder(abi, order)
        decreases |todo|
      {
        var name :| name in todo;
        OrderContinues(abi, order, name);
        NewElement(order, name);
        Tried(abi.structs.Keys, todo, name);
        order, todo := order + [name], todo - {name};
        if name !in visited {
          var _ := ExpandStruct(name);
          starts := starts + [name];
        }
      }
      assert abi.structs.Keys - todo == abi.structs.Keys;
      WholeOrder(abi, order);
    }
  }
}
