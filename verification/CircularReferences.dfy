/**
 When the expansion marks a member as a circular reference. Every struct-typed member of a struct that is visited is
 either inlined or marked, and every struct but the start is inlined once: the marks are what is left over.
 */
module CircularReferences {
  import opened TypeExpander

  // ---------------------------------------------------------------- marks and positions

  /** How many members, at any depth, are marked as circular references to one of `names`. */
  function Marks(members: seq<Expanded>, names: set<Name>): nat {
    if members == [] then 0 else MarksIn(members[0], names) + Marks(members[1..], names)
  }

  function MarksIn(m: Expanded, names: set<Name>): nat {
    match m
    case Nested(_, _, members) => Marks(members, names)
    case Flat(_, ty, _, isCircular) => if isCircular && ty in names then 1 else 0
  }

  predicate HasNoMark(members: seq<Expanded>) {
    members == [] || (HasNoMarkIn(members[0]) && HasNoMark(members[1..]))
  }

  predicate HasNoMarkIn(m: Expanded) {
    match m
    case Nested(_, _, members) => HasNoMark(members)
    case Flat(_, _, _, isCircular) => !isCircular
  }

  /** Members of the structs in `structs` whose type is one of `names`: the struct, and the place in it. */
  function Positions(abi: Abi, structs: set<Name>, names: set<Name>): set<(Name, nat)>
    requires structs <= abi.structs.Keys
  {
    set name, i: nat | name in structs && 0 <= i < |abi.structs[name]| && abi.structs[name][i].ty in names :: (name, i)
  }

  function CountOf(members: seq<Member>, names: set<Name>): nat {
    if members == [] then 0 else (if members[0].ty in names then 1 else 0) + CountOf(members[1..], names)
  }

  function PositionsFrom(name: Name, members: seq<Member>, names: set<Name>, from: nat): set<(Name, nat)> {
    set i: nat | from <= i < |members| && members[i].ty in names :: (name, i)
  }

  lemma {:induction false} PositionsAreCounted(name: Name, members: seq<Member>, names: set<Name>, from: nat)
    requires from <= |members|
    ensures |PositionsFrom(name, members, names, from)| == CountOf(members[from..], names)
    decreases |members| - from
  {
    if from == |members| {
      assert PositionsFrom(name, members, names, from) == {};
    } else {
      PositionsAreCounted(name, members, names, from + 1);
      assert members[from..][1..] == members[from + 1..];
      var later := PositionsFrom(name, members, names, from + 1);
      assert PositionsFrom(name, members, names, from)
          == if members[from].ty in names then later + {(name, from)} else later;
    }
  }

  lemma PositionsOfOne(abi: Abi, name: Name, names: set<Name>)
    requires name in abi.structs
    ensures |Positions(abi, {name}, names)| == CountOf(abi.structs[name], names)
  {
    var members := abi.structs[name];
    PositionsAreCounted(name, members, names, 0);
    assert members[0..] == members;
    assert Positions(abi, {name}, names) == PositionsFrom(name, members, names, 0);
  }

  /** Disjoint groups of structs have disjoint positions. */
  lemma PositionsJoin(abi: Abi, a: set<Name>, b: set<Name>, names: set<Name>)
    requires a <= abi.structs.Keys && b <= abi.structs.Keys && a !! b
    ensures |Positions(abi, a + b, names)| == |Positions(abi, a, names)| + |Positions(abi, b, names)|
    ensures |names * (a + b)| == |names * a| + |names * b|
  {
    assert Positions(abi, a + b, names) == Positions(abi, a, names) + Positions(abi, b, names);
    assert Positions(abi, a, names) !! Positions(abi, b, names);
    assert names * (a + b) == names * a + names * b;
  }

  lemma Alone(names: set<Name>, name: Name)
    ensures |names * {name}| == if name in names then 1 else 0
  {
    assert names * {name} == if name in names then {name} else {};
  }

  // ---------------------------------------------------------------- inlined or marked

  /**
   The count for one struct, from any state: its members and those of all structs visited below it are marked, or
   their structs are inlined.
   */
  lemma {:induction false} MarksOfStruct(abi: Abi, name: Name, s: State, names: set<Name>)
    requires name in abi.structs && name !in s.visited && names <= abi.structs.Keys
    ensures var (members, after) := Expand(abi, name, s);
            var visited := after.visited - s.visited;
            && visited <= abi.structs.Keys && name in visited
            && Marks(members, names) + |names * (visited - {name})| == |Positions(abi, visited, names)|
    decreases abi.structs.Keys - s.visited, 0
  {
    var entered := s.(visited := s.visited + {name});
    var (members, after) := Expand(abi, name, s);
    var visited, below := after.visited - s.visited, after.visited - entered.visited;
    assert visited - {name} == below && visited == {name} + below;
    MarksOfMembers(abi, abi.structs[name], entered, names);
    PositionsOfOne(abi, name, names);
    hide ExpandMembers, Marks, Positions, CountOf;
    PositionsJoin(abi, {name}, below, names);
  }

  lemma {:induction false} MarksOfMembers(abi: Abi, members: seq<Member>, s: State, names: set<Name>)
    requires names <= abi.structs.Keys
    ensures var (expanded, after) := ExpandMembers(abi, members, s);
            var visited := after.visited - s.visited;
            && visited <= abi.structs.Keys
            && Marks(expanded, names) + |names * visited| == CountOf(members, names) + |Positions(abi, visited, names)|
    decreases abi.structs.Keys - s.visited, 1, |members|
  {
    hide Expand, ExpandMembers, Marks, MarksIn, Positions, CountOf, FirstOf;
    if members == [] {
      NothingMarked(abi, s, names);
    } else {
      var m, after := members[0], ExpandMembers(abi, members, s).1;
      var mid := FirstOf(abi, m, s).1;
      FirstUnfolds(abi, members, s, names);
      if m.ty in abi.structs && m.ty !in s.visited {
        MarksOfStruct(abi, m.ty, s, names);
        MarksOfNested(abi, m, s, names);
      } else {
        MarksOfFlat(abi, m, s, names);
      }
      MarksOfMembers(abi, members[1..], mid, names);
      VisitsJoin(abi, s.visited, mid.visited, after.visited, names);
    }
  }

  lemma VisitsJoin(abi: Abi, before: set<Name>, mid: set<Name>, after: set<Name>, names: set<Name>)
    requires before <= mid <= after && mid - before <= abi.structs.Keys && after - mid <= abi.structs.Keys
    ensures after - before <= abi.structs.Keys
    ensures |names * (after - before)| == |names * (mid - before)| + |names * (after - mid)|
    ensures |Positions(abi, after - before, names)|
            == |Positions(abi, mid - before, names)| + |Positions(abi, after - mid, names)|
  {
    assert after - before == (mid - before) + (after - mid);
    PositionsJoin(abi, mid - before, after - mid, names);
  }

  lemma NothingMarked(abi: Abi, s: State, names: set<Name>)
    ensures ExpandMembers(abi, [], s) == ([], s) && s.visited - s.visited == {} <= abi.structs.Keys
    ensures Marks([], names) == |names * {}| == CountOf([], names) == |Positions(abi, {}, names)| == 0
  {
    assert names * {} == {} && Positions(abi, {}, names) == {};
  }

  /** The first member, expanded. */
  function FirstOf(abi: Abi, m: Member, s: State): (Expanded, State) {
    if m.ty in abi.structs && m.ty !in s.visited then
      var (nested, after) := Expand(abi, m.ty, s);
      (Nested(m.name, m.ty, nested), after)
    else (Unexpanded(abi, m), s)
  }

  lemma FirstUnfolds(abi: Abi, members: seq<Member>, s: State, names: set<Name>)
    requires members != []
    ensures var (expanded, after) := ExpandMembers(abi, members, s);
            var (first, mid) := FirstOf(abi, members[0], s);
            var (others, end) := ExpandMembers(abi, members[1..], mid);
            && expanded == [first] + others && after == end && s.visited <= mid.visited <= after.visited
            && Marks(expanded, names) == MarksIn(first, names) + Marks(others, names)
            && CountOf(members, names) == (if members[0].ty in names then 1 else 0) + CountOf(members[1..], names)
            && (members[0].ty in abi.structs && members[0].ty !in s.visited ==> mid.visited > s.visited)
  {
    hide Expand;
    var (first, mid) := FirstOf(abi, members[0], s);
    var (others, end) := ExpandMembers(abi, members[1..], mid);
    assert ([first] + others)[1..] == others;
  }

  lemma MarksOfNested(abi: Abi, m: Member, s: State, names: set<Name>)
    requires m.ty in abi.structs && m.ty !in s.visited
    requires var (nested, after) := Expand(abi, m.ty, s);
             var visited := after.visited - s.visited;
             && visited <= abi.structs.Keys && m.ty in visited
             && Marks(nested, names) + |names * (visited - {m.ty})| == |Positions(abi, visited, names)|
    ensures var (first, mid) := FirstOf(abi, m, s);
            var visited := mid.visited - s.visited;
            && visited <= abi.structs.Keys
            && MarksIn(first, names) + |names * visited|
               == (if m.ty in names then 1 else 0) + |Positions(abi, visited, names)|
  {
    hide Positions;
    var visited := FirstOf(abi, m, s).1.visited - s.visited;
    hide Expand, Marks;
    Alone(names, m.ty);
    assert names * visited == names * (visited - {m.ty}) + names * {m.ty};
    assert names * (visited - {m.ty}) !! names * {m.ty};
  }

  lemma MarksOfFlat(abi: Abi, m: Member, s: State, names: set<Name>)
    requires names <= abi.structs.Keys && !(m.ty in abi.structs && m.ty !in s.visited)
    ensures var (first, mid) := FirstOf(abi, m, s);
            var visited := mid.visited - s.visited;
            && visited <= abi.structs.Keys
            && MarksIn(first, names) + |names * visited|
               == (if m.ty in names then 1 else 0) + |Positions(abi, visited, names)|
  {
    NothingMarked(abi, s, names);
    hide Positions;
  }

  // ---------------------------------------------------------------- no mark at all

  lemma {:induction false} NoneOfAny(members: seq<Expanded>, names: set<Name>)
    ensures Marks(members, names) == 0 <==> forall n :: n in names ==> Marks(members, {n}) == 0
    decreases members
  {
    if members != [] {
      NoneOfAny(members[1..], names);
      if members[0].Nested? { NoneOfAny(members[0].members, names); }
    }
  }

  ghost predicate AllEntriesFaithful(abi: Abi, expanded: map<Name, seq<Expanded>>) {
    forall name :: name in expanded ==> AllFaithful(abi, expanded, expanded[name])
  }

  /** Only struct names are marked. */
  lemma {:induction false} NoMarkMeansNone(abi: Abi, expanded: map<Name, seq<Expanded>>, members: seq<Expanded>)
    requires AllEntriesFaithful(abi, expanded) && AllFaithful(abi, expanded, members)
    ensures HasNoMark(members) <==> Marks(members, abi.structs.Keys) == 0
    decreases members
  {
    if members != [] {
      var m := members[0];
      assert Faithful(abi, expanded, m);
      NoMarkMeansNone(abi, expanded, members[1..]);
      if m.Nested? {
        assert AllFaithful(abi, expanded, expanded[m.ty]);
        NoMarkMeansNone(abi, expanded, m.members);
      }
    }
  }

  /** What is inlined where there is no mark has none as an entry of its own. */
  lemma {:induction false} InlinedHasNoMark(
    abi: Abi, expanded: map<Name, seq<Expanded>>, members: seq<Expanded>, name: Name)
    requires AllEntriesFaithful(abi, expanded) && AllFaithful(abi, expanded, members)
    requires HasNoMark(members) && name in Inlined(members)
    ensures name in expanded && HasNoMark(expanded[name])
    decreases members
  {
    var m := members[0];
    assert Faithful(abi, expanded, m);
    if name in Inlined(members[1..]) {
      InlinedHasNoMark(abi, expanded, members[1..], name);
    } else {
      assert name in InlinedIn(m);
      if name != m.ty {
        assert AllFaithful(abi, expanded, expanded[m.ty]);
        InlinedHasNoMark(abi, expanded, m.members, name);
      }
    }
  }

  lemma EntriesAreFaithful(abi: Abi, s: State)
    requires EntriesOk(abi, s)
    ensures AllEntriesFaithful(abi, s.expanded)
  {
    forall name | name in s.expanded ensures AllFaithful(abi, s.expanded, s.expanded[name]) {
      assert EntryOk(abi, s.expanded, name);
    }
  }

  // ---------------------------------------------------------------- what is reachable

  predicate HasMemberOf(abi: Abi, outer: Name, inner: Name) {
    outer in abi.structs && inner in abi.structs && exists m :: m in abi.structs[outer] && m.ty == inner
  }

  predicate IsPath(abi: Abi, path: seq<Name>, from: Name, to: Name) {
    && path != [] && path[0] == from && path[|path| - 1] == to
    && forall i :: 0 <= i < |path| - 1 ==> HasMemberOf(abi, path[i], path[i + 1])
  }

  /** The struct itself, its members' structs, and so on. */
  ghost function Reachable(abi: Abi, name: Name): set<Name> {
    set to | to in abi.structs.Keys && exists path :: IsPath(abi, path, name, to)
  }

  lemma ReachesFurther(abi: Abi, outer: Name, inner: Name, to: Name)
    requires HasMemberOf(abi, outer, inner) && to in Reachable(abi, inner)
    ensures to in Reachable(abi, outer)
  {
    var path :| IsPath(abi, path, inner, to);
    var longer := [outer] + path;
    forall i | 0 <= i < |longer| - 1 ensures HasMemberOf(abi, longer[i], longer[i + 1]) {
      if i > 0 { assert longer[i] == path[i - 1] && longer[i + 1] == path[i]; }
    }
    assert IsPath(abi, longer, outer, to);
  }

  /** Everything visited is reachable, and what its members name is visited too. */
  lemma {:induction false} VisitsReachable(abi: Abi, name: Name, s: State)
    requires name in abi.structs && name !in s.visited
    ensures var after := Expand(abi, name, s).1;
            && after.visited - s.visited <= Reachable(abi, name)
            && Covers(abi, after.visited - s.visited, after.visited)
    decreases abi.structs.Keys - s.visited, 0
  {
    var entered := s.(visited := s.visited + {name});
    var after := Expand(abi, name, s).1;
    MembersVisitReachable(abi, name, abi.structs[name], entered);
    hide ExpandMembers;
    assert IsPath(abi, [name], name, name);
    hide Reachable;
    forall x, m | x in after.visited - s.visited && m in abi.structs[x] && m.ty in abi.structs
      ensures m.ty in after.visited
    {
      assert x == name || x in after.visited - entered.visited;
    }
  }

  /** The structs of the members of `structs` are visited. */
  ghost predicate Covers(abi: Abi, structs: set<Name>, visited: set<Name>) {
    forall x, m :: x in structs && x in abi.structs && m in abi.structs[x] && m.ty in abi.structs ==> m.ty in visited
  }

  lemma {:induction false} MembersVisitReachable(abi: Abi, name: Name, members: seq<Member>, s: State)
    requires name in abi.structs && forall m :: m in members ==> m in abi.structs[name]
    ensures var after := ExpandMembers(abi, members, s).1;
            && after.visited - s.visited <= Reachable(abi, name)
            && Covers(abi, after.visited - s.visited, after.visited)
            && forall m :: m in members && m.ty in abi.structs ==> m.ty in after.visited
    decreases abi.structs.Keys - s.visited, 1, |members|
  {
    hide Reachable, Expand;
    if members != [] {
      var m := members[0];
      var after := ExpandMembers(abi, members, s).1;
      var mid := FirstOf(abi, m, s).1;
      FirstUnfolds(abi, members, s, {});
      assert forall other :: other in members[1..] ==> other in members;
      if m.ty in abi.structs && m.ty !in s.visited {
        VisitsReachable(abi, m.ty, s);
        assert HasMemberOf(abi, name, m.ty);
        forall to | to in mid.visited - s.visited ensures to in Reachable(abi, name) {
          ReachesFurther(abi, name, m.ty, to);
        }
      }
      MembersVisitReachable(abi, name, members[1..], mid);
      assert members == [m] + members[1..];
      hide ExpandMembers, HasMemberOf;
    }
  }

  lemma {:induction false} PathIsVisited(abi: Abi, visited: set<Name>, path: seq<Name>, from: Name, to: Name)
    requires Covers(abi, visited, visited) && IsPath(abi, path, from, to) && from in visited
    ensures to in visited
    decreases |path|
  {
    if |path| > 1 {
      assert HasMemberOf(abi, path[0], path[1]);
      assert forall i :: 0 <= i < |path[1..]| ==> path[1..][i] == path[i + 1];
      PathIsVisited(abi, visited, path[1..], path[1], to);
    }
  }

  /** From nothing visited, a struct visits exactly what is reachable from it. */
  lemma VisitsExactlyReachable(abi: Abi, name: Name)
    requires name in abi.structs
    ensures Expand(abi, name, State(map[], {})).1.visited == Reachable(abi, name)
  {
    var s := State(map[], {});
    var after := Expand(abi, name, s).1;
    VisitsReachable(abi, name, s);
    hide Expand;
    assert after.visited - s.visited == after.visited;
    forall to | to in Reachable(abi, name) ensures to in after.visited {
      var path :| IsPath(abi, path, name, to);
      PathIsVisited(abi, after.visited, path, name, to);
    }
  }

  // ---------------------------------------------------------------- exactly when nothing is marked

  /** How many members of the structs have each of them as their type: the start none, the others one. */
  ghost predicate IsTreeFrom(abi: Abi, structs: set<Name>, starts: set<Name>)
    requires structs <= abi.structs.Keys
  {
    forall n :: n in abi.structs.Keys ==>
      |Positions(abi, structs, {n})| == if n in structs && n !in starts then 1 else 0
  }

  /**
   Expanding one struct from the beginning, the result holds no mark if and only if the structs reachable from it form
   a tree: each but the struct itself is the type of exactly one member of a reachable struct, and it of none. In
   numbers: there are as many struct-typed members as reachable structs, less one.
   */
  lemma OneStartHasNoMarkIff(abi: Abi, name: Name)
    requires name in abi.structs
    ensures var members := Expand(abi, name, State(map[], {})).0;
            && (HasNoMark(members) <==> IsTreeFrom(abi, Reachable(abi, name), {name}))
            && (HasNoMark(members)
                <==> |Positions(abi, Reachable(abi, name), abi.structs.Keys)| == |Reachable(abi, name)| - 1)
  {
    var s := State(map[], {});
    VisitsExactlyReachable(abi, name);
    NoMarkFromNothing(abi, name);
    hide Expand, EntriesOk, Reachable, HasNoMark, Marks, Positions, IsTreeFrom;
    var (members, after) := Expand(abi, name, s);
    forall names | names <= abi.structs.Keys
      ensures Marks(members, names) + |names * (after.visited - {name})| == |Positions(abi, after.visited, names)|
    {
      MarksOfStruct(abi, name, s, names);
      assert after.visited - s.visited == after.visited;
    }
    NoneOfAny(members, abi.structs.Keys);
    MarksDecide(abi, Reachable(abi, name), {name}, n => Marks(members, n));
  }

  lemma NoMarkFromNothing(abi: Abi, name: Name)
    requires name in abi.structs
    ensures var (members, after) := Expand(abi, name, State(map[], {}));
            name in after.visited && (HasNoMark(members) <==> Marks(members, abi.structs.Keys) == 0)
  {
    var s := State(map[], {});
    var (members, after) := Expand(abi, name, s);
    assert EntriesOk(abi, s);
    ExpandKeepsEntries(abi, name, s);
    EntriesAreFaithful(abi, after);
    assert AllFaithful(abi, after.expanded, members);
    hide Expand, EntriesOk, AllFaithful, AllEntriesFaithful;
    NoMarkMeansNone(abi, after.expanded, members);
  }

  /** If marks and inlined structs make up all positions, no mark means one position for every inlined struct. */
  lemma MarksDecide(abi: Abi, structs: set<Name>, starts: set<Name>, marks: set<Name> -> nat)
    requires structs <= abi.structs.Keys && starts <= structs
    requires forall names :: names <= abi.structs.Keys ==>
               marks(names) + |names * (structs - starts)| == |Positions(abi, structs, names)|
    requires marks(abi.structs.Keys) == 0 <==> forall n :: n in abi.structs.Keys ==> marks({n}) == 0
    ensures marks(abi.structs.Keys) == 0 <==> IsTreeFrom(abi, structs, starts)
    ensures marks(abi.structs.Keys) == 0 <==> |Positions(abi, structs, abi.structs.Keys)| == |structs| - |starts|
  {
    hide Positions;
    forall n | n in abi.structs.Keys
      ensures marks({n}) + (if n in structs && n !in starts then 1 else 0) == |Positions(abi, structs, {n})|
    {
      assert {n} <= abi.structs.Keys;
      Alone(structs - starts, n);
      assert {n} * (structs - starts) == (structs - starts) * {n};
    }
    assert abi.structs.Keys * (structs - starts) == structs - starts;
    assert structs == starts + (structs - starts) && starts !! structs - starts;
  }

  // ---------------------------------------------------------------- marks without a cycle

  /** A struct that two members contain, without any cycle, is marked as a circular reference the second time. */
  lemma SharedStructIsMarkedCircular()
    ensures var a, b, c := [Member("b", "B"), Member("c", "C")], [Member("d", "D")], [Member("d", "D")];
            var abi := Abi(map["A" := a, "B" := b, "C" := c, "D" := []], {});
            Expand(abi, "A", State(map[], {})).0
            == [Nested("b", "B", [Nested("d", "D", [])]), Nested("c", "C", [Flat("d", "D", false, true)])]
  {
    var a, b, c := [Member("b", "B"), Member("c", "C")], [Member("d", "D")], [Member("d", "D")];
    var abi := Abi(map["A" := a, "B" := b, "C" := c, "D" := []], {});
    var inA := State(map[], {"A"});
    var inB := State(map[], {"A", "B"});
    var afterD := State(map["D" := []], {"A", "B", "D"});
    var afterB := State(map["D" := [], "B" := [Nested("d", "D", [])]], {"A", "B", "D"});
    var inC := afterB.(visited := {"A", "B", "C", "D"});
    assert a[1..] == [Member("c", "C")] && a[1..][1..] == [] && b[1..] == [];
    assert inA.visited + {"B"} == inB.visited && inB.visited + {"D"} == afterD.visited
        && afterB.visited + {"C"} == inC.visited;
    assert ExpandMembers(abi, [], inB.(visited := afterD.visited)) == ([], State(map[], afterD.visited));
    assert Expand(abi, "D", inB) == ([], afterD);
    assert ExpandMembers(abi, [], afterD) == ([], afterD);
    assert [Nested("d", "D", [])] + [] == [Nested("d", "D", [])];
    assert ExpandMembers(abi, b, inB) == ([Nested("d", "D", [])], afterD);
    assert Expand(abi, "B", inA) == ([Nested("d", "D", [])], afterB);
    assert ExpandMembers(abi, [], inC) == ([], inC);
    assert [Flat("d", "D", false, true)] + [] == [Flat("d", "D", false, true)];
    assert ExpandMembers(abi, c, inC) == ([Flat("d", "D", false, true)], inC);
    var afterC := Expand(abi, "C", afterB).1;
    assert Expand(abi, "C", afterB).0 == [Flat("d", "D", false, true)];
    assert ExpandMembers(abi, [], afterC) == ([], afterC);
    assert ExpandMembers(abi, a[1..], afterB).0 == [Nested("c", "C", [Flat("d", "D", false, true)])];
    assert State(map[], {}).visited + {"A"} == inA.visited;
  }

  /** Nor need there be sharing: with a member's struct visited before, the member is marked. */
  lemma EarlierStartIsMarkedCircular()
    ensures var abi := Abi(map["A" := [Member("b", "B")], "B" := []], {});
            && Expand(abi, "A", State(map[], {})).0 == [Nested("b", "B", [])]
            && Expand(abi, "A", Expand(abi, "B", State(map[], {})).1).0 == [Flat("b", "B", false, true)]
  {
    var members := [Member("b", "B")];
    var abi := Abi(map["A" := members, "B" := []], {});
    var none, inA, inB := State(map[], {}), State(map[], {"A"}), State(map["B" := []], {"B"});
    assert members[1..] == [];
    assert none.visited + {"B"} == {"B"} && none.visited + {"A"} == {"A"};
    assert ExpandMembers(abi, [], State(map[], {"B"})) == ([], State(map[], {"B"}));
    assert Expand(abi, "B", none) == ([], inB);
    var inBoth := inB.(visited := inB.visited + {"A"});
    assert ExpandMembers(abi, [], inBoth) == ([], inBoth);
    assert ExpandMembers(abi, members, inBoth).0 == [Flat("b", "B", false, true)];
    var afterB := Expand(abi, "B", inA).1;
    assert Expand(abi, "B", inA).0 == [];
    assert ExpandMembers(abi, [], afterB) == ([], afterB);
    assert ExpandMembers(abi, members, inA).0 == [Nested("b", "B", [])];
  }
}
