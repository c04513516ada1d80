/**
 Recursive expansion of struct definitions: each member of struct type carries that struct's members, unless the
 struct was visited before. `visited` and `expanded` are shared by the whole traversal.
 */
module TypeExpander {
  type Name = string

  /** A member with its simplified type name. */
  datatype Member = Member(name: string, ty: Name)
  /** With the members of its struct, or without; then it may carry an enum's variants or a circular reference. */
  datatype Expanded =
    | Nested(name: string, ty: Name, members: seq<Expanded>)
    | Flat(name: string, ty: Name, hasVariants: bool, isCircular: bool)

  datatype Abi = Abi(structs: map<Name, seq<Member>>, enums: set<Name>)

  datatype State = State(expanded: map<Name, seq<Expanded>>, visited: set<Name>)

  // ---------------------------------------------------------------- the traversal

  /**
   `expand_struct_recursively`, for a struct of the map that was not visited: what it returns, and the state after.
   */
  function Expand(abi: Abi, name: Name, s: State): (r: (seq<Expanded>, State))
    requires name in abi.structs && name !in s.visited
    ensures s.visited + {name} <= r.1.visited <= s.visited + abi.structs.Keys
    decreases abi.structs.Keys - s.visited, 0
  {
    var (members, after) := ExpandMembers(abi, abi.structs[name], s.(visited := s.visited + {name}));
    (members, after.(expanded := after.expanded[name := members]))
  }

  function ExpandMembers(abi: Abi, members: seq<Member>, s: State): (r: (seq<Expanded>, State))
    ensures s.visited <= r.1.visited <= s.visited + abi.structs.Keys
    ensures |r.0| == |members|
    decreases abi.structs.Keys - s.visited, 1, |members|
  {
    if members == [] then ([], s)
    else
      var m := members[0];
      var (first, mid) :=
        if m.ty in abi.structs && m.ty !in s.visited then
          var (nested, after) := Expand(abi, m.ty, s);
          (Nested(m.name, m.ty, nested), after)
        else (Unexpanded(abi, m), s);
      var (others, after) := ExpandMembers(abi, members[1..], mid);
      ([first] + others, after)
  }

  /** A member that is not a struct, or a struct visited before. */
  function Unexpanded(abi: Abi, m: Member): Expanded {
    Flat(m.name, m.ty, m.ty !in abi.structs && m.ty in abi.enums, m.ty in abi.structs)
  }

  // ---------------------------------------------------------------- what is inlined

  /** The structs inlined in a list of members, at any depth, each as often as it is. */
  function Inlined(members: seq<Expanded>): multiset<Name> {
    if members == [] then multiset{} else InlinedIn(members[0]) + Inlined(members[1..])
  }

  function InlinedIn(m: Expanded): multiset<Name> {
    if m.Flat? then multiset{} else multiset{m.ty} + Inlined(m.members)
  }

  /** The structs that one piece of the traversal visits are inlined in its result, each exactly once. */
  lemma {:induction false} ExpandInlinesOnce(abi: Abi, name: Name, s: State)
    requires name in abi.structs && name !in s.visited
    ensures var (members, after) := Expand(abi, name, s);
            multiset{name} + Inlined(members) == multiset(after.visited - s.visited)
    decreases abi.structs.Keys - s.visited, 0
  {
    hide ExpandMembers, Inlined;
    var entered := s.(visited := s.visited + {name});
    MembersInlineOnce(abi, abi.structs[name], entered);
    var after := Expand(abi, name, s).1;
    assert after.visited - s.visited == {name} + (after.visited - entered.visited);
  }

  lemma NothingInlined(abi: Abi, s: State)
    ensures ExpandMembers(abi, [], s) == ([], s) && Inlined([]) == multiset(s.visited - s.visited)
  {
    assert s.visited - s.visited == {};
  }

  lemma VisitsAdd(before: set<Name>, mid: set<Name>, after: set<Name>)
    requires before <= mid <= after
    ensures multiset(after - before) == multiset(mid - before) + multiset(after - mid)
  {
    assert after - before == (mid - before) + (after - mid);
  }

  /** The first member, and the others from the state after it. */
  lemma MembersUnfold(abi: Abi, members: seq<Member>, s: State) returns (mid: State)
    requires members != []
    ensures var m, (expanded, after), (others, end) :=
              members[0], ExpandMembers(abi, members, s), ExpandMembers(abi, members[1..], mid);
            && after == end && expanded != [] && expanded[1..] == others && s.visited <= mid.visited <= after.visited
            && (if m.ty in abi.structs && m.ty !in s.visited then
                  var (nested, entered) := Expand(abi, m.ty, s);
                  mid == entered && expanded[0] == Nested(m.name, m.ty, nested)
                  && Inlined(expanded) == multiset{m.ty} + Inlined(nested) + Inlined(others)
                  && mid.visited > s.visited
                else
                  mid == s && expanded[0] == Unexpanded(abi, m) && Inlined(expanded) == Inlined(others))
  {
    hide Expand;
    var m := members[0];
    mid := if m.ty in abi.structs && m.ty !in s.visited then Expand(abi, m.ty, s).1 else s;
    var (expanded, after) := ExpandMembers(abi, members, s);
    assert expanded[1..] == ExpandMembers(abi, members[1..], mid).0;
  }

  lemma {:induction false} MembersInlineOnce(abi: Abi, members: seq<Member>, s: State)
    ensures var (expanded, after) := ExpandMembers(abi, members, s);
            Inlined(expanded) == multiset(after.visited - s.visited)
    decreases abi.structs.Keys - s.visited, 1, |members|
  {
    hide Expand, Inlined;
    if members == [] {
      NothingInlined(abi, s);
    } else {
      var m := members[0];
      var mid := MembersUnfold(abi, members, s);
      if m.ty in abi.structs && m.ty !in s.visited { ExpandInlinesOnce(abi, m.ty, s); }
      MembersInlineOnce(abi, members[1..], mid);
      hide ExpandMembers;
      VisitsAdd(s.visited, mid.visited, ExpandMembers(abi, members[1..], mid).1.visited);
    }
  }

  // ---------------------------------------------------------------- no name repeats on a path

  /** Below a path of inlined structs, no struct of the path is inlined again. */
  ghost predicate NoRepeat(members: seq<Expanded>, path: set<Name>) {
    members == [] || (NoRepeatIn(members[0], path) && NoRepeat(members[1..], path))
  }

  ghost predicate NoRepeatIn(m: Expanded, path: set<Name>) {
    m.Nested? ==> m.ty !in path && NoRepeat(m.members, path + {m.ty})
  }

  /** If every struct is inlined at most once, and none of the path, no path repeats a name. */
  lemma {:induction false} OnceMeansNoRepeat(members: seq<Expanded>, path: set<Name>)
    requires forall n :: Inlined(members)[n] <= (if n in path then 0 else 1)
    ensures NoRepeat(members, path)
    decreases members
  {
    if members != [] {
      OnceMeansNoRepeat(members[1..], path);
      if members[0].Nested? {
        assert InlinedIn(members[0])[members[0].ty] >= 1;
        OnceMeansNoRepeat(members[0].members, path + {members[0].ty});
      }
    }
  }

  // ---------------------------------------------------------------- entries

  /** The members of an entry are the struct's own, in order, with their names and types. */
  ghost predicate Lists(entry: seq<Expanded>, members: seq<Member>) {
    |entry| == |members| && forall i :: 0 <= i < |members| ==>
      entry[i].name == members[i].name && entry[i].ty == members[i].ty
  }

  /** What an expanded member says: inlined members are the entry of their struct; other structs are marked. */
  ghost predicate Faithful(abi: Abi, expanded: map<Name, seq<Expanded>>, m: Expanded) {
    && (m.Nested? ==> m.ty in abi.structs && m.ty in expanded && m.members == expanded[m.ty])
    && (m.Flat? ==>
          && (m.isCircular <==> m.ty in abi.structs)
          && (m.hasVariants <==> m.ty !in abi.structs && m.ty in abi.enums))
  }

  ghost predicate EntryOk(abi: Abi, expanded: map<Name, seq<Expanded>>, name: Name)
    requires name in expanded
  {
    && name in abi.structs && Lists(expanded[name], abi.structs[name])
    && (forall i :: 0 <= i < |expanded[name]| ==> Faithful(abi, expanded, expanded[name][i]))
    && NoRepeat(expanded[name], {name})
  }

  /** Entries are of visited structs, and each is as it should be. */
  ghost predicate EntriesOk(abi: Abi, s: State) {
    forall name :: name in s.expanded ==> name in s.visited && EntryOk(abi, s.expanded, name)
  }

  ghost predicate Keeps(before: map<Name, seq<Expanded>>, after: map<Name, seq<Expanded>>) {
    forall name :: name in before ==> name in after && after[name] == before[name]
  }

  lemma FaithfulStays(abi: Abi, before: map<Name, seq<Expanded>>, after: map<Name, seq<Expanded>>, m: Expanded)
    requires Keeps(before, after) && Faithful(abi, before, m)
    ensures Faithful(abi, after, m)
  {
  }

  /** What one piece of the traversal did to the entries. */
  ghost predicate Extends(abi: Abi, s: State, after: State) {
    EntriesOk(abi, after) && Keeps(s.expanded, after.expanded)
      && after.expanded.Keys == s.expanded.Keys + (after.visited - s.visited)
  }

  ghost predicate AllFaithful(abi: Abi, expanded: map<Name, seq<Expanded>>, members: seq<Expanded>) {
    forall i :: 0 <= i < |members| ==> Faithful(abi, expanded, members[i])
  }

  lemma {:induction false} ExpandKeepsEntries(abi: Abi, name: Name, s: State)
    requires name in abi.structs && name !in s.visited && EntriesOk(abi, s)
    ensures var (members, after) := Expand(abi, name, s);
            Extends(abi, s, after) && name in after.expanded && after.expanded[name] == members
    decreases abi.structs.Keys - s.visited, 0
  {
    var entered := s.(visited := s.visited + {name});
    var (members, mid) := ExpandMembers(abi, abi.structs[name], entered);
    ExpandInlinesOnce(abi, name, s);
    InlinedOutside(name, members, Expand(abi, name, s).1.visited - s.visited);
    assert EntriesOk(abi, entered);
    MembersKeepEntries(abi, abi.structs[name], entered);
    hide ExpandMembers, EntriesOk, Inlined, NoRepeat, AllFaithful, Lists, Keeps;
    NewEntry(abi, name, s, entered, members, mid);
  }

  lemma InlinedOutside(name: Name, members: seq<Expanded>, visited: set<Name>)
    requires multiset{name} + Inlined(members) == multiset(visited)
    ensures NoRepeat(members, {name})
  {
    forall n ensures Inlined(members)[n] <= (if n in {name} then 0 else 1) {
      assert (multiset{name} + Inlined(members))[n] == multiset(visited)[n] <= 1;
    }
    OnceMeansNoRepeat(members, {name});
  }

  lemma NewEntry(abi: Abi, name: Name, s: State, entered: State, members: seq<Expanded>, mid: State)
    requires name in abi.structs && name !in s.visited && EntriesOk(abi, s)
             && entered == s.(visited := s.visited + {name})
    requires Extends(abi, entered, mid) && entered.visited <= mid.visited
    requires Lists(members, abi.structs[name]) && AllFaithful(abi, mid.expanded, members) && NoRepeat(members, {name})
    ensures Extends(abi, s, mid.(expanded := mid.expanded[name := members]))
  {
    hide Lists, NoRepeat;
    var after := mid.(expanded := mid.expanded[name := members]);
    assert name !in mid.expanded.Keys;
    assert after.visited - s.visited == {name} + (mid.visited - entered.visited);
    forall n | n in after.expanded ensures n in after.visited && EntryOk(abi, after.expanded, n) {
      if n != name { assert EntryOk(abi, mid.expanded, n); }
    }
  }

  lemma SameExtends(abi: Abi, s: State)
    requires EntriesOk(abi, s)
    ensures Extends(abi, s, s)
  {
    hide EntriesOk;
    assert s.visited - s.visited == {};
  }

  lemma NothingExtends(abi: Abi, s: State)
    requires EntriesOk(abi, s)
    ensures ExpandMembers(abi, [], s) == ([], s) && Extends(abi, s, s)
    ensures Lists([], []) && AllFaithful(abi, s.expanded, [])
  {
    hide EntriesOk, Extends;
    SameExtends(abi, s);
  }

  lemma IsOk(abi: Abi, s: State, after: State)
    requires Extends(abi, s, after)
    ensures EntriesOk(abi, after)
  {
    hide EntriesOk;
  }

  lemma KeepsEntries(abi: Abi, s: State, after: State)
    requires Extends(abi, s, after)
    ensures Keeps(s.expanded, after.expanded)
  {
    hide EntriesOk;
  }

  lemma FirstIsFaithful(abi: Abi, m: Member, s: State, mid: State, first: Expanded)
    requires if m.ty in abi.structs && m.ty !in s.visited then
               var (nested, entered) := Expand(abi, m.ty, s);
               && mid == entered && first == Nested(m.name, m.ty, nested)
               && m.ty in mid.expanded && mid.expanded[m.ty] == nested
             else mid == s && first == Unexpanded(abi, m)
    ensures Faithful(abi, mid.expanded, first) && first.name == m.name && first.ty == m.ty
  {
    hide Expand;
  }

  lemma AllWithFirst(
    abi: Abi, expanded: map<Name, seq<Expanded>>, entry: seq<Expanded>, members: seq<Member>)
    requires entry != [] && members != [] && Faithful(abi, expanded, entry[0])
    requires entry[0].name == members[0].name && entry[0].ty == members[0].ty
    requires AllFaithful(abi, expanded, entry[1..]) && Lists(entry[1..], members[1..])
    ensures AllFaithful(abi, expanded, entry) && Lists(entry, members)
  {
    hide Faithful;
    assert forall i :: 0 < i < |entry| ==> entry[i] == entry[1..][i - 1];
    assert forall i :: 0 < i < |members| ==> members[i] == members[1..][i - 1];
  }

  lemma {:induction false} MembersKeepEntries(abi: Abi, members: seq<Member>, s: State)
    requires EntriesOk(abi, s)
    ensures var (expanded, after) := ExpandMembers(abi, members, s);
            Extends(abi, s, after) && Lists(expanded, members) && AllFaithful(abi, after.expanded, expanded)
    decreases abi.structs.Keys - s.visited, 1, |members|
  {
    hide EntriesOk, Expand, Inlined, Extends, Faithful;
    if members == [] {
      NothingExtends(abi, s);
    } else {
      var m := members[0];
      var mid := MembersUnfold(abi, members, s);
      if m.ty in abi.structs && m.ty !in s.visited {
        ExpandKeepsEntries(abi, m.ty, s);
      } else {
        SameExtends(abi, s);
      }
      IsOk(abi, s, mid);
      MembersKeepEntries(abi, members[1..], mid);
      var (expanded, after) := ExpandMembers(abi, members, s);
      hide ExpandMembers;
      FirstIsFaithful(abi, m, s, mid, expanded[0]);
      ExtendsTwice(abi, s, mid, after);
      KeepsEntries(abi, mid, after);
      FaithfulStays(abi, mid.expanded, after.expanded, expanded[0]);
      AllWithFirst(abi, after.expanded, expanded, members);
    }
  }

  lemma ExtendsTwice(abi: Abi, s: State, mid: State, after: State)
    requires Extends(abi, s, mid) && Extends(abi, mid, after) && s.visited <= mid.visited <= after.visited
    ensures Extends(abi, s, after)
  {
  }
}
