/** When decoding is sure to end: containment by value between the structs of an ABI. */
module CalldataContainment {
  import opened CalldataDecoder

  /** The structs that a value of the type holds without a felt that is read before them. */
  function Contained(abi: Abi, ty: Type): (names: set<string>)
    ensures forall name :: name in names ==> IsStruct(abi, name)
    decreases ty
  {
    match ty
    case Named(name) => if IsStruct(abi, name) then {name} else {}
    case Array(_) => {}
    case FixedArray(e, _) => Contained(abi, e)
    case Tuple(elements) => ContainedInAny(abi, elements)
  }

  function ContainedInAny(abi: Abi, elements: seq<Type>): (names: set<string>)
    ensures forall name :: name in names ==> IsStruct(abi, name)
    decreases elements
  {
    if elements == [] then {} else Contained(abi, elements[0]) + ContainedInAny(abi, elements[1..])
  }

  predicate Contains(abi: Abi, outer: string, inner: string) {
    IsStruct(abi, outer)
    && exists i :: 0 <= i < |MembersOf(abi, outer)| && inner in Contained(abi, MembersOf(abi, outer)[i].ty)
  }

  /** Each struct of the path contains the next. */
  predicate IsPath(abi: Abi, path: seq<string>) {
    forall i :: 0 <= i < |path| - 1 ==> Contains(abi, path[i], path[i + 1])
  }

  predicate Connects(abi: Abi, path: seq<string>, from: string, to: string) {
    |path| > 1 && path[0] == from && path[|path| - 1] == to && IsPath(abi, path)
  }

  /** No struct contains itself, however indirectly. */
  ghost predicate Acyclic(abi: Abi) {
    forall path, name :: !Connects(abi, path, name, name)
  }

  function StructNames(abi: Abi): set<string> {
    set s | s in abi.structs :: s.name
  }

  /** The structs inside a struct. */
  ghost function Inside(abi: Abi, name: string): set<string> {
    set inner | inner in StructNames(abi) && exists path :: Connects(abi, path, name, inner)
  }

  ghost function RankOf(abi: Abi): string -> nat {
    (name: string) => 2 * |Inside(abi, name)|
  }

  /** Twice the number of structs inside ranks a struct above everything that it contains. */
  lemma InsideGrows(abi: Abi, outer: string, inner: string)
    requires Acyclic(abi) && Contains(abi, outer, inner)
    ensures |Inside(abi, inner)| < |Inside(abi, outer)|
  {
    assert inner in Inside(abi, outer) by {
      assert IsStruct(abi, inner);
      assert Connects(abi, [outer, inner], outer, inner);
    }
    assert inner !in Inside(abi, inner);
    forall deeper | deeper in Inside(abi, inner) ensures deeper in Inside(abi, outer) {
      var path :| Connects(abi, path, inner, deeper);
      PathGrows(abi, outer, path, deeper);
    }
    Smaller(Inside(abi, inner), Inside(abi, outer), inner);
  }

  lemma PathGrows(abi: Abi, outer: string, path: seq<string>, to: string)
    requires path != [] && Contains(abi, outer, path[0]) && Connects(abi, path, path[0], to)
    ensures Connects(abi, [outer] + path, outer, to)
  {
    var longer := [outer] + path;
    forall i | 0 <= i < |longer| - 1 ensures Contains(abi, longer[i], longer[i + 1]) {
      if i > 0 { assert longer[i] == path[i - 1] && longer[i + 1] == path[i]; }
    }
  }

  lemma Smaller(a: set<string>, b: set<string>, extra: string)
    requires a <= b && extra in b && extra !in a
    ensures |a| < |b|
  {
    assert b == a + (b - a) && extra in b - a;
    assert |b| == |a| + |b - a|;
  }

  lemma {:induction false} RankCoversContained(abi: Abi, rank: string -> nat, ty: Type, bound: nat)
    ensures ByValueRank(abi, rank, ty) <= bound
            <==> forall name :: name in Contained(abi, ty) ==> rank(name) + 2 <= bound
    decreases ty
  {
    match ty {
      case Named(name) => hide IsStruct; KindIsStruct(abi, name);
      case Array(_) =>
      case FixedArray(e, _) => RankCoversContained(abi, rank, e, bound);
      case Tuple(elements) => RankCoversAny(abi, rank, elements, bound);
    }
  }

  lemma KindIsStruct(abi: Abi, name: string)
    ensures IsStruct(abi, name) <==> KindOf(abi, name).UserStruct?
  {
  }

  lemma {:induction false} RankCoversAny(abi: Abi, rank: string -> nat, elements: seq<Type>, bound: nat)
    ensures ElementsRank(abi, rank, elements) <= bound
            <==> forall name :: name in ContainedInAny(abi, elements) ==> rank(name) + 2 <= bound
    decreases elements
  {
    if elements != [] {
      RankCoversContained(abi, rank, elements[0], bound);
      RankCoversAny(abi, rank, elements[1..], bound);
    }
  }

  lemma AcyclicIsRanked(abi: Abi)
    requires Acyclic(abi)
    ensures Ranked(abi, RankOf(abi))
  {
    hide Acyclic, ByValueRank, KindOf, RankOf;
    forall name, s, i | KindOf(abi, name) == UserStruct(s) && 0 <= i < |s.members|
      ensures ByValueRank(abi, RankOf(abi), s.members[i].ty) <= RankOf(abi)(name)
    {
      MemberIsRanked(abi, name, i);
    }
  }

  lemma MemberIsRanked(abi: Abi, name: string, i: nat)
    requires Acyclic(abi) && IsStruct(abi, name) && i < |MembersOf(abi, name)|
    ensures ByValueRank(abi, RankOf(abi), MembersOf(abi, name)[i].ty) <= RankOf(abi)(name)
  {
    hide Acyclic, IsStruct, MembersOf, ByValueRank, Inside;
    var ty := MembersOf(abi, name)[i].ty;
    forall inner | inner in Contained(abi, ty) ensures RankOf(abi)(inner) + 2 <= RankOf(abi)(name) {
      InsideGrows(abi, name, inner);
    }
    RankCoversContained(abi, RankOf(abi), ty, RankOf(abi)(name));
  }

  /** Ranks fall along a path, so a path does not come back. */
  lemma {:induction false} RankFallsAlong(abi: Abi, rank: string -> nat, path: seq<string>)
    requires Ranked(abi, rank) && path != [] && IsPath(abi, path)
    ensures rank(path[|path| - 1]) + 2 * (|path| - 1) <= rank(path[0])
    decreases |path|
  {
    if |path| > 1 {
      hide Ranked, IsStruct, MembersOf;
      assert Contains(abi, path[0], path[1]);
      RankFalls(abi, rank, path[0], path[1]);
      assert forall i :: 0 <= i < |path[1..]| ==> path[1..][i] == path[i + 1];
      RankFallsAlong(abi, rank, path[1..]);
    }
  }

  lemma RankFalls(abi: Abi, rank: string -> nat, outer: string, inner: string)
    requires Ranked(abi, rank) && Contains(abi, outer, inner)
    ensures rank(inner) + 2 <= rank(outer)
  {
    var i :| 0 <= i < |MembersOf(abi, outer)| && inner in Contained(abi, MembersOf(abi, outer)[i].ty);
    RankCoversContained(abi, rank, MembersOf(abi, outer)[i].ty, rank(outer));
  }

  /** The ranking that decoding needs exists exactly if no struct contains itself. */
  lemma RankedIffAcyclic(abi: Abi)
    ensures Acyclic(abi) <==> exists rank: string -> nat :: Ranked(abi, rank)
    ensures Acyclic(abi) <==> Ranked(abi, RankOf(abi))
  {
    if Acyclic(abi) { AcyclicIsRanked(abi); }
    if rank: string -> nat :| Ranked(abi, rank) {
      forall path, name ensures !Connects(abi, path, name, name) {
        if Connects(abi, path, name, name) { RankFallsAlong(abi, rank, path); }
      }
    }
  }

  // ---------------------------------------------------------------- the ranking only bounds the recursion

  /** Two rankings of the same ABI decode alike. */
  lemma {:induction false} DecodeIgnoresRank(
    abi: Abi, rank: string -> nat, other: string -> nat, data: seq<felt>, ty: Type)
    requires Ranked(abi, rank) && Ranked(abi, other)
    ensures Decode(abi, rank, data, ty) == Decode(abi, other, data, ty)
    decreases |data|, ByValueRank(abi, rank, ty), ty, 1, 0
  {
    match ty {
      case Array(element) =>
        hide Ranked, ByValueRank, DecodeElements;
        if data != [] && IsAllocationSafe(data[0]) {
          ElementsIgnoreRank(abi, rank, other, data[1..], element, data[0]);
        }
      case FixedArray(element, len) =>
        hide Ranked, DecodeElements;
        ElementsIgnoreRank(abi, rank, other, data, element, len);
      case Tuple(elements) =>
        hide Ranked, DecodeTuple;
        TupleIgnoresRank(abi, rank, other, data, elements);
      case Named(name) =>
        NamedIgnoresRank(abi, rank, other, data, name);
    }
  }

  lemma {:induction false} NamedIgnoresRank(
    abi: Abi, rank: string -> nat, other: string -> nat, data: seq<felt>, name: string)
    requires Ranked(abi, rank) && Ranked(abi, other)
    ensures Decode(abi, rank, data, Named(name)) == Decode(abi, other, data, Named(name))
    decreases |data|, ByValueRank(abi, rank, Named(name)), Named(name), 0, 0
  {
    match KindOf(abi, name) {
      case UserStruct(s) =>
        hide DecodeMembers;
        MembersIgnoreRank(abi, rank, other, data, s.members, rank(name), other(name));
      case UserEnum(e) =>
        hide Ranked, ByValueRank;
        if data != [] && data[0] < |e.variants| && e.variants[data[0]].ty.Some? {
          DecodeIgnoresRank(abi, rank, other, data[1..], e.variants[data[0]].ty.value);
        }
      case _ =>
    }
  }

  lemma {:induction false} ElementsIgnoreRank(
    abi: Abi, rank: string -> nat, other: string -> nat, data: seq<felt>, element: Type, count: nat)
    requires Ranked(abi, rank) && Ranked(abi, other)
    ensures DecodeElements(abi, rank, data, element, count) == DecodeElements(abi, other, data, element, count)
    decreases |data|, ByValueRank(abi, rank, element), element, 2, count
  {
    hide Ranked, ByValueRank, Decode;
    if count > 0 {
      DecodeIgnoresRank(abi, rank, other, data, element);
      var first := Decode(abi, rank, data, element);
      if first.Some? { ElementsIgnoreRank(abi, rank, other, first.value.rest, element, count - 1); }
    }
  }

  lemma {:induction false} TupleIgnoresRank(
    abi: Abi, rank: string -> nat, other: string -> nat, data: seq<felt>, elements: seq<Type>)
    requires Ranked(abi, rank) && Ranked(abi, other)
    ensures DecodeTuple(abi, rank, data, elements) == DecodeTuple(abi, other, data, elements)
    decreases |data|, ElementsRank(abi, rank, elements), elements, 0, 0
  {
    hide Ranked, ByValueRank, Decode;
    if elements != [] {
      DecodeIgnoresRank(abi, rank, other, data, elements[0]);
      var first := Decode(abi, rank, data, elements[0]);
      if first.Some? { TupleIgnoresRank(abi, rank, other, first.value.rest, elements[1..]); }
    }
  }

  lemma {:induction false} MembersIgnoreRank(
    abi: Abi, rank: string -> nat, other: string -> nat, data: seq<felt>, members: seq<Member>, bound: nat,
    otherBound: nat)
    requires Ranked(abi, rank) && Ranked(abi, other)
    requires forall i :: 0 <= i < |members| ==> ByValueRank(abi, rank, members[i].ty) <= bound
    requires forall i :: 0 <= i < |members| ==> ByValueRank(abi, other, members[i].ty) <= otherBound
    ensures DecodeMembers(abi, rank, data, members, bound) == DecodeMembers(abi, other, data, members, otherBound)
    decreases |data|, bound + 1, Named(""), 0, |members|
  {
    hide Ranked, ByValueRank, Decode;
    if members != [] {
      DecodeIgnoresRank(abi, rank, other, data, members[0].ty);
      var first := Decode(abi, rank, data, members[0].ty);
      if first.Some? { MembersIgnoreRank(abi, rank, other, first.value.rest, members[1..], bound, otherBound); }
    }
  }

  lemma {:induction false} ParametersIgnoreRank(
    abi: Abi, rank: string -> nat, other: string -> nat, data: seq<felt>, types: seq<Type>, names: seq<string>)
    requires Ranked(abi, rank) && Ranked(abi, other)
    ensures DecodeParameters(abi, rank, data, types, names) == DecodeParameters(abi, other, data, types, names)
    decreases |types|
  {
    hide Ranked, Decode;
    if types != [] {
      DecodeIgnoresRank(abi, rank, other, data, types[0]);
      var first := Decode(abi, rank, data, types[0]);
      if first.Some? {
        ParametersIgnoreRank(abi, rank, other, first.value.rest, types[1..], if names == [] then [] else names[1..]);
      }
    }
  }
}
