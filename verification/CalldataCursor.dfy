/** The decoder as it runs: a cursor over the felts, advanced in place through recursion and loops. */
module CalldataCursor {
  import opened CalldataContainment
  import opened CalldataDecoder
  import opened Numbers
  import opened Wrappers

  class Cursor {
    var data: seq<felt>

    constructor (data: seq<felt>)
      ensures this.data == data
    {
      this.data := data;
    }

    /** `split_first`, and the rest stays. */
    method Next() returns (f: Option<felt>)
      modifies this
      ensures old(data) == [] ==> f == None && data == []
      ensures old(data) != [] ==> f == Some(old(data[0])) && data == old(data[1..])
    {
      if data == [] { return None; }
      f := Some(data[0]);
      data := data[1..];
    }
  }

  /** `items` in front of what is still to be read. */
  ghost function Prepend<T>(items: seq<T>, r: Option<Read<seq<T>>>): Option<Read<seq<T>>> {
    match r
    case None => None
    case Some(read) => Some(Read(items + read.value, read.rest))
  }

  lemma PrependOne<T>(items: seq<T>, first: T, r: Option<Read<seq<T>>>)
    ensures Prepend(items, Prepend([first], r)) == Prepend(items + [first], r)
  {
    if r.Some? { assert items + ([first] + r.value.value) == items + [first] + r.value.value; }
  }

  lemma PrependNothing<T>(r: Option<Read<seq<T>>>)
    ensures Prepend([], r) == r
  {
    if r.Some? { assert [] + r.value.value == r.value.value; }
  }

  /** `decode_type`: the value, and the cursor behind it. */
  method DecodeType(
    abi: Abi, ghost rank: string -> nat, cursor: Cursor, ty: Type, name: Option<string>) returns (r: Option<Decoded>)
    requires Ranked(abi, rank)
    modifies cursor
    ensures match Decode(abi, rank, old(cursor.data), ty)
            case None => r == None
            case Some(read) => r == Some(Decoded(name, Known(ty), read.value)) && cursor.data == read.rest
    decreases |cursor.data|, ByValueRank(abi, rank, ty), ty, 1, 1
  {
    var value: Option<Value>;
    match ty {
      case Array(element) =>
        var len := cursor.Next();
        if len.None? || len.value >= USIZE_BOUND || !IsAllocationSafe(len.value) { return None; }
        var items := DecodeItems(abi, rank, cursor, element, len.value);
        if items.None? { return None; }
        value := Some(List(items.value));
      case FixedArray(element, len) =>
        if HasSemicolon(element) || !IsAllocationSafe(len) { return None; }
        var items := DecodeItems(abi, rank, cursor, element, len);
        if items.None? { return None; }
        value := Some(List(items.value));
      case Tuple(elements) =>
        if |elements| < 2 || exists i :: 0 <= i < |elements| && HasComma(elements[i]) { return None; }
        var tupleData := new Cursor(cursor.data);
        var items := DecodeTupleItems(abi, rank, tupleData, elements);
        if items.None? { return None; }
        cursor.data := tupleData.data;
        value := Some(List(items.value));
      case Named(typeName) =>
        value := DecodeNamed(abi, rank, cursor, typeName);
        if value.None? { return None; }
    }
    r := Some(Decoded(name, Known(ty), value.value));
  }

  method DecodeNamed(abi: Abi, ghost rank: string -> nat, cursor: Cursor, name: string) returns (r: Option<Value>)
    requires Ranked(abi, rank)
    modifies cursor
    ensures match Decode(abi, rank, old(cursor.data), Named(name))
            case None => r == None
            case Some(read) => r == Some(read.value) && cursor.data == read.rest
    decreases |cursor.data|, ByValueRank(abi, rank, Named(name)), Named(name), 1, 0
  {
    match KindOf(abi, name) {
      case Primitive =>
        var f := cursor.Next();
        r := if f.None? then None else Some(PrimitiveValue(name, f.value));
      case Missing => r := None;
      case UserStruct(s) =>
        var structData := new Cursor(cursor.data);
        var fields := DecodeFields(abi, rank, structData, s.members, rank(name));
        if fields.None? { return None; }
        cursor.data := structData.data;
        r := Some(StructValue(name, fields.value));
      case UserEnum(e) =>
        var index := cursor.Next();
        if index.None? || index.value >= USIZE_BOUND || index.value >= |e.variants| { return None; }
        var v := e.variants[index.value];
        if v.ty.None? { return Some(EnumValue(v.name, Decoded(Some(v.name), StringName, Text(v.name)))); }
        var inner := DecodeType(abi, rank, cursor, v.ty.value, Some(v.name));
        r := if inner.None? then None else Some(EnumValue(v.name, inner.value));
    }
  }

  /** The loop over the elements of an array. */
  method DecodeItems(
    abi: Abi, ghost rank: string -> nat, cursor: Cursor, element: Type, count: nat)
    returns (items: Option<seq<Value>>)
    requires Ranked(abi, rank)
    modifies cursor
    ensures match DecodeElements(abi, rank, old(cursor.data), element, count)
            case None => items == None
            case Some(read) => items == Some(read.value) && cursor.data == read.rest
    decreases |cursor.data|, ByValueRank(abi, rank, element), element, 2, 0
  {
    hide Ranked, ByValueRank, Decode, Prepend;
    var values: seq<Value> := [];
    PrependNothing(DecodeElements(abi, rank, cursor.data, element, count));
    for i := 0 to count
      invariant |cursor.data| <= |old(cursor.data)|
      invariant Prepend(values, DecodeElements(abi, rank, cursor.data, element, count - i))
                == DecodeElements(abi, rank, old(cursor.data), element, count)
    {
      ghost var before := cursor.data;
      var v := DecodeType(abi, rank, cursor, element, None);
      ElementsStep(abi, rank, before, element, count - i, values);
      if v.None? { return None; }
      values := values + [v.value.value];
    }
    items := Some(values);
    NoElementsLeft(abi, rank, cursor.data, element, values);
  }

  lemma ElementsStep(abi: Abi, rank: string -> nat, data: seq<felt>, element: Type, count: nat, items: seq<Value>)
    requires Ranked(abi, rank) && count > 0
    ensures Prepend(items, DecodeElements(abi, rank, data, element, count))
            == match Decode(abi, rank, data, element)
               case None => None
               case Some(first) =>
                 Prepend(items + [first.value], DecodeElements(abi, rank, first.rest, element, count - 1))
  {
    hide Ranked, ByValueRank, Decode;
    var first := Decode(abi, rank, data, element);
    if first.Some? {
      PrependOne(items, first.value.value, DecodeElements(abi, rank, first.value.rest, element, count - 1));
    }
  }

  lemma NoElementsLeft(abi: Abi, rank: string -> nat, data: seq<felt>, element: Type, items: seq<Value>)
    requires Ranked(abi, rank)
    ensures Prepend(items, DecodeElements(abi, rank, data, element, 0)) == Some(Read(items, data))
  {
    hide Ranked, ByValueRank, Decode;
    assert items + [] == items;
  }

  /** The loop over the elements of a tuple. */
  method DecodeTupleItems(
    abi: Abi, ghost rank: string -> nat, cursor: Cursor, elements: seq<Type>) returns (items: Option<seq<Value>>)
    requires Ranked(abi, rank)
    modifies cursor
    ensures match DecodeTuple(abi, rank, old(cursor.data), elements)
            case None => items == None
            case Some(read) => items == Some(read.value) && cursor.data == read.rest
    decreases |cursor.data|, ElementsRank(abi, rank, elements), elements, 0, 0
  {
    var values: seq<Value> := [];
    PrependNothing(DecodeTuple(abi, rank, cursor.data, elements));
    for i := 0 to |elements|
      invariant |cursor.data| <= |old(cursor.data)|
      invariant Prepend(values, DecodeTuple(abi, rank, cursor.data, elements[i..]))
                == DecodeTuple(abi, rank, old(cursor.data), elements)
    {
      hide Ranked, Decode, Prepend, DecodeTuple, ByValueRank;
      ghost var before := cursor.data;
      ElementRank(abi, rank, elements, i);
      var v := DecodeType(abi, rank, cursor, elements[i], None);
      TupleStep(abi, rank, before, elements, i, values);
      if v.None? { return None; }
      values := values + [v.value.value];
    }
    items := Some(values);
    assert elements[|elements|..] == [] && values + [] == values;
  }

  lemma {:induction false} ElementRank(abi: Abi, rank: string -> nat, elements: seq<Type>, i: nat)
    requires i < |elements|
    ensures ByValueRank(abi, rank, elements[i]) <= ElementsRank(abi, rank, elements)
    decreases i
  {
    hide ByValueRank;
    if i > 0 { ElementRank(abi, rank, elements[1..], i - 1); }
  }

  lemma TupleStep(abi: Abi, rank: string -> nat, data: seq<felt>, elements: seq<Type>, i: nat, items: seq<Value>)
    requires Ranked(abi, rank) && i < |elements|
    ensures Prepend(items, DecodeTuple(abi, rank, data, elements[i..]))
            == match Decode(abi, rank, data, elements[i])
               case None => None
               case Some(first) => Prepend(items + [first.value], DecodeTuple(abi, rank, first.rest, elements[i + 1..]))
  {
    hide Ranked, ByValueRank, Decode;
    assert elements[i..][0] == elements[i] && elements[i..][1..] == elements[i + 1..];
    var first := Decode(abi, rank, data, elements[i]);
    if first.Some? {
      PrependOne(items, first.value.value, DecodeTuple(abi, rank, first.value.rest, elements[i + 1..]));
    }
  }

  /** The loop over the members of a struct. */
  method DecodeFields(abi: Abi, ghost rank: string -> nat, cursor: Cursor, members: seq<Member>, ghost bound: nat)
    returns (fields: Option<seq<Decoded>>)
    requires Ranked(abi, rank) && forall i :: 0 <= i < |members| ==> ByValueRank(abi, rank, members[i].ty) <= bound
    modifies cursor
    ensures match DecodeMembers(abi, rank, old(cursor.data), members, bound)
            case None => fields == None
            case Some(read) => fields == Some(read.value) && cursor.data == read.rest
    decreases |cursor.data|, bound + 1, Named(""), 0, 0
  {
    var values: seq<Decoded> := [];
    PrependNothing(DecodeMembers(abi, rank, cursor.data, members, bound));
    for i := 0 to |members|
      invariant |cursor.data| <= |old(cursor.data)|
      invariant Prepend(values, DecodeMembers(abi, rank, cursor.data, members[i..], bound))
                == DecodeMembers(abi, rank, old(cursor.data), members, bound)
    {
      hide Ranked, Decode, Prepend, DecodeMembers, ByValueRank;
      ghost var before := cursor.data;
      var v := DecodeType(abi, rank, cursor, members[i].ty, Some(members[i].name));
      MembersStep(abi, rank, before, members, bound, i, values);
      if v.None? { return None; }
      values := values + [v.value];
    }
    fields := Some(values);
    assert members[|members|..] == [] && values + [] == values;
  }

  lemma MembersStep(
    abi: Abi,
    rank: string -> nat, data: seq<felt>, members: seq<Member>, bound: nat, i: nat, items: seq<Decoded>)
    requires Ranked(abi, rank) && i < |members|
    requires forall j :: 0 <= j < |members| ==> ByValueRank(abi, rank, members[j].ty) <= bound
    ensures Prepend(items, DecodeMembers(abi, rank, data, members[i..], bound))
            == match Decode(abi, rank, data, members[i].ty)
               case None => None
               case Some(first) =>
                 Prepend(items + [Decoded(Some(members[i].name), Known(members[i].ty), first.value)],
                         DecodeMembers(abi, rank, first.rest, members[i + 1..], bound))
  {
    hide Ranked, ByValueRank, Decode;
    assert members[i..][0] == members[i] && members[i..][1..] == members[i + 1..];
    var first := Decode(abi, rank, data, members[i].ty);
    if first.Some? {
      PrependOne(items, Decoded(Some(members[i].name), Known(members[i].ty), first.value.value),
        DecodeMembers(abi, rank, first.value.rest, members[i + 1..], bound));
    }
  }

  /** `decode_calldata`. */
  method DecodeAll(abi: Abi, ghost rank: string -> nat, data: seq<felt>, types: seq<Type>, names: seq<string>)
    returns (values: Option<seq<Decoded>>)
    requires Ranked(abi, rank)
    ensures values == DecodeCalldata(abi, rank, data, types, names)
  {
    var cursor := new Cursor(data);
    var result: seq<Decoded> := [];
    PrependNothing(DecodeParameters(abi, rank, data, types, names));
    for i := 0 to |types|
      invariant Prepend(result, DecodeParameters(abi, rank, cursor.data, types[i..], names[Min(i, |names|)..]))
                == DecodeParameters(abi, rank, data, types, names)
    {
      hide Ranked, Decode, Prepend, DecodeParameters, ByValueRank;
      ghost var before := cursor.data;
      var v := DecodeType(abi, rank, cursor, types[i], if i < |names| then Some(names[i]) else None);
      ParametersStep(abi, rank, before, types, names, i, result);
      if v.None? { return None; }
      result := result + [v.value];
    }
    assert types[|types|..] == [] && result + [] == result;
    values := if cursor.data == [] then Some(result) else None;
  }

  /** On every ABI without containment cycles it ends, and no ranking affects what it returns. */
  method DecodeCalldataToEnd(abi: Abi, data: seq<felt>, types: seq<Type>, names: seq<string>)
    returns (values: Option<seq<Decoded>>)
    requires Acyclic(abi)
    ensures forall rank: string -> nat :: Ranked(abi, rank) ==> values == DecodeCalldata(abi, rank, data, types, names)
  {
    RankedIffAcyclic(abi);
    hide Ranked, Acyclic, RankOf, DecodeParameters;
    values := DecodeAll(abi, RankOf(abi), data, types, names);
    forall rank: string -> nat | Ranked(abi, rank) ensures values == DecodeCalldata(abi, rank, data, types, names) {
      ParametersIgnoreRank(abi, rank, RankOf(abi), data, types, names);
    }
  }

  lemma ParametersStep(
    abi: Abi,
    rank: string -> nat, data: seq<felt>, types: seq<Type>, names: seq<string>, i: nat, items: seq<Decoded>)
    requires Ranked(abi, rank) && i < |types|
    ensures Prepend(items, DecodeParameters(abi, rank, data, types[i..], names[Min(i, |names|)..]))
            == match Decode(abi, rank, data, types[i])
               case None => None
               case Some(first) =>
                 Prepend(items + [Decoded(if i < |names| then Some(names[i]) else None, Known(types[i]), first.value)],
                         DecodeParameters(abi, rank, first.rest, types[i + 1..], names[Min(i + 1, |names|)..]))
  {
    hide Ranked, ByValueRank, Decode;
    assert types[i..][0] == types[i] && types[i..][1..] == types[i + 1..];
    var front, back := names[Min(i, |names|)..], names[Min(i + 1, |names|)..];
    assert if i < |names| then front[0] == names[i] && front[1..] == back else front == [] && back == [];
    var first := Decode(abi, rank, data, types[i]);
    if first.Some? {
      PrependOne(items, Decoded(if i < |names| then Some(names[i]) else None, Known(types[i]), first.value.value),
        DecodeParameters(abi, rank, first.value.rest, types[i + 1..], back));
    }
  }
}
