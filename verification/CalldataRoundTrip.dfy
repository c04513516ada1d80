/** Encoding what was decoded: exactly when the calldata comes back. */
module CalldataRoundTrip {
  import opened CalldataDecoder
  import opened CalldataEncoder
  import opened Numbers
  import opened WideIntegers
  import opened Wrappers

  // ---------------------------------------------------------------- the condition

  /** The core library's wide integers: limbs of type `u128`. */
  ghost predicate HasCoreStructs(abi: Abi) {
    && (KindOf(abi, "u256").UserStruct? ==> AreLimbs(KindOf(abi, "u256").struct_.members, 2))
    && (KindOf(abi, "u512").UserStruct? ==> AreLimbs(KindOf(abi, "u512").struct_.members, 4))
  }

  ghost predicate AreLimbs(members: seq<Member>, count: nat) {
    |members| == count && forall i :: 0 <= i < count ==> members[i].ty == Named("u128")
  }

  predicate IsWide(name: string) { name == "u256" || name == "u512" }

  /** All limbs but the last have 128 bits. */
  ghost predicate HasSmallLimbs(name: string, data: seq<felt>) {
    forall i :: 0 <= i < (if name == "u256" then 1 else 3) ==> i < |data| && data[i] < TWO_128
  }

  /**
   What has to hold of the felts that a value is read from: booleans are 0 or 1, limbs fit, an enum's variant
   carries data and is the first of its name; and there are no signed integers and no fixed arrays.
   */
  ghost predicate Clean(abi: Abi, rank: string -> nat, data: seq<felt>, ty: Type)
    requires Ranked(abi, rank)
    decreases |data|, ByValueRank(abi, rank, ty), ty, 1, 0
  {
    match ty
    case Array(element) => data != [] && CleanElements(abi, rank, data[1..], element, data[0])
    case FixedArray(_, _) => false
    case Tuple(elements) => CleanTuple(abi, rank, data, elements)
    case Named(name) =>
      match KindOf(abi, name)
      case Primitive => data != [] && name !in SIGNED && (name == "bool" ==> data[0] < 2)
      case Missing => false
      case UserStruct(s) =>
        if IsWide(name) then HasSmallLimbs(name, data) else CleanMembers(abi, rank, data, s.members, rank(name))
      case UserEnum(e) =>
        && data != [] && data[0] < |e.variants|
        && e.variants[data[0]].ty.Some? && Position(e.variants, e.variants[data[0]].name) == Some(data[0])
        && Clean(abi, rank, data[1..], e.variants[data[0]].ty.value)
  }

  ghost predicate CleanElements(abi: Abi, rank: string -> nat, data: seq<felt>, element: Type, count: nat)
    requires Ranked(abi, rank)
    decreases |data|, ByValueRank(abi, rank, element), element, 2, count
  {
    count == 0 || (Clean(abi, rank, data, element)
                   && match Decode(abi, rank, data, element)
                      case None => false
                      case Some(first) => CleanElements(abi, rank, first.rest, element, count - 1))
  }

  ghost predicate CleanTuple(abi: Abi, rank: string -> nat, data: seq<felt>, elements: seq<Type>)
    requires Ranked(abi, rank)
    decreases |data|, ElementsRank(abi, rank, elements), elements, 0, 0
  {
    elements == [] || (Clean(abi, rank, data, elements[0])
                       && match Decode(abi, rank, data, elements[0])
                          case None => false
                          case Some(first) => CleanTuple(abi, rank, first.rest, elements[1..]))
  }

  ghost predicate CleanMembers(abi: Abi, rank: string -> nat, data: seq<felt>, members: seq<Member>, bound: nat)
    requires Ranked(abi, rank) && forall i :: 0 <= i < |members| ==> ByValueRank(abi, rank, members[i].ty) <= bound
    decreases |data|, bound + 1, Named(""), 0, |members|
  {
    members == [] || (Clean(abi, rank, data, members[0].ty)
                      && match Decode(abi, rank, data, members[0].ty)
                         case None => false
                         case Some(first) => CleanMembers(abi, rank, first.rest, members[1..], bound))
  }

  ghost predicate CleanParameters(abi: Abi, rank: string -> nat, data: seq<felt>, types: seq<Type>)
    requires Ranked(abi, rank)
    decreases |types|
  {
    types == [] || (Clean(abi, rank, data, types[0])
                    && match Decode(abi, rank, data, types[0])
                       case None => false
                       case Some(first) => CleanParameters(abi, rank, first.rest, types[1..]))
  }

  /** No fixed array has wide integers as elements, directly or within arrays and tuples. */
  predicate IsNarrow(ty: Type) {
    match ty
    case Named(_) => true
    case Array(e) => IsNarrow(e)
    case FixedArray(e, _) => IsNarrow(e) && HasNoWide(e)
    case Tuple(elements) => forall i :: 0 <= i < |elements| ==> IsNarrow(elements[i])
  }

  predicate HasNoWide(ty: Type) {
    match ty
    case Named(name) => !IsWide(name)
    case Array(e) => HasNoWide(e)
    case FixedArray(e, _) => HasNoWide(e)
    case Tuple(elements) => forall i :: 0 <= i < |elements| ==> HasNoWide(elements[i])
  }

  ghost predicate IsNarrowAbi(abi: Abi) {
    && (forall s, i :: s in abi.structs && 0 <= i < |s.members| ==> IsNarrow(s.members[i].ty))
    && (forall e, i :: e in abi.enums && 0 <= i < |e.variants| && e.variants[i].ty.Some? ==>
        IsNarrow(e.variants[i].ty.value))
  }

  // ---------------------------------------------------------------- an encoding against the felts read

  function Used(data: seq<felt>, rest: seq<felt>): seq<felt>
    requires |rest| <= |data|
  {
    data[..|data| - |rest|]
  }

  /** The encoding gives back the felts used if they are clean; and only then, when `narrow`. */
  ghost predicate Matches(enc: Encoding, data: seq<felt>, rest: seq<felt>, clean: bool, narrow: bool) {
    && |rest| <= |data| && data[|data| - |rest|..] == rest
    && (clean ==> enc == Ok(Hexes(Used(data, rest))))
    && (narrow && enc.Ok? ==> |enc.value| >= |Used(data, rest)|)
    && (narrow && enc == Ok(Hexes(Used(data, rest))) ==> clean)
  }

  lemma HexesJoin(a: seq<felt>, b: seq<felt>)
    ensures Hexes(a + b) == Hexes(a) + Hexes(b)
  {
  }

  lemma UsedJoin(data: seq<felt>, mid: seq<felt>, rest: seq<felt>)
    requires |rest| <= |mid| <= |data| && data[|data| - |mid|..] == mid && mid[|mid| - |rest|..] == rest
    ensures Used(data, rest) == Used(data, mid) + Used(mid, rest) && data[|data| - |rest|..] == rest
  {
    assert data == data[..|data| - |mid|] + mid;
  }

  lemma JoinMatches(
    a: Encoding, b: Encoding, data: seq<felt>, mid: seq<felt>, rest: seq<felt>, cleanA: bool, cleanB: bool,
    narrow: bool)
    requires Matches(a, data, mid, cleanA, narrow) && Matches(b, mid, rest, cleanB, narrow)
    ensures Matches(Join(a, b), data, rest, cleanA && cleanB, narrow)
  {
    UsedJoin(data, mid, rest);
    var front, back := Hexes(Used(data, mid)), Hexes(Used(mid, rest));
    HexesJoin(Used(data, mid), Used(mid, rest));
    hide Used, Hexes;
    if narrow && Join(a, b) == Ok(front + back) {
      assert a.value == (a.value + b.value)[..|front|] == front;
      assert b.value == (a.value + b.value)[|front|..] == back;
    }
  }

  lemma OneFelt(data: seq<felt>, n: nat, narrow: bool)
    requires data != []
    ensures Matches(Ok([Hex(n)]), data, data[1..], n == data[0], narrow)
  {
    assert Used(data, data[1..]) == [data[0]];
    assert Hexes([data[0]]) == [Hex(data[0])];
    assert [Hex(n)][0] == Hex(n);
  }

  lemma Nothing(data: seq<felt>, narrow: bool)
    ensures Matches(Ok([]), data, data, true, narrow)
  {
    assert Used(data, data) == [];
  }

  lemma PrimitiveMatches(abi: Abi, name: string, data: seq<felt>, narrow: bool)
    requires name in PRIMITIVES && data != []
    ensures Matches(Encode(abi, Known(Named(name)), PrimitiveValue(name, data[0])), data, data[1..],
                    name !in SIGNED && (name == "bool" ==> data[0] < 2), narrow)
  {
    if name in SIGNED {
      assert Used(data, data[1..]) == [data[0]];
      assert Hexes([data[0]])[0] == Hex(data[0]);
      assert Encode(abi, Known(Named(name)), PrimitiveValue(name, data[0])) == Ok([NegativeHex(PRIME - data[0])]);
      assert [NegativeHex(PRIME - data[0])][0] != Hex(data[0]);
    } else {
      OneFelt(data, if name == "bool" then (if data[0] != 0 then 1 else 0) else data[0], narrow);
    }
  }

  lemma {:induction false} LimbsDecode(
    abi: Abi, rank: string -> nat, data: seq<felt>, members: seq<Member>, bound: nat, count: nat)
    requires Ranked(abi, rank) && forall i :: 0 <= i < |members| ==> ByValueRank(abi, rank, members[i].ty) <= bound
    requires AreLimbs(members, count) && DecodeMembers(abi, rank, data, members, bound).Some?
    ensures var read := DecodeMembers(abi, rank, data, members, bound).value;
            && count <= |data| && read.rest == data[count..]
            && forall i :: 0 <= i < count ==> read.value[i].value == BigUint(data[i])
    decreases count
  {
    if count > 0 {
      var first := Decode(abi, rank, data, members[0].ty).value;
      assert first == Read(BigUint(data[0]), data[1..]);
      LimbsDecode(abi, rank, data[1..], members[1..], bound, count - 1);
      var others := DecodeMembers(abi, rank, data[1..], members[1..], bound).value;
      assert data[1..][count - 1..] == data[count..];
      forall i | 0 <= i < count
        ensures DecodeMembers(abi, rank, data, members, bound).value.value[i].value == BigUint(data[i])
      {
        if i > 0 { assert others.value[i - 1].value == BigUint(data[1..][i - 1]); }
      }
    }
  }

  lemma WideValue(name: string, data: seq<felt>, fields: seq<Decoded>, count: nat)
    requires (name == "u256" && count == 2) || (name == "u512" && count == 4)
    requires |fields| == count <= |data| && forall i :: 0 <= i < count ==> fields[i].value == BigUint(data[i])
    ensures StructValue(name, fields)
            == BigUint(if count == 2 then JoinTwo(data[0], data[1]) else JoinFour(data[0], data[1], data[2], data[3]))
  {
    hide JoinTwo, JoinFour;
  }

  lemma WideEncodes(abi: Abi, name: string, n: nat)
    requires name == "u256" || name == "u512"
    ensures |SplitTwo(n)| == 2 && |SplitFour(n)| == 4
    ensures Encode(abi, Known(Named(name)), BigUint(n))
            == Ok(Tokens(if name == "u256" then SplitTwo(n) else SplitFour(n)))
  {
    if name == "u256" {
      assert Tokens(SplitTwo(n)) == SplitIntoLimbs(n, Known(Named(name)));
    } else {
      assert Tokens(SplitFour(n)) == SplitIntoLimbs(n, Known(Named(name)));
    }
  }

  lemma FirstUsed(data: seq<felt>, count: nat)
    requires count <= |data|
    ensures Used(data, data[count..]) == data[..count] && data[|data| - |data[count..]|..] == data[count..]
    ensures count == 2 ==> data[..count] == [data[0], data[1]]
    ensures count == 4 ==> data[..count] == [data[0], data[1], data[2], data[3]]
  {
  }

  lemma WideMatches(abi: Abi, name: string, data: seq<felt>, fields: seq<Decoded>, count: nat, narrow: bool)
    requires (name == "u256" && count == 2) || (name == "u512" && count == 4)
    requires |fields| == count <= |data| && forall i :: 0 <= i < count ==> fields[i].value == BigUint(data[i])
    ensures Matches(Encode(abi, Known(Named(name)), StructValue(name, fields)), data, data[count..],
                    HasSmallLimbs(name, data), narrow)
  {
    hide Encode, StructValue, JoinTwo, JoinFour, SplitTwo, SplitFour, Used, Hexes, Tokens;
    WideValue(name, data, fields, count);
    FirstUsed(data, count);
    if count == 2 {
      WideEncodes(abi, name, JoinTwo(data[0], data[1]));
      SplitTwoInvertsJoinTwo(data[0], data[1]);
      TokensAreHexes(SplitTwo(JoinTwo(data[0], data[1])), [data[0], data[1]]);
    } else {
      WideEncodes(abi, name, JoinFour(data[0], data[1], data[2], data[3]));
      SplitFourInvertsJoinFour(data[0], data[1], data[2], data[3]);
      TokensAreHexes(SplitFour(JoinFour(data[0], data[1], data[2], data[3])), [data[0], data[1], data[2], data[3]]);
    }
  }

  function Tokens(ns: seq<nat>): (tokens: seq<Token>)
    ensures |tokens| == |ns| && forall i :: 0 <= i < |ns| ==> tokens[i] == Hex(ns[i])
  {
    seq(|ns|, i requires 0 <= i < |ns| => Hex(ns[i]))
  }

  lemma TokensAreHexes(ns: seq<nat>, felts: seq<felt>)
    requires |ns| == |felts|
    ensures Tokens(ns) == Hexes(felts) <==> ns == felts
  {
    if Tokens(ns) == Hexes(felts) {
      forall i | 0 <= i < |ns| ensures ns[i] == felts[i] {
        assert Tokens(ns)[i] == Hexes(felts)[i];
      }
    }
  }

  // ---------------------------------------------------------------- every decoded value

  /**
   Whatever `Decode` yields, encoding it under the same type gives back the felts it was read from if these are
   clean; and only then, unless wide integers stand in fixed arrays.
   */
  lemma {:induction false} DecodedMatches(
    abi: Abi, rank: string -> nat, data: seq<felt>, ty: Type, read: Read<Value>, narrow: bool)
    requires Ranked(abi, rank) && HasCoreStructs(abi) && (narrow ==> IsNarrowAbi(abi) && IsNarrow(ty))
    requires Decode(abi, rank, data, ty) == Some(read)
    ensures Matches(Encode(abi, Known(ty), read.value), data, read.rest, Clean(abi, rank, data, ty), narrow)
    decreases |data|, ByValueRank(abi, rank, ty), ty, 1, 0
  {
    hide Matches, Encode, Decode, Clean, IsNarrowAbi, HasCoreStructs, Ranked;
    match ty {
      case Array(element) => ArrayMatches(abi, rank, data, element, read, narrow);
      case FixedArray(element, len) => FixedArrayMatches(abi, rank, data, element, len, read, narrow);
      case Tuple(elements) => TupleTypeMatches(abi, rank, data, elements, read, narrow);
      case Named(name) => NamedMatches(abi, rank, data, name, read, narrow);
    }
  }

  lemma {:induction false} NamedMatches(
    abi: Abi, rank: string -> nat, data: seq<felt>, name: string, read: Read<Value>, narrow: bool)
    requires Ranked(abi, rank) && HasCoreStructs(abi) && (narrow ==> IsNarrowAbi(abi))
    requires Decode(abi, rank, data, Named(name)) == Some(read)
    ensures Matches(Encode(abi, Known(Named(name)), read.value), data, read.rest, Clean(abi, rank, data, Named(name)),
                    narrow)
    decreases |data|, ByValueRank(abi, rank, Named(name)), Named(name), 0, 1
  {
    hide Matches, Encode, IsNarrowAbi, HasCoreStructs;
    match KindOf(abi, name) {
      case Primitive => PrimitiveMatches(abi, name, data, narrow);
      case UserStruct(s) => StructMatches(abi, rank, data, name, s, narrow);
      case UserEnum(e) => EnumMatches(abi, rank, data, name, e, read, narrow);
    }
  }

  lemma {:induction false} TupleTypeMatches(
    abi: Abi, rank: string -> nat, data: seq<felt>, elements: seq<Type>, read: Read<Value>, narrow: bool)
    requires Ranked(abi, rank) && HasCoreStructs(abi) && (narrow ==> IsNarrowAbi(abi) && IsNarrow(Tuple(elements)))
    requires Decode(abi, rank, data, Tuple(elements)) == Some(read)
    ensures Matches(Encode(abi, Known(Tuple(elements)), read.value), data, read.rest,
                    Clean(abi, rank, data, Tuple(elements)), narrow)
    decreases |data|, ByValueRank(abi, rank, Tuple(elements)), Tuple(elements), 0, 0
  {
    hide Matches, DecodeTuple, EncodeTuple, CleanTuple, IsNarrowAbi, HasCoreStructs;
    TupleMatches(abi, rank, data, elements, DecodeTuple(abi, rank, data, elements).value, narrow);
  }

  lemma ArrayUnfolds(
    abi: Abi, rank: string -> nat, data: seq<felt>, element: Type, read: Read<Value>)
    returns (items: Read<seq<Value>>)
    requires Ranked(abi, rank) && Decode(abi, rank, data, Array(element)) == Some(read)
    ensures data != [] && DecodeElements(abi, rank, data[1..], element, data[0]) == Some(items)
            && items.rest == read.rest
    ensures |items.value| == data[0]
    ensures Encode(abi, Known(Array(element)), read.value)
            == Join(Ok([Hex(data[0])]), EncodeItems(abi, Known(element), items.value))
    ensures Encode(abi, Unknown, read.value) == Join(Ok([Hex(data[0])]), EncodeItems(abi, Unknown, items.value))
    ensures Clean(abi, rank, data, Array(element)) == CleanElements(abi, rank, data[1..], element, data[0])
  {
    hide DecodeElements, EncodeItems, CleanElements, Ranked, ByValueRank;
    items := DecodeElements(abi, rank, data[1..], element, data[0]).value;
  }

  lemma {:induction false} ArrayMatches(
    abi: Abi, rank: string -> nat, data: seq<felt>, element: Type, read: Read<Value>, narrow: bool)
    requires Ranked(abi, rank) && HasCoreStructs(abi) && (narrow ==> IsNarrowAbi(abi) && IsNarrow(element))
    requires Decode(abi, rank, data, Array(element)) == Some(read)
    ensures Matches(Encode(abi, Known(Array(element)), read.value), data, read.rest,
                    Clean(abi, rank, data, Array(element)), narrow)
    decreases |data|, ByValueRank(abi, rank, Array(element)), Array(element), 0, 0
  {
    hide Matches, Encode, EncodeItems, Decode, DecodeElements, Clean, CleanElements, IsNarrowAbi, HasCoreStructs;
    hide Ranked, ByValueRank, IsNarrow;
    var items := ArrayUnfolds(abi, rank, data, element, read);
    OneFelt(data, data[0], narrow);
    ElementsMatch(abi, rank, data[1..], element, data[0], items, narrow);
    JoinMatches(Ok([Hex(data[0])]), EncodeItems(abi, Known(element), items.value), data, data[1..], read.rest,
      true, CleanElements(abi, rank, data[1..], element, data[0]), narrow);
  }

  lemma FixedArrayDecodes(
    abi: Abi, rank: string -> nat, data: seq<felt>, element: Type, len: nat, read: Read<Value>)
    returns (items: Read<seq<Value>>)
    requires Ranked(abi, rank) && Decode(abi, rank, data, FixedArray(element, len)) == Some(read)
    ensures DecodeElements(abi, rank, data, element, len) == Some(items) && read == Read(List(items.value), items.rest)
    ensures |items.value| == len && ByValueRank(abi, rank, FixedArray(element, len)) == ByValueRank(abi, rank, element)
  {
    hide DecodeElements, Ranked;
    items := DecodeElements(abi, rank, data, element, len).value;
  }

  lemma FixedArrayEncodes(abi: Abi, element: Type, len: nat, items: seq<Value>)
    ensures Encode(abi, Known(FixedArray(element, len)), List(items))
            == Encode(abi, Unknown, List(items)) == Join(Ok([Hex(|items|)]), EncodeItems(abi, Unknown, items))
  {
    hide EncodeItems;
  }

  lemma FixedArrayIsNotClean(abi: Abi, rank: string -> nat, data: seq<felt>, element: Type, len: nat)
    requires Ranked(abi, rank)
    ensures !Clean(abi, rank, data, FixedArray(element, len))
    ensures IsNarrow(FixedArray(element, len)) ==> IsNarrow(element) && HasNoWide(element)
  {
    hide Ranked;
  }

  lemma {:induction false} FixedArrayMatches(
    abi: Abi, rank: string -> nat, data: seq<felt>, element: Type, len: nat, read: Read<Value>, narrow: bool)
    requires Ranked(abi, rank) && HasCoreStructs(abi)
             && (narrow ==> IsNarrowAbi(abi) && IsNarrow(FixedArray(element, len)))
    requires Decode(abi, rank, data, FixedArray(element, len)) == Some(read)
    ensures Matches(Encode(abi, Known(FixedArray(element, len)), read.value), data, read.rest,
                    Clean(abi, rank, data, FixedArray(element, len)), narrow)
    decreases |data|, ByValueRank(abi, rank, FixedArray(element, len)), FixedArray(element, len), 0, 0
  {
    hide Matches, DecodeElements, Decode, Encode, EncodeItems, Clean, IsNarrowAbi, IsNarrow, HasNoWide;
    hide Ranked, ByValueRank, HasCoreStructs;
    var items := FixedArrayDecodes(abi, rank, data, element, len, read);
    FixedArrayEncodes(abi, element, len, items.value);
    FixedArrayIsNotClean(abi, rank, data, element, len);
    UnknownElementsNoShorter(abi, rank, data, element, len, items, narrow);
    LongerNeverMatches(len, EncodeItems(abi, Unknown, items.value), data, read.rest, narrow);
  }

  lemma StructUnfolds(abi: Abi, rank: string -> nat, data: seq<felt>, name: string, s: Struct)
    requires Ranked(abi, rank) && KindOf(abi, name) == UserStruct(s)
    requires DecodeMembers(abi, rank, data, s.members, rank(name)).Some?
    ensures var fields := DecodeMembers(abi, rank, data, s.members, rank(name)).value.value;
            !IsWide(name) ==> Encode(abi, Known(Named(name)), StructValue(name, fields)) == EncodeFields(abi, fields)
    ensures Clean(abi, rank, data, Named(name))
            == if IsWide(name) then HasSmallLimbs(name, data) else CleanMembers(abi, rank, data, s.members, rank(name))
    ensures HasCoreStructs(abi) && IsWide(name) ==> AreLimbs(s.members, if name == "u256" then 2 else 4)
    ensures IsNarrowAbi(abi) ==> forall i :: 0 <= i < |s.members| ==> IsNarrow(s.members[i].ty)
  {
    hide EncodeFields, CleanMembers, HasSmallLimbs, AreLimbs, DecodeMembers, ByValueRank, IsNarrow;
  }

  lemma {:induction false} StructMatches(
    abi: Abi, rank: string -> nat, data: seq<felt>, name: string, s: Struct, narrow: bool)
    requires Ranked(abi, rank) && HasCoreStructs(abi) && (narrow ==> IsNarrowAbi(abi))
             && KindOf(abi, name) == UserStruct(s)
    requires DecodeMembers(abi, rank, data, s.members, rank(name)).Some?
    ensures var fields := DecodeMembers(abi, rank, data, s.members, rank(name)).value;
            Matches(Encode(abi, Known(Named(name)), StructValue(name, fields.value)), data, fields.rest,
                    Clean(abi, rank, data, Named(name)), narrow)
    decreases |data|, rank(name) + 1, Named(""), 1, 0
  {
    var fields := DecodeMembers(abi, rank, data, s.members, rank(name)).value;
    var count := if name == "u256" then 2 else 4;
    hide Matches, Encode, EncodeFields, Clean, CleanMembers, DecodeMembers, StructValue, IsNarrowAbi;
    hide HasCoreStructs, AreLimbs, HasSmallLimbs;
    StructUnfolds(abi, rank, data, name, s);
    if IsWide(name) {
      LimbsDecode(abi, rank, data, s.members, rank(name), count);
      LimbCount(s.members, count);
      WideMatches(abi, name, data, fields.value, count, narrow);
    } else {
      MembersMatch(abi, rank, data, s.members, rank(name), fields, narrow);
    }
  }

  lemma LimbCount(members: seq<Member>, count: nat)
    requires AreLimbs(members, count)
    ensures |members| == count
  {
  }

  lemma EnumIsNamed(abi: Abi, name: string, e: Enum)
    requires KindOf(abi, name) == UserEnum(e)
    ensures EnumNamed(abi, Known(Named(name))) == Some(e)
  {
  }

  lemma EnumDecodes(abi: Abi, rank: string -> nat, data: seq<felt>, name: string, e: Enum, read: Read<Value>)
    requires Ranked(abi, rank) && KindOf(abi, name) == UserEnum(e) && Decode(abi, rank, data, Named(name)) == Some(read)
    ensures data != [] && data[0] < |e.variants| && read.value.EnumValue?
    ensures var v, inner := e.variants[data[0]], read.value.inner;
            && read.value.variant == v.name
            && (v.ty.Some? ==> Decode(abi, rank, data[1..], v.ty.value) == Some(Read(inner.value, read.rest))
                               && inner.typeName == Known(v.ty.value))
            && (v.ty.None? ==> read.rest == data[1..] && inner.typeName == StringName && inner.value.Text?)
  {
    hide Ranked, ByValueRank, DecodeMembers, KindOf, StructValue;
  }

  lemma EnumCleans(abi: Abi, rank: string -> nat, data: seq<felt>, name: string, e: Enum)
    requires Ranked(abi, rank) && KindOf(abi, name) == UserEnum(e)
    ensures Clean(abi, rank, data, Named(name)) <==>
              && data != [] && data[0] < |e.variants| && e.variants[data[0]].ty.Some?
              && Position(e.variants, e.variants[data[0]].name) == Some(data[0])
              && Clean(abi, rank, data[1..], e.variants[data[0]].ty.value)
  {
    hide Ranked, ByValueRank, CleanMembers, KindOf, HasSmallLimbs, Position;
  }

  lemma EnumEncodes(abi: Abi, name: string, e: Enum, variant: string, inner: Decoded)
    requires KindOf(abi, name) == UserEnum(e) && Position(e.variants, variant).Some?
    ensures Encode(abi, Known(Named(name)), EnumValue(variant, inner))
         == Join(Ok([Hex(Position(e.variants, variant).value)]), EncodeField(abi, inner))
  {
    EnumIsNamed(abi, name, e);
    hide KindOf, EnumNamed, EncodeField, Position;
  }

  lemma EnumUnfolds(abi: Abi, rank: string -> nat, data: seq<felt>, name: string, e: Enum, read: Read<Value>)
    requires Ranked(abi, rank) && KindOf(abi, name) == UserEnum(e) && Decode(abi, rank, data, Named(name)) == Some(read)
    ensures data != [] && data[0] < |e.variants| && read.value.EnumValue?
    ensures var v, inner := e.variants[data[0]], read.value.inner;
            && Position(e.variants, v.name).Some?
            && var p := Position(e.variants, v.name).value;
               && Encode(abi, Known(Named(name)), read.value) == Join(Ok([Hex(p)]), EncodeField(abi, inner))
               && (Clean(abi, rank, data, Named(name)) <==>
                     p == data[0] && v.ty.Some? && Clean(abi, rank, data[1..], v.ty.value))
               && (v.ty.Some? ==> Decode(abi, rank, data[1..], v.ty.value) == Some(Read(inner.value, read.rest))
                                  && EncodeField(abi, inner) == Encode(abi, Known(v.ty.value), inner.value))
               && (v.ty.None? ==> read.rest == data[1..] && inner.typeName == StringName && inner.value.Text?)
  {
    EnumDecodes(abi, rank, data, name, e, read);
    EnumCleans(abi, rank, data, name, e);
    hide Ranked, ByValueRank, Decode, Clean, Encode, KindOf;
    EnumEncodes(abi, name, e, read.value.variant, read.value.inner);
  }

  lemma VariantIsNarrow(abi: Abi, name: string, e: Enum, i: nat)
    requires IsNarrowAbi(abi) && KindOf(abi, name) == UserEnum(e) && i < |e.variants| && e.variants[i].ty.Some?
    ensures IsNarrow(e.variants[i].ty.value)
  {
  }

  lemma {:induction false} EnumMatches(
    abi: Abi, rank: string -> nat, data: seq<felt>, name: string, e: Enum, read: Read<Value>, narrow: bool)
    requires Ranked(abi, rank) && HasCoreStructs(abi) && (narrow ==> IsNarrowAbi(abi))
             && KindOf(abi, name) == UserEnum(e)
    requires Decode(abi, rank, data, Named(name)) == Some(read)
    ensures Matches(Encode(abi, Known(Named(name)), read.value), data, read.rest, Clean(abi, rank, data, Named(name)),
                    narrow)
    decreases |data|, ByValueRank(abi, rank, Named(name)), Named(name), 0, 0
  {
    hide Matches, Encode, EncodeField, Decode, Clean, IsNarrowAbi, HasCoreStructs, KindOf, Ranked, ByValueRank;
    EnumUnfolds(abi, rank, data, name, e, read);
    var v, inner := e.variants[data[0]], read.value.inner;
    var p := Position(e.variants, v.name).value;
    OneFelt(data, p, narrow);
    var cleanInner := v.ty.Some? && Clean(abi, rank, data[1..], v.ty.value);
    if v.ty.Some? {
      if narrow { VariantIsNarrow(abi, name, e, data[0]); }
      DecodedMatches(abi, rank, data[1..], v.ty.value, Read(inner.value, read.rest), narrow);
    } else {
      UnitNeverMatches(abi, inner, data[1..], narrow);
    }
    JoinMatches(Ok([Hex(p)]), EncodeField(abi, inner), data, data[1..], read.rest, p == data[0], cleanInner, narrow);
  }

  /** The encoder writes a unit variant's name where no felt was read. */
  lemma UnitNeverMatches(abi: Abi, inner: Decoded, data: seq<felt>, narrow: bool)
    requires inner.typeName == StringName && inner.value.Text?
    ensures Matches(EncodeField(abi, inner), data, data, false, narrow)
  {
    assert Used(data, data) == [];
  }

  /** The encoder writes the length of a fixed array, which was not read. */
  lemma LongerNeverMatches(len: nat, items: Encoding, data: seq<felt>, rest: seq<felt>, narrow: bool)
    requires |rest| <= |data| && data[|data| - |rest|..] == rest
    requires narrow && items.Ok? ==> |items.value| >= |Used(data, rest)|
    ensures Matches(Join(Ok([Hex(len)]), items), data, rest, false, narrow)
  {
  }

  lemma ElementsUnfold(
    abi: Abi,
    rank: string -> nat, data: seq<felt>, element: Type, count: nat, read: Read<seq<Value>>, ty: TypeName)
    returns (first: Read<Value>, others: Read<seq<Value>>)
    requires Ranked(abi, rank) && count > 0 && DecodeElements(abi, rank, data, element, count) == Some(read)
    ensures Decode(abi, rank, data, element) == Some(first) && |first.rest| <= |data| && read.rest == others.rest
    ensures DecodeElements(abi, rank, first.rest, element, count - 1) == Some(others)
    ensures EncodeItems(abi, ty, read.value) == Join(Encode(abi, ty, first.value), EncodeItems(abi, ty, others.value))
    ensures CleanElements(abi, rank, data, element, count)
            <==> Clean(abi, rank, data, element) && CleanElements(abi, rank, first.rest, element, count - 1)
  {
    hide Encode, Decode, Clean, Ranked, ByValueRank;
    first := Decode(abi, rank, data, element).value;
    others := DecodeElements(abi, rank, first.rest, element, count - 1).value;
    assert read.value[1..] == others.value;
  }

  lemma NoElements(abi: Abi, rank: string -> nat, data: seq<felt>, element: Type, ty: TypeName)
    requires Ranked(abi, rank)
    ensures DecodeElements(abi, rank, data, element, 0) == Some(Read([], data))
            && CleanElements(abi, rank, data, element, 0)
    ensures EncodeItems(abi, ty, []) == Ok([])
  {
    hide Ranked, ByValueRank;
  }

  lemma {:induction false} ElementsMatch(
    abi: Abi, rank: string -> nat, data: seq<felt>, element: Type, count: nat, read: Read<seq<Value>>, narrow: bool)
    requires Ranked(abi, rank) && HasCoreStructs(abi) && (narrow ==> IsNarrowAbi(abi) && IsNarrow(element))
    requires DecodeElements(abi, rank, data, element, count) == Some(read)
    ensures Matches(EncodeItems(abi, Known(element), read.value), data, read.rest,
                    CleanElements(abi, rank, data, element, count), narrow)
    decreases |data|, ByValueRank(abi, rank, element), element, 2, count
  {
    hide Matches, Encode, EncodeItems, Decode, DecodeElements, Clean, CleanElements, IsNarrowAbi, HasCoreStructs;
    hide Ranked, ByValueRank, IsNarrow;
    if count == 0 {
      NoElements(abi, rank, data, element, Known(element));
      Nothing(data, narrow);
    } else {
      var first, others := ElementsUnfold(abi, rank, data, element, count, read, Known(element));
      DecodedMatches(abi, rank, data, element, first, narrow);
      ElementsMatch(abi, rank, first.rest, element, count - 1, others, narrow);
      JoinMatches(Encode(abi, Known(element), first.value), EncodeItems(abi, Known(element), others.value),
        data, first.rest, read.rest, Clean(abi, rank, data, element),
        CleanElements(abi, rank, first.rest, element, count - 1), narrow);
    }
  }

  lemma {:induction false} TupleMatches(
    abi: Abi, rank: string -> nat, data: seq<felt>, elements: seq<Type>, read: Read<seq<Value>>, narrow: bool)
    requires Ranked(abi, rank) && HasCoreStructs(abi)
    requires narrow ==> IsNarrowAbi(abi) && forall i :: 0 <= i < |elements| ==> IsNarrow(elements[i])
    requires DecodeTuple(abi, rank, data, elements) == Some(read)
    ensures Matches(EncodeTuple(abi, elements, read.value), data, read.rest, CleanTuple(abi, rank, data, elements),
                    narrow)
    decreases |data|, ElementsRank(abi, rank, elements), elements, 0, 0
  {
    hide Matches, Encode, Decode, Clean, IsNarrowAbi, HasCoreStructs, Ranked;
    if elements == [] {
      Nothing(data, narrow);
    } else {
      var first := Decode(abi, rank, data, elements[0]).value;
      var others := DecodeTuple(abi, rank, first.rest, elements[1..]).value;
      assert read.value[1..] == others.value;
      DecodedMatches(abi, rank, data, elements[0], first, narrow);
      TupleMatches(abi, rank, first.rest, elements[1..], others, narrow);
      JoinMatches(Encode(abi, Known(elements[0]), first.value), EncodeTuple(abi, elements[1..], others.value),
        data, first.rest, read.rest, Clean(abi, rank, data, elements[0]),
        CleanTuple(abi, rank, first.rest, elements[1..]), narrow);
    }
  }

  lemma {:induction false} MembersMatch(
    abi: Abi, rank: string -> nat, data: seq<felt>, members: seq<Member>, bound: nat, read: Read<seq<Decoded>>,
    narrow: bool)
    requires Ranked(abi, rank) && HasCoreStructs(abi)
    requires forall i :: 0 <= i < |members| ==> ByValueRank(abi, rank, members[i].ty) <= bound
    requires narrow ==> IsNarrowAbi(abi) && forall i :: 0 <= i < |members| ==> IsNarrow(members[i].ty)
    requires DecodeMembers(abi, rank, data, members, bound) == Some(read)
    ensures Matches(EncodeFields(abi, read.value), data, read.rest, CleanMembers(abi, rank, data, members, bound),
                    narrow)
    decreases |data|, bound + 1, Named(""), 0, |members|
  {
    hide Matches, Encode, Decode, Clean, IsNarrowAbi, HasCoreStructs, Ranked;
    if members == [] {
      Nothing(data, narrow);
    } else {
      var first := Decode(abi, rank, data, members[0].ty).value;
      var others := DecodeMembers(abi, rank, first.rest, members[1..], bound).value;
      assert read.value[1..] == others.value;
      DecodedMatches(abi, rank, data, members[0].ty, first, narrow);
      MembersMatch(abi, rank, first.rest, members[1..], bound, others, narrow);
      JoinMatches(EncodeField(abi, read.value[0]), EncodeFields(abi, others.value),
        data, first.rest, read.rest, Clean(abi, rank, data, members[0].ty),
        CleanMembers(abi, rank, first.rest, members[1..], bound), narrow);
    }
  }

  // ---------------------------------------------------------------- elements of unknown type

  /** Under an unknown type a value never takes fewer strings than felts, unless it holds wide integers. */
  ghost predicate NoShorter(enc: Encoding, data: seq<felt>, rest: seq<felt>, narrow: bool) {
    |rest| <= |data| && data[|data| - |rest|..] == rest && (narrow && enc.Ok? ==> |enc.value| >= |data| - |rest|)
  }

  lemma JoinNoShorter(a: Encoding, b: Encoding, data: seq<felt>, mid: seq<felt>, rest: seq<felt>, narrow: bool)
    requires NoShorter(a, data, mid, narrow) && NoShorter(b, mid, rest, narrow)
    ensures NoShorter(Join(a, b), data, rest, narrow)
  {
    UsedJoin(data, mid, rest);
  }

  lemma {:induction false} UnknownNoShorter(
    abi: Abi, rank: string -> nat, data: seq<felt>, ty: Type, read: Read<Value>, narrow: bool)
    requires Ranked(abi, rank) && HasCoreStructs(abi) && (narrow ==> IsNarrowAbi(abi) && IsNarrow(ty) && HasNoWide(ty))
    requires Decode(abi, rank, data, ty) == Some(read)
    ensures NoShorter(Encode(abi, Unknown, read.value), data, read.rest, narrow)
    decreases |data|, ByValueRank(abi, rank, ty), ty, 1, 1
  {
    hide Matches, NoShorter, Encode, Decode, Clean, IsNarrowAbi, HasCoreStructs;
    match ty {
      case Array(element) => UnknownArrayNoShorter(abi, rank, data, element, read, narrow);
      case FixedArray(element, len) => UnknownFixedArrayNoShorter(abi, rank, data, element, len, read, narrow);
      case Tuple(elements) => UnknownPairNoShorter(abi, rank, data, elements, read, narrow);
      case Named(name) =>
        DecodedMatches(abi, rank, data, ty, read, narrow);
        MatchesNoShorter(Encode(abi, Known(ty), read.value), data, read.rest, Clean(abi, rank, data, ty), narrow);
        NamedNoShorter(abi, rank, data, name, read);
        SameNoShorter(Encode(abi, Known(ty), read.value), Encode(abi, Unknown, read.value), data, read.rest, narrow,
                      IsWide(name));
    }
  }

  lemma NothingNoShorter(data: seq<felt>, narrow: bool)
    ensures NoShorter(Ok([]), data, data, narrow)
  {
  }

  lemma SameNoShorter(a: Encoding, b: Encoding, data: seq<felt>, rest: seq<felt>, narrow: bool, wide: bool)
    requires NoShorter(a, data, rest, narrow) && (!wide && b.Ok? ==> b == a) && (narrow ==> !wide)
    ensures NoShorter(b, data, rest, narrow)
  {
  }

  lemma {:induction false} UnknownArrayNoShorter(
    abi: Abi, rank: string -> nat, data: seq<felt>, element: Type, read: Read<Value>, narrow: bool)
    requires Ranked(abi, rank) && HasCoreStructs(abi)
             && (narrow ==> IsNarrowAbi(abi) && IsNarrow(element) && HasNoWide(element))
    requires Decode(abi, rank, data, Array(element)) == Some(read)
    ensures NoShorter(Encode(abi, Unknown, read.value), data, read.rest, narrow)
    decreases |data|, ByValueRank(abi, rank, Array(element)), Array(element), 0, 0
  {
    hide NoShorter, Encode, EncodeItems, Decode, DecodeElements, Clean, CleanElements, IsNarrowAbi;
    hide HasCoreStructs, Ranked, ByValueRank, IsNarrow, HasNoWide;
    var items := ArrayUnfolds(abi, rank, data, element, read);
    OneNoShorter(data, narrow);
    UnknownElementsNoShorter(abi, rank, data[1..], element, data[0], items, narrow);
    JoinNoShorter(Ok([Hex(data[0])]), EncodeItems(abi, Unknown, items.value), data, data[1..], read.rest, narrow);
  }

  lemma OneNoShorter(data: seq<felt>, narrow: bool)
    requires data != []
    ensures NoShorter(Ok([Hex(data[0])]), data, data[1..], narrow)
  {
  }

  lemma {:induction false} UnknownFixedArrayNoShorter(
    abi: Abi, rank: string -> nat, data: seq<felt>, element: Type, len: nat, read: Read<Value>, narrow: bool)
    requires Ranked(abi, rank) && HasCoreStructs(abi)
             && (narrow ==> IsNarrowAbi(abi) && IsNarrow(element) && HasNoWide(element))
    requires Decode(abi, rank, data, FixedArray(element, len)) == Some(read)
    ensures NoShorter(Encode(abi, Unknown, read.value), data, read.rest, narrow)
    decreases |data|, ByValueRank(abi, rank, FixedArray(element, len)), FixedArray(element, len), 0, 0
  {
    hide NoShorter, DecodeElements, Decode, Encode, EncodeItems, IsNarrowAbi, IsNarrow, HasNoWide;
    hide Ranked, ByValueRank, HasCoreStructs;
    var items := FixedArrayDecodes(abi, rank, data, element, len, read);
    FixedArrayEncodes(abi, element, len, items.value);
    UnknownElementsNoShorter(abi, rank, data, element, len, items, narrow);
    JoinedNoShorter(len, EncodeItems(abi, Unknown, items.value), data, read.rest, narrow);
  }

  lemma {:induction false} UnknownPairNoShorter(
    abi: Abi, rank: string -> nat, data: seq<felt>, elements: seq<Type>, read: Read<Value>, narrow: bool)
    requires Ranked(abi, rank) && HasCoreStructs(abi)
    requires narrow ==> IsNarrowAbi(abi) && forall i :: 0 <= i < |elements| ==>
             IsNarrow(elements[i]) && HasNoWide(elements[i])
    requires Decode(abi, rank, data, Tuple(elements)) == Some(read)
    ensures NoShorter(Encode(abi, Unknown, read.value), data, read.rest, narrow)
    decreases |data|, ByValueRank(abi, rank, Tuple(elements)), Tuple(elements), 0, 0
  {
    var items := DecodeTuple(abi, rank, data, elements).value;
    hide DecodeTuple, EncodeItems, IsNarrowAbi;
    UnknownTupleNoShorter(abi, rank, data, elements, items, narrow);
    JoinedNoShorter(|items.value|, EncodeItems(abi, Unknown, items.value), data, read.rest, narrow);
  }

  lemma JoinedNoShorter(len: nat, items: Encoding, data: seq<felt>, rest: seq<felt>, narrow: bool)
    requires NoShorter(items, data, rest, narrow)
    ensures NoShorter(Join(Ok([Hex(len)]), items), data, rest, narrow)
  {
  }

  lemma MatchesNoShorter(enc: Encoding, data: seq<felt>, rest: seq<felt>, clean: bool, narrow: bool)
    requires Matches(enc, data, rest, clean, narrow)
    ensures NoShorter(enc, data, rest, narrow)
  {
  }

  lemma PrimitiveDecodes(abi: Abi, rank: string -> nat, data: seq<felt>, name: string, read: Read<Value>)
    requires Ranked(abi, rank) && KindOf(abi, name).Primitive? && Decode(abi, rank, data, Named(name)) == Some(read)
    ensures data != [] && read == Read(PrimitiveValue(name, data[0]), data[1..])
  {
    hide Ranked, ByValueRank, KindOf, PrimitiveValue;
  }

  lemma PrimitiveStaysSame(abi: Abi, name: string, f: felt)
    ensures !IsWide(name) ==>
              Encode(abi, Unknown, PrimitiveValue(name, f)) == Encode(abi, Known(Named(name)), PrimitiveValue(name, f))
  {
  }

  lemma StructDecodes(abi: Abi, rank: string -> nat, data: seq<felt>, name: string, s: Struct, read: Read<Value>)
    requires Ranked(abi, rank) && KindOf(abi, name) == UserStruct(s)
    requires Decode(abi, rank, data, Named(name)) == Some(read)
    ensures DecodeMembers(abi, rank, data, s.members, rank(name)).Some?
    ensures var fields := DecodeMembers(abi, rank, data, s.members, rank(name)).value;
            read == Read(StructValue(name, fields.value), fields.rest)
  {
    hide Ranked, ByValueRank, KindOf, StructValue, DecodeMembers;
  }

  lemma StructStaysSame(abi: Abi, name: string, fields: seq<Decoded>)
    ensures !IsWide(name) ==>
              Encode(abi, Unknown, StructValue(name, fields))
              == Encode(abi, Known(Named(name)), StructValue(name, fields))
  {
    hide EncodeFields;
  }

  /** An enum's value is not encoded under an unknown type. */
  lemma EnumIsNotEncoded(abi: Abi, rank: string -> nat, data: seq<felt>, name: string, e: Enum, read: Read<Value>)
    requires Ranked(abi, rank) && KindOf(abi, name) == UserEnum(e) && Decode(abi, rank, data, Named(name)) == Some(read)
    ensures Encode(abi, Unknown, read.value).Err?
  {
    hide Ranked, ByValueRank, KindOf;
  }

  lemma MissingFails(abi: Abi, rank: string -> nat, data: seq<felt>, name: string)
    requires Ranked(abi, rank) && KindOf(abi, name).Missing?
    ensures Decode(abi, rank, data, Named(name)).None?
  {
    hide Ranked, ByValueRank, KindOf;
  }

  /** Only wide integers and enums are encoded differently under an unknown type, and enums fail. */
  lemma NamedNoShorter(abi: Abi, rank: string -> nat, data: seq<felt>, name: string, read: Read<Value>)
    requires Ranked(abi, rank) && Decode(abi, rank, data, Named(name)) == Some(read)
    ensures !IsWide(name) && Encode(abi, Unknown, read.value).Ok? ==>
              Encode(abi, Unknown, read.value) == Encode(abi, Known(Named(name)), read.value)
  {
    hide Ranked, ByValueRank, Decode, Encode, KindOf, DecodeMembers, PrimitiveValue, StructValue, IsWide;
    match KindOf(abi, name) {
      case Primitive =>
        PrimitiveDecodes(abi, rank, data, name, read);
        PrimitiveStaysSame(abi, name, data[0]);
      case UserStruct(s) =>
        MembersAreRanked(abi, rank, name, s);
        StructDecodes(abi, rank, data, name, s, read);
        StructStaysSame(abi, name, DecodeMembers(abi, rank, data, s.members, rank(name)).value.value);
      case UserEnum(e) => EnumIsNotEncoded(abi, rank, data, name, e, read);
      case Missing => MissingFails(abi, rank, data, name);
    }
  }

  lemma {:induction false} UnknownElementsNoShorter(
    abi: Abi, rank: string -> nat, data: seq<felt>, element: Type, count: nat, read: Read<seq<Value>>, narrow: bool)
    requires Ranked(abi, rank) && HasCoreStructs(abi)
             && (narrow ==> IsNarrowAbi(abi) && IsNarrow(element) && HasNoWide(element))
    requires DecodeElements(abi, rank, data, element, count) == Some(read)
    ensures NoShorter(EncodeItems(abi, Unknown, read.value), data, read.rest, narrow)
    decreases |data|, ByValueRank(abi, rank, element), element, 2, count
  {
    hide NoShorter, Encode, EncodeItems, Decode, DecodeElements, IsNarrowAbi, HasCoreStructs, Ranked, ByValueRank;
    hide IsNarrow, HasNoWide, CleanElements;
    if count == 0 {
      NoElements(abi, rank, data, element, Unknown);
      NothingNoShorter(data, narrow);
    } else {
      var first, others := ElementsUnfold(abi, rank, data, element, count, read, Unknown);
      UnknownNoShorter(abi, rank, data, element, first, narrow);
      UnknownElementsNoShorter(abi, rank, first.rest, element, count - 1, others, narrow);
      JoinNoShorter(Encode(abi, Unknown, first.value), EncodeItems(abi, Unknown, others.value), data, first.rest,
                    read.rest, narrow);
    }
  }

  lemma {:induction false} UnknownTupleNoShorter(
    abi: Abi, rank: string -> nat, data: seq<felt>, elements: seq<Type>, read: Read<seq<Value>>, narrow: bool)
    requires Ranked(abi, rank) && HasCoreStructs(abi)
    requires narrow ==> IsNarrowAbi(abi) && forall i :: 0 <= i < |elements| ==>
             IsNarrow(elements[i]) && HasNoWide(elements[i])
    requires DecodeTuple(abi, rank, data, elements) == Some(read)
    ensures NoShorter(EncodeItems(abi, Unknown, read.value), data, read.rest, narrow)
    decreases |data|, ElementsRank(abi, rank, elements), elements, 0, 0
  {
    hide NoShorter, Encode, Decode, IsNarrowAbi, HasCoreStructs, Ranked;
    if elements == [] {
      NothingNoShorter(data, narrow);
    } else {
      var first := Decode(abi, rank, data, elements[0]).value;
      var others := DecodeTuple(abi, rank, first.rest, elements[1..]).value;
      assert read.value[1..] == others.value;
      UnknownNoShorter(abi, rank, data, elements[0], first, narrow);
      UnknownTupleNoShorter(abi, rank, first.rest, elements[1..], others, narrow);
      JoinNoShorter(Encode(abi, Unknown, first.value), EncodeItems(abi, Unknown, others.value), data, first.rest,
                    read.rest, narrow);
    }
  }

  // ---------------------------------------------------------------- main results

  lemma {:induction false} ParametersMatch(
    abi: Abi, rank: string -> nat, data: seq<felt>, types: seq<Type>, names: seq<string>, read: Read<seq<Decoded>>,
    narrow: bool)
    requires Ranked(abi, rank) && HasCoreStructs(abi)
    requires narrow ==> IsNarrowAbi(abi) && forall i :: 0 <= i < |types| ==> IsNarrow(types[i])
    requires DecodeParameters(abi, rank, data, types, names) == Some(read)
    ensures Matches(EncodeParameters(abi, types, read.value), data, read.rest, CleanParameters(abi, rank, data, types),
                    narrow)
    decreases |types|
  {
    hide Matches, Encode, Decode, Clean, IsNarrowAbi, HasCoreStructs, Ranked, ByValueRank;
    if types == [] {
      Nothing(data, narrow);
    } else {
      var first := Decode(abi, rank, data, types[0]).value;
      var otherNames := if names == [] then [] else names[1..];
      var others := DecodeParameters(abi, rank, first.rest, types[1..], otherNames).value;
      assert read.value[1..] == others.value;
      DecodedMatches(abi, rank, data, types[0], first, narrow);
      ParametersMatch(abi, rank, first.rest, types[1..], otherNames, others, narrow);
      JoinMatches(Encode(abi, Known(types[0]), first.value), EncodeParameters(abi, types[1..], others.value),
        data, first.rest, read.rest, Clean(abi, rank, data, types[0]),
        CleanParameters(abi, rank, first.rest, types[1..]), narrow);
    }
  }

  /** Clean calldata that decodes comes back from the encoder, felt by felt. */
  lemma CleanCalldataComesBack(abi: Abi, rank: string -> nat, data: seq<felt>, types: seq<Type>, names: seq<string>)
    requires Ranked(abi, rank) && HasCoreStructs(abi)
    requires DecodeCalldata(abi, rank, data, types, names).Some? && CleanParameters(abi, rank, data, types)
    ensures EncodeParameters(abi, types, DecodeCalldata(abi, rank, data, types, names).value) == Ok(Hexes(data))
  {
    ParametersMatch(abi, rank, data, types, names, DecodeParameters(abi, rank, data, types, names).value, false);
    assert Used(data, []) == data;
  }

  /** And if no fixed array holds wide integers, no other calldata does. */
  lemma OnlyCleanCalldataComesBack(abi: Abi, rank: string -> nat, data: seq<felt>, types: seq<Type>, names: seq<string>)
    requires Ranked(abi, rank) && HasCoreStructs(abi)
    requires IsNarrowAbi(abi) && forall i :: 0 <= i < |types| ==> IsNarrow(types[i])
    requires DecodeCalldata(abi, rank, data, types, names).Some?
    ensures EncodeParameters(abi, types, DecodeCalldata(abi, rank, data, types, names).value) == Ok(Hexes(data))
            <==> CleanParameters(abi, rank, data, types)
  {
    ParametersMatch(abi, rank, data, types, names, DecodeParameters(abi, rank, data, types, names).value, true);
    assert Used(data, []) == data;
  }

  /** A fixed array of felts, of any length that is accepted, decodes and comes back with its length in front. */
  lemma FixedArrayGainsItsLength(abi: Abi, rank: string -> nat, data: seq<felt>)
    requires Ranked(abi, rank) && IsAllocationSafe(|data|)
    ensures var ty := FixedArray(Named("felt252"), |data|);
            var read := Decode(abi, rank, data, ty);
            && read.Some? && read.value.rest == []
            && Encode(abi, Known(ty), read.value.value) == Ok([Hex(|data|)] + Hexes(data))
  {
    hide Ranked, ByValueRank, Decode, DecodeElements, Encode, EncodeItems;
    FeltElements(abi, rank, data);
    FeltArrayDecodes(abi, rank, data);
    FixedArrayEncodes(abi, Named("felt252"), |data|, Singles(data));
  }

  lemma FeltArrayDecodes(abi: Abi, rank: string -> nat, data: seq<felt>)
    requires Ranked(abi, rank) && IsAllocationSafe(|data|)
    requires DecodeElements(abi, rank, data, Named("felt252"), |data|) == Some(Read(Singles(data), []))
    ensures Decode(abi, rank, data, FixedArray(Named("felt252"), |data|)) == Some(Read(List(Singles(data)), []))
  {
    hide Ranked, ByValueRank, DecodeElements, Singles;
  }

  function Singles(data: seq<felt>): seq<Value> {
    if data == [] then [] else [Single(data[0])] + Singles(data[1..])
  }

  lemma {:induction false} FeltElements(abi: Abi, rank: string -> nat, data: seq<felt>)
    requires Ranked(abi, rank)
    ensures DecodeElements(abi, rank, data, Named("felt252"), |data|) == Some(Read(Singles(data), []))
    ensures EncodeItems(abi, Unknown, Singles(data)) == Ok(Hexes(data)) && |Singles(data)| == |data|
  {
    hide Ranked, ByValueRank, Decode, Encode;
    if data != [] {
      FeltElements(abi, rank, data[1..]);
      FeltComesBack(abi, rank, data);
      assert Singles(data)[1..] == Singles(data[1..]);
      assert Hexes(data) == [Hex(data[0])] + Hexes(data[1..]);
    } else {
      assert Hexes(data) == [];
    }
  }

  lemma FeltComesBack(abi: Abi, rank: string -> nat, data: seq<felt>)
    requires Ranked(abi, rank) && data != []
    ensures Decode(abi, rank, data, Named("felt252")) == Some(Read(Single(data[0]), data[1..]))
    ensures Encode(abi, Unknown, Single(data[0])) == Ok([Hex(data[0])])
  {
    hide Ranked, ByValueRank;
  }

  // ---------------------------------------------------------------- felts after the ones read

  /** What is read depends only on the felts used, and what is left is the end of the data. */
  ghost predicate Extends<T>(short: Option<Read<T>>, long: Option<Read<T>>, data: seq<felt>, extra: seq<felt>) {
    short.Some? ==>
      && |short.value.rest| <= |data| && data[|data| - |short.value.rest|..] == short.value.rest
      && long == Some(Read(short.value.value, short.value.rest + extra))
  }

  lemma {:induction false} DecodeExtends(abi: Abi, rank: string -> nat, data: seq<felt>, ty: Type, extra: seq<felt>)
    requires Ranked(abi, rank)
    ensures Extends(Decode(abi, rank, data, ty), Decode(abi, rank, data + extra, ty), data, extra)
    decreases |data|, ByValueRank(abi, rank, ty), ty, 1, 0
  {
    hide Ranked, ByValueRank, Decode, Extends;
    match ty {
      case Array(element) => ArrayExtends(abi, rank, data, element, extra);
      case FixedArray(element, len) => FixedArrayExtends(abi, rank, data, element, len, extra);
      case Tuple(elements) => TupleTypeExtends(abi, rank, data, elements, extra);
      case Named(name) => NamedExtends(abi, rank, data, name, extra);
    }
  }

  lemma {:induction false} ArrayExtends(abi: Abi, rank: string -> nat, data: seq<felt>, element: Type, extra: seq<felt>)
    requires Ranked(abi, rank)
    ensures Extends(Decode(abi, rank, data, Array(element)), Decode(abi, rank, data + extra, Array(element)), data,
                    extra)
    decreases |data|, ByValueRank(abi, rank, Array(element)), Array(element), 0, 0
  {
    hide Ranked, DecodeElements;
    if data != [] {
      assert (data + extra)[1..] == data[1..] + extra;
      ElementsExtend(abi, rank, data[1..], element, data[0], extra);
    }
  }

  lemma {:induction false} FixedArrayExtends(
    abi: Abi, rank: string -> nat, data: seq<felt>, element: Type, len: nat, extra: seq<felt>)
    requires Ranked(abi, rank)
    ensures Extends(Decode(abi, rank, data, FixedArray(element, len)),
                    Decode(abi, rank, data + extra, FixedArray(element, len)), data, extra)
    decreases |data|, ByValueRank(abi, rank, FixedArray(element, len)), FixedArray(element, len), 0, 0
  {
    hide Ranked, DecodeElements;
    ElementsExtend(abi, rank, data, element, len, extra);
  }

  lemma {:induction false} TupleTypeExtends(
    abi: Abi, rank: string -> nat, data: seq<felt>, elements: seq<Type>, extra: seq<felt>)
    requires Ranked(abi, rank)
    ensures Extends(Decode(abi, rank, data, Tuple(elements)), Decode(abi, rank, data + extra, Tuple(elements)), data,
                    extra)
    decreases |data|, ByValueRank(abi, rank, Tuple(elements)), Tuple(elements), 0, 0
  {
    hide Ranked, DecodeTuple;
    TupleExtends(abi, rank, data, elements, extra);
  }

  lemma {:induction false} NamedExtends(abi: Abi, rank: string -> nat, data: seq<felt>, name: string, extra: seq<felt>)
    requires Ranked(abi, rank)
    ensures Extends(Decode(abi, rank, data, Named(name)), Decode(abi, rank, data + extra, Named(name)), data, extra)
    decreases |data|, ByValueRank(abi, rank, Named(name)), Named(name), 0, 0
  {
    hide Ranked, ByValueRank, Decode, DecodeMembers, Extends, KindOf;
    match KindOf(abi, name) {
      case UserStruct(s) =>
        MembersAreRanked(abi, rank, name, s);
        MembersExtend(abi, rank, data, s.members, rank(name), extra);
        StructExtends(abi, rank, data, name, s, extra);
      case UserEnum(e) =>
        if data != [] && data[0] < |e.variants| && e.variants[data[0]].ty.Some? {
          DecodeExtends(abi, rank, data[1..], e.variants[data[0]].ty.value, extra);
        }
        EnumExtends(abi, rank, data, name, e, extra);
      case _ => PrimitiveExtends(abi, rank, data, name, extra);
    }
  }

  lemma PrimitiveExtends(abi: Abi, rank: string -> nat, data: seq<felt>, name: string, extra: seq<felt>)
    requires Ranked(abi, rank) && (KindOf(abi, name).Primitive? || KindOf(abi, name).Missing?)
    ensures Extends(Decode(abi, rank, data, Named(name)), Decode(abi, rank, data + extra, Named(name)), data, extra)
  {
    hide Ranked, ByValueRank, KindOf, PrimitiveValue;
    if data != [] { assert (data + extra)[1..] == data[1..] + extra; }
  }

  lemma MembersAreRanked(abi: Abi, rank: string -> nat, name: string, s: Struct)
    requires Ranked(abi, rank) && KindOf(abi, name) == UserStruct(s)
    ensures ByValueRank(abi, rank, Named(name)) == rank(name) + 2
    ensures forall i :: 0 <= i < |s.members| ==> ByValueRank(abi, rank, s.members[i].ty) <= rank(name)
  {
  }

  lemma StructExtends(abi: Abi, rank: string -> nat, data: seq<felt>, name: string, s: Struct, extra: seq<felt>)
    requires Ranked(abi, rank) && KindOf(abi, name) == UserStruct(s)
    requires forall i :: 0 <= i < |s.members| ==> ByValueRank(abi, rank, s.members[i].ty) <= rank(name)
    requires Extends(DecodeMembers(abi, rank, data, s.members, rank(name)),
                     DecodeMembers(abi, rank, data + extra, s.members, rank(name)), data, extra)
    ensures Extends(Decode(abi, rank, data, Named(name)), Decode(abi, rank, data + extra, Named(name)), data, extra)
  {
    hide Ranked, ByValueRank, DecodeMembers, StructValue, KindOf;
  }

  lemma EnumExtends(abi: Abi, rank: string -> nat, data: seq<felt>, name: string, e: Enum, extra: seq<felt>)
    requires Ranked(abi, rank) && KindOf(abi, name) == UserEnum(e)
    requires data != [] && data[0] < |e.variants| && e.variants[data[0]].ty.Some? ==>
               var ty := e.variants[data[0]].ty.value;
               Extends(Decode(abi, rank, data[1..], ty), Decode(abi, rank, data[1..] + extra, ty), data[1..], extra)
    ensures Extends(Decode(abi, rank, data, Named(name)), Decode(abi, rank, data + extra, Named(name)), data, extra)
  {
    hide Ranked, ByValueRank, KindOf;
    if data != [] { assert (data + extra)[1..] == data[1..] + extra; }
  }

  lemma {:induction false} ElementsExtend(
    abi: Abi, rank: string -> nat, data: seq<felt>, element: Type, count: nat, extra: seq<felt>)
    requires Ranked(abi, rank)
    ensures Extends(DecodeElements(abi, rank, data, element, count),
                    DecodeElements(abi, rank, data + extra, element, count), data, extra)
    decreases |data|, ByValueRank(abi, rank, element), element, 2, count
  {
    hide Ranked, ByValueRank, Decode;
    if count > 0 {
      DecodeExtends(abi, rank, data, element, extra);
      var first := Decode(abi, rank, data, element);
      if first.Some? { ElementsExtend(abi, rank, first.value.rest, element, count - 1, extra); }
    }
  }

  lemma {:induction false} TupleExtends(
    abi: Abi, rank: string -> nat, data: seq<felt>, elements: seq<Type>, extra: seq<felt>)
    requires Ranked(abi, rank)
    ensures Extends(DecodeTuple(abi, rank, data, elements), DecodeTuple(abi, rank, data + extra, elements), data, extra)
    decreases |data|, ElementsRank(abi, rank, elements), elements, 0, 0
  {
    hide Ranked, ByValueRank, Decode;
    if elements != [] {
      DecodeExtends(abi, rank, data, elements[0], extra);
      var first := Decode(abi, rank, data, elements[0]);
      if first.Some? { TupleExtends(abi, rank, first.value.rest, elements[1..], extra); }
    }
  }

  lemma {:induction false} MembersExtend(
    abi: Abi, rank: string -> nat, data: seq<felt>, members: seq<Member>, bound: nat, extra: seq<felt>)
    requires Ranked(abi, rank) && forall i :: 0 <= i < |members| ==> ByValueRank(abi, rank, members[i].ty) <= bound
    ensures Extends(DecodeMembers(abi, rank, data, members, bound),
                    DecodeMembers(abi, rank, data + extra, members, bound), data, extra)
    decreases |data|, bound + 1, Named(""), 0, |members|
  {
    hide Ranked, ByValueRank, Decode;
    if members != [] {
      DecodeExtends(abi, rank, data, members[0].ty, extra);
      var first := Decode(abi, rank, data, members[0].ty);
      if first.Some? { MembersExtend(abi, rank, first.value.rest, members[1..], bound, extra); }
    }
  }

  lemma {:induction false} ParametersExtend(
    abi: Abi, rank: string -> nat, data: seq<felt>, types: seq<Type>, names: seq<string>, extra: seq<felt>)
    requires Ranked(abi, rank)
    ensures Extends(DecodeParameters(abi, rank, data, types, names),
                    DecodeParameters(abi, rank, data + extra, types, names), data, extra)
    decreases |types|
  {
    hide Ranked, ByValueRank, Decode;
    if types != [] {
      DecodeExtends(abi, rank, data, types[0], extra);
      var first := Decode(abi, rank, data, types[0]);
      if first.Some? {
        ParametersExtend(abi, rank, first.value.rest, types[1..], if names == [] then [] else names[1..], extra);
      }
    }
  }

  /** `decode_calldata` accepts no proper extension of calldata it accepts: all of it has to be used. */
  lemma NoTrailingFelts(
    abi: Abi, rank: string -> nat, data: seq<felt>, types: seq<Type>, names: seq<string>, extra: seq<felt>)
    requires Ranked(abi, rank) && extra != []
    ensures DecodeCalldata(abi, rank, data, types, names).Some? ==>
            DecodeCalldata(abi, rank, data + extra, types, names) == None
  {
    ParametersExtend(abi, rank, data, types, names, extra);
    hide Ranked, DecodeParameters;
  }
}
