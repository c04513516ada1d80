/** Decoding of calldata felts into readable values, under the types, structs and enums of an ABI. */
module CalldataDecoder {
  import opened Numbers
  import opened WideIntegers
  import opened Wrappers

  type felt = x: nat | x < PRIME

  // ---------------------------------------------------------------- types

  /** `Array` stands for arrays and spans. Names are simplified: identifiers without commas and semicolons. */
  datatype Type =
    | Named(name: string)
    | Array(element: Type)
    | FixedArray(element: Type, len: nat)
    | Tuple(elements: seq<Type>)

  datatype Member = Member(name: string, ty: Type)
  datatype Struct = Struct(name: string, members: seq<Member>)
  /** The unit type of a variant is `None`. */
  datatype Variant = Variant(name: string, ty: Option<Type>)
  datatype Enum = Enum(name: string, variants: seq<Variant>)
  datatype Abi = Abi(structs: seq<Struct>, enums: seq<Enum>)

  const UNSIGNED: set<string> := {"u8", "u16", "u32", "u64", "u128"}
  const SIGNED: set<string> := {"i8", "i16", "i32", "i64", "i128"}
  const PRIMITIVES: set<string> := UNSIGNED + SIGNED + {
    "usize", "bool", "felt", "felt252", "ContractAddress", "EthAddress", "ClassHash", "bytes31", "Panic"}

  function FindStruct(structs: seq<Struct>, name: string): (found: Option<Struct>)
    ensures found.Some? ==> found.value in structs && found.value.name == name
  {
    if structs == [] then None
    else if structs[0].name == name then Some(structs[0])
    else FindStruct(structs[1..], name)
  }

  function FindEnum(enums: seq<Enum>, name: string): (found: Option<Enum>)
    ensures found.Some? ==> found.value in enums && found.value.name == name
  {
    if enums == [] then None
    else if enums[0].name == name then Some(enums[0])
    else FindEnum(enums[1..], name)
  }

  datatype Kind = Primitive | UserEnum(enum_: Enum) | UserStruct(struct_: Struct) | Missing

  function KindOf(abi: Abi, name: string): Kind {
    if name in PRIMITIVES then Primitive
    else
      match FindEnum(abi.enums, name)
      case Some(e) => UserEnum(e)
      case None =>
        match FindStruct(abi.structs, name)
        case Some(s) => UserStruct(s)
        case None => Missing
  }

  predicate IsStruct(abi: Abi, name: string) {
    KindOf(abi, name).UserStruct?
  }

  function MembersOf(abi: Abi, name: string): seq<Member>
    requires IsStruct(abi, name)
  {
    KindOf(abi, name).struct_.members
  }

  /** Whether the text of the type has a comma, or a semicolon: tuples and fixed arrays are split there. */
  predicate HasComma(ty: Type) {
    match ty
    case Named(_) => false
    case Array(e) => HasComma(e)
    case FixedArray(e, _) => HasComma(e)
    case Tuple(elements) => elements != []
  }

  predicate HasSemicolon(ty: Type) {
    match ty
    case Named(_) => false
    case Array(e) => HasSemicolon(e)
    case FixedArray(_, _) => true
    case Tuple(elements) => exists i :: 0 <= i < |elements| && HasSemicolon(elements[i])
  }

  // ---------------------------------------------------------------- values

  /** The type name a decoded value carries; the encoder may not know an element's type. */
  datatype TypeName = Known(ty: Type) | StringName | Unknown

  datatype Value =
    | Single(felt_: felt)
    | BigUint(n: nat)
    | BigInt(i: int)
    | Bool(b: bool)
    | Text(text: string)
    | List(items: seq<Value>)
    | Fields(fields: seq<Decoded>)
    | EnumValue(variant: string, inner: Decoded)

  datatype Decoded = Decoded(name: Option<string>, typeName: TypeName, value: Value)

  /** A value and the felts after it. */
  datatype Read<T> = Read(value: T, rest: seq<felt>)

  // ---------------------------------------------------------------- termination: containment by value

  /**
   How deep a type contains structs by value, when `rank` ranks the structs. Arrays and enums read a felt
   before what they contain, so they count as zero.
   */
  ghost function ByValueRank(abi: Abi, rank: string -> nat, ty: Type): nat
    decreases ty
  {
    match ty
    case Named(name) => if KindOf(abi, name).UserStruct? then rank(name) + 2 else 0
    case Array(_) => 0
    case FixedArray(e, _) => ByValueRank(abi, rank, e)
    case Tuple(elements) => ElementsRank(abi, rank, elements)
  }

  ghost function ElementsRank(abi: Abi, rank: string -> nat, elements: seq<Type>): nat
    decreases elements
  {
    if elements == [] then 0
    else Max(ByValueRank(abi, rank, elements[0]), ElementsRank(abi, rank, elements[1..]))
  }

  /** No struct contains itself by value: members are ranked below their struct. */
  ghost predicate Ranked(abi: Abi, rank: string -> nat) {
    forall name, s, i :: KindOf(abi, name) == UserStruct(s) && 0 <= i < |s.members| ==>
      ByValueRank(abi, rank, s.members[i].ty) <= rank(name)
  }

  // ---------------------------------------------------------------- decoding

  /** `is_allocation_safe`: 512 bytes an element, at most one gibibyte. */
  predicate IsAllocationSafe(len: nat) { len * 512 <= 0x4000_0000 }

  /** `create_decoded_value_by_type` for a single felt. */
  function PrimitiveValue(name: string, f: felt): Value {
    if name == "bool" then Bool(f != 0)
    else if name in UNSIGNED then BigUint(f)
    else if name in SIGNED then BigInt(f - PRIME)
    else Single(f)
  }

  /** `create_decoded_value_by_type` for a struct: wide integers are joined. */
  function StructValue(name: string, fields: seq<Decoded>): Value {
    if name == "u256" && |fields| == 2 && fields[0].value.BigUint? && fields[1].value.BigUint? then
      BigUint(JoinTwo(fields[0].value.n, fields[1].value.n))
    else if name == "u512" && |fields| == 4 && fields[0].value.BigUint? && fields[1].value.BigUint?
            && fields[2].value.BigUint? && fields[3].value.BigUint? then
      BigUint(JoinFour(fields[0].value.n, fields[1].value.n, fields[2].value.n, fields[3].value.n))
    else Fields(fields)
  }

  function Decode(abi: Abi, ghost rank: string -> nat, data: seq<felt>, ty: Type): (r: Option<Read<Value>>)
    requires Ranked(abi, rank)
    ensures r.Some? ==> |r.value.rest| <= |data|
    decreases |data|, ByValueRank(abi, rank, ty), ty, 1, 0
  {
    match ty
    case Array(element) =>
      if data == [] || data[0] >= USIZE_BOUND || !IsAllocationSafe(data[0]) then None
      else
        var items :- DecodeElements(abi, rank, data[1..], element, data[0]);
        Some(Read(List(items.value), items.rest))
    case FixedArray(element, len) =>
      if HasSemicolon(element) || !IsAllocationSafe(len) then None
      else
        var items :- DecodeElements(abi, rank, data, element, len);
        Some(Read(List(items.value), items.rest))
    case Tuple(elements) =>
      if |elements| < 2 || exists i :: 0 <= i < |elements| && HasComma(elements[i]) then None
      else
        var items :- DecodeTuple(abi, rank, data, elements);
        Some(Read(List(items.value), items.rest))
    case Named(name) =>
      match KindOf(abi, name)
      case Primitive => if data == [] then None else Some(Read(PrimitiveValue(name, data[0]), data[1..]))
      case Missing => None
      case UserStruct(s) =>
        var fields :- DecodeMembers(abi, rank, data, s.members, rank(name));
        Some(Read(StructValue(name, fields.value), fields.rest))
      case UserEnum(e) =>
        if data == [] || data[0] >= USIZE_BOUND || data[0] >= |e.variants| then None
        else
          var v := e.variants[data[0]];
          match v.ty
          case None => Some(Read(EnumValue(v.name, Decoded(Some(v.name), StringName, Text(v.name))), data[1..]))
          case Some(ty) =>
            var inner :- Decode(abi, rank, data[1..], ty);
            Some(Read(EnumValue(v.name, Decoded(Some(v.name), Known(ty), inner.value)), inner.rest))
  }

  function DecodeElements(
    abi: Abi, ghost rank: string -> nat, data: seq<felt>, element: Type, count: nat): (r: Option<Read<seq<Value>>>)
    requires Ranked(abi, rank)
    ensures r.Some? ==> |r.value.rest| <= |data| && |r.value.value| == count
    decreases |data|, ByValueRank(abi, rank, element), element, 2, count
  {
    if count == 0 then Some(Read([], data))
    else
      var first :- Decode(abi, rank, data, element);
      var others :- DecodeElements(abi, rank, first.rest, element, count - 1);
      Some(Read([first.value] + others.value, others.rest))
  }

  function DecodeTuple(
    abi: Abi, ghost rank: string -> nat, data: seq<felt>, elements: seq<Type>): (r: Option<Read<seq<Value>>>)
    requires Ranked(abi, rank)
    ensures r.Some? ==> |r.value.rest| <= |data| && |r.value.value| == |elements|
    decreases |data|, ElementsRank(abi, rank, elements), elements, 0, 0
  {
    if elements == [] then Some(Read([], data))
    else
      var first :- Decode(abi, rank, data, elements[0]);
      var others :- DecodeTuple(abi, rank, first.rest, elements[1..]);
      Some(Read([first.value] + others.value, others.rest))
  }

  function DecodeMembers(abi: Abi, ghost rank: string -> nat, data: seq<felt>, members: seq<Member>, ghost bound: nat):
      (r: Option<Read<seq<Decoded>>>)
    requires Ranked(abi, rank) && forall i :: 0 <= i < |members| ==> ByValueRank(abi, rank, members[i].ty) <= bound
    ensures r.Some? ==> |r.value.rest| <= |data| && |r.value.value| == |members|
    decreases |data|, bound + 1, Named(""), 0, |members|
  {
    if members == [] then Some(Read([], data))
    else
      var first :- Decode(abi, rank, data, members[0].ty);
      var others :- DecodeMembers(abi, rank, first.rest, members[1..], bound);
      Some(Read([Decoded(Some(members[0].name), Known(members[0].ty), first.value)] + others.value, others.rest))
  }

  /** The loop of `decode_calldata`; a parameter beyond the names has none. */
  function DecodeParameters(abi: Abi, ghost rank: string -> nat, data: seq<felt>, types: seq<Type>, names: seq<string>):
      (r: Option<Read<seq<Decoded>>>)
    requires Ranked(abi, rank)
    ensures r.Some? ==> |r.value.rest| <= |data| && |r.value.value| == |types|
    decreases |types|
  {
    if types == [] then Some(Read([], data))
    else
      var first :- Decode(abi, rank, data, types[0]);
      var name := if names == [] then None else Some(names[0]);
      var others :- DecodeParameters(abi, rank, first.rest, types[1..], if names == [] then [] else names[1..]);
      Some(Read([Decoded(name, Known(types[0]), first.value)] + others.value, others.rest))
  }

  /** `decode_calldata`: all felts have to be used. */
  function DecodeCalldata(
    abi: Abi, ghost rank: string -> nat, data: seq<felt>, types: seq<Type>, names: seq<string>): Option<seq<Decoded>>
    requires Ranked(abi, rank)
  {
    match DecodeParameters(abi, rank, data, types, names)
    case None => None
    case Some(read) => if read.rest == [] then Some(read.value) else None
  }
}
