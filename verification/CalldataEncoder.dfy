/** Encoding of decoded values back into calldata. */
module CalldataEncoder {
  import opened CalldataDecoder
  import opened Numbers
  import opened Wrappers

  /** One string of encoded calldata: a hexadecimal number, a negative one, or any other text. */
  datatype Token = Hex(n: nat) | NegativeHex(n: nat) | Raw(text: string)

  datatype EncodeError = EnumNotFound | VariantNotFound

  type Encoding = Result<seq<Token>, EncodeError>

  function Hexes(felts: seq<felt>): (tokens: seq<Token>)
    ensures |tokens| == |felts|
    ensures forall i :: 0 <= i < |felts| ==> tokens[i] == Hex(felts[i])
  {
    seq(|felts|, i requires 0 <= i < |felts| => Hex(felts[i]))
  }

  /** Two encodings one after the other. */
  function Join(a: Encoding, b: Encoding): Encoding {
    match a
    case Err(e) => Err(e)
    case Ok(front) =>
      match b
      case Err(e) => Err(e)
      case Ok(back) => Ok(front + back)
  }

  predicate IsHexDigit(c: char) { '0' <= c <= '9' || 'a' <= c <= 'f' || 'A' <= c <= 'F' }

  predicate LooksHex(s: string) { "0x" <= s || forall i :: 0 <= i < |s| ==> IsHexDigit(s[i]) }

  /** The position of the first variant with that name. */
  function Position(variants: seq<Variant>, name: string): (p: Option<nat>)
    ensures p.Some? ==> p.value < |variants| && variants[p.value].name == name
    ensures p.Some? ==> forall i :: 0 <= i < p.value ==> variants[i].name != name
    ensures p.None? ==> forall i :: 0 <= i < |variants| ==> variants[i].name != name
  {
    if variants == [] then None
    else if variants[0].name == name then Some(0)
    else
      match Position(variants[1..], name)
      case None => None
      case Some(p) => Some(p + 1)
  }

  function EnumNamed(abi: Abi, ty: TypeName): Option<Enum> {
    match ty
    case Known(Named(name)) => FindEnum(abi.enums, name)
    case StringName => FindEnum(abi.enums, "string")
    case _ => None
  }

  /** `split_into_limbs`. */
  function SplitIntoLimbs(n: nat, ty: TypeName): seq<Token> {
    if ty == Known(Named("u256")) then [Hex(n % TWO_128), Hex(n / TWO_128)]
    else if ty == Known(Named("u512")) then
      [Hex(n % TWO_128), Hex(n / TWO_128 % TWO_128), Hex(n / TWO_128 / TWO_128 % TWO_128),
       Hex(n / TWO_128 / TWO_128 / TWO_128)]
    else [Hex(n)]
  }

  /** `encode_decoded_value`. */
  function Encode(abi: Abi, ty: TypeName, v: Value): Encoding
    decreases v
  {
    match v
    case Single(f) => Ok([Hex(f)])
    case BigUint(n) => Ok(SplitIntoLimbs(n, ty))
    case BigInt(i) => Ok([if i < 0 then NegativeHex(-i) else Hex(i)])
    case Bool(b) => Ok([Hex(if b then 1 else 0)])
    case Text(s) =>
      if LooksHex(s) then Ok([Raw(s)])
      else
        (match EnumNamed(abi, ty)
         case None => Ok([Raw(s)])
         case Some(e) => match Position(e.variants, s) case None => Err(VariantNotFound) case Some(p) => Ok([Hex(p)]))
    case List(items) =>
      if ty.Known? && ty.ty.Tuple? then EncodeTuple(abi, ty.ty.elements, items)
      else Join(Ok([Hex(|items|)]),
                EncodeItems(abi, if ty.Known? && ty.ty.Array? then Known(ty.ty.element) else Unknown, items))
    case Fields(fields) => EncodeFields(abi, fields)
    case EnumValue(variant, inner) =>
      match EnumNamed(abi, ty)
      case None => Err(EnumNotFound)
      case Some(e) =>
        match Position(e.variants, variant)
        case None => Err(VariantNotFound)
        case Some(p) => Join(Ok([Hex(p)]), EncodeField(abi, inner))
  }

  /** The items of an array, all of one type; for a fixed array the encoder does not know which. */
  function EncodeItems(abi: Abi, element: TypeName, items: seq<Value>): Encoding
    decreases items
  {
    if items == [] then Ok([]) else Join(Encode(abi, element, items[0]), EncodeItems(abi, element, items[1..]))
  }

  function EncodeTuple(abi: Abi, elements: seq<Type>, items: seq<Value>): Encoding
    decreases items
  {
    if items == [] then Ok([])
    else if elements == [] then Join(Encode(abi, Unknown, items[0]), EncodeTuple(abi, [], items[1..]))
    else Join(Encode(abi, Known(elements[0]), items[0]), EncodeTuple(abi, elements[1..], items[1..]))
  }

  function EncodeField(abi: Abi, field: Decoded): Encoding
    decreases field
  {
    Encode(abi, field.typeName, field.value)
  }

  function EncodeFields(abi: Abi, fields: seq<Decoded>): Encoding
    decreases fields
  {
    if fields == [] then Ok([]) else Join(EncodeField(abi, fields[0]), EncodeFields(abi, fields[1..]))
  }

  /** `encode_parameters_with_abi`: a parameter beyond the inputs is encoded under its own type. */
  function EncodeParameters(abi: Abi, inputs: seq<Type>, parameters: seq<Decoded>): Encoding
    decreases |parameters|
  {
    if parameters == [] then Ok([])
    else
      var ty := if inputs == [] then parameters[0].typeName else Known(inputs[0]);
      Join(Encode(abi, ty, parameters[0].value),
           EncodeParameters(abi, if inputs == [] then [] else inputs[1..], parameters[1..]))
  }
}
