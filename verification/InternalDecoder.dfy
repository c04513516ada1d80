/**
 The cursor of the decoder for the arguments and results of internal calls. What matters to a caller that decodes
 one value after the other is how far each moves the cursor; the decoded values themselves are not modelled.
 */
module InternalDecoder {
  import opened Numbers
  import opened Wrappers

  /**
   A Sierra type: `Leaf` has no generic arguments; `Skipped` are builtins; `Wrapper` stands for snapshots, spans
   and `NonZero`, whose cells are the inner type's.
   */
  datatype Ty =
    | Leaf(size: nat)
    | Skipped(size: nat)
    | Unit
    | Wrapper(inner: Ty)
    | Array
    | Struct(fields: seq<Ty>)
    | Enum(variants: seq<Ty>)

  function Size(ty: Ty): nat {
    match ty
    case Leaf(size) => size
    case Skipped(size) => size
    case Unit => 0
    case Wrapper(inner) => Size(inner)
    case Array => 2
    case Struct(fields) => SumOfSizes(fields)
    case Enum(variants) => 1 + LargestSize(variants)
  }

  function SumOfSizes(fields: seq<Ty>): nat {
    if fields == [] then 0 else Size(fields[0]) + SumOfSizes(fields[1..])
  }

  function LargestSize(variants: seq<Ty>): (size: nat)
    ensures forall i :: 0 <= i < |variants| ==> Size(variants[i]) <= size
  {
    if variants == [] then 0 else Max(Size(variants[0]), LargestSize(variants[1..]))
  }

  // ---------------------------------------------------------------- variant selectors

  /** The variant that a selector cell stands for: with more than two variants selectors are odd and count down. */
  function VariantIndex(variants: nat, selector: nat): nat {
    if variants > 2 then
      if (selector + 1) / 2 <= variants then variants - (selector + 1) / 2 else 0
    else selector
  }

  function Selector(variants: nat, index: nat): nat
    requires index < variants
  {
    if variants > 2 then 2 * (variants - index) - 1 else index
  }

  /** Selectors and variants correspond one to one. */
  lemma VariantIndexInvertsSelector(variants: nat, index: nat, selector: nat)
    requires index < variants
    ensures VariantIndex(variants, Selector(variants, index)) == index
    ensures variants > 2 && selector % 2 == 1 && selector < 2 * variants ==>
              VariantIndex(variants, selector) < variants
                && Selector(variants, VariantIndex(variants, selector)) == selector
  {
    if variants > 2 { assert (2 * (variants - index) - 1 + 1) / 2 == variants - index; }
  }

  // ---------------------------------------------------------------- the cursor

  /** `is_valid_relocated_memory_range`, and some cell of the range has a value. */
  predicate HasMemory(values: seq<nat>, memory: seq<Option<nat>>, index: nat) {
    && index + 2 <= |values| && values[index] < USIZE_BOUND && values[index + 1] < USIZE_BOUND
    && 0 < values[index] <= values[index + 1] < |memory|
    && (values[index + 1] - values[index]) * 512 <= 0x4000_0000
    && (values[index] == values[index + 1] || exists i :: values[index] <= i < values[index + 1] && memory[i].Some?)
  }

  /** Whether the value decodes, and the cursor after it, which a failure may have moved too. */
  function Decode(values: seq<nat>, memory: seq<Option<nat>>, ty: Ty, index: nat): (r: (bool, nat))
    decreases ty
  {
    match ty
    case Leaf(_) => if index < |values| then (true, index + 1) else (false, index)
    case Skipped(_) => (false, index)
    case Unit => (false, index)
    case Wrapper(inner) => Decode(values, memory, inner, index)
    case Array => if HasMemory(values, memory, index) then (true, index + 2) else (false, index)
    case Struct(fields) => DecodeFields(values, memory, fields, index)
    case Enum(variants) =>
      if index >= |values| || values[index] >= USIZE_BOUND then (false, index)
      else
        var i := VariantIndex(|variants|, values[index]);
        if i >= |variants| then (false, index)
        else
          var inside := index + (Size(ty) - Size(variants[i]));
          if variants[i].Unit? then (true, inside) else Decode(values, memory, variants[i], inside)
  }

  /** The fields that decode; a struct decodes if one of them does. */
  function DecodeFields(values: seq<nat>, memory: seq<Option<nat>>, fields: seq<Ty>, index: nat): (r: (bool, nat))
    decreases fields
  {
    if fields == [] then (false, index)
    else
      var (first, mid) := Decode(values, memory, fields[0], index);
      var (others, end) := DecodeFields(values, memory, fields[1..], mid);
      (first || others, end)
  }

  /** Leaves take one cell, and all fields of all structs on the way decode. */
  predicate AllDecode(values: seq<nat>, memory: seq<Option<nat>>, ty: Ty, index: nat)
    decreases ty
  {
    match ty
    case Leaf(size) => size == 1 && index < |values|
    case Skipped(_) => false
    case Unit => false
    case Wrapper(inner) => AllDecode(values, memory, inner, index)
    case Array => HasMemory(values, memory, index)
    case Struct(fields) => fields != [] && AllFieldsDecode(values, memory, fields, index)
    case Enum(variants) =>
      index < |values| && values[index] < USIZE_BOUND
      && var i := VariantIndex(|variants|, values[index]);
         i < |variants|
         && (variants[i].Unit? || AllDecode(values, memory, variants[i], index + (Size(ty) - Size(variants[i]))))
  }

  predicate AllFieldsDecode(values: seq<nat>, memory: seq<Option<nat>>, fields: seq<Ty>, index: nat)
    decreases fields
  {
    fields == [] || (AllDecode(values, memory, fields[0], index)
                     && AllFieldsDecode(values, memory, fields[1..], Decode(values, memory, fields[0], index).1))
  }

  /** Then the value decodes, and the cursor moves by exactly the size of its type. */
  lemma {:induction false} CursorMovesBySize(values: seq<nat>, memory: seq<Option<nat>>, ty: Ty, index: nat)
    requires AllDecode(values, memory, ty, index)
    ensures Decode(values, memory, ty, index) == (true, index + Size(ty))
    decreases ty
  {
    match ty {
      case Wrapper(inner) => CursorMovesBySize(values, memory, inner, index);
      case Struct(fields) => CursorMovesByFields(values, memory, fields, index);
      case Enum(variants) =>
        var i := VariantIndex(|variants|, values[index]);
        if !variants[i].Unit? {
          CursorMovesBySize(values, memory, variants[i], index + (Size(ty) - Size(variants[i])));
        }
      case _ =>
    }
  }

  lemma {:induction false} CursorMovesByFields(values: seq<nat>, memory: seq<Option<nat>>, fields: seq<Ty>, index: nat)
    requires AllFieldsDecode(values, memory, fields, index)
    ensures DecodeFields(values, memory, fields, index) == (fields != [], index + SumOfSizes(fields))
    decreases fields
  {
    if fields != [] {
      CursorMovesBySize(values, memory, fields[0], index);
      CursorMovesByFields(values, memory, fields[1..], index + Size(fields[0]));
    }
  }

  // ---------------------------------------------------------------- exactly when the cursor stays aligned

  /** Leaves take at least one cell. */
  predicate LeavesHaveCells(ty: Ty)
    decreases ty
  {
    match ty
    case Leaf(size) => size >= 1
    case Wrapper(inner) => LeavesHaveCells(inner)
    case Struct(fields) => forall i :: 0 <= i < |fields| ==> LeavesHaveCells(fields[i])
    case Enum(variants) => forall i :: 0 <= i < |variants| ==> LeavesHaveCells(variants[i])
    case _ => true
  }

  /** The cell at `index` names one of the variants. */
  predicate Selects(values: seq<nat>, variants: seq<Ty>, index: nat) {
    index < |values| && values[index] < USIZE_BOUND && VariantIndex(|variants|, values[index]) < |variants|
  }

  function Selected(values: seq<nat>, variants: seq<Ty>, index: nat): (ty: Ty)
    requires Selects(values, variants, index)
    ensures ty < Enum(variants) && Size(ty) < Size(Enum(variants))
    ensures LeavesHaveCells(Enum(variants)) ==> LeavesHaveCells(ty)
  {
    variants[VariantIndex(|variants|, values[index])]
  }

  /**
   Read off the cells where the layout puts them, without decoding: leaves take one cell that is there, builtins
   take none, array ranges are readable and selectors name a variant.
   */
  predicate Aligned(values: seq<nat>, memory: seq<Option<nat>>, ty: Ty, index: nat)
    decreases ty
  {
    match ty
    case Leaf(size) => size == 1 && index < |values|
    case Skipped(size) => size == 0
    case Unit => true
    case Wrapper(inner) => Aligned(values, memory, inner, index)
    case Array => HasMemory(values, memory, index)
    case Struct(fields) => FieldsAligned(values, memory, fields, index)
    case Enum(variants) =>
      Selects(values, variants, index)
      && var variant := Selected(values, variants, index);
         Aligned(values, memory, variant, index + (Size(ty) - Size(variant)))
  }

  predicate FieldsAligned(values: seq<nat>, memory: seq<Option<nat>>, fields: seq<Ty>, index: nat)
    decreases fields
  {
    fields == [] || (Aligned(values, memory, fields[0], index)
                     && FieldsAligned(values, memory, fields[1..], index + Size(fields[0])))
  }

  /** Some part of the value, again at the place of the layout, yields something to show. */
  predicate Shows(values: seq<nat>, memory: seq<Option<nat>>, ty: Ty, index: nat)
    decreases ty
  {
    match ty
    case Leaf(_) => index < |values|
    case Skipped(_) => false
    case Unit => false
    case Wrapper(inner) => Shows(values, memory, inner, index)
    case Array => HasMemory(values, memory, index)
    case Struct(fields) => SomeFieldShows(values, memory, fields, index)
    case Enum(variants) =>
      Selects(values, variants, index)
      && var variant := Selected(values, variants, index);
         (variant.Unit? || Shows(values, memory, variant, index + (Size(ty) - Size(variant))))
  }

  predicate SomeFieldShows(values: seq<nat>, memory: seq<Option<nat>>, fields: seq<Ty>, index: nat)
    decreases fields
  {
    fields != [] && (Shows(values, memory, fields[0], index)
                     || SomeFieldShows(values, memory, fields[1..], index + Size(fields[0])))
  }

  /** Whatever decodes, the cursor never passes the end of the layout. */
  lemma {:induction false} CursorStaysWithin(values: seq<nat>, memory: seq<Option<nat>>, ty: Ty, index: nat)
    requires LeavesHaveCells(ty)
    ensures index <= Decode(values, memory, ty, index).1 <= index + Size(ty)
    decreases ty
  {
    match ty {
      case Wrapper(inner) => CursorStaysWithin(values, memory, inner, index);
      case Struct(fields) => CursorStaysWithinFields(values, memory, fields, index);
      case Enum(variants) =>
        if Selects(values, variants, index) {
          var variant := Selected(values, variants, index);
          CursorStaysWithin(values, memory, variant, index + (Size(ty) - Size(variant)));
        }
      case _ =>
    }
  }

  lemma {:induction false} CursorStaysWithinFields(
    values: seq<nat>, memory: seq<Option<nat>>, fields: seq<Ty>, index: nat)
    requires forall i :: 0 <= i < |fields| ==> LeavesHaveCells(fields[i])
    ensures index <= DecodeFields(values, memory, fields, index).1 <= index + SumOfSizes(fields)
    decreases fields
  {
    if fields != [] {
      CursorStaysWithin(values, memory, fields[0], index);
      CursorStaysWithinFields(values, memory, fields[1..], Decode(values, memory, fields[0], index).1);
    }
  }

  /**
   The cursor ends where the next value of the layout starts exactly if all parts are aligned, and then the value
   decodes exactly if a part shows. So one misplaced part cannot be made up for by another.
   */
  lemma {:induction false} CursorMovesBySizeIffAligned(
    values: seq<nat>, memory: seq<Option<nat>>, ty: Ty, index: nat)
    requires LeavesHaveCells(ty)
    ensures Decode(values, memory, ty, index).1 == index + Size(ty) <==> Aligned(values, memory, ty, index)
    ensures Aligned(values, memory, ty, index) ==>
              (Decode(values, memory, ty, index).0 <==> Shows(values, memory, ty, index))
    ensures Decode(values, memory, ty, index) == (true, index + Size(ty))
            <==> Aligned(values, memory, ty, index) && Shows(values, memory, ty, index)
    decreases ty
  {
    hide HasMemory, SumOfSizes, DecodeFields, FieldsAligned, SomeFieldShows;
    match ty {
      case Wrapper(inner) => CursorMovesBySizeIffAligned(values, memory, inner, index);
      case Struct(fields) => CursorMovesByFieldsIffAligned(values, memory, fields, index);
      case Enum(variants) =>
        if Selects(values, variants, index) {
          var variant := Selected(values, variants, index);
          CursorMovesBySizeIffAligned(values, memory, variant, index + (Size(ty) - Size(variant)));
        }
      case _ =>
    }
  }

  lemma {:induction false} CursorMovesByFieldsIffAligned(
    values: seq<nat>, memory: seq<Option<nat>>, fields: seq<Ty>, index: nat)
    requires forall i :: 0 <= i < |fields| ==> LeavesHaveCells(fields[i])
    ensures DecodeFields(values, memory, fields, index).1 == index + SumOfSizes(fields)
            <==> FieldsAligned(values, memory, fields, index)
    ensures FieldsAligned(values, memory, fields, index) ==>
              (DecodeFields(values, memory, fields, index).0 <==> SomeFieldShows(values, memory, fields, index))
    decreases fields
  {
    hide Decode, DecodeFields, Size, SumOfSizes, Aligned, FieldsAligned, Shows, SomeFieldShows, LeavesHaveCells;
    if fields == [] {
      NoFields(values, memory, index);
    } else {
      FieldsUnfold(values, memory, fields, index);
      var mid := Decode(values, memory, fields[0], index).1;
      CursorStaysWithin(values, memory, fields[0], index);
      CursorStaysWithinFields(values, memory, fields[1..], mid);
      CursorMovesBySizeIffAligned(values, memory, fields[0], index);
      if mid == index + Size(fields[0]) { CursorMovesByFieldsIffAligned(values, memory, fields[1..], mid); }
    }
  }

  lemma NoFields(values: seq<nat>, memory: seq<Option<nat>>, index: nat)
    ensures DecodeFields(values, memory, [], index) == (false, index) && SumOfSizes([]) == 0
    ensures FieldsAligned(values, memory, [], index) && !SomeFieldShows(values, memory, [], index)
  {
  }

  lemma FieldsUnfold(values: seq<nat>, memory: seq<Option<nat>>, fields: seq<Ty>, index: nat)
    requires fields != []
    ensures SumOfSizes(fields) == Size(fields[0]) + SumOfSizes(fields[1..])
    ensures var (first, mid) := Decode(values, memory, fields[0], index);
            var (others, end) := DecodeFields(values, memory, fields[1..], mid);
            DecodeFields(values, memory, fields, index) == (first || others, end)
    ensures FieldsAligned(values, memory, fields, index)
            <==> Aligned(values, memory, fields[0], index)
                 && FieldsAligned(values, memory, fields[1..], index + Size(fields[0]))
    ensures SomeFieldShows(values, memory, fields, index)
            <==> Shows(values, memory, fields[0], index)
                 || SomeFieldShows(values, memory, fields[1..], index + Size(fields[0]))
  {
    hide Decode, Aligned, Shows, Size;
  }

  /** A builtin in front of a field leaves the cursor behind: the field is read from the builtin's cell. */
  lemma SkippedFieldsMisalign(builtin: nat, value: nat)
    ensures var ty := Struct([Skipped(1), Leaf(1)]);
            Size(ty) == 2 && Decode([builtin, value], [], ty, 0) == (true, 1)
  {
    var fields := [Skipped(1), Leaf(1)];
    assert fields[1..] == [Leaf(1)] && fields[1..][1..] == [];
    assert SumOfSizes([]) == 0 && SumOfSizes([Leaf(1)]) == 1;
    assert DecodeFields([builtin, value], [], [], 1) == (false, 1);
    assert DecodeFields([builtin, value], [], [Leaf(1)], 0) == (true, 1);
  }

  /** So does an array whose range is not readable: the next field is read from the range's start. */
  lemma UnreadableArraysMisalign(values: seq<nat>, memory: seq<Option<nat>>)
    requires values != [] && !HasMemory(values, memory, 0)
    ensures var ty := Struct([Array, Leaf(1)]);
            Size(ty) == 3 && Decode(values, memory, ty, 0) == (true, 1)
  {
    var fields := [Array, Leaf(1)];
    assert fields[1..] == [Leaf(1)] && fields[1..][1..] == [];
    assert SumOfSizes([]) == 0 && SumOfSizes([Leaf(1)]) == 1;
    assert DecodeFields(values, memory, [], 1) == (false, 1);
    assert DecodeFields(values, memory, [Leaf(1)], 0) == (true, 1);
  }

  /** The loop of `decode_standard_struct` over the fields, moving the cursor in place. */
  method DecodeStandardStruct(
    values: seq<nat>, memory: seq<Option<nat>>, fields: seq<Ty>, index: nat) returns (decoded: bool, end: nat)
    ensures (decoded, end) == DecodeFields(values, memory, fields, index)
    ensures LeavesHaveCells(Struct(fields)) ==>
              (decoded && end == index + Size(Struct(fields))
               <==> FieldsAligned(values, memory, fields, index) && SomeFieldShows(values, memory, fields, index))
  {
    decoded, end := false, index;
    for i := 0 to |fields|
      invariant var (others, last) := DecodeFields(values, memory, fields[i..], end);
                (decoded || others, last) == DecodeFields(values, memory, fields, index)
    {
      assert fields[i..][0] == fields[i] && fields[i..][1..] == fields[i + 1..];
      var (ok, next) := Decode(values, memory, fields[i], end);
      if ok { decoded := true; }
      end := next;
    }
    assert fields[|fields|..] == [];
    if LeavesHaveCells(Struct(fields)) { CursorMovesBySizeIffAligned(values, memory, Struct(fields), index); }
  }
}
