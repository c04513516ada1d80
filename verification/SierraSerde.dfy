/** The `Felt252Serde` serialiser: Sierra programs as vectors of big unsigned integers, and back. */
module SierraSerde {
  import opened Wrappers
  import opened Numbers
  import opened SierraProgram

  type Felts = seq<nat>

  datatype Error =
    | InvalidInputForDeserialization
    | GenericIdTooLong(name: Name)
    | OutOfOrderTypeDeclarations
    | OutOfOrderLibfuncDeclarations
    | OutOfOrderUserFunctionDeclarations
    | FunctionArgumentsMismatch
    | Panics           // an `unwrap` or a capacity that fails stops the program
    | NeverReturns     // the word count loop of `decompress`

  type Written = Result<Felts, Error>
  type Read<T> = Result<(T, Felts), Error>

  // ---------------------------------------------------------------- integers

  function ReadUsize(input: Felts): Read<U64> {
    if input == [] || input[0] >= USIZE_BOUND then Err(InvalidInputForDeserialization)
    else Ok((input[0], input[1..]))
  }

  function ReadBigInt(input: Felts): Read<nat> {
    if input == [] then Err(InvalidInputForDeserialization) else Ok((input[0], input[1..]))
  }

  // ---------------------------------------------------------------- vectors

  function WriteElement<T>(x: T, write: T -> Written): Written { write(x) }

  function WriteAll<T>(xs: seq<T>, write: T -> Written): Written {
    if xs == [] then Ok([])
    else
      var head :- WriteElement(xs[0], write);
      var tail :- WriteAll(xs[1..], write);
      Ok(head + tail)
  }

  function WriteVec<T>(xs: Vec<T>, write: T -> Written): Written {
    var elements :- WriteAll(xs, write);
    Ok([|xs|] + elements)
  }

  function ReadElement<T>(input: Felts, read: Felts -> Read<T>): Read<T> { read(input) }

  function ReadAll<T>(size: nat, input: Felts, read: Felts -> Read<T>): (r: Read<seq<T>>)
    ensures r.Ok? ==> |r.value.0| == size
    decreases size
  {
    if size == 0 then Ok(([], input))
    else
      var (x, input) :- ReadElement(input, read);
      var (xs, input) :- ReadAll(size - 1, input, read);
      Ok(([x] + xs, input))
  }

  function ReadVec<T>(input: Felts, read: Felts -> Read<T>): Read<Vec<T>> {
    var (size, input) :- ReadUsize(input);
    if |input| < size then Err(InvalidInputForDeserialization)
    else
      var (xs, input) :- ReadAll(size, input, read);
      Ok((xs, input))
  }

  /** The loop of `Vec::deserialize`. */
  method DeserializeVec<T>(input: Felts, read: Felts -> Read<T>) returns (r: Read<Vec<T>>)
    ensures r == ReadVec(input, read)
  {
    var header := ReadUsize(input);
    if header.Err? { return Err(header.error); }
    var (size, rest) := header.value;
    if |rest| < size { return Err(InvalidInputForDeserialization); }
    var result: seq<T> := [];
    ghost var whole := ReadAll(size, rest, read);
    assert whole.Ok? ==> result + whole.value.0 == whole.value.0;
    for i := 0 to size
      invariant |result| == i
      invariant ReadVec(input, read) == AppendTo(result, size, ReadAll(size - i, rest, read))
    {
      var next := ReadElement(rest, read);
      if next.Err? { return Err(next.error); }
      var (x, after) := next.value;
      ghost var more := ReadAll(size - i - 1, after, read);
      assert more.Ok? ==> result + ([x] + more.value.0) == result + [x] + more.value.0;
      result, rest := result + [x], after;
    }
    assert result + [] == result;
    r := Ok((result, rest));
  }

  function AppendTo<T>(front: seq<T>, size: U64, r: Read<seq<T>>): Read<Vec<T>>
    requires r.Ok? ==> |front| + |r.value.0| == size
  {
    match r
    case Err(e) => Err(e)
    case Ok((back, rest)) => Ok((front + back, rest))
  }

  /** `x` is written as at least one felt, and reading that back, whatever follows, gives `y`. */
  ghost predicate Frames<T>(x: T, y: T, write: T -> Written, read: Felts -> Read<T>)
    requires write(x).Ok?
  {
    && |write(x).value| >= 1
    && forall rest: Felts :: read(write(x).value + rest) == Ok((y, rest))
  }

  lemma {:induction false} WriteAllFraming<T>(
    xs: seq<T>, ys: seq<T>, write: T -> Written, read: Felts -> Read<T>, rest: Felts)
    requires |xs| == |ys| && WriteAll(xs, write).Ok?
    requires forall i :: 0 <= i < |xs| && write(xs[i]).Ok? ==> Frames(xs[i], ys[i], write, read)
    ensures |WriteAll(xs, write).value| >= |xs|
    ensures ReadAll(|xs|, WriteAll(xs, write).value + rest, read) == Ok((ys, rest))
  {
    if xs == [] {
      assert WriteAll(xs, write).value + rest == rest;
    } else {
      var head, tail := write(xs[0]).value, WriteAll(xs[1..], write).value;
      WriteAllFraming(xs[1..], ys[1..], write, read, rest);
      assert head + tail + rest == head + (tail + rest);
      assert Frames(xs[0], ys[0], write, read);
      assert ys == [ys[0]] + ys[1..];
    }
  }

  lemma WriteVecFraming<T>(xs: Vec<T>, ys: Vec<T>, write: T -> Written, read: Felts -> Read<T>, rest: Felts)
    requires |xs| == |ys| && WriteVec(xs, write).Ok?
    requires forall i :: 0 <= i < |xs| && write(xs[i]).Ok? ==> Frames(xs[i], ys[i], write, read)
    ensures |WriteVec(xs, write).value| >= 1
    ensures ReadVec(WriteVec(xs, write).value + rest, read) == Ok((ys, rest))
  {
    var elements := WriteAll(xs, write).value;
    WriteAllFraming(xs, ys, write, read, rest);
    assert ([|xs|] + elements + rest)[1..] == elements + rest;
  }

  // ---------------------------------------------------------------- identifiers

  function WriteId(id: Id): Written { Ok([id.id]) }

  function ReadId(input: Felts): Read<Id> {
    var (id, rest) :- ReadUsize(input);
    Ok((Id(id, None), rest))
  }

  lemma IdFrames(id: Id)
    ensures Frames(id, id.Erased(), WriteId, ReadId)
  {
    forall rest: Felts ensures ReadId(WriteId(id).value + rest) == Ok((id.Erased(), rest)) {
      assert ([id.id] + rest)[1..] == rest;
    }
  }

  lemma {:induction false} WriteIdsSucceeds(ids: seq<Id>)
    ensures WriteAll(ids, WriteId).Ok?
  {
    if ids != [] { WriteIdsSucceeds(ids[1..]); }
  }

  lemma IdsFraming(ids: Vec<Id>, rest: Felts)
    ensures WriteVec(ids, WriteId).Ok? && |WriteVec(ids, WriteId).value| >= 1
    ensures ReadVec(WriteVec(ids, WriteId).value + rest, ReadId) == Ok((EraseIds(ids), rest))
  {
    WriteIdsSucceeds(ids);
    forall i | 0 <= i < |ids| ensures Frames(ids[i], EraseIds(ids)[i], WriteId, ReadId) {
      IdFrames(ids[i]);
    }
    WriteVecFraming(ids, EraseIds(ids), WriteId, ReadId, rest);
  }

  // ---------------------------------------------------------------- generic names

  const SHORT_STRING_BOUND: nat := 31

  /** `BigUint::from_bytes_be`. */
  function BytesToNat(s: seq<Byte>): nat {
    if s == [] then 0 else BytesToNat(s[..|s| - 1]) * 256 + s[|s| - 1]
  }

  /** `BigUint::to_bytes_be`: no leading zero byte, except for the number zero itself. */
  function NatToBytes(n: nat): (s: seq<Byte>)
    ensures s != []
  {
    if n < 256 then [n] else NatToBytes(n / 256) + [n % 256]
  }

  /** The supported long names, and the hash under which each is written. */
  datatype LongIds = LongIds(names: seq<Name>, keccak: Name -> nat) {
    /** `LONG_NAME_FIX`: a later name replaces an earlier one with the same hash. */
    function NameFix(): map<nat, Name> { Fix(|names|) }

    function Fix(n: nat): map<nat, Name>
      requires n <= |names|
    {
      if n == 0 then map[] else Fix(n - 1)[keccak(names[n - 1]) := names[n - 1]]
    }

    /** Supported long names are long, and their hashes are distinct. */
    ghost predicate Valid() {
      && (forall n :: n in names ==> |n| > SHORT_STRING_BOUND)
      && forall m, n :: m in names && n in names && keccak(m) == keccak(n) ==> m == n
    }

    function Encode(name: Name): Result<nat, Error> {
      if |name| <= SHORT_STRING_BOUND then Ok(BytesToNat(name))
      else if name !in names then Err(GenericIdTooLong(name))
      else Ok(keccak(name))
    }

    /** Names that can be written at all. */
    predicate Supports(name: Name) { |name| <= SHORT_STRING_BOUND || name in names }

    function Decode(value: nat): Result<Name, Error> {
      if value in NameFix() then Ok(NameFix()[value])
      else if IsUtf8(NatToBytes(value)) then Ok(NatToBytes(value))
      else Err(InvalidInputForDeserialization)
    }

    /** The name that is read back for one that was written: leading NUL bytes of a short name are lost. */
    function ReadBack(name: Name): Name {
      if |name| > SHORT_STRING_BOUND then name
      else if BytesToNat(name) in NameFix() then NameFix()[BytesToNat(name)]
      else
        StripKeepsUtf8(name);
        Strip(name)
    }

    function WriteName(name: Name): Written {
      var value :- Encode(name);
      Ok([value])
    }

    function ReadName(input: Felts): Read<Name> {
      if input == [] then Err(InvalidInputForDeserialization)
      else
        var name :- Decode(input[0]);
        Ok((name, input[1..]))
    }

    /** Exactly the short names that survive: no leading NUL, not empty, not the number of a long name's hash. */
    predicate Survives(name: Name) {
      |name| <= SHORT_STRING_BOUND ==>
        name != [] && (name[0] != 0 || |name| == 1) && BytesToNat(name) !in NameFix()
    }
  }

  function Strip(s: seq<Byte>): (r: seq<Byte>)
    ensures r != []
  {
    if s == [] then [0] else if |s| > 1 && s[0] == 0 then Strip(s[1..]) else s
  }

  lemma {:induction false} StripKeepsUtf8(s: seq<Byte>)
    requires IsUtf8(s)
    ensures IsUtf8(Strip(s))
  {
    if |s| > 1 && s[0] == 0 { StripKeepsUtf8(s[1..]); }
  }

  lemma {:induction false} StripSnoc(s: seq<Byte>, b: Byte)
    ensures Strip(s + [b]) == if Strip(s) == [0] then [b] else Strip(s) + [b]
  {
    if |s| > 1 && s[0] == 0 {
      StripSnoc(s[1..], b);
      assert (s + [b])[1..] == s[1..] + [b];
    } else if |s| == 1 && s[0] == 0 {
      assert (s + [b])[1..] == [b];
    }
  }

  lemma {:induction false} StripIsZero(s: seq<Byte>)
    ensures Strip(s) == [0] <==> BytesToNat(s) == 0
  {
    if s != [] {
      var front := s[..|s| - 1];
      assert s == front + [s[|s| - 1]];
      StripIsZero(front);
      StripSnoc(front, s[|s| - 1]);
    }
  }

  lemma {:induction false} NatToBytesInvertsBytesToNat(s: seq<Byte>)
    ensures NatToBytes(BytesToNat(s)) == Strip(s)
  {
    if s != [] {
      var front, last := s[..|s| - 1], s[|s| - 1];
      assert s == front + [last];
      NatToBytesInvertsBytesToNat(front);
      StripSnoc(front, last);
      StripIsZero(front);
    }
  }

  lemma {:induction false} NameFixHolds(ids: LongIds, n: nat)
    requires n <= |ids.names|
    ensures forall i :: 0 <= i < n ==> ids.keccak(ids.names[i]) in ids.Fix(n)
    ensures forall v :: v in ids.Fix(n) ==> ids.Fix(n)[v] in ids.names && ids.keccak(ids.Fix(n)[v]) == v
  {
    if n > 0 { NameFixHolds(ids, n - 1); }
  }

  lemma DecodeInvertsEncode(ids: LongIds, name: Name)
    requires ids.Valid() && ids.Encode(name).Ok?
    ensures ids.Decode(ids.Encode(name).value) == Ok(ids.ReadBack(name))
  {
    NameFixHolds(ids, |ids.names|);
    if |name| <= SHORT_STRING_BOUND {
      NatToBytesInvertsBytesToNat(name);
      StripKeepsUtf8(name);
    } else {
      var i :| 0 <= i < |ids.names| && ids.names[i] == name;
      assert ids.keccak(ids.names[i]) in ids.Fix(|ids.names|);
    }
  }

  /** A name that can be written is read back unchanged exactly when it `Survives`. */
  lemma NameSurvives(ids: LongIds, name: Name)
    requires ids.Valid()
    ensures ids.ReadBack(name) == name <==> ids.Survives(name)
  {
    NameFixHolds(ids, |ids.names|);
    StripFixpoint(name);
  }

  lemma {:induction false} StripFixpoint(s: seq<Byte>)
    ensures Strip(s) == s <==> s != [] && (s[0] != 0 || |s| == 1)
    ensures s != [] ==> |Strip(s)| <= |s|
  {
    if |s| > 1 && s[0] == 0 { StripFixpoint(s[1..]); }
  }

  lemma NameFraming(ids: LongIds, name: Name, rest: Felts)
    requires ids.Valid() && ids.WriteName(name).Ok?
    ensures |ids.WriteName(name).value| == 1
    ensures ids.ReadName(ids.WriteName(name).value + rest) == Ok((ids.ReadBack(name), rest))
  {
    DecodeInvertsEncode(ids, name);
    assert ([ids.Encode(name).value] + rest)[1..] == rest;
  }

  // ---------------------------------------------------------------- generic arguments

  function WriteArg(arg: GenericArg): Written {
    match arg
    case UserType(u) => Ok([0, u.id])
    case Type(i) => Ok([1, i.id])
    case Value(v) => if v >= 0 then Ok([2, v]) else Ok([5, -v])
    case UserFunc(i) => Ok([3, i.id])
    case Libfunc(i) => Ok([4, i.id])
  }

  function ReadArg(input: Felts): Read<GenericArg> {
    var (tag, input) :- ReadUsize(input);
    match tag
    case 0 => var (id, input) :- ReadBigInt(input); Ok((UserType(UserTypeId(id, None)), input))
    case 1 => var (id, input) :- ReadId(input); Ok((Type(id), input))
    case 2 => var (v, input) :- ReadBigInt(input); Ok((Value(v), input))
    case 3 => var (id, input) :- ReadId(input); Ok((UserFunc(id), input))
    case 4 => var (id, input) :- ReadId(input); Ok((Libfunc(id), input))
    case 5 => var (v, input) :- ReadBigInt(input); Ok((Value(0 - v), input))
    case _ => Err(InvalidInputForDeserialization)
  }

  lemma ArgFrames(arg: GenericArg)
    ensures Frames(arg, arg.Erased(), WriteArg, ReadArg)
  {
    forall rest: Felts ensures ReadArg(WriteArg(arg).value + rest) == Ok((arg.Erased(), rest)) {
      var felts := WriteArg(arg).value;
      assert (felts + rest)[1..] == [felts[1]] + rest;
      assert ([felts[1]] + rest)[1..] == rest;
    }
  }

  lemma {:induction false} WriteArgsSucceeds(args: seq<GenericArg>)
    ensures WriteAll(args, WriteArg).Ok?
  {
    if args != [] { WriteArgsSucceeds(args[1..]); }
  }

  lemma ArgsFrame(args: Vec<GenericArg>)
    ensures forall i :: 0 <= i < |args| ==> Frames(args[i], EraseArgs(args)[i], WriteArg, ReadArg)
  {
    forall i | 0 <= i < |args| ensures Frames(args[i], EraseArgs(args)[i], WriteArg, ReadArg) {
      ArgFrames(args[i]);
    }
  }

  // ---------------------------------------------------------------- type information

  const TYPE_INFO_MARKER: nat := 0x8000_0000_0000_0000

  /** The marker or-ed with one bit per flag; zero for no information. */
  function InfoBits(info: Option<DeclaredTypeInfo>): nat {
    match info
    case None => 0
    case Some(i) =>
      TYPE_INFO_MARKER
      + (if i.storable then 1 else 0)
      + (if i.droppable then 2 else 0)
      + (if i.duplicatable then 4 else 0)
      + (if i.zeroSized then 8 else 0)
  }

  function InfoOfBits(bits: nat): Option<DeclaredTypeInfo> {
    if bits == 0 then None
    else Some(DeclaredTypeInfo(bits % 2 != 0, bits / 2 % 2 != 0, bits / 4 % 2 != 0, bits / 8 % 2 != 0))
  }

  /** The argument count and the type information share one number. */
  function PackInfo(len: U64, info: Option<DeclaredTypeInfo>): nat {
    len + TWO_128 * InfoBits(info)
  }

  lemma BitsAndInfo(info: Option<DeclaredTypeInfo>)
    ensures InfoOfBits(InfoBits(info)) == info && InfoBits(info) < USIZE_BOUND
  {
  }

  lemma UnpackInfo(len: U64, info: Option<DeclaredTypeInfo>)
    ensures PackInfo(len, info) % TWO_128 == len
    ensures PackInfo(len, info) / TWO_128 < USIZE_BOUND
    ensures InfoOfBits(PackInfo(len, info) / TWO_128) == info
  {
    hide InfoBits, InfoOfBits;
    BitsAndInfo(info);
    DigitSplit(len, TWO_128, InfoBits(info));
  }

  /** The name, then the argument count and the information packed into one number, then the arguments. */
  function WriteTypeInfo(ids: LongIds, t: TypeDeclaration): Written {
    var name :- ids.WriteName(t.longId.genericId);
    var args :- WriteAll(t.longId.genericArgs, WriteArg);
    Ok(name + ([PackInfo(|t.longId.genericArgs|, t.info)] + args))
  }

  /** The declaration is read without its id, which is its position. */
  function ReadTypeInfo(ids: LongIds, id: Id, input: Felts): Read<TypeDeclaration> {
    var (genericId, input) :- ids.ReadName(input);
    var (packed, input) :- ReadBigInt(input);
    var len, bits := packed % TWO_128, packed / TWO_128;
    if len >= USIZE_BOUND || bits >= USIZE_BOUND then Err(Panics)
    else if |input| < len then Err(InvalidInputForDeserialization)
    else
      var (args, input) :- ReadAll(len, input, ReadArg);
      Ok((TypeDeclaration(id, LongId(genericId, args), InfoOfBits(bits)), input))
  }

  /** How a program looks after it has been written and read back. */
  function ReadBackView(ids: LongIds): View {
    View(n => ids.ReadBack(n), t => ReadBackTarget(t))
  }

  lemma ThenTheRest(name: Felts, packed: nat, words: Felts, rest: Felts)
    ensures name + ([packed] + words) + rest == name + ([packed] + (words + rest))
  {
  }

  lemma TypeInfoIsRead(
    ids: LongIds, id: Id, input: Felts, name: Name, packed: nat, words: Felts, len: nat, args: seq<GenericArg>,
    rest: Felts)
    requires ids.ReadName(input) == Ok((name, [packed] + words))
    requires packed % TWO_128 == len < USIZE_BOUND && packed / TWO_128 < USIZE_BOUND && len <= |words|
    requires ReadAll(len, words, ReadArg) == Ok((args, rest))
    ensures ReadTypeInfo(ids, id, input)
            == Ok((TypeDeclaration(id, LongId(name, args), InfoOfBits(packed / TWO_128)), rest))
  {
    hide LongIds.ReadName, ReadAll, InfoOfBits;
    assert ([packed] + words)[1..] == words;
  }

  lemma TypeInfoFraming(ids: LongIds, t: TypeDeclaration, rest: Felts)
    requires ids.Valid() && WriteTypeInfo(ids, t).Ok?
    ensures |WriteTypeInfo(ids, t).value| >= 1
    ensures ReadTypeInfo(ids, t.id.Erased(), WriteTypeInfo(ids, t).value + rest)
            == Ok((ReadBackView(ids).OfType(t), rest))
  {
    hide LongIds.Decode, LongIds.Encode, LongIds.ReadBack, LongIds.WriteName, LongIds.ReadName, ReadTypeInfo;
    hide PackInfo, InfoBits, InfoOfBits, ReadAll, WriteAll;
    var generic, args := t.longId.genericId, t.longId.genericArgs;
    var name, words := ids.WriteName(generic).value, WriteAll(args, WriteArg).value;
    var packed := PackInfo(|args|, t.info);
    UnpackInfo(|args|, t.info);
    ArgsFrame(args);
    WriteAllFraming(args, EraseArgs(args), WriteArg, ReadArg, rest);
    NameFraming(ids, generic, [packed] + (words + rest));
    ThenTheRest(name, packed, words, rest);
    TypeInfoIsRead(ids, t.id.Erased(), name + ([packed] + words) + rest, ids.ReadBack(generic), packed, words + rest,
                   |args|, EraseArgs(args), rest);
  }

  // ---------------------------------------------------------------- libfunc declarations

  function WriteLongId(ids: LongIds, l: LongId): Written {
    var name :- ids.WriteName(l.genericId);
    var args :- WriteVec(l.genericArgs, WriteArg);
    Ok(name + args)
  }

  function ReadLongId(ids: LongIds, input: Felts): Read<LongId> {
    var (genericId, input) :- ids.ReadName(input);
    var (args, input) :- ReadVec(input, ReadArg);
    Ok((LongId(genericId, args), input))
  }

  lemma LongIdFraming(ids: LongIds, l: LongId, rest: Felts)
    requires ids.Valid() && WriteLongId(ids, l).Ok?
    ensures |WriteLongId(ids, l).value| >= 1
    ensures ReadLongId(ids, WriteLongId(ids, l).value + rest) == Ok((ReadBackView(ids).OfLongId(l), rest))
  {
    hide LongIds.Decode, LongIds.Encode, LongIds.ReadBack, LongIds.WriteName, LongIds.ReadName, ReadVec, WriteVec;
    var name, words := ids.WriteName(l.genericId).value, WriteVec(l.genericArgs, WriteArg).value;
    ArgsFrame(l.genericArgs);
    WriteVecFraming(l.genericArgs, EraseArgs(l.genericArgs), WriteArg, ReadArg, rest);
    assert name + words + rest == name + (words + rest);
    NameFraming(ids, l.genericId, words + rest);
  }

  // ---------------------------------------------------------------- statements

  function WriteTarget(t: BranchTarget): Felts {
    match t
    case Fallthrough => [USIZE_BOUND - 1]
    case ToStatement(i) => [i]
  }

  function ReadTarget(input: Felts): Read<BranchTarget> {
    var (index, input) :- ReadUsize(input);
    Ok((if index == USIZE_BOUND - 1 then Fallthrough else ToStatement(index), input))
  }

  /** A jump to the largest statement index is indistinguishable from a fall through. */
  function ReadBackTarget(t: BranchTarget): BranchTarget {
    if t == ToStatement(USIZE_BOUND - 1) then Fallthrough else t
  }

  function WriteBranch(b: BranchInfo): Written {
    var results :- WriteVec(b.results, WriteId);
    Ok(WriteTarget(b.target) + results)
  }

  function ReadBranch(input: Felts): Read<BranchInfo> {
    var (target, input) :- ReadTarget(input);
    var (results, input) :- ReadVec(input, ReadId);
    Ok((BranchInfo(target, results), input))
  }

  lemma BranchFrames(ids: LongIds, b: BranchInfo)
    ensures WriteBranch(b).Ok? && Frames(b, ReadBackView(ids).OfBranch(b), WriteBranch, ReadBranch)
  {
    IdsFraming(b.results, []);
    var target, results := WriteTarget(b.target), WriteVec(b.results, WriteId).value;
    forall rest: Felts ensures ReadBranch(WriteBranch(b).value + rest) == Ok((ReadBackView(ids).OfBranch(b), rest)) {
      assert target + results + rest == target + (results + rest);
      assert (target + (results + rest))[1..] == results + rest;
      IdsFraming(b.results, rest);
    }
  }

  lemma {:induction false} WriteBranchesSucceeds(ids: LongIds, bs: seq<BranchInfo>)
    ensures WriteAll(bs, WriteBranch).Ok?
  {
    if bs != [] {
      BranchFrames(ids, bs[0]);
      WriteBranchesSucceeds(ids, bs[1..]);
    }
  }

  lemma BranchesFraming(ids: LongIds, bs: Vec<BranchInfo>, rest: Felts)
    ensures WriteVec(bs, WriteBranch).Ok? && |WriteVec(bs, WriteBranch).value| >= 1
    ensures ReadVec(WriteVec(bs, WriteBranch).value + rest, ReadBranch) == Ok((ReadBackView(ids).OfBranches(bs), rest))
  {
    WriteBranchesSucceeds(ids, bs);
    var ys := ReadBackView(ids).OfBranches(bs);
    forall i | 0 <= i < |bs| && WriteBranch(bs[i]).Ok? ensures Frames(bs[i], ys[i], WriteBranch, ReadBranch) {
      BranchFrames(ids, bs[i]);
    }
    WriteVecFraming(bs, ys, WriteBranch, ReadBranch, rest);
  }

  function WriteStatement(s: Statement): Written {
    match s
    case Invocation(libfuncId, args, branches) =>
      var args :- WriteVec(args, WriteId);
      var branches :- WriteVec(branches, WriteBranch);
      Ok([0, libfuncId.id] + args + branches)
    case Return(vars) =>
      var vars :- WriteVec(vars, WriteId);
      Ok([1] + vars)
  }

  function ReadStatement(input: Felts): Read<Statement> {
    var (tag, input) :- ReadUsize(input);
    match tag
    case 0 =>
      var (libfuncId, input) :- ReadId(input);
      var (args, input) :- ReadVec(input, ReadId);
      var (branches, input) :- ReadVec(input, ReadBranch);
      Ok((Invocation(libfuncId, args, branches), input))
    case 1 =>
      var (vars, input) :- ReadVec(input, ReadId);
      Ok((Return(vars), input))
    case _ => Err(InvalidInputForDeserialization)
  }

  lemma InvocationFraming(ids: LongIds, s: Statement, rest: Felts)
    requires s.Invocation?
    ensures WriteStatement(s).Ok? && |WriteStatement(s).value| >= 1
    ensures ReadStatement(WriteStatement(s).value + rest) == Ok((ReadBackView(ids).OfStatement(s), rest))
  {
    hide ReadVec, WriteVec;
    IdsFraming(s.args, []);
    BranchesFraming(ids, s.branches, rest);
    var a, b := WriteVec(s.args, WriteId).value, WriteVec(s.branches, WriteBranch).value;
    var felts := [0, s.libfuncId.id] + a + b + rest;
    assert felts[1..] == [s.libfuncId.id] + (a + (b + rest));
    assert felts[1..][1..] == a + (b + rest);
    IdsFraming(s.args, b + rest);
  }

  lemma StatementFrames(ids: LongIds, s: Statement)
    ensures WriteStatement(s).Ok? && Frames(s, ReadBackView(ids).OfStatement(s), WriteStatement, ReadStatement)
  {
    match s {
      case Invocation(_, _, _) =>
        InvocationFraming(ids, s, []);
        forall rest: Felts
          ensures ReadStatement(WriteStatement(s).value + rest) == Ok((ReadBackView(ids).OfStatement(s), rest))
        {
          InvocationFraming(ids, s, rest);
        }
      case Return(vars) =>
        IdsFraming(vars, []);
        var v := WriteVec(vars, WriteId).value;
        forall rest: Felts
          ensures ReadStatement(WriteStatement(s).value + rest) == Ok((ReadBackView(ids).OfStatement(s), rest))
        {
          assert ([1] + v + rest)[1..] == v + rest;
          IdsFraming(vars, rest);
        }
    }
  }

  lemma {:induction false} WriteStatementsSucceeds(ids: LongIds, ss: seq<Statement>)
    ensures WriteAll(ss, WriteStatement).Ok?
  {
    if ss != [] {
      StatementFrames(ids, ss[0]);
      WriteStatementsSucceeds(ids, ss[1..]);
    }
  }

  // ---------------------------------------------------------------- functions

  function WriteSignature(s: Signature): Written {
    var params :- WriteVec(s.paramTypes, WriteId);
    var rets :- WriteVec(s.retTypes, WriteId);
    Ok(params + rets)
  }

  function ReadSignature(input: Felts): Read<Signature> {
    var (params, input) :- ReadVec(input, ReadId);
    var (rets, input) :- ReadVec(input, ReadId);
    Ok((Signature(params, rets), input))
  }

  lemma SignatureFraming(s: Signature, rest: Felts)
    ensures WriteSignature(s).Ok? && |WriteSignature(s).value| >= 1
    ensures ReadSignature(WriteSignature(s).value + rest) == Ok((EraseSignature(s), rest))
  {
    IdsFraming(s.paramTypes, []);
    IdsFraming(s.retTypes, rest);
    var params, rets := WriteVec(s.paramTypes, WriteId).value, WriteVec(s.retTypes, WriteId).value;
    IdsFraming(s.paramTypes, rets + rest);
    assert params + rets + rest == params + (rets + rest);
  }

  /** The zipped loop over parameters and parameter types. */
  function WriteParams(params: seq<Param>, types: seq<Id>): Written
    requires |params| == |types|
  {
    if params == [] then Ok([])
    else if params[0].ty.id != types[0].id then Err(FunctionArgumentsMismatch)
    else
      var rest :- WriteParams(params[1..], types[1..]);
      Ok([params[0].id.id] + rest)
  }

  function ReadParams(types: seq<Id>, input: Felts): (r: Read<seq<Param>>)
    ensures r.Ok? ==> |r.value.0| == |types|
  {
    if types == [] then Ok(([], input))
    else
      var (id, input) :- ReadId(input);
      var (params, input) :- ReadParams(types[1..], input);
      Ok(([Param(id, types[0])] + params, input))
  }

  lemma {:induction false} ParamsFraming(
    params: seq<Param>, types: seq<Id>, erased: seq<Id>, seen: seq<Param>, rest: Felts)
    requires |params| == |types| == |erased| == |seen|
    requires forall i :: 0 <= i < |types| ==> erased[i] == types[i].Erased()
    requires forall i :: 0 <= i < |params| ==> seen[i] == Param(params[i].id.Erased(), params[i].ty.Erased())
    requires WriteParams(params, types).Ok?
    ensures ReadParams(erased, WriteParams(params, types).value + rest) == Ok((seen, rest))
  {
    if params == [] {
      assert WriteParams(params, types).value + rest == rest;
    } else {
      ParamsFraming(params[1..], types[1..], erased[1..], seen[1..], rest);
      var tail := WriteParams(params[1..], types[1..]).value;
      assert ([params[0].id.id] + tail + rest)[1..] == tail + rest;
      assert seen == [seen[0]] + seen[1..];
    }
  }

  function WriteFunction(f: Function): Written {
    var signature :- WriteSignature(f.signature);
    if |f.signature.paramTypes| != |f.params| then Err(FunctionArgumentsMismatch)
    else
      var params :- WriteParams(f.params, f.signature.paramTypes);
      Ok(signature + params + [f.entryPoint])
  }

  function ReadFunction(id: Id, input: Felts): Read<Function> {
    var (signature, input) :- ReadSignature(input);
    var (params, input) :- ReadParams(signature.paramTypes, input);
    var (entryPoint, input) :- ReadUsize(input);
    Ok((Function(id, signature, params, entryPoint), input))
  }

  lemma FunctionFraming(f: Function, rest: Felts)
    requires WriteFunction(f).Ok?
    ensures |WriteFunction(f).value| >= 1
    ensures ReadFunction(f.id.Erased(), WriteFunction(f).value + rest) == Ok((EraseFunction(f), rest))
  {
    var types := f.signature.paramTypes;
    var signature, params := WriteSignature(f.signature).value, WriteParams(f.params, types).value;
    var tail := [f.entryPoint] + rest;
    assert signature + params + [f.entryPoint] + rest == signature + (params + tail);
    SignatureFraming(f.signature, params + tail);
    ParamsFraming(f.params, types, EraseIds(types), EraseParams(f.params), tail);
    assert tail[1..] == rest;
  }
}
