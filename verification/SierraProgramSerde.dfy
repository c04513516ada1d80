/** Whole Sierra programs: `Program`'s serialiser, and the compressed form a contract class stores. */
module SierraProgramSerde {
  import opened Wrappers
  import opened Numbers
  import opened SierraProgram
  import opened SierraSerde
  import VecCompression

  // ---------------------------------------------------------------- declarations in order of their ids

  /** Writes a declaration, given the position at which it must have been declared. */
  type DeclWriter<!T> = (U64, T) -> Written
  type DeclReader<T> = (U64, Felts) -> Read<T>

  function WriteDecl<T>(index: U64, x: T, write: DeclWriter<T>): Written { write(index, x) }

  function WriteDecls<T>(xs: seq<T>, first: nat, write: DeclWriter<T>): Written
    requires first + |xs| < USIZE_BOUND
  {
    if xs == [] then Ok([])
    else
      var head :- WriteDecl(first, xs[0], write);
      var tail :- WriteDecls(xs[1..], first + 1, write);
      Ok(head + tail)
  }

  function WriteSection<T>(xs: Vec<T>, write: DeclWriter<T>): Written {
    var decls :- WriteDecls(xs, 0, write);
    Ok([|xs|] + decls)
  }

  function ReadDecl<T>(index: U64, input: Felts, read: DeclReader<T>): Read<T> { read(index, input) }

  function ReadDecls<T>(size: nat, first: nat, input: Felts, read: DeclReader<T>): (r: Read<seq<T>>)
    requires first + size < USIZE_BOUND
    ensures r.Ok? ==> |r.value.0| == size
    decreases size
  {
    if size == 0 then Ok(([], input))
    else
      var (x, input) :- ReadDecl(first, input, read);
      var (xs, input) :- ReadDecls(size - 1, first + 1, input, read);
      Ok(([x] + xs, input))
  }

  function ReadSection<T>(input: Felts, read: DeclReader<T>): Read<Vec<T>> {
    var (size, input) :- ReadUsize(input);
    if |input| < size then Err(InvalidInputForDeserialization)
    else
      var (xs, input) :- ReadDecls(size, 0, input, read);
      Ok((xs, input))
  }

  ghost predicate FramesAt<T>(i: U64, x: T, y: T, write: DeclWriter<T>, read: DeclReader<T>)
    requires write(i, x).Ok?
  {
    && |write(i, x).value| >= 1
    && forall rest: Felts :: read(i, write(i, x).value + rest) == Ok((y, rest))
  }

  /** Each declaration of `xs`, if it is written, is read back as the one of `ys`. */
  ghost predicate AllFrame<T>(xs: seq<T>, ys: seq<T>, first: nat, write: DeclWriter<T>, read: DeclReader<T>)
    requires |xs| == |ys| && first + |xs| < USIZE_BOUND
  {
    forall i :: 0 <= i < |xs| && write(first + i, xs[i]).Ok? ==> FramesAt(first + i, xs[i], ys[i], write, read)
  }

  lemma AllFrameParts<T>(xs: seq<T>, ys: seq<T>, first: nat, write: DeclWriter<T>, read: DeclReader<T>)
    requires xs != [] && |xs| == |ys| && first + |xs| < USIZE_BOUND && AllFrame(xs, ys, first, write, read)
    ensures write(first, xs[0]).Ok? ==> FramesAt(first, xs[0], ys[0], write, read)
    ensures AllFrame(xs[1..], ys[1..], first + 1, write, read)
  {
    hide FramesAt;
    if write(first, xs[0]).Ok? { assert FramesAt(first + 0, xs[0], ys[0], write, read); }
    forall i | 0 <= i < |xs[1..]| && write(first + 1 + i, xs[1..][i]).Ok?
      ensures FramesAt(first + 1 + i, xs[1..][i], ys[1..][i], write, read)
    {
      assert FramesAt(first + (i + 1), xs[i + 1], ys[i + 1], write, read);
    }
  }

  lemma FramedBy<T>(i: U64, x: T, y: T, write: DeclWriter<T>, read: DeclReader<T>, rest: Felts)
    requires write(i, x).Ok? && FramesAt(i, x, y, write, read)
    ensures |write(i, x).value| >= 1 && read(i, write(i, x).value + rest) == Ok((y, rest))
  {
  }

  lemma WriteDeclsUnfold<T>(xs: seq<T>, first: nat, write: DeclWriter<T>)
    requires xs != [] && first + |xs| < USIZE_BOUND && WriteDecls(xs, first, write).Ok?
    ensures write(first, xs[0]).Ok? && WriteDecls(xs[1..], first + 1, write).Ok?
    ensures WriteDecls(xs, first, write).value
            == write(first, xs[0]).value + WriteDecls(xs[1..], first + 1, write).value
  {
  }

  lemma ReadDeclsUnfold<T>(
    size: nat, first: nat, input: Felts, read: DeclReader<T>, y: T, mid: Felts, ys: seq<T>, rest: Felts)
    requires size > 0 && first + size < USIZE_BOUND
    requires read(first, input) == Ok((y, mid)) && ReadDecls(size - 1, first + 1, mid, read) == Ok((ys, rest))
    ensures ReadDecls(size, first, input, read) == Ok(([y] + ys, rest))
  {
  }

  lemma HeadAndRest(head: Felts, tail: Felts, rest: Felts)
    ensures head + tail + rest == head + (tail + rest)
  {
  }

  lemma NothingFramed<T>(first: nat, write: DeclWriter<T>, read: DeclReader<T>, rest: Felts)
    requires first < USIZE_BOUND
    ensures WriteDecls([], first, write) == Ok([]) && ReadDecls(0, first, [] + rest, read) == Ok(([], rest))
  {
    assert [] + rest == rest;
  }

  lemma {:induction false} DeclsFraming<T>(
    xs: seq<T>, ys: seq<T>, first: nat, write: DeclWriter<T>, read: DeclReader<T>, rest: Felts)
    requires |xs| == |ys| && first + |xs| < USIZE_BOUND && WriteDecls(xs, first, write).Ok?
    requires AllFrame(xs, ys, first, write, read)
    ensures |WriteDecls(xs, first, write).value| >= |xs|
    ensures ReadDecls(|xs|, first, WriteDecls(xs, first, write).value + rest, read) == Ok((ys, rest))
  {
    hide FramesAt, AllFrame, WriteDecls, ReadDecls;
    if xs == [] {
      NothingFramed(first, write, read, rest);
    } else {
      WriteDeclsUnfold(xs, first, write);
      AllFrameParts(xs, ys, first, write, read);
      var head, tail := write(first, xs[0]).value, WriteDecls(xs[1..], first + 1, write).value;
      DeclsFraming(xs[1..], ys[1..], first + 1, write, read, rest);
      FramedBy(first, xs[0], ys[0], write, read, tail + rest);
      HeadAndRest(head, tail, rest);
      ReadDeclsUnfold(|xs|, first, head + tail + rest, read, ys[0], tail + rest, ys[1..], rest);
      assert ys == [ys[0]] + ys[1..];
    }
  }

  lemma SectionFraming<T>(xs: Vec<T>, ys: Vec<T>, write: DeclWriter<T>, read: DeclReader<T>, rest: Felts)
    requires |xs| == |ys| && WriteSection(xs, write).Ok? && AllFrame(xs, ys, 0, write, read)
    ensures ReadSection(WriteSection(xs, write).value + rest, read) == Ok((ys, rest))
  {
    hide AllFrame;
    var decls := WriteDecls(xs, 0, write).value;
    DeclsFraming(xs, ys, 0, write, read, rest);
    hide WriteDecls, ReadDecls;
    assert ([|xs|] + decls + rest)[1..] == decls + rest;
  }

  lemma {:induction false} WriteDeclsAccepts<T>(xs: seq<T>, first: nat, write: DeclWriter<T>)
    requires first + |xs| < USIZE_BOUND
    ensures WriteDecls(xs, first, write).Ok? <==> forall i :: 0 <= i < |xs| ==> write(first + i, xs[i]).Ok?
  {
    if xs != [] {
      WriteDeclsAccepts(xs[1..], first + 1, write);
      assert forall i :: 0 <= i < |xs[1..]| ==> xs[1..][i] == xs[i + 1] && first + 1 + i == first + (i + 1);
      if WriteDecls(xs, first, write).Ok? {
        forall i | 0 <= i < |xs| ensures write(first + i, xs[i]).Ok? {
          if i > 0 { assert write(first + 1 + (i - 1), xs[1..][i - 1]).Ok?; }
        }
      } else {
        assert !write(first + 0, xs[0]).Ok? || exists i :: 0 <= i < |xs[1..]| && !write(first + 1 + i, xs[1..][i]).Ok?;
      }
    }
  }

  // ---------------------------------------------------------------- the three kinds of declarations

  function TypeWriter(ids: LongIds): DeclWriter<TypeDeclaration> {
    (i: U64, t: TypeDeclaration) => WriteType(ids, i, t)
  }

  function WriteType(ids: LongIds, i: U64, t: TypeDeclaration): Written {
    if t.id.id != i then Err(OutOfOrderTypeDeclarations) else WriteTypeInfo(ids, t)
  }

  function TypeReader(ids: LongIds): DeclReader<TypeDeclaration> {
    (i: U64, input: Felts) => ReadTypeInfo(ids, Id(i, None), input)
  }

  function LibfuncWriter(ids: LongIds): DeclWriter<LibfuncDeclaration> {
    (i: U64, l: LibfuncDeclaration) => WriteLibfunc(ids, i, l)
  }

  function WriteLibfunc(ids: LongIds, i: U64, l: LibfuncDeclaration): Written {
    if l.id.id != i then Err(OutOfOrderLibfuncDeclarations) else WriteLongId(ids, l.longId)
  }

  function LibfuncReader(ids: LongIds): DeclReader<LibfuncDeclaration> {
    (i: U64, input: Felts) => ReadLibfunc(ids, i, input)
  }

  function ReadLibfunc(ids: LongIds, i: U64, input: Felts): Read<LibfuncDeclaration> {
    var (longId, input) :- ReadLongId(ids, input);
    Ok((LibfuncDeclaration(Id(i, None), longId), input))
  }

  function FunctionWriter(): DeclWriter<Function> {
    (i: U64, f: Function) => WriteUserFunction(i, f)
  }

  function WriteUserFunction(i: U64, f: Function): Written {
    if f.id.id != i then Err(OutOfOrderUserFunctionDeclarations) else WriteFunction(f)
  }

  function FunctionReader(): DeclReader<Function> {
    (i: U64, input: Felts) => ReadFunction(Id(i, None), input)
  }

  lemma TypeFrames(ids: LongIds, i: U64, t: TypeDeclaration)
    requires ids.Valid() && WriteType(ids, i, t).Ok?
    ensures FramesAt(i, t, ReadBackView(ids).OfType(t), TypeWriter(ids), TypeReader(ids))
  {
    hide WriteTypeInfo, ReadTypeInfo, LongIds.Valid;
    TypeInfoFraming(ids, t, []);
    forall tail: Felts
      ensures TypeReader(ids)(i, TypeWriter(ids)(i, t).value + tail) == Ok((ReadBackView(ids).OfType(t), tail))
    {
      TypeInfoFraming(ids, t, tail);
    }
  }

  lemma TypeSectionFraming(ids: LongIds, types: Vec<TypeDeclaration>, seen: Vec<TypeDeclaration>, rest: Felts)
    requires ids.Valid() && WriteSection(types, TypeWriter(ids)).Ok?
    requires |seen| == |types| && forall i :: 0 <= i < |types| ==> seen[i] == ReadBackView(ids).OfType(types[i])
    ensures ReadSection(WriteSection(types, TypeWriter(ids)).value + rest, TypeReader(ids)) == Ok((seen, rest))
  {
    hide FramesAt, LongIds.Valid, WriteType, ReadTypeInfo, WriteSection, ReadSection;
    var write, read := TypeWriter(ids), TypeReader(ids);
    forall i | 0 <= i < |types| && write(i, types[i]).Ok? ensures FramesAt(i, types[i], seen[i], write, read) {
      TypeFrames(ids, i, types[i]);
    }
    SectionFraming(types, seen, write, read, rest);
  }

  lemma LibfuncFrames(ids: LongIds, i: U64, l: LibfuncDeclaration)
    requires ids.Valid() && WriteLibfunc(ids, i, l).Ok?
    ensures FramesAt(i, l, ReadBackView(ids).OfLibfunc(l), LibfuncWriter(ids), LibfuncReader(ids))
  {
    hide WriteLongId, ReadLongId, LongIds.Valid;
    LongIdFraming(ids, l.longId, []);
    forall tail: Felts
      ensures LibfuncReader(ids)(i, LibfuncWriter(ids)(i, l).value + tail) == Ok((ReadBackView(ids).OfLibfunc(l), tail))
    {
      LongIdFraming(ids, l.longId, tail);
    }
  }

  lemma LibfuncSectionFraming(
    ids: LongIds, libfuncs: Vec<LibfuncDeclaration>, seen: Vec<LibfuncDeclaration>, rest: Felts)
    requires ids.Valid() && WriteSection(libfuncs, LibfuncWriter(ids)).Ok?
    requires |seen| == |libfuncs| && forall i :: 0 <= i < |libfuncs| ==>
             seen[i] == ReadBackView(ids).OfLibfunc(libfuncs[i])
    ensures ReadSection(WriteSection(libfuncs, LibfuncWriter(ids)).value + rest, LibfuncReader(ids)) == Ok((seen, rest))
  {
    hide FramesAt, LongIds.Valid, WriteLibfunc, ReadLibfunc, WriteSection, ReadSection;
    var write, read := LibfuncWriter(ids), LibfuncReader(ids);
    forall i | 0 <= i < |libfuncs| && write(i, libfuncs[i]).Ok? ensures FramesAt(i, libfuncs[i], seen[i], write, read) {
      LibfuncFrames(ids, i, libfuncs[i]);
    }
    SectionFraming(libfuncs, seen, write, read, rest);
  }

  lemma FunctionFrames(i: U64, f: Function)
    requires WriteUserFunction(i, f).Ok?
    ensures FramesAt(i, f, EraseFunction(f), FunctionWriter(), FunctionReader())
  {
    hide WriteFunction, ReadFunction;
    FunctionFraming(f, []);
    forall tail: Felts
      ensures FunctionReader()(i, FunctionWriter()(i, f).value + tail) == Ok((EraseFunction(f), tail))
    {
      FunctionFraming(f, tail);
    }
  }

  lemma FunctionSectionFraming(funcs: Vec<Function>, seen: Vec<Function>, rest: Felts)
    requires WriteSection(funcs, FunctionWriter()).Ok?
    requires |seen| == |funcs| && forall i :: 0 <= i < |funcs| ==> seen[i] == EraseFunction(funcs[i])
    ensures ReadSection(WriteSection(funcs, FunctionWriter()).value + rest, FunctionReader()) == Ok((seen, rest))
  {
    hide FramesAt, WriteUserFunction, ReadFunction, WriteSection, ReadSection;
    var write, read := FunctionWriter(), FunctionReader();
    forall i | 0 <= i < |funcs| && write(i, funcs[i]).Ok? ensures FramesAt(i, funcs[i], seen[i], write, read) {
      FunctionFrames(i, funcs[i]);
    }
    SectionFraming(funcs, seen, write, read, rest);
  }

  lemma StatementsFraming(ids: LongIds, statements: Vec<Statement>, seen: Vec<Statement>, rest: Felts)
    requires |seen| == |statements|
    requires forall i :: 0 <= i < |statements| ==> seen[i] == ReadBackView(ids).OfStatement(statements[i])
    ensures WriteVec(statements, WriteStatement).Ok?
    ensures ReadVec(WriteVec(statements, WriteStatement).value + rest, ReadStatement) == Ok((seen, rest))
  {
    WriteStatementsSucceeds(ids, statements);
    forall i | 0 <= i < |statements|
      ensures WriteStatement(statements[i]).Ok? && Frames(statements[i], seen[i], WriteStatement, ReadStatement)
    {
      StatementFrames(ids, statements[i]);
    }
    WriteVecFraming(statements, seen, WriteStatement, ReadStatement, rest);
  }

  // ---------------------------------------------------------------- programs

  function WriteProgram(ids: LongIds, p: Program): Written {
    var types :- WriteSection(p.types, TypeWriter(ids));
    var libfuncs :- WriteSection(p.libfuncs, LibfuncWriter(ids));
    var statements :- WriteVec(p.statements, WriteStatement);
    var funcs :- WriteSection(p.funcs, FunctionWriter());
    Ok(types + (libfuncs + (statements + funcs)))
  }

  function ReadProgram(ids: LongIds, input: Felts): Read<Program> {
    var (types, input) :- ReadSection(input, TypeReader(ids));
    var (libfuncs, input) :- ReadSection(input, LibfuncReader(ids));
    var (statements, input) :- ReadVec(input, ReadStatement);
    var (funcs, input) :- ReadSection(input, FunctionReader());
    Ok((Program(types, libfuncs, statements, funcs), input))
  }

  lemma RegroupFour(a: Felts, b: Felts, c: Felts, d: Felts, rest: Felts)
    ensures a + (b + (c + d)) + rest == a + (b + (c + (d + rest)))
  {
    assert c + d + rest == c + (d + rest);
    assert b + (c + d) + rest == b + (c + (d + rest));
  }

  /** Whatever follows a written program, reading gives the program's read-back view and what follows. */
  lemma ProgramFraming(ids: LongIds, p: Program, rest: Felts)
    requires ids.Valid() && WriteProgram(ids, p).Ok?
    ensures ReadProgram(ids, WriteProgram(ids, p).value + rest) == Ok((ReadBackView(ids).OfProgram(p), rest))
  {
    hide WriteSection, ReadSection, WriteVec, ReadVec;
    var seen := ReadBackView(ids).OfProgram(p);
    StatementsFraming(ids, p.statements, seen.statements, []);
    var types := WriteSection(p.types, TypeWriter(ids)).value;
    var libfuncs := WriteSection(p.libfuncs, LibfuncWriter(ids)).value;
    var statements := WriteVec(p.statements, WriteStatement).value;
    var funcs := WriteSection(p.funcs, FunctionWriter()).value;
    RegroupFour(types, libfuncs, statements, funcs, rest);
    TypeSectionFraming(ids, p.types, seen.types, libfuncs + (statements + (funcs + rest)));
    LibfuncSectionFraming(ids, p.libfuncs, seen.libfuncs, statements + (funcs + rest));
    StatementsFraming(ids, p.statements, seen.statements, funcs + rest);
    FunctionSectionFraming(p.funcs, seen.funcs, rest);
  }

  /** What the serialiser demands of a program. */
  ghost predicate Serializable(ids: LongIds, p: Program) {
    && (forall i :: 0 <= i < |p.types| ==> p.types[i].id.id == i && ids.Supports(p.types[i].longId.genericId))
    && (forall i :: 0 <= i < |p.libfuncs| ==> p.libfuncs[i].id.id == i && ids.Supports(p.libfuncs[i].longId.genericId))
    && (forall i :: 0 <= i < |p.funcs| ==>
        p.funcs[i].id.id == i && ParamsMatch(p.funcs[i].params, p.funcs[i].signature.paramTypes))
  }

  ghost predicate ParamsMatch(params: seq<Param>, types: seq<Id>) {
    && |params| == |types|
    && forall i :: 0 <= i < |params| ==> params[i].ty.id == types[i].id
  }

  lemma {:induction false} WriteParamsAccepts(params: seq<Param>, types: seq<Id>)
    requires |params| == |types|
    ensures WriteParams(params, types).Ok? <==> ParamsMatch(params, types)
  {
    if params != [] {
      WriteParamsAccepts(params[1..], types[1..]);
      if ParamsMatch(params[1..], types[1..]) && params[0].ty.id == types[0].id {
        forall i | 0 <= i < |params| ensures params[i].ty.id == types[i].id {
          if i > 0 { assert params[1..][i - 1].ty.id == types[1..][i - 1].id; }
        }
      }
    }
  }

  lemma WriteTypesAccepts(ids: LongIds, types: Vec<TypeDeclaration>)
    ensures WriteSection(types, TypeWriter(ids)).Ok?
            <==> forall i :: 0 <= i < |types| ==> types[i].id.id == i && ids.Supports(types[i].longId.genericId)
  {
    var write := TypeWriter(ids);
    WriteDeclsAccepts(types, 0, write);
    forall i | 0 <= i < |types|
      ensures write(0 + i, types[i]).Ok? <==> types[i].id.id == i && ids.Supports(types[i].longId.genericId)
    {
      WriteArgsSucceeds(types[i].longId.genericArgs);
      assert write(0 + i, types[i]) == WriteType(ids, i, types[i]);
    }
  }

  lemma WriteLibfuncsAccepts(ids: LongIds, libfuncs: Vec<LibfuncDeclaration>)
    ensures WriteSection(libfuncs, LibfuncWriter(ids)).Ok?
            <==> forall i :: 0 <= i < |libfuncs| ==>
              libfuncs[i].id.id == i && ids.Supports(libfuncs[i].longId.genericId)
  {
    var write := LibfuncWriter(ids);
    WriteDeclsAccepts(libfuncs, 0, write);
    forall i | 0 <= i < |libfuncs|
      ensures write(0 + i, libfuncs[i]).Ok? <==> libfuncs[i].id.id == i && ids.Supports(libfuncs[i].longId.genericId)
    {
      WriteArgsSucceeds(libfuncs[i].longId.genericArgs);
      assert write(0 + i, libfuncs[i]) == WriteLibfunc(ids, i, libfuncs[i]);
    }
  }

  lemma WriteFunctionsAccepts(funcs: Vec<Function>)
    ensures WriteSection(funcs, FunctionWriter()).Ok?
            <==> forall i :: 0 <= i < |funcs| ==>
              funcs[i].id.id == i && ParamsMatch(funcs[i].params, funcs[i].signature.paramTypes)
  {
    var write := FunctionWriter();
    WriteDeclsAccepts(funcs, 0, write);
    forall i | 0 <= i < |funcs|
      ensures write(0 + i, funcs[i]).Ok?
              <==> funcs[i].id.id == i && ParamsMatch(funcs[i].params, funcs[i].signature.paramTypes)
    {
      var f := funcs[i];
      assert write(0 + i, f) == WriteUserFunction(i, f);
      SignatureFraming(f.signature, []);
      if |f.params| == |f.signature.paramTypes| { WriteParamsAccepts(f.params, f.signature.paramTypes); }
    }
  }

  /**
   A program is written exactly when its declarations are in order, its names supported and its parameters typed as
   signed.
   */
  lemma WriteProgramAccepts(ids: LongIds, p: Program)
    ensures WriteProgram(ids, p).Ok? <==> Serializable(ids, p)
  {
    hide WriteSection, WriteVec, LongIds.Supports, ParamsMatch;
    WriteTypesAccepts(ids, p.types);
    WriteLibfuncsAccepts(ids, p.libfuncs);
    WriteFunctionsAccepts(p.funcs);
    StatementsFraming(ids, p.statements, ReadBackView(ids).OfProgram(p).statements, []);
  }

  // ---------------------------------------------------------------- the loops

  /** The vector that `serialize` pushes into. */
  class FeltVec {
    var felts: Felts

    constructor ()
      ensures felts == []
    {
      felts := [];
    }
  }

  /** `before` was extended by exactly the written words, or by some of them before the error. */
  ghost predicate Pushed(before: Felts, after: Felts, r: Result<(), Error>, expected: Written) {
    match expected
    case Ok(words) => r == Ok(()) && after == before + words
    case Err(e) => r == Err(e) && before <= after
  }

  function Prepend(front: Felts, back: Written): Written {
    match back
    case Ok(words) => Ok(front + words)
    case Err(e) => Err(e)
  }

  method SerializeSection<T>(xs: Vec<T>, write: DeclWriter<T>, output: FeltVec) returns (r: Result<(), Error>)
    modifies output
    ensures Pushed(old(output.felts), output.felts, r, WriteSection(xs, write))
  {
    ghost var words: Felts := [|xs|];
    output.felts := output.felts + [|xs|];
    assert WriteSection(xs, write) == Prepend(words, WriteDecls(xs[0..], 0, write));
    for i := 0 to |xs|
      invariant output.felts == old(output.felts) + words
      invariant WriteSection(xs, write) == Prepend(words, WriteDecls(xs[i..], i, write))
    {
      var head := WriteDecl(i, xs[i], write);
      assert xs[i..][0] == xs[i] && xs[i..][1..] == xs[i + 1..];
      if head.Err? { return Err(head.error); }
      ghost var tail := WriteDecls(xs[i + 1..], i + 1, write);
      assert tail.Ok? ==> words + (head.value + tail.value) == words + head.value + tail.value;
      words := words + head.value;
      output.felts := output.felts + head.value;
    }
    assert words + [] == words;
    r := Ok(());
  }

  /** `Vec::serialize`. */
  method SerializeVec<T>(xs: Vec<T>, write: T -> Written, output: FeltVec) returns (r: Result<(), Error>)
    modifies output
    ensures Pushed(old(output.felts), output.felts, r, WriteVec(xs, write))
  {
    ghost var words: Felts := [|xs|];
    output.felts := output.felts + [|xs|];
    assert WriteVec(xs, write) == Prepend(words, WriteAll(xs[0..], write));
    for i := 0 to |xs|
      invariant output.felts == old(output.felts) + words
      invariant WriteVec(xs, write) == Prepend(words, WriteAll(xs[i..], write))
    {
      var head := WriteElement(xs[i], write);
      assert xs[i..][0] == xs[i] && xs[i..][1..] == xs[i + 1..];
      if head.Err? { return Err(head.error); }
      ghost var tail := WriteAll(xs[i + 1..], write);
      assert tail.Ok? ==> words + (head.value + tail.value) == words + head.value + tail.value;
      words := words + head.value;
      output.felts := output.felts + head.value;
    }
    assert words + [] == words;
    r := Ok(());
  }

  method SerializeProgram(ids: LongIds, p: Program, output: FeltVec) returns (r: Result<(), Error>)
    modifies output
    ensures Pushed(old(output.felts), output.felts, r, WriteProgram(ids, p))
  {
    hide WriteSection, WriteVec;
    r := SerializeSection(p.types, TypeWriter(ids), output);
    if r.Err? { return; }
    r := SerializeSection(p.libfuncs, LibfuncWriter(ids), output);
    if r.Err? { return; }
    r := SerializeVec(p.statements, WriteStatement, output);
    if r.Err? { return; }
    r := SerializeSection(p.funcs, FunctionWriter(), output);
    if r.Err? { return; }
    RegroupFour(old(output.felts), WriteSection(p.types, TypeWriter(ids)).value,
                WriteSection(p.libfuncs, LibfuncWriter(ids)).value,
      WriteVec(p.statements, WriteStatement).value, WriteSection(p.funcs, FunctionWriter()).value);
  }

  method DeserializeSection<T>(input: Felts, read: DeclReader<T>) returns (r: Read<Vec<T>>)
    ensures r == ReadSection(input, read)
  {
    var header := ReadUsize(input);
    if header.Err? { return Err(header.error); }
    var (size, rest) := header.value;
    if |rest| < size { return Err(InvalidInputForDeserialization); }
    var result: seq<T> := [];
    ghost var whole := ReadDecls(size, 0, rest, read);
    assert whole.Ok? ==> result + whole.value.0 == whole.value.0;
    for i := 0 to size
      invariant |result| == i
      invariant ReadSection(input, read) == AppendTo(result, size, ReadDecls(size - i, i, rest, read))
    {
      var next := ReadDecl(i, rest, read);
      if next.Err? { return Err(next.error); }
      var (x, after) := next.value;
      ghost var more := ReadDecls(size - i - 1, i + 1, after, read);
      assert more.Ok? ==> result + ([x] + more.value.0) == result + [x] + more.value.0;
      result, rest := result + [x], after;
    }
    assert result + [] == result;
    r := Ok((result, rest));
  }

  method DeserializeProgram(ids: LongIds, input: Felts) returns (r: Read<Program>)
    ensures r == ReadProgram(ids, input)
  {
    hide ReadSection, ReadVec;
    var types := DeserializeSection(input, TypeReader(ids));
    if types.Err? { return Err(types.error); }
    var libfuncs := DeserializeSection(types.value.1, LibfuncReader(ids));
    if libfuncs.Err? { return Err(libfuncs.error); }
    var statements := DeserializeVec(libfuncs.value.1, ReadStatement);
    if statements.Err? { return Err(statements.error); }
    var funcs := DeserializeSection(statements.value.1, FunctionReader());
    if funcs.Err? { return Err(funcs.error); }
    r := Ok((Program(types.value.0, libfuncs.value.0, statements.value.0, funcs.value.0), funcs.value.1));
  }

  // ---------------------------------------------------------------- what survives

  /** Every generic name survives, and no branch jumps to the largest statement index. */
  ghost predicate Faithful(ids: LongIds, p: Program) {
    && (forall t :: t in p.types ==> ids.Survives(t.longId.genericId))
    && (forall l :: l in p.libfuncs ==> ids.Survives(l.longId.genericId))
    && (forall s :: s in p.statements ==> JumpsSurvive(s))
  }

  ghost predicate JumpsSurvive(s: Statement) {
    s.Invocation? ==> forall b :: b in s.branches ==> b.target != ToStatement(USIZE_BOUND - 1)
  }

  lemma StatementReadBack(ids: LongIds, s: Statement)
    ensures ReadBackView(ids).OfStatement(s) == PlainView().OfStatement(s) <==> JumpsSurvive(s)
  {
    if s.Invocation? {
      var seen, plain := ReadBackView(ids).OfBranches(s.branches), PlainView().OfBranches(s.branches);
      if JumpsSurvive(s) {
        assert seen == plain;
      } else {
        var i :| 0 <= i < |s.branches| && s.branches[i].target == ToStatement(USIZE_BOUND - 1);
        assert seen[i] != plain[i];
      }
    }
  }

  lemma TypesReadBack(ids: LongIds, p: Program)
    requires ids.Valid()
    ensures ReadBackView(ids).OfProgram(p).types == Erased(p).types
            <==> forall t :: t in p.types ==> ids.Survives(t.longId.genericId)
  {
    hide LongIds.Survives;
    var seen, plain := ReadBackView(ids).OfProgram(p).types, Erased(p).types;
    forall i | 0 <= i < |p.types| ensures seen[i] == plain[i] <==> ids.Survives(p.types[i].longId.genericId) {
      NameSurvives(ids, p.types[i].longId.genericId);
    }
  }

  lemma LibfuncsReadBack(ids: LongIds, p: Program)
    requires ids.Valid()
    ensures ReadBackView(ids).OfProgram(p).libfuncs == Erased(p).libfuncs
            <==> forall l :: l in p.libfuncs ==> ids.Survives(l.longId.genericId)
  {
    hide LongIds.Survives;
    var seen, plain := ReadBackView(ids).OfProgram(p).libfuncs, Erased(p).libfuncs;
    forall i | 0 <= i < |p.libfuncs| ensures seen[i] == plain[i] <==> ids.Survives(p.libfuncs[i].longId.genericId) {
      NameSurvives(ids, p.libfuncs[i].longId.genericId);
    }
  }

  lemma StatementsReadBack(ids: LongIds, p: Program)
    ensures ReadBackView(ids).OfProgram(p).statements == Erased(p).statements
            <==> forall s :: s in p.statements ==> JumpsSurvive(s)
  {
    hide JumpsSurvive;
    var seen, plain := ReadBackView(ids).OfProgram(p).statements, Erased(p).statements;
    forall i | 0 <= i < |p.statements| ensures seen[i] == plain[i] <==> JumpsSurvive(p.statements[i]) {
      StatementReadBack(ids, p.statements[i]);
    }
  }

  lemma ReadBackIsErasureIffFaithful(ids: LongIds, p: Program)
    requires ids.Valid()
    ensures ReadBackView(ids).OfProgram(p) == Erased(p) <==> Faithful(ids, p)
  {
    hide LongIds.Survives, JumpsSurvive;
    TypesReadBack(ids, p);
    LibfuncsReadBack(ids, p);
    StatementsReadBack(ids, p);
  }

  // ---------------------------------------------------------------- versions and compression

  function WriteVersion(v: Version): Felts { [v.major, v.minor, v.patch] }

  function ReadVersion(input: Felts): Read<Version> {
    var (major, input) :- ReadUsize(input);
    var (minor, input) :- ReadUsize(input);
    var (patch, input) :- ReadUsize(input);
    Ok((Version(major, minor, patch), input))
  }

  lemma VersionFraming(v: Version, rest: Felts)
    ensures ReadVersion(WriteVersion(v) + rest) == Ok((v, rest))
  {
    var felts := WriteVersion(v) + rest;
    assert felts[1..] == [v.minor, v.patch] + rest;
    assert felts[1..][1..] == [v.patch] + rest;
    assert felts[1..][1..][1..] == rest;
  }

  /** `sierra_to_felt252s`. A vector too long for memory stops the program. */
  function SierraToFelts(ids: LongIds, sierraVersion: Version, compilerVersion: Version, p: Program): Written {
    var words :- WriteProgram(ids, p);
    if |words| >= SLICE_BOUND then Err(Panics)
    else Ok(WriteVersion(sierraVersion) + (WriteVersion(compilerVersion) + VecCompression.Compress(words)))
  }

  /** `sierra_from_felt252s`. */
  function SierraFromFelts(ids: LongIds, felts: Felts): Result<(Version, Version, Program), Error> {
    var (sierraVersion, felts) :- ReadVersion(felts);
    var (compilerVersion, felts) :- ReadVersion(felts);
    match VecCompression.Decompress(felts)
    case Rejected => Err(InvalidInputForDeserialization)
    case Overflowed => Err(Panics)
    case Diverges => Err(NeverReturns)
    case Unpacked(words) =>
      var (p, _) :- ReadProgram(ids, words);
      Ok((sierraVersion, compilerVersion, p))
  }

  lemma SierraReadBack(ids: LongIds, sierraVersion: Version, compilerVersion: Version, p: Program, trailing: Felts)
    requires ids.Valid() && SierraToFelts(ids, sierraVersion, compilerVersion, p).Ok?
    ensures SierraFromFelts(ids, SierraToFelts(ids, sierraVersion, compilerVersion, p).value + trailing)
            == Ok((sierraVersion, compilerVersion, ReadBackView(ids).OfProgram(p)))
  {
    hide WriteProgram, ReadProgram, VecCompression.Compress, VecCompression.Decompress, ReadVersion, WriteVersion;
    var words := WriteProgram(ids, p).value;
    var first, second, packed :=
      WriteVersion(sierraVersion), WriteVersion(compilerVersion), VecCompression.Compress(words);
    assert first + (second + packed) + trailing == first + (second + (packed + trailing));
    VersionFraming(sierraVersion, second + (packed + trailing));
    VersionFraming(compilerVersion, packed + trailing);
    VecCompression.DecompressInvertsCompress(words, trailing);
    ProgramFraming(ids, p, []);
    assert words + [] == words;
  }

  /**
   Every program that `sierra_to_felt252s` accepts is read back, and it comes back the same up to debug
   names exactly when it is `Faithful`; felts after the written ones change nothing.
   */
  lemma SierraRoundTrip(ids: LongIds, sierraVersion: Version, compilerVersion: Version, p: Program, trailing: Felts)
    requires ids.Valid()
    ensures var written := SierraToFelts(ids, sierraVersion, compilerVersion, p);
            written.Ok? ==>
              var back := SierraFromFelts(ids, written.value + trailing);
              && back.Ok?
              && (back == Ok((sierraVersion, compilerVersion, Erased(p))) <==> Faithful(ids, p))
  {
    if SierraToFelts(ids, sierraVersion, compilerVersion, p).Ok? {
      SierraReadBack(ids, sierraVersion, compilerVersion, p, trailing);
      ReadBackIsErasureIffFaithful(ids, p);
    }
  }

  /** A jump to the largest statement index comes back as a fall through. */
  lemma LargestJumpIsLost(ids: LongIds)
    requires ids.Valid()
    ensures var p := Program([], [], [Invocation(Id(0, None), [], [BranchInfo(ToStatement(USIZE_BOUND - 1), [])])], []);
            var q := Program([], [], [Invocation(Id(0, None), [], [BranchInfo(Fallthrough, [])])], []);
            WriteProgram(ids, p).Ok? && ReadProgram(ids, WriteProgram(ids, p).value) == Ok((q, []))
  {
    var p := Program([], [], [Invocation(Id(0, None), [], [BranchInfo(ToStatement(USIZE_BOUND - 1), [])])], []);
    var q := Program([], [], [Invocation(Id(0, None), [], [BranchInfo(Fallthrough, [])])], []);
    WriteProgramAccepts(ids, p);
    ProgramFraming(ids, p, []);
    var seen := ReadBackView(ids).OfProgram(p);
    assert seen.statements[0].branches == q.statements[0].branches;
    assert seen.statements == q.statements;
    assert WriteProgram(ids, p).value + [] == WriteProgram(ids, p).value;
  }
}
