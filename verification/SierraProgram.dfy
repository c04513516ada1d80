/** Sierra programs as the serialiser sees them. Strings are their UTF-8 bytes. */
module SierraProgram {
  import opened Wrappers
  import opened Numbers

  type Byte = b: nat | b < 256
  type U64 = n: nat | n < USIZE_BOUND
  /** A Rust vector: its length is a `usize`. */
  type Vec<T> = s: seq<T> | |s| < USIZE_BOUND

  predicate IsContinuation(b: Byte) { 0x80 <= b <= 0xBF }

  /** The byte sequences a Rust string may hold (table 3-7 of the Unicode standard). */
  predicate IsUtf8(s: seq<Byte>) {
    if s == [] then true
    else if s[0] < 0x80 then IsUtf8(s[1..])
    else if 0xC2 <= s[0] <= 0xDF then |s| >= 2 && IsContinuation(s[1]) && IsUtf8(s[2..])
    else if 0xE0 <= s[0] <= 0xEF then
      && |s| >= 3 && IsContinuation(s[1]) && IsContinuation(s[2])
      && (s[0] == 0xE0 ==> 0xA0 <= s[1]) && (s[0] == 0xED ==> s[1] <= 0x9F)
      && IsUtf8(s[3..])
    else if 0xF0 <= s[0] <= 0xF4 then
      && |s| >= 4 && IsContinuation(s[1]) && IsContinuation(s[2]) && IsContinuation(s[3])
      && (s[0] == 0xF0 ==> 0x90 <= s[1]) && (s[0] == 0xF4 ==> s[1] <= 0x8F)
      && IsUtf8(s[4..])
    else false
  }

  type Name = s: seq<Byte> | IsUtf8(s)

  /** The id types over `u64`. The debug name is not serialised and does not take part in comparisons. */
  datatype Id = Id(id: U64, debugName: Option<Name>) {
    function Erased(): Id { Id(id, None) }
  }

  datatype UserTypeId = UserTypeId(id: nat, debugName: Option<Name>)

  datatype GenericArg =
    | UserType(userType: UserTypeId)
    | Type(ty: Id)
    | Value(value: int)
    | UserFunc(func: Id)
    | Libfunc(libfunc: Id)
  {
    function Erased(): GenericArg {
      match this
      case UserType(u) => UserType(UserTypeId(u.id, None))
      case Type(i) => Type(i.Erased())
      case Value(_) => this
      case UserFunc(i) => UserFunc(i.Erased())
      case Libfunc(i) => Libfunc(i.Erased())
    }
  }

  datatype LongId = LongId(genericId: Name, genericArgs: Vec<GenericArg>)
  datatype DeclaredTypeInfo = DeclaredTypeInfo(storable: bool, droppable: bool, duplicatable: bool, zeroSized: bool)
  datatype TypeDeclaration = TypeDeclaration(id: Id, longId: LongId, info: Option<DeclaredTypeInfo>)
  datatype LibfuncDeclaration = LibfuncDeclaration(id: Id, longId: LongId)

  datatype BranchTarget = Fallthrough | ToStatement(index: U64)
  datatype BranchInfo = BranchInfo(target: BranchTarget, results: Vec<Id>)
  datatype Statement =
    | Invocation(libfuncId: Id, args: Vec<Id>, branches: Vec<BranchInfo>)
    | Return(vars: Vec<Id>)

  datatype Signature = Signature(paramTypes: Vec<Id>, retTypes: Vec<Id>)
  datatype Param = Param(id: Id, ty: Id)
  datatype Function = Function(id: Id, signature: Signature, params: Vec<Param>, entryPoint: U64)

  datatype Program = Program(
    types: Vec<TypeDeclaration>,
    libfuncs: Vec<LibfuncDeclaration>,
    statements: Vec<Statement>,
    funcs: Vec<Function>)

  datatype Version = Version(major: U64, minor: U64, patch: U64)

  // ---------------------------------------------------------------- views of a program

  /**
   A view shows a program without debug names, with each generic name and each branch target as `name`
   and `target` show them.
   */
  datatype View = View(name: Name -> Name, target: BranchTarget -> BranchTarget) {
    function OfLongId(l: LongId): LongId {
      LongId(name(l.genericId), EraseArgs(l.genericArgs))
    }

    function OfType(t: TypeDeclaration): TypeDeclaration {
      TypeDeclaration(t.id.Erased(), OfLongId(t.longId), t.info)
    }

    function OfLibfunc(l: LibfuncDeclaration): LibfuncDeclaration {
      LibfuncDeclaration(l.id.Erased(), OfLongId(l.longId))
    }

    function OfBranch(b: BranchInfo): BranchInfo {
      BranchInfo(target(b.target), EraseIds(b.results))
    }

    function OfBranches(bs: Vec<BranchInfo>): (r: Vec<BranchInfo>) {
      seq(|bs|, i requires 0 <= i < |bs| => OfBranch(bs[i]))
    }

    function OfStatement(s: Statement): Statement {
      match s
      case Invocation(l, args, branches) => Invocation(l.Erased(), EraseIds(args), OfBranches(branches))
      case Return(vars) => Return(EraseIds(vars))
    }

    function OfProgram(p: Program): Program {
      Program(
        seq(|p.types|, i requires 0 <= i < |p.types| => OfType(p.types[i])),
        seq(|p.libfuncs|, i requires 0 <= i < |p.libfuncs| => OfLibfunc(p.libfuncs[i])),
        seq(|p.statements|, i requires 0 <= i < |p.statements| => OfStatement(p.statements[i])),
        seq(|p.funcs|, i requires 0 <= i < |p.funcs| => EraseFunction(p.funcs[i])))
    }
  }

  function EraseIds(ids: Vec<Id>): (r: Vec<Id>) {
    seq(|ids|, i requires 0 <= i < |ids| => ids[i].Erased())
  }

  function EraseArgs(args: Vec<GenericArg>): (r: Vec<GenericArg>) {
    seq(|args|, i requires 0 <= i < |args| => args[i].Erased())
  }

  function EraseParams(ps: Vec<Param>): (r: Vec<Param>) {
    seq(|ps|, i requires 0 <= i < |ps| => Param(ps[i].id.Erased(), ps[i].ty.Erased()))
  }

  function EraseSignature(s: Signature): Signature {
    Signature(EraseIds(s.paramTypes), EraseIds(s.retTypes))
  }

  function EraseFunction(f: Function): Function {
    Function(f.id.Erased(), EraseSignature(f.signature), EraseParams(f.params), f.entryPoint)
  }

  /** The program up to debug names. */
  function Erased(p: Program): Program {
    PlainView().OfProgram(p)
  }

  function PlainView(): View {
    View(n => n, t => t)
  }
}
