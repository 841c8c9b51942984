/**
 * The input of the backend: an already-parsed LLVM module, reduced to what
 * bc2bef reads from it. Object identity (the backend keys its tables by
 * `Value*`) is modelled by names: every argument, instruction, block and
 * global carries a `Name`, and a well-formed module never reuses one.
 */
module Ir {

  datatype Option<T> = None | Some(value: T)

  /** Why a compilation is abandoned; each one is an `assert` in the backend. */
  datatype Error =
    | UnsupportedType
    | UnknownOpcode(opcode: string)
    | IndirectCall
    | CallEndsBlock
    | MissingId
    | NotAConstant
    | BadArgumentCount
    | BadCallocSize
    | NotBoolean
    | NotInBounds
    | UnmatchedPhi
    | PhiWithoutSource
    | EmptySwitch
    | UndefinedCallee
    | NotAStringGlobal
    | EmptyFirstBlock

  datatype Result<T> = Ok(value: T) | Err(error: Error)

  type Name = nat

  datatype Type =
    | PointerTy
    | IntegerTy(bits: nat)
    | ArrayTy(count: nat, elem: Type)
    | StructTy(members: seq<Type>)
    | OtherTy  // void, floating point, vectors, labels, ...

  /** An operand of an instruction. */
  datatype Value =
    | InstResult(name: Name)
    | Argument(name: Name)
    | GlobalAddr(global: Name)
    | ConstInt(v: int)          // the value `getLimitedValue` yields, read as an `int`
    | NullPtr
    | UndefValue
    | ConstGep(base: Name)      // a constant getelementptr into a global (the form `puts` takes)

  datatype ArithKind = Add | Sub | Mul | SDiv | SRem | And | Or | Xor
  datatype CastKind = BitCast | PtrToInt | SExt | ZExt
  datatype Pred = Eq | Ne | Ugt | Uge | Ult | Ule | Sgt | Sge | Slt | Sle
  datatype Callee = Direct(fname: string) | Indirect

  datatype Op =
    | Arith(kind: ArithKind, lhs: Value, rhs: Value)
    | Cast(cast: CastKind, src: Value)
    | Gep(inBounds: bool, base: Value, indices: seq<Value>)
    | ICmp(pred: Pred, lhs: Value, rhs: Value)
    | Br(dest: Name)
    | CondBr(cond: Value, trueDest: Name, falseDest: Name)
    | Switch(disc: Value, default: Name, cases: seq<(int, Name)>)
    | Select(cond: Value, ifTrue: Value, ifFalse: Value)
    | Phi(incoming: seq<(Value, Name)>)
    | Ret(result: Option<Value>)
    | Alloca(allocTy: Type)
    | Load(ptr: Value)
    | Store(val: Value, ptr: Value)
    | Call(callee: Callee, args: seq<Value>)
    | OtherOp(opcode: string)

  datatype Inst = Inst(name: Name, ty: Type, op: Op)
  datatype Block = Block(name: Name, insts: seq<Inst>)
  datatype Function = Function(name: string, args: seq<Name>, blocks: seq<Block>)
  {
    /** LLVM's `isDeclaration`: a function without a body. */
    predicate IsDeclaration() { blocks == [] }
  }

  datatype Init =
    | ScalarInit(v: int)
    | NullInit
    | AggregateInit(elems: seq<int>)
    | OtherInit  // no initializer, or a constant expression

  datatype Global = Global(name: Name, init: Init)
  datatype Module = Module(globals: seq<Global>, functions: seq<Function>)

  /** `std::map::insert`: an existing entry is kept. */
  function Insert<K, V>(m: map<K, V>, k: K, v: V): map<K, V>
  {
    if k in m then m else m[k := v]
  }

  /** The runtime functions the backend expands in place instead of calling. */
  predicate IsIntrinsic(fname: string)
  {
    fname == "putchar" || fname == "getchar" || fname == "calloc" ||
    fname == "free" || fname == "puts" || fname == "exit"
  }

  /** A call that gets its own continuation block: a direct call of a non-intrinsic. */
  predicate IsContinuationCall(op: Op)
  {
    op.Call? && op.callee.Direct? && !IsIntrinsic(op.callee.fname)
  }

  /** The instructions whose result `translate` stores into the frame. */
  predicate ProducesValue(op: Op)
  {
    !(op.Br? || op.CondBr? || op.Switch? || op.Store? || op.Ret?)
  }

  /** `getPrimitiveSizeInBits`: the width of an integer type, 0 for anything else. */
  function PrimitiveBits(t: Type): nat
  {
    if t.IntegerTy? then t.bits else 0
  }

  /** `getConstInt`: the value of an integer constant; anything else aborts. */
  function ConstIntOf(v: Value): (r: Result<int>)
    ensures r.Ok? <==> v.ConstInt?
    ensures r.Ok? ==> r.value == v.v
  {
    if v.ConstInt? then Ok(v.v) else Err(NotAConstant)
  }

  // ---------------------------------------------------------------------------
  // getSizeOfType

  /** `getSizeOfType`: the number of memory words a value of type `t` occupies. */
  function SizeOfType(t: Type): Result<int>
    decreases t, 1
  {
    match t
    case PointerTy => Ok(1)
    case IntegerTy(bits) => if 0 < bits <= 32 then Ok(1) else Err(UnsupportedType)
    case ArrayTy(n, e) =>
      (match SizeOfType(e)
       case Ok(s) => Ok(n * s)
       case Err(err) => Err(err))
    case StructTy(ms) => SumOfSizes(t, ms)
    case OtherTy => Err(UnsupportedType)
  }

  /** The struct branch of `getSizeOfType`: members summed left to right. */
  function SumOfSizes(t: Type, ms: seq<Type>): Result<int>
    requires t.StructTy? && ms <= t.members
    decreases t, 0, |ms|
  {
    if ms == [] then Ok(0)
    else
      match SumOfSizes(t, ms[..|ms| - 1])
      case Err(err) => Err(err)
      case Ok(s) =>
        assert ms[|ms| - 1] in t.members;
        match SizeOfType(ms[|ms| - 1])
        case Err(err) => Err(err)
        case Ok(m) => Ok(s + m)
  }

  /** Once a prefix of the members fails, every longer prefix fails with the same error. */
  lemma {:induction false} SumOfSizesErrSticks(t: Type, ms: seq<Type>, i: nat, j: nat)
    requires t.StructTy? && ms <= t.members && i <= j <= |ms|
    requires SumOfSizes(t, ms[..i]).Err?
    ensures SumOfSizes(t, ms[..j]) == SumOfSizes(t, ms[..i])
    decreases j
  {
    if j > i {
      SumOfSizesErrSticks(t, ms, i, j - 1);
      assert ms[..j][..j - 1] == ms[..j - 1];
    }
  }

  /** `getSizeOfType` as written: recursion on the type and a summing loop over struct members. */
  method GetSizeOfType(t: Type) returns (r: Result<int>)
    ensures r == SizeOfType(t)
    decreases t, 1
  {
    match t {
      case PointerTy =>
        r := Ok(1);
      case IntegerTy(bits) =>
        if 0 < bits <= 32 {
          r := Ok(1);
        } else {
          r := Err(UnsupportedType);
        }
      case ArrayTy(n, e) =>
        var s := GetSizeOfType(e);
        if s.Err? {
          r := Err(s.error);
        } else {
          r := Ok(n * s.value);
        }
      case StructTy(ms) =>
        r := SumMemberSizes(t);
      case OtherTy =>
        r := Err(UnsupportedType);
    }
  }

  /** The summing loop of `getSizeOfType` over a struct's members; the first member without a size stops it. */
  method SumMemberSizes(t: Type) returns (r: Result<int>)
    requires t.StructTy?
    ensures r == SumOfSizes(t, t.members)
    decreases t, 0
  {
    var ms := t.members;
    var s := 0;
    var i := 0;
    while i < |ms|
      invariant 0 <= i <= |ms|
      invariant SumOfSizes(t, ms[..i]) == Ok(s)
    {
      assert ms[i] in t.members;
      var m := GetSizeOfType(ms[i]);
      assert ms[..i + 1][..i] == ms[..i];
      if m.Err? {
        SumOfSizesErrSticks(t, ms, i + 1, |ms|);
        assert ms[..|ms|] == ms;
        return Err(m.error);
      }
      s := s + m.value;
      i := i + 1;
    }
    assert ms[..i] == ms;
    r := Ok(s);
  }

  /** The types `getSizeOfType` accepts: pointers, integers of 1 to 32 bits, and arrays and structs of those. */
  predicate Sized(t: Type)
  {
    match t
    case PointerTy => true
    case IntegerTy(bits) => 0 < bits <= 32
    case ArrayTy(_, e) => Sized(e)
    case StructTy(ms) => forall i | 0 <= i < |ms| :: Sized(ms[i])
    case OtherTy => false
  }

  /** The scalar words of a value of type `t`, in memory order: an independent reading of its size. */
  function Words(t: Type): seq<Type>
  {
    match t
    case ArrayTy(n, e) => Repeat(Words(e), n)
    case StructTy(ms) => WordsOfMembers(t, ms)
    case _ => [t]
  }

  function WordsOfMembers(t: Type, ms: seq<Type>): seq<Type>
    requires t.StructTy? && ms <= t.members
    decreases t, |ms|
  {
    if ms == [] then []
    else
      assert ms[|ms| - 1] in t.members;
      WordsOfMembers(t, ms[..|ms| - 1]) + Words(ms[|ms| - 1])
  }

  function Repeat<T>(s: seq<T>, n: nat): (r: seq<T>)
    ensures |r| == n * |s|
  {
    if n == 0 then [] else Repeat(s, n - 1) + s
  }

  /** A type's size is the number of scalar words it is laid out in, and the size is refused exactly for unsupported types. */
  lemma {:induction false} SizeIsWordCount(t: Type)
    ensures Sized(t) ==> SizeOfType(t) == Ok(|Words(t)|)
    ensures !Sized(t) ==> SizeOfType(t).Err?
    decreases t, 1
  {
    match t
    case PointerTy =>
    case IntegerTy(_) =>
    case ArrayTy(n, e) =>
      SizeIsWordCount(e);
    case StructTy(ms) =>
      MembersSizeIsWordCount(t, ms);
    case OtherTy =>
  }

  lemma {:induction false} MembersSizeIsWordCount(t: Type, ms: seq<Type>)
    requires t.StructTy? && ms <= t.members
    ensures (forall i | 0 <= i < |ms| :: Sized(ms[i])) ==> SumOfSizes(t, ms) == Ok(|WordsOfMembers(t, ms)|)
    ensures !(forall i | 0 <= i < |ms| :: Sized(ms[i])) ==> SumOfSizes(t, ms).Err?
    decreases t, 0, |ms|
  {
    if ms != [] {
      var init := ms[..|ms| - 1];
      var last := ms[|ms| - 1];
      assert last in t.members;
      MembersSizeIsWordCount(t, init);
      SizeIsWordCount(last);
      if !(forall i | 0 <= i < |ms| :: Sized(ms[i])) {
        var i :| 0 <= i < |ms| && !Sized(ms[i]);
        if i < |ms| - 1 {
          assert init[i] == ms[i];
        }
      } else {
        assert forall i | 0 <= i < |init| :: Sized(init[i]) by {
          forall i | 0 <= i < |init| ensures Sized(init[i]) {
            assert init[i] == ms[i];
          }
        }
      }
    }
  }

  // ---------------------------------------------------------------------------
  // filterInstructions

  /** The `llvm.lifetime` markers the pre-pass strips. */
  predicate IsLifetimeMarker(i: Inst)
  {
    i.op.Call? && i.op.callee.Direct? &&
    (i.op.callee.fname == "llvm.lifetime.start" || i.op.callee.fname == "llvm.lifetime.end")
  }

  predicate HasIndirectCall(insts: seq<Inst>)
  {
    exists k | 0 <= k < |insts| :: insts[k].op.Call? && insts[k].op.callee.Indirect?
  }

  /** `filterInstructions` on one block: drop the lifetime markers, keep everything else in order. */
  function FilterInsts(insts: seq<Inst>): Result<seq<Inst>>
  {
    if insts == [] then Ok([])
    else
      var i := insts[|insts| - 1];
      match FilterInsts(insts[..|insts| - 1])
      case Err(err) => Err(err)
      case Ok(kept) =>
        if i.op.Call? && i.op.callee.Indirect? then Err(IndirectCall)
        else if IsLifetimeMarker(i) then Ok(kept)
        else Ok(kept + [i])
  }

  /** The filter fails exactly when the block holds an indirect call. */
  lemma {:induction false} FilterInstsFails(insts: seq<Inst>)
    ensures FilterInsts(insts).Err? <==> HasIndirectCall(insts)
  {
    if insts != [] {
      var init := insts[..|insts| - 1];
      var i := insts[|insts| - 1];
      FilterInstsFails(init);
      if HasIndirectCall(insts) {
        var k :| 0 <= k < |insts| && insts[k].op.Call? && insts[k].op.callee.Indirect?;
        if k < |init| { assert init[k] == insts[k]; }
      }
      if HasIndirectCall(init) {
        var k :| 0 <= k < |init| && init[k].op.Call? && init[k].op.callee.Indirect?;
        assert insts[k] == init[k];
      }
    }
  }

  /** The positions of the lifetime markers in a block. */
  ghost function Markers(insts: seq<Inst>): set<int>
  {
    set k | 0 <= k < |insts| && IsLifetimeMarker(insts[k])
  }

  /** When the filter succeeds it keeps precisely the non-marker instructions. */
  lemma {:induction false} FilterInstsKeeps(insts: seq<Inst>)
    requires FilterInsts(insts).Ok?
    ensures forall i :: i in FilterInsts(insts).value <==> i in insts && !IsLifetimeMarker(i)
  {
    if insts != [] {
      var init := insts[..|insts| - 1];
      FilterInstsKeeps(init);
      assert insts == init + [insts[|insts| - 1]];
    }
  }

  /** The block read front to back with every lifetime marker left out. */
  function Unmarked(insts: seq<Inst>): (r: seq<Inst>)
    ensures |r| <= |insts|
  {
    if insts == [] then []
    else (if IsLifetimeMarker(insts[0]) then [] else [insts[0]]) + Unmarked(insts[1..])
  }

  /** Leaving markers out of a block extended at its end extends the result at its end. */
  lemma {:induction false} UnmarkedSnoc(insts: seq<Inst>, i: Inst)
    ensures Unmarked(insts + [i]) == Unmarked(insts) + (if IsLifetimeMarker(i) then [] else [i])
  {
    if insts != [] {
      assert (insts + [i])[1..] == insts[1..] + [i];
      UnmarkedSnoc(insts[1..], i);
    }
  }

  /**
   * When the filter succeeds its result is the block in its own order, with
   * every other instruction kept however often it occurs and only the
   * markers erased.
   */
  lemma {:induction false} FilterInstsOrder(insts: seq<Inst>)
    requires FilterInsts(insts).Ok?
    ensures FilterInsts(insts).value == Unmarked(insts)
  {
    if insts != [] {
      var init := insts[..|insts| - 1];
      FilterInstsOrder(init);
      UnmarkedSnoc(init, insts[|insts| - 1]);
      assert insts == init + [insts[|insts| - 1]];
    }
  }

  /** When the filter succeeds it drops exactly one instruction per marker. */
  lemma {:induction false} FilterInstsCount(insts: seq<Inst>)
    requires FilterInsts(insts).Ok?
    ensures |FilterInsts(insts).value| == |insts| - |Markers(insts)|
  {
    if insts != [] {
      var init := insts[..|insts| - 1];
      FilterInstsCount(init);
      if IsLifetimeMarker(insts[|insts| - 1]) {
        assert Markers(insts) == Markers(init) + {|init|};
      } else {
        assert Markers(insts) == Markers(init);
      }
    }
  }

  /** Filtering twice is filtering once. */
  lemma {:induction false} FilterInstsIdempotent(insts: seq<Inst>)
    requires FilterInsts(insts).Ok?
    ensures FilterInsts(FilterInsts(insts).value) == FilterInsts(insts)
  {
    if insts != [] {
      var init := insts[..|insts| - 1];
      var i := insts[|insts| - 1];
      FilterInstsIdempotent(init);
      var kept := FilterInsts(init).value;
      if !IsLifetimeMarker(i) {
        assert (kept + [i])[..|kept + [i]| - 1] == kept;
      }
    }
  }

  function FilterBlocks(bs: seq<Block>): Result<seq<Block>>
  {
    if bs == [] then Ok([])
    else
      match FilterBlocks(bs[..|bs| - 1])
      case Err(err) => Err(err)
      case Ok(done) =>
        match FilterInsts(bs[|bs| - 1].insts)
        case Err(err) => Err(err)
        case Ok(kept) => Ok(done + [bs[|bs| - 1].(insts := kept)])
  }

  function FilterFunctions(fs: seq<Function>): Result<seq<Function>>
  {
    if fs == [] then Ok([])
    else
      match FilterFunctions(fs[..|fs| - 1])
      case Err(err) => Err(err)
      case Ok(done) =>
        match FilterBlocks(fs[|fs| - 1].blocks)
        case Err(err) => Err(err)
        case Ok(kept) => Ok(done + [fs[|fs| - 1].(blocks := kept)])
  }

  /** `filterInstructions`: the module with every lifetime marker removed; blocks, functions and globals stay as they are. */
  function FilterInstructions(m: Module): (r: Result<Module>)
  {
    match FilterFunctions(m.functions)
    case Err(err) => Err(err)
    case Ok(fs) => Ok(m.(functions := fs))
  }

  /** The filter keeps every function's name, arguments and block labels, and filters every block's instructions. */
  lemma {:induction false} FilterFunctionsShape(fs: seq<Function>)
    requires FilterFunctions(fs).Ok?
    ensures var gs := FilterFunctions(fs).value;
      |gs| == |fs| &&
      forall k | 0 <= k < |fs| ::
        gs[k].name == fs[k].name && gs[k].args == fs[k].args &&
        |gs[k].blocks| == |fs[k].blocks| &&
        forall j | 0 <= j < |fs[k].blocks| ::
          gs[k].blocks[j].name == fs[k].blocks[j].name &&
          FilterInsts(fs[k].blocks[j].insts) == Ok(gs[k].blocks[j].insts)
  {
    if fs != [] {
      FilterFunctionsShape(fs[..|fs| - 1]);
      FilterBlocksShape(fs[|fs| - 1].blocks);
    }
  }

  lemma {:induction false} FilterBlocksShape(bs: seq<Block>)
    requires FilterBlocks(bs).Ok?
    ensures var cs := FilterBlocks(bs).value;
      |cs| == |bs| &&
      forall j | 0 <= j < |bs| ::
        cs[j].name == bs[j].name && FilterInsts(bs[j].insts) == Ok(cs[j].insts)
  {
    if bs != [] {
      FilterBlocksShape(bs[..|bs| - 1]);
    }
  }
}
