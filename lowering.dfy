/**
 * `handleInstrcution` and the handlers that live only there: casts, the
 * getelementptr sum, select, phi reads, loads and stores. Every other opcode
 * is handed to its handler in Arithmetic, Branches or Calls.
 */
module Lowering {
  import opened Ir
  import opened Machine
  import opened Addressing
  import opened Operands
  import opened Arithmetic
  import opened Branches
  import opened Calls
  import Plan

  // ---------------------------------------------------------------------------
  // handleGetElementPtr

  /**
   * The code for the index operands: each pushes its operand and adds it to
   * the address below. Indices are not scaled by the element size: the
   * address is the plain sum of the operands.
   */
  function IndexCode(env: Env, indices: seq<Value>): Result<string>
  {
    if indices == [] then Ok("")
    else
      match IndexCode(env, indices[..|indices| - 1])
      case Err(e) => Err(e)
      case Ok(code) =>
        match GetLocal(env, indices[|indices| - 1])
        case Err(e) => Err(e)
        case Ok(push) => Ok(code + push + "+")
  }

  /** `handleGetElementPtr`: only an in-bounds GEP is accepted; its base is pushed, then every index is added. */
  function HandleGep(env: Env, inBounds: bool, base: Value, indices: seq<Value>): Result<string>
  {
    if !inBounds then Err(NotInBounds)
    else
      match GetLocal(env, base)
      case Err(e) => Err(e)
      case Ok(push) =>
        match IndexCode(env, indices)
        case Err(e) => Err(e)
        case Ok(code) => Ok(push + code)
  }

  /** Once an index fails, every longer prefix fails with the same error. */
  lemma {:induction false} IndexFailFrom(env: Env, indices: seq<Value>, i: nat, n: nat)
    requires i <= n <= |indices| && IndexCode(env, indices[..i]).Err?
    ensures IndexCode(env, indices[..n]) == IndexCode(env, indices[..i])
    decreases n
  {
    if n > i {
      IndexFailFrom(env, indices, i, n - 1);
      assert indices[..n][..n - 1] == indices[..n - 1];
    }
  }

  /** `handleGetElementPtr`'s loop over the index operands. */
  method EmitGep(env: Env, inBounds: bool, base: Value, indices: seq<Value>) returns (r: Result<string>)
    ensures r == HandleGep(env, inBounds, base, indices)
  {
    if !inBounds {
      return Err(NotInBounds);
    }
    var push := GetLocal(env, base);
    if push.Err? {
      return Err(push.error);
    }
    var code := push.value;
    var i := 0;
    while i < |indices|
      invariant 0 <= i <= |indices|
      invariant IndexCode(env, indices[..i]).Ok? && code == push.value + IndexCode(env, indices[..i]).value
    {
      var index := GetLocal(env, indices[i]);
      if index.Err? {
        IndexFails(env, indices, i);
        return Err(index.error);
      }
      IndexAppend(env, indices, i, push.value, code);
      code := code + index.value + "+";
      i := i + 1;
    }
    assert indices[..i] == indices;
    r := Ok(code);
  }

  /** The loop's failure exit: a missing index fails the whole GEP with its error. */
  lemma IndexFails(env: Env, indices: seq<Value>, i: nat)
    requires i < |indices| && IndexCode(env, indices[..i]).Ok? && GetLocal(env, indices[i]).Err?
    ensures IndexCode(env, indices) == Err(GetLocal(env, indices[i]).error)
  {
    assert indices[..i + 1][..i] == indices[..i];
    IndexFailFrom(env, indices, i + 1, |indices|);
    assert indices[..|indices|] == indices;
  }

  /** The loop's step: appending one index's code keeps the loop's code equal to the prefix's. */
  lemma IndexAppend(env: Env, indices: seq<Value>, i: nat, head: string, code: string)
    requires i < |indices| && IndexCode(env, indices[..i]).Ok? && GetLocal(env, indices[i]).Ok?
    requires code == head + IndexCode(env, indices[..i]).value
    ensures IndexCode(env, indices[..i + 1]).Ok?
    ensures code + GetLocal(env, indices[i]).value + "+" == head + IndexCode(env, indices[..i + 1]).value
  {
    assert indices[..i + 1][..i] == indices[..i];
  }

  /** Every index resolves, so `IndexCode` succeeds, exactly when no index is missing from the tables. */
  lemma {:induction false} IndexCodeOk(env: Env, indices: seq<Value>)
    ensures IndexCode(env, indices).Ok? <==> forall k | 0 <= k < |indices| :: Resolvable(env, indices[k])
  {
    if indices != [] {
      var init := indices[..|indices| - 1];
      IndexCodeOk(env, init);
      GetLocalOk(env, indices[|indices| - 1]);
      assert forall k | 0 <= k < |init| :: init[k] == indices[k];
    }
  }

  /** The sum of the index operands' values. */
  function IndexSum(env: Env, indices: seq<Value>, st: State): int
    requires IndexCode(env, indices).Ok?
  {
    if indices == [] then 0
    else IndexSum(env, indices[..|indices| - 1], st) + ValueOf(env, indices[|indices| - 1], st)
  }

  /** Pushing an operand and adding it adds the operand's value to the top. */
  lemma AddOperandRuns(env: Env, v: Value, st: State, y: int, z: int)
    requires GetLocal(env, v).Ok? && !st.halted && Addressable(env, st) && z == y + ValueOf(env, v, st)
    ensures RunsTo(GetLocal(env, v).value + "+", Push(st, y), Push(st, z))
  {
    var x := ValueOf(env, v, st);
    ValueOfPush(env, v, st, y);
    GetLocalRuns(env, v, Push(st, y));
    PlusRuns(st, y, x);
    RunThen(GetLocal(env, v).value, "+", Push(st, y), Push(Push(st, y), x), Push(st, y + x));
  }

  /** One more index: its push and `+` follow the code for the indices before it. */
  lemma IndexCodeStep(env: Env, indices: seq<Value>, st: State)
    requires indices != [] && IndexCode(env, indices).Ok?
    ensures IndexCode(env, indices[..|indices| - 1]).Ok? && GetLocal(env, indices[|indices| - 1]).Ok?
    ensures IndexCode(env, indices).value ==
            IndexCode(env, indices[..|indices| - 1]).value + (GetLocal(env, indices[|indices| - 1]).value + "+")
    ensures IndexSum(env, indices, st) ==
            IndexSum(env, indices[..|indices| - 1], st) + ValueOf(env, indices[|indices| - 1], st)
  {
    var code := IndexCode(env, indices[..|indices| - 1]).value;
    var push := GetLocal(env, indices[|indices| - 1]).value;
    assert code + push + "+" == code + (push + "+");
  }

  /** The index code adds the sum of the index values to the address on top of the stack. */
  lemma {:induction false} IndicesRuns(env: Env, indices: seq<Value>, st: State, y: int)
    requires IndexCode(env, indices).Ok? && !st.halted && Addressable(env, st)
    ensures RunsTo(IndexCode(env, indices).value, Push(st, y), Push(st, y + IndexSum(env, indices, st)))
  {
    if indices == [] {
      RunEmpty(Push(st, y));
    } else {
      IndexCodeStep(env, indices, st);
      var init := indices[..|indices| - 1];
      var v := indices[|indices| - 1];
      var sum := IndexSum(env, init, st);
      IndicesRuns(env, init, st, y);
      AddOperandRuns(env, v, st, y + sum, y + IndexSum(env, indices, st));
      RunsToThen(IndexCode(env, init).value, GetLocal(env, v).value + "+", IndexCode(env, indices).value,
                Push(st, y), Push(st, y + sum), Push(st, y + IndexSum(env, indices, st)));
    }
  }

  lemma GepParts(env: Env, inBounds: bool, base: Value, indices: seq<Value>)
    requires HandleGep(env, inBounds, base, indices).Ok?
    ensures inBounds && GetLocal(env, base).Ok? && IndexCode(env, indices).Ok?
    ensures HandleGep(env, inBounds, base, indices).value == GetLocal(env, base).value + IndexCode(env, indices).value
  {
  }

  /** A GEP computes its base address plus the plain sum of its index operands. */
  lemma GepRuns(env: Env, inBounds: bool, base: Value, indices: seq<Value>, st: State)
    requires HandleGep(env, inBounds, base, indices).Ok? && !st.halted && Addressable(env, st)
    ensures inBounds && GetLocal(env, base).Ok? && IndexCode(env, indices).Ok?
    ensures RunsTo(HandleGep(env, inBounds, base, indices).value, st,
                   Push(st, ValueOf(env, base, st) + IndexSum(env, indices, st)))
  {
    GepParts(env, inBounds, base, indices);
    var b := ValueOf(env, base, st);
    GetLocalRuns(env, base, st);
    IndicesRuns(env, indices, st, b);
    RunsToThen(GetLocal(env, base).value, IndexCode(env, indices).value, HandleGep(env, inBounds, base, indices).value,
               st, Push(st, b), Push(st, b + IndexSum(env, indices, st)));
  }

  // ---------------------------------------------------------------------------
  // Select, load and store

  /** `select`: push the false value, the true value and the condition, then `S`. */
  function HandleSelect(env: Env, cond: Value, ifTrue: Value, ifFalse: Value): Result<string>
  {
    match GetLocal(env, ifFalse)
    case Err(e) => Err(e)
    case Ok(f) =>
      match GetLocal(env, ifTrue)
      case Err(e) => Err(e)
      case Ok(t) =>
        match GetLocal(env, cond)
        case Err(e) => Err(e)
        case Ok(c) => Ok(f + t + c + "S")
  }

  /** A select leaves the true value when the condition is non-zero and the false value otherwise. */
  lemma SelectRuns(env: Env, cond: Value, ifTrue: Value, ifFalse: Value, st: State)
    requires HandleSelect(env, cond, ifTrue, ifFalse).Ok? && !st.halted && Addressable(env, st)
    ensures GetLocal(env, cond).Ok? && GetLocal(env, ifTrue).Ok? && GetLocal(env, ifFalse).Ok?
    ensures Run(HandleSelect(env, cond, ifTrue, ifFalse).value, st) ==
            Push(st, if ValueOf(env, cond, st) != 0 then ValueOf(env, ifTrue, st) else ValueOf(env, ifFalse, st))
  {
    var f := ValueOf(env, ifFalse, st);
    var t := ValueOf(env, ifTrue, st);
    var c := ValueOf(env, cond, st);
    var ft := GetLocal(env, ifFalse).value + GetLocal(env, ifTrue).value;
    TwoOperands(env, ifFalse, ifTrue, st);
    RunThen(GetLocal(env, ifFalse).value, GetLocal(env, ifTrue).value, st, Push(st, f), Push(Push(st, f), t));
    ValueOfPush(env, cond, st, f);
    ValueOfPush(env, cond, Push(st, f), t);
    GetLocalRuns(env, cond, Push(Push(st, f), t));
    SelectAfter(ft, GetLocal(env, cond).value, st, st, f, t, c);
  }

  /** A load: push the pointer, turn it into a MEM cell and read it. */
  function HandleLoad(env: Env, ptr: Value): Result<string>
  {
    match GetLocal(env, ptr)
    case Err(e) => Err(e)
    case Ok(p) => Ok(p + Make2D(Mem) + "g")
  }

  /** A store: push the value, then the pointer, turn the pointer into a MEM cell and write it. */
  function HandleStore(env: Env, val: Value, ptr: Value): Result<string>
  {
    match GetLocal(env, val)
    case Err(e) => Err(e)
    case Ok(v) =>
      match GetLocal(env, ptr)
      case Err(e) => Err(e)
      case Ok(p) => Ok(v + p + Make2D(Mem) + "p")
  }

  /** Loading through a non-negative pointer pushes the content of its MEM cell. */
  lemma LoadRuns(env: Env, ptr: Value, st: State)
    requires HandleLoad(env, ptr).Ok? && !st.halted && Addressable(env, st)
    requires ValueOf(env, ptr, st) >= 0
    ensures Run(HandleLoad(env, ptr).value, st) == Push(st, Read(st.mem, CellOf(Mem, ValueOf(env, ptr, st))))
  {
    var p := ValueOf(env, ptr, st);
    var c := CellOf(Mem, p);
    GetLocalRuns(env, ptr, st);
    Make2DRuns(Mem, st, p);
    RunOne('g', Push(Push(st, c.0), c.1));
    GetStep(st, c.0, c.1);
    RunThen3(GetLocal(env, ptr).value, Make2D(Mem), "g", st, Push(st, p), Push(Push(st, c.0), c.1),
             Push(st, Read(st.mem, c)));
  }

  /** Storing through a non-negative pointer writes the value into its MEM cell and changes nothing else. */
  lemma StoreRuns(env: Env, val: Value, ptr: Value, st: State)
    requires HandleStore(env, val, ptr).Ok? && !st.halted && Addressable(env, st)
    requires ValueOf(env, ptr, st) >= 0
    ensures Run(HandleStore(env, val, ptr).value, st) ==
            st.(mem := st.mem[CellOf(Mem, ValueOf(env, ptr, st)) := ValueOf(env, val, st)])
  {
    var v := ValueOf(env, val, st);
    var p := ValueOf(env, ptr, st);
    var c := CellOf(Mem, p);
    var vp := GetLocal(env, val).value + GetLocal(env, ptr).value;
    TwoOperands(env, val, ptr, st);
    RunThen(GetLocal(env, val).value, GetLocal(env, ptr).value, st, Push(st, v), Push(Push(st, v), p));
    Make2DRuns(Mem, Push(st, v), p);
    RunOne('p', Push(Push(Push(st, v), c.0), c.1));
    PutStep(st, v, c.0, c.1);
    RunThen3(vp, Make2D(Mem), "p", st, Push(Push(st, v), p), Push(Push(Push(st, v), c.0), c.1),
             st.(mem := st.mem[c := v]));
  }

  /** A MEM cell is never a frame slot or a register, so a store keeps the frame as it was. */
  lemma StoreKeepsFrame(env: Env, p: int, v: int, st: State)
    requires p >= 0
    ensures SameLocals(st.mem, st.mem[CellOf(Mem, p) := v])
  {
    var m := st.mem[CellOf(Mem, p) := v];
    forall a: int | a >= 0
      ensures LocalAgrees(st.mem, m, a)
    {
      CellOfInjective(Mem, p, Local, a);
    }
  }

  /** A load through the pointer a store just wrote reads the stored value back. */
  lemma StoreThenLoad(env: Env, val: Value, ptr: Value, st: State)
    requires HandleStore(env, val, ptr).Ok? && !st.halted && Addressable(env, st)
    requires ValueOf(env, ptr, st) >= 0
    ensures HandleLoad(env, ptr).Ok?
    ensures var st' := Run(HandleStore(env, val, ptr).value, st);
      Run(HandleLoad(env, ptr).value, st') == Push(st', ValueOf(env, val, st))
  {
    var v := ValueOf(env, val, st);
    var p := ValueOf(env, ptr, st);
    StoreRuns(env, val, ptr, st);
    var st' := st.(mem := st.mem[CellOf(Mem, p) := v]);
    StoreKeepsFrame(env, p, v, st);
    ValueOfSameFrame(env, ptr, st', st);
    LoadRuns(env, ptr, st');
  }

  // ---------------------------------------------------------------------------
  // handleInstrcution

  /**
   * `handleInstrcution`: the code for one instruction of function `fname` in
   * block `block`, with the function's allocas so far totalling `stackSize`
   * words. It yields the code and the new alloca total: only an alloca
   * changes it.
   */
  function HandleInstruction(env: Env, fname: string, block: Name, inst: Inst, stackSize: int): Result<(Lowered, int)>
  {
    match inst.op
    case Call(callee, args) =>
      (match HandleCall(env, fname, inst.name, callee, args)
       case Err(e) => Err(e)
       case Ok(l) => Ok((l, stackSize)))
    case Arith(k, lhs, rhs) => Inlined(HandleArith(env, k, lhs, rhs, inst.ty), stackSize)
    case Cast(_, src) => Inlined(GetLocal(env, src), stackSize)
    case Gep(inBounds, base, indices) => Inlined(HandleGep(env, inBounds, base, indices), stackSize)
    case ICmp(p, lhs, rhs) => Inlined(HandleCmp(env, p, lhs, rhs), stackSize)
    case Br(_) => Inlined(HandleBr(env, block, inst.op), stackSize)
    case CondBr(_, _, _) => Inlined(HandleBr(env, block, inst.op), stackSize)
    case Switch(disc, default, cases) => Inlined(HandleSwitch(env, block, disc, default, cases), stackSize)
    case Select(cond, ifTrue, ifFalse) => Inlined(HandleSelect(env, cond, ifTrue, ifFalse), stackSize)
    case Phi(_) =>
      if inst.name in env.ids then Ok((Inline(Get(PhiMem, env.ids[inst.name])), stackSize)) else Err(MissingId)
    case Ret(result) => Inlined(HandleRet(env, fname, stackSize, result), stackSize)
    case Alloca(t) =>
      (match HandleAlloca(t)
       case Err(e) => Err(e)
       case Ok(alloca) => Ok((Inline(alloca.0), stackSize + alloca.1)))
    case Load(ptr) => Inlined(HandleLoad(env, ptr), stackSize)
    case Store(val, ptr) => Inlined(HandleStore(env, val, ptr), stackSize)
    case OtherOp(opcode) => Err(UnknownOpcode(opcode))
  }

  function Inlined(r: Result<string>, stackSize: int): Result<(Lowered, int)>
  {
    match r
    case Err(e) => Err(e)
    case Ok(code) => Ok((Inline(code), stackSize))
  }

  /**
   * An instruction's code is split around a continuation block exactly when
   * it is a call of a defined function, so the lowering needs precisely the
   * block ids the planner reserved for such calls; the block it ends is the
   * call's own block id.
   */
  lemma SplitsOnlyAtCalls(env: Env, fname: string, block: Name, inst: Inst, stackSize: int)
    requires HandleInstruction(env, fname, block, inst, stackSize).Ok?
    ensures HandleInstruction(env, fname, block, inst, stackSize).value.0.Split? <==> IsContinuationCall(inst.op)
    ensures var l := HandleInstruction(env, fname, block, inst, stackSize).value.0;
      l.Split? ==> Plan.InstKey(inst.name) in env.blocks && l.block == env.blocks[Plan.InstKey(inst.name)]
  {
    if inst.op.Call? {
      SplitsIffContinuation(env, fname, inst.name, inst.op.callee, inst.op.args);
      if IsContinuationCall(inst.op) {
        CallParts(env, fname, inst.name, inst.op.callee.fname, inst.op.args);
      }
    }
  }

  /** Only an alloca grows the frame's alloca total, by its type's word count. */
  lemma StackSizeGrowth(env: Env, fname: string, block: Name, inst: Inst, stackSize: int)
    requires HandleInstruction(env, fname, block, inst, stackSize).Ok?
    ensures var grown := HandleInstruction(env, fname, block, inst, stackSize).value.1;
      if inst.op.Alloca? then Sized(inst.op.allocTy) && grown == stackSize + |Words(inst.op.allocTy)|
      else grown == stackSize
  {
    if inst.op.Alloca? {
      AllocaCode(inst.op.allocTy);
    }
  }

  /** A cast is free: it pushes its operand's value unchanged. */
  lemma CastRuns(env: Env, fname: string, block: Name, inst: Inst, stackSize: int, st: State)
    requires inst.op.Cast? && HandleInstruction(env, fname, block, inst, stackSize).Ok?
    requires !st.halted && Addressable(env, st)
    ensures GetLocal(env, inst.op.src).Ok?
    ensures var l := HandleInstruction(env, fname, block, inst, stackSize).value.0;
      l.Inline? && Run(l.code, st) == Push(st, ValueOf(env, inst.op.src, st))
  {
    GetLocalRuns(env, inst.op.src, st);
  }
}
