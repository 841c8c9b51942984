/**
 * `handleCall`, `handleRet`, `handleAlloca` and `modifyLocalPointer`: the
 * calling convention. The six runtime functions are expanded in place. Any
 * other call pushes its return block id and its arguments (last first),
 * branches to the callee's entry block with the frame base moved past the
 * caller's frame, and ends the current block; the continuation block moves
 * the frame base back. A return releases the function's alloca stack and
 * leaves its value under the return block id.
 */
module Calls {
  import opened Ir
  import opened Machine
  import opened Literals
  import opened Addressing
  import opened Operands
  import opened Branches
  import Plan

  /**
   * What one instruction lowers to: straight-line code, or, for a call of a
   * defined function, the code that ends the current block, the id of that
   * block, and the code that starts the continuation block.
   */
  datatype Lowered = Inline(code: string) | Split(before: string, block: int, after: string)

  // ---------------------------------------------------------------------------
  // Register updates

  /** Add (`+`) or subtract (`-`) `k` to a register in place: `modifyLocalPointer`, and the release in `handleRet`. */
  function Adjust(r: Register, k: int, op: char): string
    requires op == '+' || op == '-'
  {
    GetRegister(r) + Literal(k) + [op] + SetRegister(r)
  }

  /** Bump allocation from register `r`: push its value (the new block's address) and advance it by what `amount` pushes. */
  function Allocate(r: Register, amount: string): string
  {
    GetRegister(r) + ":" + amount + "+" + SetRegister(r)
  }

  lemma OpRuns(op: char, st: State, x: int, y: int)
    requires (op == '+' || op == '-') && !st.halted
    ensures Run([op], Push(Push(st, x), y)) == Push(st, if op == '+' then x + y else x - y)
  {
    RunOne(op, Push(Push(st, x), y));
    ArithStep(op, st, x, y);
  }

  /** Adjusting a register changes that register by exactly `k`, and nothing else. */
  lemma AdjustRuns(r: Register, k: int, op: char, st: State)
    requires (op == '+' || op == '-') && !st.halted
    ensures var v := Read(st.mem, RegisterCell(r));
      Run(Adjust(r, k, op), st) == st.(mem := st.mem[RegisterCell(r) := if op == '+' then v + k else v - k])
  {
    var v := Read(st.mem, RegisterCell(r));
    var w := if op == '+' then v + k else v - k;
    GetRegisterRuns(r, st);
    LiteralRuns(k, Push(st, v));
    OpRuns(op, st, v, k);
    SetRegisterRuns(r, st, w);
    RunThen4(GetRegister(r), Literal(k), [op], SetRegister(r),
             st, Push(st, v), Push(Push(st, v), k), Push(st, w), st.(mem := st.mem[RegisterCell(r) := w]));
  }

  /** Moving a register forward by `k` and back by `k` restores it. */
  lemma AdjustUndone(r: Register, k: int, st: State)
    requires !st.halted
    ensures Run(Adjust(r, k, '+') + Adjust(r, k, '-'), st) ==
            st.(mem := st.mem[RegisterCell(r) := Read(st.mem, RegisterCell(r))])
  {
    var v := Read(st.mem, RegisterCell(r));
    var s1 := st.(mem := st.mem[RegisterCell(r) := v + k]);
    AdjustRuns(r, k, '+', st);
    AdjustRuns(r, k, '-', s1);
    assert s1.(mem := s1.mem[RegisterCell(r) := v + k - k]) == st.(mem := st.mem[RegisterCell(r) := v]);
    RunThen(Adjust(r, k, '+'), Adjust(r, k, '-'), st, s1, st.(mem := st.mem[RegisterCell(r) := v]));
  }

  /** Bump allocation pushes the register's old value and advances the register by the amount pushed. */
  lemma AllocateRuns(r: Register, amount: string, n: int, st: State)
    requires !st.halted
    requires var a := Read(st.mem, RegisterCell(r));
      Run(amount, Push(Push(st, a), a)) == Push(Push(Push(st, a), a), n)
    ensures var a := Read(st.mem, RegisterCell(r));
      Run(Allocate(r, amount), st) == Push(st.(mem := st.mem[RegisterCell(r) := a + n]), a)
  {
    var a := Read(st.mem, RegisterCell(r));
    var s1 := Push(st, a);
    GetRegisterRuns(r, st);
    DupRuns(st, a);
    PlusRuns(s1, a, n);
    SetRegisterRuns(r, s1, a + n);
    PushMem(st, a, st.mem[RegisterCell(r) := a + n]);
    assert A1: Run(GetRegister(r), st) == s1;
    assert A2: Run(":", s1) == Push(s1, a);
    assert A3: Run(amount, Push(s1, a)) == Push(Push(s1, a), n);
    assert A4: Run("+", Push(Push(s1, a), n)) == Push(s1, a + n);
    assert A5: Run(SetRegister(r), Push(s1, a + n)) == Push(st.(mem := st.mem[RegisterCell(r) := a + n]), a);
    RunThen4(GetRegister(r), ":", amount, "+", st, s1, Push(s1, a), Push(Push(s1, a), n), Push(s1, a + n));
    RunThen(GetRegister(r) + ":" + amount + "+", SetRegister(r), st, Push(s1, a + n),
            Push(st.(mem := st.mem[RegisterCell(r) := a + n]), a));
  }

  // ---------------------------------------------------------------------------
  // handleAlloca and handleRet

  /** `handleAlloca`: reserve the allocated type's size on the alloca stack; the size is added to what the function's returns release. */
  function HandleAlloca(t: Type): Result<(string, int)>
  {
    match SizeOfType(t)
    case Err(e) => Err(e)
    case Ok(size) => Ok((Allocate(StackPointer, Literal(size)), size))
  }

  /** An alloca pushes the old alloca-stack top, the reserved block's address, and advances the top by the type's word count. */
  lemma AllocaRuns(t: Type, st: State)
    requires HandleAlloca(t).Ok? && !st.halted
    ensures var sp := Read(st.mem, RegisterCell(StackPointer));
      var size := HandleAlloca(t).value.1;
      Sized(t) && size == |Words(t)| &&
      Run(HandleAlloca(t).value.0, st) == Push(st.(mem := st.mem[RegisterCell(StackPointer) := sp + size]), sp)
  {
    AllocaCode(t);
    var sp := Read(st.mem, RegisterCell(StackPointer));
    var size := HandleAlloca(t).value.1;
    LiteralRuns(size, Push(Push(st, sp), sp));
    AllocateRuns(StackPointer, Literal(size), size, st);
  }

  lemma AllocaCode(t: Type)
    requires HandleAlloca(t).Ok?
    ensures Sized(t) && HandleAlloca(t).value.1 == |Words(t)|
    ensures HandleAlloca(t).value.0 == Allocate(StackPointer, Literal(HandleAlloca(t).value.1))
  {
    SizeIsWordCount(t);
  }

  /** The code that releases `stackSize` words of alloca stack: nothing when there are none. */
  function Release(stackSize: int): string
  {
    if stackSize != 0 then Adjust(StackPointer, stackSize, '-') else ""
  }

  /** The state after the release: the alloca-stack top moved back by `stackSize`. */
  function Released(st: State, stackSize: int): State
  {
    if stackSize != 0 then
      st.(mem := st.mem[RegisterCell(StackPointer) := Read(st.mem, RegisterCell(StackPointer)) - stackSize])
    else st
  }

  /** `handleRet`: release the alloca stack; `main` halts, any other function leaves its result (0 when it returns nothing) under the return block id. */
  function HandleRet(env: Env, fname: string, stackSize: int, result: Option<Value>): Result<string>
  {
    if fname == "main" then Ok(Release(stackSize) + "@")
    else
      match result
      case None => Ok(Release(stackSize) + "0\\")
      case Some(v) =>
        match GetLocal(env, v)
        case Err(e) => Err(e)
        case Ok(c) => Ok(Release(stackSize) + c + "\\")
  }

  lemma ReleaseRuns(stackSize: int, s: State, ra: int)
    requires !s.halted
    ensures Run(Release(stackSize), Push(s, ra)) == Push(Released(s, stackSize), ra)
  {
    if stackSize != 0 {
      AdjustRuns(StackPointer, stackSize, '-', Push(s, ra));
    } else {
      RunEmpty(Push(s, ra));
    }
  }

  /** Releasing the alloca stack touches only its register: the frame, and so every operand's value, stays. */
  lemma ReleasedKeepsFrame(env: Env, s: State, stackSize: int)
    requires Addressable(env, s)
    ensures !Released(s, stackSize).halted == !s.halted
    ensures FrameBase(Released(s, stackSize)) == FrameBase(s)
    ensures Addressable(env, Released(s, stackSize))
  {
  }

  /** Everything an alloca reserved, a return with the same stack size gives back: the alloca-stack top is where it was. */
  lemma AllocaReleased(t: Type, st: State)
    requires HandleAlloca(t).Ok? && !st.halted
    ensures var s1 := Run(HandleAlloca(t).value.0, st);
      s1.stack.Cons? &&
      Read(Released(s1, HandleAlloca(t).value.1).mem, RegisterCell(StackPointer)) == Read(st.mem, RegisterCell(StackPointer))
  {
    AllocaRuns(t, st);
  }

  /** A return from a function other than `main` puts its value under the return block id and releases the alloca stack. */
  lemma ReturnValueRuns(env: Env, fname: string, stackSize: int, v: Value, s: State, ra: int)
    requires fname != "main" && HandleRet(env, fname, stackSize, Some(v)).Ok?
    requires !s.halted && Addressable(env, s)
    ensures GetLocal(env, v).Ok?
    ensures var s1 := Released(s, stackSize);
      Run(HandleRet(env, fname, stackSize, Some(v)).value, Push(s, ra)) == Push(Push(s1, ValueOf(env, v, s1)), ra)
  {
    var s1 := Released(s, stackSize);
    ReleasedKeepsFrame(env, s, stackSize);
    var x := ValueOf(env, v, s1);
    ReleaseRuns(stackSize, s, ra);
    ValueOfPush(env, v, s1, ra);
    GetLocalRuns(env, v, Push(s1, ra));
    RunOne('\\', Push(Push(s1, ra), x));
    SwapStep(s1, ra, x);
    RunThen3(Release(stackSize), GetLocal(env, v).value, "\\", Push(s, ra), Push(s1, ra), Push(Push(s1, ra), x), Push(Push(s1, x), ra));
  }

  /** A `ret void` from a function other than `main` puts 0 under the return block id. */
  lemma ReturnVoidRuns(env: Env, fname: string, stackSize: int, s: State, ra: int)
    requires fname != "main" && !s.halted && Addressable(env, s)
    ensures var s1 := Released(s, stackSize);
      Run(HandleRet(env, fname, stackSize, None).value, Push(s, ra)) == Push(Push(s1, 0), ra)
  {
    var s1 := Released(s, stackSize);
    ReleasedKeepsFrame(env, s, stackSize);
    ReleaseRuns(stackSize, s, ra);
    RunTwo('0', '\\', Push(s1, ra));
    DigitStep('0', Push(s1, ra));
    SwapStep(s1, ra, 0);
    RunThen(Release(stackSize), "0\\", Push(s, ra), Push(s1, ra), Push(Push(s1, 0), ra));
  }

  /** A return from `main` releases the alloca stack and halts the program. */
  lemma MainReturnRuns(env: Env, stackSize: int, result: Option<Value>, s: State, ra: int)
    requires !s.halted
    ensures Run(HandleRet(env, "main", stackSize, result).value, Push(s, ra)) == Push(Released(s, stackSize), ra).(halted := true)
  {
    ReleaseRuns(stackSize, s, ra);
    RunOne('@', Push(Released(s, stackSize), ra));
    HaltStep(Push(Released(s, stackSize), ra));
    RunThen(Release(stackSize), "@", Push(s, ra), Push(Released(s, stackSize), ra), Push(Released(s, stackSize), ra).(halted := true));
  }

  // ---------------------------------------------------------------------------
  // puts

  /** The characters of a string constant: its elements up to the first 0. */
  function UpToZero(s: seq<int>): seq<int>
  {
    if s == [] || s[0] == 0 then [] else [s[0]] + UpToZero(s[1..])
  }

  /** The text `puts` prints from a global's initializer: the elements of an array up to the first 0; anything else has none. */
  function Text(init: Init): seq<int>
  {
    if init.AggregateInit? then UpToZero(init.elems) else []
  }

  /** Code that prints the characters `vs`, one literal and one `,` each. */
  function PrintCode(vs: seq<int>): string
  {
    if vs == [] then "" else PrintCode(vs[..|vs| - 1]) + Literal(vs[|vs| - 1]) + ","
  }

  /** `puts`'s loop over the initializer's elements, stopping at the first 0. */
  method EmitText(elems: seq<int>) returns (code: string)
    ensures code == PrintCode(UpToZero(elems))
  {
    code := "";
    var i := 0;
    while i < |elems| && elems[i] != 0
      invariant 0 <= i <= |elems|
      invariant UpToZero(elems) == elems[..i] + UpToZero(elems[i..])
      invariant code == PrintCode(elems[..i])
    {
      PrintCodeStep(elems, i);
      UpToZeroStep(elems, i);
      code := code + Literal(elems[i]) + ",";
      i := i + 1;
    }
    UpToZeroRest(elems, i);
  }

  lemma UpToZeroStep(s: seq<int>, i: nat)
    requires i < |s| && s[i] != 0
    requires UpToZero(s) == s[..i] + UpToZero(s[i..])
    ensures UpToZero(s) == s[..i + 1] + UpToZero(s[i + 1..])
  {
    var rest := s[i..];
    assert rest[0] == s[i] && rest[1..] == s[i + 1..];
    assert UpToZero(rest) == [s[i]] + UpToZero(s[i + 1..]);
    assert s[..i + 1] == s[..i] + [s[i]];
  }

  lemma UpToZeroRest(s: seq<int>, i: nat)
    requires i <= |s| && (i == |s| || s[i] == 0)
    requires UpToZero(s) == s[..i] + UpToZero(s[i..])
    ensures UpToZero(s) == s[..i]
  {
    assert UpToZero(s[i..]) == [];
    assert s[..i] + [] == s[..i];
  }

  lemma PrintCodeStep(s: seq<int>, i: nat)
    requires i < |s|
    ensures PrintCode(s[..i + 1]) == PrintCode(s[..i]) + Literal(s[i]) + ","
  {
    assert s[..i + 1][..i] == s[..i];
  }

  lemma OutAppend(st: State, vs: seq<int>, x: int)
    ensures st.(out := st.out + vs).(out := st.out + vs + [x]) == st.(out := st.out + (vs + [x]))
  {
    assert st.out + vs + [x] == st.out + (vs + [x]);
  }

  /** The printing code outputs exactly `vs`, in order, and changes nothing else. */
  lemma {:induction false} PrintRuns(vs: seq<int>, st: State)
    requires !st.halted
    ensures Run(PrintCode(vs), st) == st.(out := st.out + vs)
  {
    if vs == [] {
      RunEmpty(st);
      assert st.out + vs == st.out;
    } else {
      var init := vs[..|vs| - 1];
      var x := vs[|vs| - 1];
      var s1 := st.(out := st.out + init);
      PrintRuns(init, st);
      LiteralRuns(x, s1);
      RunOne(',', Push(s1, x));
      OutStep(s1, x);
      OutAppend(st, init, x);
      assert init + [x] == vs;
      RunThen3(PrintCode(init), Literal(x), ",", st, s1, Push(s1, x), st.(out := st.out + vs));
    }
  }

  /** The end of `puts`: a newline (5 * 2) and the call's result 0. */
  lemma NewlineRuns(st: State)
    requires !st.halted
    ensures Run("52*,0", st) == Push(st.(out := st.out + [10]), 0)
  {
    assert "52*,0" == "52*" + ",0";
    RunThree('5', '2', '*', st);
    DigitStep('5', st);
    DigitStep('2', Push(st, 5));
    ArithStep('*', st, 5, 2);
    RunTwo(',', '0', Push(st, 10));
    OutStep(st, 10);
    DigitStep('0', st.(out := st.out + [10]));
    RunThen("52*", ",0", st, Push(st, 10), Push(st.(out := st.out + [10]), 0));
  }

  // ---------------------------------------------------------------------------
  // Calls of defined functions

  /** The frame size of the calling function as `local_size_map_[caller]` reads it: 0 for a function that has none. */
  function FrameSize(env: Env, caller: string): int
  {
    if caller in env.localSize then env.localSize[caller] else 0
  }

  /** The code pushing the arguments `args[i..]`, from the last one down to `args[i]`. */
  function ArgsCode(env: Env, args: seq<Value>, i: nat): Result<string>
    requires i <= |args|
    decreases |args| - i
  {
    if i == |args| then Ok("")
    else
      match ArgsCode(env, args, i + 1)
      case Err(e) => Err(e)
      case Ok(c) =>
        match GetLocal(env, args[i])
        case Err(e) => Err(e)
        case Ok(a) => Ok(c + a)
  }

  /** `handleCall`'s argument loop, from the last argument down to the first. */
  method PushArgs(env: Env, args: seq<Value>) returns (r: Result<string>)
    ensures r == ArgsCode(env, args, 0)
  {
    var code := "";
    var i := |args|;
    while i > 0
      invariant 0 <= i <= |args|
      invariant ArgsCode(env, args, i) == Ok(code)
    {
      i := i - 1;
      var a := GetLocal(env, args[i]);
      if a.Err? {
        ArgsFailFrom(env, args, i, 0);
        return Err(a.error);
      }
      code := code + a.value;
    }
    return Ok(code);
  }

  lemma {:induction false} ArgsFailFrom(env: Env, args: seq<Value>, i: nat, j: nat)
    requires j <= i < |args| && ArgsCode(env, args, i + 1).Ok? && GetLocal(env, args[i]).Err?
    ensures ArgsCode(env, args, j) == Err(GetLocal(env, args[i]).error)
    decreases i - j
  {
    if j < i {
      ArgsFailFrom(env, args, i, j + 1);
    }
  }

  /** Whether every argument from `args[i]` on can be pushed. */
  predicate ArgsOk(env: Env, args: seq<Value>, i: nat)
    requires i <= |args|
  {
    forall k | i <= k < |args| :: Resolvable(env, args[k])
  }

  /** Pushing the arguments fails exactly when one of them cannot be pushed. */
  lemma {:induction false} ArgsCodeOk(env: Env, args: seq<Value>, i: nat)
    requires i <= |args|
    ensures ArgsCode(env, args, i).Ok? <==> ArgsOk(env, args, i)
    decreases |args| - i
  {
    if i < |args| {
      ArgsCodeOk(env, args, i + 1);
      GetLocalOk(env, args[i]);
      assert ArgsOk(env, args, i) <==> ArgsOk(env, args, i + 1) && Resolvable(env, args[i]);
    }
  }

  /** The values pushed for `args[i..]`, in push order: the last argument first. */
  function ArgValues(env: Env, args: seq<Value>, i: nat, st: State): (vs: seq<int>)
    requires i <= |args| && ArgsOk(env, args, i)
    ensures |vs| == |args| - i
    decreases |args| - i
  {
    if i == |args| then []
    else
      GetLocalOk(env, args[i]);
      ArgValues(env, args, i + 1, st) + [ValueOf(env, args[i], st)]
  }

  /** Push order is the reverse of argument order: argument `k` is the `(|args| - 1 - k)`-th value pushed. */
  lemma {:induction false} ArgValuesOrder(env: Env, args: seq<Value>, i: nat, st: State)
    requires i <= |args| && ArgsOk(env, args, i)
    ensures |ArgValues(env, args, i, st)| == |args| - i
    ensures forall k | i <= k < |args| ::
      GetLocal(env, args[k]).Ok? && ArgValues(env, args, i, st)[|args| - 1 - k] == ValueOf(env, args[k], st)
    decreases |args| - i
  {
    if i < |args| {
      ArgValuesOrder(env, args, i + 1, st);
      GetLocalOk(env, args[i]);
      var vs := ArgValues(env, args, i + 1, st);
      assert ArgValues(env, args, i, st) == vs + [ValueOf(env, args[i], st)];
      forall k | i <= k < |args|
        ensures GetLocal(env, args[k]).Ok? && ArgValues(env, args, i, st)[|args| - 1 - k] == ValueOf(env, args[k], st)
      {
        GetLocalOk(env, args[k]);
        if k > i {
          assert ArgValues(env, args, i, st)[|args| - 1 - k] == vs[|args| - 1 - k];
        }
      }
    }
  }

  /** Values pushed one after another. */
  function PushAll(st: State, vs: seq<int>): State
  {
    if vs == [] then st else Push(PushAll(st, vs[..|vs| - 1]), vs[|vs| - 1])
  }

  lemma {:induction false} PushAllKeeps(st: State, vs: seq<int>)
    ensures PushAll(st, vs).mem == st.mem && PushAll(st, vs).halted == st.halted
    ensures PushAll(st, vs).out == st.out && PushAll(st, vs).inp == st.inp
  {
    if vs != [] {
      PushAllKeeps(st, vs[..|vs| - 1]);
    }
  }

  lemma PushAllSnoc(st: State, vs: seq<int>, x: int)
    ensures PushAll(st, vs + [x]) == Push(PushAll(st, vs), x)
  {
    assert (vs + [x])[..|vs|] == vs;
  }

  lemma ArgsCodeStep(env: Env, args: seq<Value>, i: nat, st: State)
    requires i < |args| && ArgsCode(env, args, i).Ok?
    ensures ArgsOk(env, args, i) && ArgsCode(env, args, i + 1).Ok? && GetLocal(env, args[i]).Ok?
    ensures ArgsCode(env, args, i).value == ArgsCode(env, args, i + 1).value + GetLocal(env, args[i]).value
    ensures ArgValues(env, args, i, st) == ArgValues(env, args, i + 1, st) + [ValueOf(env, args[i], st)]
  {
    ArgsCodeOk(env, args, i);
  }

  /** The argument code pushes the arguments' values, the last one first, and changes nothing else. */
  lemma {:induction false} ArgsRuns(env: Env, args: seq<Value>, i: nat, s: State, st: State)
    requires i <= |args| && ArgsCode(env, args, i).Ok?
    requires !s.halted && Addressable(env, st) && SameLocals(st.mem, s.mem)
    ensures ArgsOk(env, args, i)
    ensures Run(ArgsCode(env, args, i).value, s) == PushAll(s, ArgValues(env, args, i, st))
    decreases |args| - i
  {
    ArgsCodeOk(env, args, i);
    if i == |args| {
      RunEmpty(s);
    } else {
      ArgsCodeStep(env, args, i, st);
      ArgsRuns(env, args, i + 1, s, st);
      var vs := ArgValues(env, args, i + 1, st);
      var x := ValueOf(env, args[i], st);
      var s1 := PushAll(s, vs);
      PushAllKeeps(s, vs);
      ValueOfSameFrame(env, args[i], s1, st);
      GetLocalRuns(env, args[i], s1);
      PushAllSnoc(s, vs, x);
      RunThen(ArgsCode(env, args, i + 1).value, GetLocal(env, args[i]).value, s, s1, Push(s1, x));
    }
  }

  /** The entry block of a defined function. */
  function EntryOf(env: Env, f: string): Name
    requires f in env.funcs && !env.funcs[f].IsDeclaration()
  {
    env.funcs[f].blocks[0].name
  }

  /** `handleCall` for a function that is not expanded in place. */
  function CallCode(env: Env, caller: string, name: Name, f: string, args: seq<Value>): Result<Lowered>
  {
    if Plan.InstKey(name) !in env.blocks then Err(MissingId)
    else
      var id := env.blocks[Plan.InstKey(name)];
      match ArgsCode(env, args, 0)
      case Err(e) => Err(e)
      case Ok(pushArgs) =>
        if f !in env.funcs || env.funcs[f].IsDeclaration() then Err(UndefinedCallee)
        else
          match PrepareBranch(env, None, EntryOf(env, f))
          case Err(e) => Err(e)
          case Ok(jump) =>
            var size := FrameSize(env, caller);
            Ok(Split(Literal(id + 1) + pushArgs + jump + Adjust(LocalPointer, size, '+'), id,
                     Adjust(LocalPointer, size, '-')))
  }

  /** A branch with no source block can only be prepared to a block without phis: it pushes the block id and nothing else. */
  lemma EntryBranch(env: Env, target: Name)
    requires PrepareBranch(env, None, target).Ok?
    ensures target in env.blockOf && PhisOf(env, target) == [] && Plan.BlockKey(target) in env.blocks
    ensures PrepareBranch(env, None, target).value == Literal(env.blocks[Plan.BlockKey(target)])
  {
    PrepareBranchOk(env, None, target);
    var phis := PhisOf(env, target);
    NoSourceNoPhis(env, phis);
    assert PhiMoves(env, None, phis, 0) == Ok("");
    assert "" + Literal(env.blocks[Plan.BlockKey(target)]) == Literal(env.blocks[Plan.BlockKey(target)]);
  }

  /** A phi always needs a source block: with none, not even the first phi can be staged. */
  lemma NoSourceNoPhis(env: Env, phis: seq<Inst>)
    requires AllPhis(phis)
    ensures |phis| > 0 ==> !MovesOk(env, None, phis, |phis|)
  {
    if |phis| > 0 {
      assert !MoveOk(env, None, phis[0]);
    }
  }

  /** The parts of a call's code, when every part of it lowers. */
  lemma CallParts(env: Env, caller: string, name: Name, f: string, args: seq<Value>)
    requires CallCode(env, caller, name, f, args).Ok?
    ensures Plan.InstKey(name) in env.blocks && ArgsCode(env, args, 0).Ok?
    ensures f in env.funcs && !env.funcs[f].IsDeclaration()
    ensures Plan.BlockKey(EntryOf(env, f)) in env.blocks
    ensures var l := CallCode(env, caller, name, f, args).value;
      var id := env.blocks[Plan.InstKey(name)];
      var size := FrameSize(env, caller);
      l == Split(Literal(id + 1) + ArgsCode(env, args, 0).value + Literal(env.blocks[Plan.BlockKey(EntryOf(env, f))]) +
                 Adjust(LocalPointer, size, '+'), id, Adjust(LocalPointer, size, '-'))
  {
    EntryBranch(env, EntryOf(env, f));
  }

  /**
   * The calling sequence `CallParts` describes pushes the return block id, the arguments (last first) and
   * the callee's entry block id, and moves the frame base up by the caller's frame size.
   */
  lemma CallSequenceRuns(env: Env, args: seq<Value>, id: int, callee: int, size: int, st: State)
    requires ArgsCode(env, args, 0).Ok? && !st.halted && Addressable(env, st)
    ensures ArgsOk(env, args, 0)
    ensures var s := Push(PushAll(Push(st, id + 1), ArgValues(env, args, 0, st)), callee);
      Run(Literal(id + 1) + ArgsCode(env, args, 0).value + Literal(callee) + Adjust(LocalPointer, size, '+'), st) ==
      s.(mem := st.mem[RegisterCell(LocalPointer) := FrameBase(st) + size])
  {
    ArgsCodeOk(env, args, 0);
    var pushArgs := ArgsCode(env, args, 0).value;
    var s1 := Push(st, id + 1);
    LiteralRuns(id + 1, st);
    assert Run(Literal(id + 1), st) == s1;
    ArgsRuns(env, args, 0, s1, st);
    var s2 := PushAll(s1, ArgValues(env, args, 0, st));
    assert Run(pushArgs, s1) == s2;
    PushAllKeeps(s1, ArgValues(env, args, 0, st));
    LiteralRuns(callee, s2);
    var s3 := Push(s2, callee);
    assert Run(Literal(callee), s2) == s3;
    AdjustRuns(LocalPointer, size, '+', s3);
    var s4 := s3.(mem := st.mem[RegisterCell(LocalPointer) := FrameBase(st) + size]);
    assert Run(Adjust(LocalPointer, size, '+'), s3) == s4;
    RunThen4(Literal(id + 1), pushArgs, Literal(callee), Adjust(LocalPointer, size, '+'), st, s1, s2, s3, s4);
  }

  /** The continuation block starts by moving the frame base back down by the caller's frame size, undoing the call's move (`AdjustUndone`). */
  lemma ResumeCode(env: Env, caller: string, name: Name, f: string, args: seq<Value>)
    requires CallCode(env, caller, name, f, args).Ok?
    ensures CallCode(env, caller, name, f, args).value.Split?
    ensures CallCode(env, caller, name, f, args).value.after == Adjust(LocalPointer, FrameSize(env, caller), '-')
  {
  }

  // ---------------------------------------------------------------------------
  // handleCall

  /** `handleCall`: the six runtime functions inline, any other direct call through `CallCode`. */
  function HandleCall(env: Env, caller: string, name: Name, callee: Callee, args: seq<Value>): Result<Lowered>
  {
    if callee.Indirect? then Err(IndirectCall)
    else
      var f := callee.fname;
      if f == "putchar" then
        if |args| != 1 then Err(BadArgumentCount)
        else
          match GetLocal(env, args[0])
          case Err(e) => Err(e)
          case Ok(c) => Ok(Inline(c + ",0"))
      else if f == "getchar" then
        if |args| != 0 then Err(BadArgumentCount) else Ok(Inline("G"))
      else if f == "calloc" then
        if |args| != 2 then Err(BadArgumentCount)
        else
          match ConstIntOf(args[1])
          case Err(e) => Err(e)
          case Ok(n) =>
            if n != 4 then Err(BadCallocSize)
            else
              match GetLocal(env, args[0])
              case Err(e) => Err(e)
              case Ok(c) => Ok(Inline(Allocate(HeapPointer, c)))
      else if f == "free" then Ok(Inline("0"))
      else if f == "puts" then
        if |args| != 1 then Err(BadArgumentCount)
        else if !args[0].ConstGep? || args[0].base !in env.inits then Err(NotAStringGlobal)
        else Ok(Inline(PrintCode(Text(env.inits[args[0].base])) + "52*,0"))
      else if f == "exit" then Ok(Inline("@"))
      else CallCode(env, caller, name, f, args)
  }

  /** A call ends its block exactly when the planner gave it a continuation block: the six runtime functions are expanded in place. */
  lemma SplitsIffContinuation(env: Env, caller: string, name: Name, callee: Callee, args: seq<Value>)
    requires HandleCall(env, caller, name, callee, args).Ok?
    ensures HandleCall(env, caller, name, callee, args).value.Split? <==> IsContinuationCall(Call(callee, args))
  {
    if callee.Direct? && !IsIntrinsic(callee.fname) {
      CallParts(env, caller, name, callee.fname, args);
    }
  }

  /** `putchar(c)` writes c and yields 0. */
  lemma PutcharRuns(env: Env, caller: string, name: Name, args: seq<Value>, st: State)
    requires HandleCall(env, caller, name, Direct("putchar"), args).Ok? && !st.halted && Addressable(env, st)
    ensures |args| == 1 && GetLocal(env, args[0]).Ok?
    ensures var x := ValueOf(env, args[0], st);
      Run(HandleCall(env, caller, name, Direct("putchar"), args).value.code, st) == Push(st.(out := st.out + [x]), 0)
  {
    var x := ValueOf(env, args[0], st);
    var s2 := st.(out := st.out + [x]);
    GetLocalRuns(env, args[0], st);
    RunTwo(',', '0', Push(st, x));
    OutStep(st, x);
    DigitStep('0', s2);
    RunThen(GetLocal(env, args[0]).value, ",0", st, Push(st, x), Push(s2, 0));
  }

  /** `getchar()` pushes the next input character, or -1 at the end of the input. */
  lemma GetcharRuns(env: Env, caller: string, name: Name, args: seq<Value>, st: State)
    requires HandleCall(env, caller, name, Direct("getchar"), args).Ok? && !st.halted
    ensures args == []
    ensures Run(HandleCall(env, caller, name, Direct("getchar"), args).value.code, st) ==
            if st.inp == [] then Push(st, -1) else Push(st.(inp := st.inp[1..]), st.inp[0])
  {
    RunOne('G', st);
    InStep(st);
  }

  /** `calloc(n, 4)` returns the heap top and advances it by n words (one word per 4-byte element). */
  lemma CallocRuns(env: Env, caller: string, name: Name, args: seq<Value>, st: State)
    requires HandleCall(env, caller, name, Direct("calloc"), args).Ok? && !st.halted && Addressable(env, st)
    ensures |args| == 2 && args[1] == ConstInt(4) && GetLocal(env, args[0]).Ok?
    ensures var hp := Read(st.mem, RegisterCell(HeapPointer));
      var n := ValueOf(env, args[0], st);
      Run(HandleCall(env, caller, name, Direct("calloc"), args).value.code, st) ==
      Push(st.(mem := st.mem[RegisterCell(HeapPointer) := hp + n]), hp)
  {
    var hp := Read(st.mem, RegisterCell(HeapPointer));
    var n := ValueOf(env, args[0], st);
    var s2 := Push(Push(st, hp), hp);
    ValueOfPush(env, args[0], st, hp);
    ValueOfPush(env, args[0], Push(st, hp), hp);
    GetLocalRuns(env, args[0], s2);
    AllocateRuns(HeapPointer, GetLocal(env, args[0]).value, n, st);
  }

  /** `free(p)` does nothing but yield 0. */
  lemma FreeRuns(env: Env, caller: string, name: Name, args: seq<Value>, st: State)
    requires !st.halted
    ensures Run(HandleCall(env, caller, name, Direct("free"), args).value.code, st) == Push(st, 0)
  {
    RunOne('0', st);
    DigitStep('0', st);
  }

  /** `exit(c)` ends the program. */
  lemma ExitRuns(env: Env, caller: string, name: Name, args: seq<Value>, st: State)
    ensures Run(HandleCall(env, caller, name, Direct("exit"), args).value.code, st) == st.(halted := true)
  {
    RunOne('@', st);
    HaltStep(st);
  }

  /** `puts(s)` writes the string constant's characters up to its terminating 0, then a newline, and yields 0. */
  lemma PutsRuns(env: Env, caller: string, name: Name, args: seq<Value>, st: State)
    requires HandleCall(env, caller, name, Direct("puts"), args).Ok? && !st.halted
    ensures |args| == 1 && args[0].ConstGep? && args[0].base in env.inits
    ensures var text := Text(env.inits[args[0].base]);
      Run(HandleCall(env, caller, name, Direct("puts"), args).value.code, st) ==
      Push(st.(out := st.out + text + [10]), 0)
  {
    var text := Text(env.inits[args[0].base]);
    var s1 := st.(out := st.out + text);
    PrintRuns(text, st);
    NewlineRuns(s1);
    assert s1.(out := s1.out + [10]) == st.(out := st.out + text + [10]);
    RunThen(PrintCode(text), "52*,0", st, s1, Push(st.(out := st.out + text + [10]), 0));
  }

  /** Text characters are never 0 and are a prefix of the initializer: `puts` stops exactly at the terminator. */
  lemma {:induction false} TextIsPrefix(s: seq<int>)
    ensures |UpToZero(s)| <= |s|
    ensures UpToZero(s) == s[..|UpToZero(s)|]
    ensures forall k | 0 <= k < |UpToZero(s)| :: UpToZero(s)[k] != 0
    ensures |UpToZero(s)| < |s| ==> s[|UpToZero(s)|] == 0
  {
    if s != [] && s[0] != 0 {
      TextIsPrefix(s[1..]);
    }
  }
}
