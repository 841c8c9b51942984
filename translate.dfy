/**
 * `translate`: every defined function becomes a header row and a run of
 * block segments. A function's code starts with its prologue, which pops the
 * arguments into their frame slots; every instruction appends its lowering,
 * the store of its result (for the instructions that have one) and a space.
 * A block ends a segment, named after the block id of the last instruction
 * seen, and a call of a defined function ends one in the middle of a block.
 */
module Translate {
  import opened Ir
  import opened Machine
  import opened Addressing
  import opened Operands
  import opened Calls
  import opened Lowering
  import Plan

  /** What translation hands to the layout, in order: a text row, or the code of one block id. */
  datatype Piece = Row(text: string) | Segment(id: int, code: string)

  /** The translation state inside a function: the pieces so far, the open code, the alloca total and the last instruction seen. */
  datatype Acc = Acc(done: seq<Piece>, code: string, stackSize: int, last: Option<Name>)

  // ---------------------------------------------------------------------------
  // The header row

  function DigitOf(d: nat): char
    requires d < 10
  {
    ('0' as int + d) as char
  }

  /** The decimal digits of `n`, most significant first. */
  function Digits(n: nat): string
  {
    if n < 10 then [DigitOf(n)] else Digits(n / 10) + [DigitOf(n % 10)]
  }

  /** `%d`: an optional minus sign and the decimal digits of the magnitude. */
  function Decimal(n: int): string
  {
    if n < 0 then "-" + Digits(-n) else Digits(n)
  }

  /** The value of a string of decimal digits. */
  function DigitsValue(s: string): int
  {
    if s == [] then 0 else 10 * DigitsValue(s[..|s| - 1]) + (s[|s| - 1] as int - '0' as int)
  }

  /** Reading a `%d` back. */
  function DecimalValue(s: string): int
  {
    if |s| > 0 && s[0] == '-' then -DigitsValue(s[1..]) else DigitsValue(s)
  }

  predicate IsDigit(c: char)
  {
    '0' <= c <= '9'
  }

  /** The digits are digits, read back as `n`, and only 0 starts with a zero. */
  lemma {:induction false} DigitsRoundTrip(n: nat)
    ensures |Digits(n)| > 0 && forall k | 0 <= k < |Digits(n)| :: IsDigit(Digits(n)[k])
    ensures DigitsValue(Digits(n)) == n
    ensures Digits(n)[0] == '0' <==> n == 0
  {
    if n >= 10 {
      DigitsRoundTrip(n / 10);
      var s := Digits(n);
      assert s[..|s| - 1] == Digits(n / 10);
      assert s[0] == Digits(n / 10)[0];
    }
  }

  /** A header number reads back as the number written. */
  lemma DecimalRoundTrip(n: int)
    ensures DecimalValue(Decimal(n)) == n
  {
    if n < 0 {
      DigitsRoundTrip(-n);
      assert Decimal(n)[1..] == Digits(-n);
    } else {
      DigitsRoundTrip(n);
    }
  }

  /** The row `translate` writes before a function: 20 spaces, then `*** name *** id`. */
  function Header(name: string, id: int): string
  {
    seq(20, _ => ' ') + "*** " + name + " *** " + Decimal(id)
  }

  // ---------------------------------------------------------------------------
  // The specification: one function per loop body, one per loop

  /** The slot `id_map_[&arg]` yields: the recorded one, or 0 for a name never numbered. */
  function Slot(env: Env, a: Name): int
  {
    if a in env.ids then env.ids[a] else 0
  }

  /** The prologue: the arguments popped into their slots, first argument first. */
  function Prologue(env: Env, params: seq<Name>): string
  {
    if params == [] then "" else Prologue(env, params[..|params| - 1]) + Set(Local, Slot(env, params[|params| - 1]))
  }

  /** The store of an instruction's result into its slot, for the instructions that have one; a missing id aborts. */
  function StoreResult(env: Env, inst: Inst): Result<string>
  {
    if !ProducesValue(inst.op) then Ok("")
    else if inst.name in env.ids then Ok(Set(Local, env.ids[inst.name]))
    else Err(MissingId)
  }

  /** The body of the instruction loop. */
  function InstStep(env: Env, fname: string, block: Name, inst: Inst, a: Acc): Result<Acc>
  {
    match HandleInstruction(env, fname, block, inst, a.stackSize)
    case Err(e) => Err(e)
    case Ok(lowered) =>
      match StoreResult(env, inst)
      case Err(e) => Err(e)
      case Ok(store) =>
        match lowered.0
        case Inline(c) => Ok(Acc(a.done, a.code + c + store + " ", lowered.1, Some(inst.name)))
        case Split(before, id, after) =>
          Ok(Acc(a.done + [Segment(id, a.code + before)], after + store + " ", lowered.1, Some(inst.name)))
  }

  /** The instruction loop over `insts`. */
  function LowerInsts(env: Env, fname: string, block: Name, insts: seq<Inst>, a: Acc): Result<Acc>
    decreases |insts|, 1
  {
    if insts == [] then Ok(a) else LastRound(env, fname, block, insts, a)
  }

  /** The loop over a non-empty `insts`: the rounds before the last, then the last instruction's step. */
  function LastRound(env: Env, fname: string, block: Name, insts: seq<Inst>, a: Acc): Result<Acc>
    requires insts != []
    decreases |insts|, 0
  {
    match LowerInsts(env, fname, block, insts[..|insts| - 1], a)
    case Err(e) => Err(e)
    case Ok(b) => InstStep(env, fname, block, insts[|insts| - 1], b)
  }

  /** `emitBlock(*last_inst)`: the open code becomes the segment of the last instruction's block id. */
  function CloseBlock(env: Env, a: Acc): Result<Acc>
  {
    match a.last
    case None => Err(EmptyFirstBlock)
    case Some(n) =>
      if Plan.InstKey(n) !in env.blocks then Err(MissingId)
      else Ok(a.(done := a.done + [Segment(env.blocks[Plan.InstKey(n)], a.code)], code := ""))
  }

  /** The body of the block loop. */
  function BlockStep(env: Env, fname: string, b: Block, a: Acc): Result<Acc>
  {
    match LowerInsts(env, fname, b.name, b.insts, a)
    case Err(e) => Err(e)
    case Ok(c) => CloseBlock(env, c)
  }

  /** The block loop over `bs`. */
  function LowerBlocks(env: Env, fname: string, bs: seq<Block>, a: Acc): Result<Acc>
  {
    if bs == [] then Ok(a)
    else
      match LowerBlocks(env, fname, bs[..|bs| - 1], a)
      case Err(e) => Err(e)
      case Ok(c) => BlockStep(env, fname, bs[|bs| - 1], c)
  }

  /** `func_map_[&func]`: the function's first block id, or 0 for a name never numbered. */
  function FuncId(funcIds: map<string, int>, name: string): int
  {
    if name in funcIds then funcIds[name] else 0
  }

  /** The state a defined function's translation starts from: its header row, its prologue, no allocas, no instruction seen. */
  function FunctionStart(env: Env, funcIds: map<string, int>, f: Function): Acc
  {
    Acc([Row(Header(f.name, FuncId(funcIds, f.name)))], Prologue(env, f.args), 0, None)
  }

  /** The pieces of one function: none for a declaration. */
  function LowerFunction(env: Env, funcIds: map<string, int>, f: Function): Result<seq<Piece>>
  {
    if f.IsDeclaration() then Ok([])
    else
      match LowerBlocks(env, f.name, f.blocks, FunctionStart(env, funcIds, f))
      case Err(e) => Err(e)
      case Ok(a) => Ok(a.done)
  }

  /** The function loop over `fs`. */
  function LowerFunctions(env: Env, funcIds: map<string, int>, fs: seq<Function>): Result<seq<Piece>>
  {
    if fs == [] then Ok([])
    else
      match LowerFunctions(env, funcIds, fs[..|fs| - 1])
      case Err(e) => Err(e)
      case Ok(ps) =>
        match LowerFunction(env, funcIds, fs[|fs| - 1])
        case Err(e) => Err(e)
        case Ok(qs) => Ok(ps + qs)
  }

  // ---------------------------------------------------------------------------
  // translate as written

  lemma LowerInstsNext(env: Env, fname: string, block: Name, insts: seq<Inst>, k: nat, a: Acc)
    requires k < |insts|
    ensures LowerInsts(env, fname, block, insts[..k + 1], a) ==
      match LowerInsts(env, fname, block, insts[..k], a)
      case Err(e) => Err(e)
      case Ok(b) => InstStep(env, fname, block, insts[k], b)
  {
    assert insts[..k + 1][..k] == insts[..k];
    assert LowerInsts(env, fname, block, insts[..k + 1], a) == LastRound(env, fname, block, insts[..k + 1], a);
  }

  lemma LowerInstsErrNext(env: Env, fname: string, block: Name, insts: seq<Inst>, k: nat, a: Acc)
    requires k < |insts| && LowerInsts(env, fname, block, insts[..k], a).Err?
    ensures LowerInsts(env, fname, block, insts[..k + 1], a) == LowerInsts(env, fname, block, insts[..k], a)
  {
    assert insts[..k + 1][..k] == insts[..k];
    assert LowerInsts(env, fname, block, insts[..k + 1], a) == LastRound(env, fname, block, insts[..k + 1], a);
  }

  lemma {:induction false} LowerInstsErrSticks(env: Env, fname: string, block: Name, insts: seq<Inst>, k: nat, n: nat, a: Acc)
    requires k <= n <= |insts| && LowerInsts(env, fname, block, insts[..k], a).Err?
    ensures LowerInsts(env, fname, block, insts[..n], a) == LowerInsts(env, fname, block, insts[..k], a)
    decreases n
  {
    if n > k {
      LowerInstsErrSticks(env, fname, block, insts, k, n - 1, a);
      LowerInstsErrNext(env, fname, block, insts, n - 1, a);
    }
  }

  lemma LowerBlocksNext(env: Env, fname: string, bs: seq<Block>, j: nat, a: Acc)
    requires j < |bs|
    ensures LowerBlocks(env, fname, bs[..j + 1], a) ==
      match LowerBlocks(env, fname, bs[..j], a)
      case Err(e) => Err(e)
      case Ok(c) => BlockStep(env, fname, bs[j], c)
  {
    assert bs[..j + 1][..j] == bs[..j];
  }

  lemma {:induction false} LowerBlocksErrSticks(env: Env, fname: string, bs: seq<Block>, j: nat, n: nat, a: Acc)
    requires j <= n <= |bs| && LowerBlocks(env, fname, bs[..j], a).Err?
    ensures LowerBlocks(env, fname, bs[..n], a) == LowerBlocks(env, fname, bs[..j], a)
    decreases n
  {
    if n > j {
      LowerBlocksErrSticks(env, fname, bs, j, n - 1, a);
      LowerBlocksNext(env, fname, bs, n - 1, a);
    }
  }

  /** One round of the instruction loop: lower `insts[k]`, store its result, and append a space. */
  method TranslateInst(env: Env, fname: string, block: Name, insts: seq<Inst>, k: nat, a0: Acc, a: Acc) returns (r: Result<Acc>)
    requires k < |insts| && LowerInsts(env, fname, block, insts[..k], a0) == Ok(a)
    ensures r == LowerInsts(env, fname, block, insts[..k + 1], a0)
  {
    var inst := insts[k];
    LowerInstsNext(env, fname, block, insts, k, a0);
    var done, code := a.done, a.code;
    var last := Some(inst.name);
    var lowered := HandleInstruction(env, fname, block, inst, a.stackSize);
    if lowered.Err? {
      return Err(lowered.error);
    }
    var store := "";
    if ProducesValue(inst.op) {
      if inst.name !in env.ids {
        return Err(MissingId);
      }
      store := Set(Local, env.ids[inst.name]);
    }
    match lowered.value.0 {
      case Inline(c) =>
        code := code + c + store;
      case Split(before, id, after) =>
        done := done + [Segment(id, code + before)];
        code := after + store;
    }
    r := Ok(Acc(done, code + " ", lowered.value.1, last));
  }

  /** The instruction loop of one block, as `translate` runs it. */
  method TranslateInsts(env: Env, fname: string, block: Name, insts: seq<Inst>, a0: Acc) returns (r: Result<Acc>)
    ensures r == LowerInsts(env, fname, block, insts, a0)
  {
    var a := a0;
    var k := 0;
    while k < |insts|
      invariant 0 <= k <= |insts|
      invariant LowerInsts(env, fname, block, insts[..k], a0) == Ok(a)
    {
      var next := TranslateInst(env, fname, block, insts, k, a0, a);
      if next.Err? {
        LowerInstsErrSticks(env, fname, block, insts, k + 1, |insts|, a0);
        assert insts[..|insts|] == insts;
        return next;
      }
      a := next.value;
      k := k + 1;
    }
    assert insts[..k] == insts;
    r := Ok(a);
  }

  /** The block loop of one function, as `translate` runs it. */
  method TranslateBlocks(env: Env, fname: string, bs: seq<Block>, a0: Acc) returns (r: Result<Acc>)
    ensures r == LowerBlocks(env, fname, bs, a0)
  {
    var a := a0;
    var j := 0;
    while j < |bs|
      invariant 0 <= j <= |bs|
      invariant LowerBlocks(env, fname, bs[..j], a0) == Ok(a)
    {
      LowerBlocksNext(env, fname, bs, j, a0);
      var c := TranslateInsts(env, fname, bs[j].name, bs[j].insts, a);
      if c.Err? {
        LowerBlocksErrSticks(env, fname, bs, j + 1, |bs|, a0);
        assert bs[..|bs|] == bs;
        return Err(c.error);
      }
      var closed := CloseBlock(env, c.value);
      if closed.Err? {
        LowerBlocksErrSticks(env, fname, bs, j + 1, |bs|, a0);
        assert bs[..|bs|] == bs;
        return Err(closed.error);
      }
      a := closed.value;
      j := j + 1;
    }
    assert bs[..j] == bs;
    r := Ok(a);
  }

  lemma LowerFunctionsNext(env: Env, funcIds: map<string, int>, fs: seq<Function>, i: nat)
    requires i < |fs|
    ensures LowerFunctions(env, funcIds, fs[..i + 1]) ==
      match LowerFunctions(env, funcIds, fs[..i])
      case Err(e) => Err(e)
      case Ok(ps) =>
        match LowerFunction(env, funcIds, fs[i])
        case Err(e) => Err(e)
        case Ok(qs) => Ok(ps + qs)
  {
    assert fs[..i + 1][..i] == fs[..i];
  }

  lemma {:induction false} LowerFunctionsErrSticks(env: Env, funcIds: map<string, int>, fs: seq<Function>, i: nat, n: nat)
    requires i <= n <= |fs| && LowerFunctions(env, funcIds, fs[..i]).Err?
    ensures LowerFunctions(env, funcIds, fs[..n]) == LowerFunctions(env, funcIds, fs[..i])
    decreases n
  {
    if n > i {
      LowerFunctionsErrSticks(env, funcIds, fs, i, n - 1);
      LowerFunctionsNext(env, funcIds, fs, n - 1);
    }
  }

  lemma PrologueNext(env: Env, params: seq<Name>, i: nat)
    requires i < |params|
    ensures Prologue(env, params[..i + 1]) == Prologue(env, params[..i]) + Set(Local, Slot(env, params[i]))
  {
    assert params[..i + 1][..i] == params[..i];
  }

  /** The argument loop: each argument popped into its slot, first argument first. */
  method TranslateArgs(env: Env, args: seq<Name>) returns (code: string)
    ensures code == Prologue(env, args)
  {
    code := "";
    var k := 0;
    while k < |args|
      invariant 0 <= k <= |args|
      invariant code == Prologue(env, args[..k])
    {
      PrologueNext(env, args, k);
      code := code + Set(Local, Slot(env, args[k]));
      k := k + 1;
    }
    assert args[..k] == args;
  }

  /** One round of the function loop: nothing for a declaration; otherwise the header row, the prologue and the blocks. */
  method TranslateFunction(env: Env, funcIds: map<string, int>, f: Function) returns (r: Result<seq<Piece>>)
    ensures r == LowerFunction(env, funcIds, f)
  {
    if f.IsDeclaration() {
      return Ok([]);
    }
    var header := Row(Header(f.name, FuncId(funcIds, f.name)));
    var prologue := TranslateArgs(env, f.args);
    var a := TranslateBlocks(env, f.name, f.blocks, Acc([header], prologue, 0, None));
    if a.Err? {
      return Err(a.error);
    }
    r := Ok(a.value.done);
  }

  /** `translate`: the function loop. */
  method TranslateFunctions(env: Env, funcIds: map<string, int>, fs: seq<Function>) returns (r: Result<seq<Piece>>)
    ensures r == LowerFunctions(env, funcIds, fs)
  {
    var pieces: seq<Piece> := [];
    var i := 0;
    while i < |fs|
      invariant 0 <= i <= |fs|
      invariant LowerFunctions(env, funcIds, fs[..i]) == Ok(pieces)
    {
      LowerFunctionsNext(env, funcIds, fs, i);
      var more := TranslateFunction(env, funcIds, fs[i]);
      if more.Err? {
        LowerFunctionsErrSticks(env, funcIds, fs, i + 1, |fs|);
        assert fs[..|fs|] == fs;
        return Err(more.error);
      }
      pieces := pieces + more.value;
      i := i + 1;
    }
    assert fs[..i] == fs;
    r := Ok(pieces);
  }

  // ---------------------------------------------------------------------------
  // What translation guarantees: one segment per reserved block id, in order

  /** The words an instruction reserves on the alloca stack. */
  function AllocaSize(inst: Inst): int
  {
    if inst.op.Alloca? && Sized(inst.op.allocTy) then |Words(inst.op.allocTy)| else 0
  }

  /** The words all allocas among `insts` reserve. */
  function AllocaWords(insts: seq<Inst>): int
  {
    if insts == [] then 0 else AllocaWords(insts[..|insts| - 1]) + AllocaSize(insts[|insts| - 1])
  }

  /** Every instruction of `insts` has block id `base` plus the number of continuation calls before it. */
  predicate Numbered(env: Env, insts: seq<Inst>, base: int)
  {
    forall k | 0 <= k < |insts| ::
      Plan.InstKey(insts[k].name) in env.blocks &&
      env.blocks[Plan.InstKey(insts[k].name)] == base + Plan.ContinuationCalls(insts[..k])
  }

  /** `ps` is a run of segments with the ids `from`, `from + 1`, ... */
  predicate Consecutive(ps: seq<Piece>, from: int)
  {
    forall k | 0 <= k < |ps| :: ps[k].Segment? && ps[k].id == from + k
  }

  /** The last round: the alloca total grows by the instruction's words, it becomes the last instruction seen, and only a continuation call closes a segment, with its own block id. */
  lemma LastRoundShape(env: Env, fname: string, block: Name, insts: seq<Inst>, a: Acc)
    requires insts != [] && LowerInsts(env, fname, block, insts, a).Ok?
    ensures LowerInsts(env, fname, block, insts[..|insts| - 1], a).Ok?
    ensures var inst := insts[|insts| - 1];
      var c := LowerInsts(env, fname, block, insts[..|insts| - 1], a).value;
      var b := LowerInsts(env, fname, block, insts, a).value;
      b.last == Some(inst.name) && b.stackSize == c.stackSize + AllocaSize(inst) &&
      (IsContinuationCall(inst.op) ==>
        Plan.InstKey(inst.name) in env.blocks &&
        |b.done| == |c.done| + 1 && b.done[..|c.done|] == c.done &&
        b.done[|c.done|].Segment? && b.done[|c.done|].id == env.blocks[Plan.InstKey(inst.name)]) &&
      (!IsContinuationCall(inst.op) ==> b.done == c.done)
  {
    var inst := insts[|insts| - 1];
    assert LowerInsts(env, fname, block, insts, a) == LastRound(env, fname, block, insts, a);
    var c := LowerInsts(env, fname, block, insts[..|insts| - 1], a).value;
    SplitsOnlyAtCalls(env, fname, block, inst, c.stackSize);
    StackSizeGrowth(env, fname, block, inst, c.stackSize);
  }

  lemma NumberedPrefix(env: Env, insts: seq<Inst>, n: nat, base: int)
    requires n <= |insts| && Numbered(env, insts, base)
    ensures Numbered(env, insts[..n], base)
  {
    forall k | 0 <= k < n
      ensures insts[..n][..k] == insts[..k]
    {
    }
  }

  lemma ContinuationCallsNext(insts: seq<Inst>)
    requires insts != []
    ensures Plan.ContinuationCalls(insts) ==
      Plan.ContinuationCalls(insts[..|insts| - 1]) + (if IsContinuationCall(insts[|insts| - 1].op) then 1 else 0)
  {
  }

  lemma ConsecutiveSnoc(ps: seq<Piece>, from: int, p: Piece)
    requires Consecutive(ps, from) && p.Segment? && p.id == from + |ps|
    ensures Consecutive(ps + [p], from)
  {
  }

  /**
   * The instruction loop over a numbered block adds one segment per
   * continuation call, with consecutive ids from the block's own id, keeps
   * the pieces before, and adds every alloca's words to the alloca total.
   */
  lemma {:induction false} LowerInstsSegments(env: Env, fname: string, block: Name, insts: seq<Inst>, a: Acc, base: int)
    requires LowerInsts(env, fname, block, insts, a).Ok? && Numbered(env, insts, base)
    ensures var b := LowerInsts(env, fname, block, insts, a).value;
      |b.done| == |a.done| + Plan.ContinuationCalls(insts) && b.done[..|a.done|] == a.done &&
      Consecutive(b.done[|a.done|..], base) &&
      b.stackSize == a.stackSize + AllocaWords(insts) &&
      b.last == (if insts == [] then a.last else Some(insts[|insts| - 1].name))
  {
    if insts != [] {
      var init := insts[..|insts| - 1];
      var inst := insts[|insts| - 1];
      NumberedPrefix(env, insts, |insts| - 1, base);
      LowerInstsSegments(env, fname, block, init, a, base);
      LastRoundShape(env, fname, block, insts, a);
      var c := LowerInsts(env, fname, block, init, a).value;
      var b := LowerInsts(env, fname, block, insts, a).value;
      ContinuationCallsNext(insts);
      if IsContinuationCall(inst.op) {
        assert env.blocks[Plan.InstKey(inst.name)] == base + Plan.ContinuationCalls(init);
        ConsecutiveSnoc(c.done[|a.done|..], base, b.done[|c.done|]);
        assert b.done[|a.done|..] == c.done[|a.done|..] + [b.done[|c.done|]];
      }
    }
  }

  /** A block numbered from `id`: non-empty, not ending in a continuation call, its instructions numbered from `id`. */
  predicate BlockNumbered(env: Env, b: Block, id: int)
  {
    b.insts != [] && !IsContinuationCall(b.insts[|b.insts| - 1].op) && Numbered(env, b.insts, id)
  }

  /** The blocks of a function are numbered one after another from `base`: block `j` from `base` plus `j` plus the continuation calls before it. */
  predicate BlocksNumbered(env: Env, bs: seq<Block>, base: int)
  {
    forall j | 0 <= j < |bs| :: BlockNumbered(env, bs[j], base + j + Plan.BlockContinuations(bs[..j]))
  }

  lemma BlocksNumberedPrefix(env: Env, bs: seq<Block>, base: int)
    requires bs != [] && BlocksNumbered(env, bs, base)
    ensures BlocksNumbered(env, bs[..|bs| - 1], base)
  {
    var init := bs[..|bs| - 1];
    forall j | 0 <= j < |init|
      ensures BlockNumbered(env, init[j], base + j + Plan.BlockContinuations(init[..j]))
    {
      assert init[j] == bs[j] && init[..j] == bs[..j];
    }
  }

  /** Closing a block whose last instruction has block id `id` appends that segment. */
  lemma CloseBlockShape(env: Env, fname: string, b: Block, a: Acc, base: int)
    requires BlockStep(env, fname, b, a).Ok? && BlockNumbered(env, b, base)
    ensures var c := LowerInsts(env, fname, b.name, b.insts, a);
      var d := BlockStep(env, fname, b, a).value;
      c.Ok? && d.done == c.value.done + [Segment(base + Plan.ContinuationCalls(b.insts), c.value.code)] &&
      d.stackSize == c.value.stackSize && d.code == ""
  {
    var insts := b.insts;
    LowerInstsSegments(env, fname, b.name, insts, a, base);
    ContinuationCallsNext(insts);
  }

  /** One block numbered from `from` appends the segments `from`, ..., `from` plus its continuation calls. */
  lemma BlockStepSegments(env: Env, fname: string, b: Block, c: Acc, from: int)
    requires BlockStep(env, fname, b, c).Ok? && BlockNumbered(env, b, from)
    ensures var d := BlockStep(env, fname, b, c).value;
      |d.done| == |c.done| + 1 + Plan.ContinuationCalls(b.insts) && d.done[..|c.done|] == c.done &&
      Consecutive(d.done[|c.done|..], from)
  {
    CloseBlockShape(env, fname, b, c, from);
    var m := LowerInsts(env, fname, b.name, b.insts, c).value;
    LowerInstsSegments(env, fname, b.name, b.insts, c, from);
    var d := BlockStep(env, fname, b, c).value;
    var seg := Segment(from + Plan.ContinuationCalls(b.insts), m.code);
    assert d.done == m.done + [seg];
    ConsecutiveSnoc(m.done[|c.done|..], from, seg);
    assert d.done[|c.done|..] == m.done[|c.done|..] + [seg];
  }

  /**
   * The block loop over blocks numbered from `base` appends segments with
   * the consecutive ids `base`, `base + 1`, ...: one per block and one per
   * continuation call, which are exactly the ids the planner reserves.
   */
  lemma {:induction false} LowerBlocksSegments(env: Env, fname: string, bs: seq<Block>, a: Acc, base: int)
    requires LowerBlocks(env, fname, bs, a).Ok? && BlocksNumbered(env, bs, base)
    ensures var b := LowerBlocks(env, fname, bs, a).value;
      |b.done| == |a.done| + |bs| + Plan.BlockContinuations(bs) && b.done[..|a.done|] == a.done &&
      Consecutive(b.done[|a.done|..], base)
  {
    if bs != [] {
      var init := bs[..|bs| - 1];
      var blk := bs[|bs| - 1];
      var j := |bs| - 1;
      BlocksNumberedPrefix(env, bs, base);
      LowerBlocksSegments(env, fname, init, a, base);
      var c := LowerBlocks(env, fname, init, a).value;
      var from := base + j + Plan.BlockContinuations(init);
      assert bs[..j] == init;
      var d := LowerBlocks(env, fname, bs, a).value;
      assert BlockStep(env, fname, blk, c) == Ok(d);
      assert BlockNumbered(env, bs[j], base + j + Plan.BlockContinuations(bs[..j]));
      BlockStepSegments(env, fname, blk, c, from);
      assert d.done[|a.done|..] == c.done[|a.done|..] + d.done[|c.done|..];
      ConsecutiveAppend(c.done[|a.done|..], d.done[|c.done|..], base, from);
    }
  }

  lemma ConsecutiveAppend(ps: seq<Piece>, qs: seq<Piece>, from: int, mid: int)
    requires Consecutive(ps, from) && Consecutive(qs, mid) && mid == from + |ps|
    ensures Consecutive(ps + qs, from)
  {
  }

  /**
   * A defined function whose blocks are numbered from its function id
   * becomes its header row followed by one segment for each of its block
   * ids, in order: one per block and one per continuation call.
   */
  lemma FunctionPieces(env: Env, funcIds: map<string, int>, f: Function)
    requires !f.IsDeclaration() && LowerFunction(env, funcIds, f).Ok?
    requires BlocksNumbered(env, f.blocks, FuncId(funcIds, f.name))
    ensures var ps := LowerFunction(env, funcIds, f).value;
      |ps| == 1 + |f.blocks| + Plan.BlockContinuations(f.blocks) &&
      ps[0] == Row(Header(f.name, FuncId(funcIds, f.name))) &&
      Consecutive(ps[1..], FuncId(funcIds, f.name))
  {
    LowerBlocksSegments(env, f.name, f.blocks, FunctionStart(env, funcIds, f), FuncId(funcIds, f.name));
  }

  // ---------------------------------------------------------------------------
  // The prologue receives the arguments

  /** The memory once the prologue has popped the top `|params|` of `vals` (the last is the top) into the parameters' slots of the frame at `fb`. */
  function Spill(env: Env, params: seq<Name>, vals: seq<int>, fb: int, m: map<Cell, int>): map<Cell, int>
    requires |params| <= |vals|
  {
    if params == [] then m
    else
      Spill(env, params[..|params| - 1], vals, fb, m)[CellOf(Local, fb + Slot(env, params[|params| - 1])) := vals[|vals| - |params|]]
  }

  /** The prologue's stores miss the local-pointer register. */
  lemma {:induction false} SpillKeepsBase(env: Env, params: seq<Name>, vals: seq<int>, fb: int, m: map<Cell, int>)
    requires |params| <= |vals| && fb >= 9 && forall n | n in env.ids :: env.ids[n] >= 0
    ensures Read(Spill(env, params, vals, fb, m), RegisterCell(LocalPointer)) == Read(m, RegisterCell(LocalPointer))
  {
    if params != [] {
      SpillKeepsBase(env, params[..|params| - 1], vals, fb, m);
      DataIsNotARegister(Local, fb + Slot(env, params[|params| - 1]), LocalPointer);
    }
  }

  lemma PushAllSplit(s: State, vals: seq<int>, n: nat)
    requires 0 < n <= |vals|
    ensures PushAll(s, vals[..|vals| - n + 1]) == Push(PushAll(s, vals[..|vals| - n]), vals[|vals| - n])
  {
    PushAllSnoc(s, vals[..|vals| - n], vals[|vals| - n]);
    assert vals[..|vals| - n + 1] == vals[..|vals| - n] + [vals[|vals| - n]];
  }

  /**
   * The prologue pops one value per parameter, the first parameter taking
   * the top of the stack, into the parameters' slots of the current frame,
   * and changes nothing else.
   */
  lemma {:induction false} PrologueRuns(env: Env, params: seq<Name>, vals: seq<int>, s: State)
    requires |params| <= |vals| && !s.halted && Addressable(env, s) && FrameBase(s) >= 9
    ensures RunsTo(Prologue(env, params), PushAll(s, vals),
                   PushAll(s, vals[..|vals| - |params|]).(mem := Spill(env, params, vals, FrameBase(s), s.mem)))
  {
    var n := |params|;
    var fb := FrameBase(s);
    if n == 0 {
      assert vals[..|vals|] == vals;
      PushAllKeeps(s, vals);
      RunEmpty(PushAll(s, vals));
    } else {
      var init := params[..n - 1];
      var slot := Slot(env, params[n - 1]);
      var m1 := Spill(env, init, vals, fb, s.mem);
      PrologueRuns(env, init, vals, s);
      var u := PushAll(s, vals[..|vals| - n]).(mem := m1);
      var v := vals[|vals| - n];
      PushAllSplit(s, vals, n);
      PushAllKeeps(s, vals[..|vals| - n]);
      SpillKeepsBase(env, init, vals, fb, s.mem);
      assert AddressOf(Local, slot, u) == fb + slot;
      SetRuns(Local, slot, u, v);
      var t := PushAll(s, vals[..|vals| - n]).(mem := Spill(env, params, vals, fb, s.mem));
      assert RunsTo(Set(Local, slot), Push(u, v), t);
      RunsToThen(Prologue(env, init), Set(Local, slot), Prologue(env, params), PushAll(s, vals), Push(u, v), t);
    }
  }

  /** With distinct slots, parameter `k` ends up holding the value `k` places below the top. */
  lemma {:induction false} SpillReads(env: Env, params: seq<Name>, vals: seq<int>, fb: int, m: map<Cell, int>)
    requires |params| <= |vals| && fb >= 0 && forall n | n in env.ids :: env.ids[n] >= 0
    requires forall k, l | 0 <= k < l < |params| :: Slot(env, params[k]) != Slot(env, params[l])
    ensures forall k | 0 <= k < |params| ::
      Read(Spill(env, params, vals, fb, m), CellOf(Local, fb + Slot(env, params[k]))) == vals[|vals| - 1 - k]
  {
    if params != [] {
      var n := |params|;
      var init := params[..n - 1];
      SpillReads(env, init, vals, fb, m);
      var last := fb + Slot(env, params[n - 1]);
      forall k | 0 <= k < n - 1
        ensures Read(Spill(env, params, vals, fb, m), CellOf(Local, fb + Slot(env, params[k]))) == vals[|vals| - 1 - k]
      {
        assert init[k] == params[k];
        CellOfInjective(Local, fb + Slot(env, params[k]), Local, last);
      }
    }
  }

  /** The prologue leaves every frame cell that is not a parameter's slot as it was. */
  lemma {:induction false} SpillKeepsOthers(env: Env, params: seq<Name>, vals: seq<int>, fb: int, m: map<Cell, int>, a: int)
    requires |params| <= |vals| && fb >= 0 && a >= 0 && forall n | n in env.ids :: env.ids[n] >= 0
    requires forall k | 0 <= k < |params| :: a != fb + Slot(env, params[k])
    ensures Read(Spill(env, params, vals, fb, m), CellOf(Local, a)) == Read(m, CellOf(Local, a))
  {
    if params != [] {
      var n := |params|;
      var init := params[..n - 1];
      forall k | 0 <= k < n - 1
        ensures a != fb + Slot(env, init[k])
      {
        assert init[k] == params[k];
      }
      SpillKeepsOthers(env, init, vals, fb, m, a);
      assert a != fb + Slot(env, params[n - 1]);
      CellOfInjective(Local, a, Local, fb + Slot(env, params[n - 1]));
    }
  }

  /**
   * The callee half of argument passing: when the stack holds the values of
   * the call's arguments with the first on top (what the calling sequence
   * pushes), the prologue pops them all, keeps the frame base, and leaves
   * the value of argument `k` in parameter `k`'s slot of the callee's frame.
   */
  lemma ArgumentsReceived(env: Env, args: seq<Value>, params: seq<Name>, st: State, s: State, vals: seq<int>)
    requires |params| == |args| && ArgsOk(env, args, 0) && vals == ArgValues(env, args, 0, st)
    requires !s.halted && Addressable(env, s) && FrameBase(s) >= 9
    requires forall k, l | 0 <= k < l < |params| :: Slot(env, params[k]) != Slot(env, params[l])
    ensures var m := Spill(env, params, vals, FrameBase(s), s.mem);
      RunsTo(Prologue(env, params), PushAll(s, vals), s.(mem := m)) &&
      Read(m, RegisterCell(LocalPointer)) == FrameBase(s) && ArgsInSlots(env, args, params, st, FrameBase(s), m)
  {
    assert vals[..|vals| - |params|] == [];
    assert PushAll(s, vals[..|vals| - |params|]) == s;
    PrologueRuns(env, params, vals, s);
    SpillKeepsBase(env, params, vals, FrameBase(s), s.mem);
    ParamsHoldArgs(env, args, params, st, FrameBase(s), s.mem);
  }

  /** Parameter `k`'s slot of the frame at `fb` holds the value argument `k` has in `st`. */
  predicate ArgsInSlots(env: Env, args: seq<Value>, params: seq<Name>, st: State, fb: int, m: map<Cell, int>)
    requires |params| == |args|
  {
    forall k | 0 <= k < |params| ::
      GetLocal(env, args[k]).Ok? && Read(m, CellOf(Local, fb + Slot(env, params[k]))) == ValueOf(env, args[k], st)
  }

  lemma ParamsHoldArgs(env: Env, args: seq<Value>, params: seq<Name>, st: State, fb: int, mem: map<Cell, int>)
    requires |params| == |args| && ArgsOk(env, args, 0) && fb >= 0 && forall n | n in env.ids :: env.ids[n] >= 0
    requires forall k, l | 0 <= k < l < |params| :: Slot(env, params[k]) != Slot(env, params[l])
    ensures ArgsInSlots(env, args, params, st, fb, Spill(env, params, ArgValues(env, args, 0, st), fb, mem))
  {
    var vals := ArgValues(env, args, 0, st);
    var m := Spill(env, params, vals, fb, mem);
    forall k | 0 <= k < |params|
      ensures GetLocal(env, args[k]).Ok? && Read(m, CellOf(Local, fb + Slot(env, params[k]))) == ValueOf(env, args[k], st)
    {
      SpillReadAt(env, params, vals, fb, mem, k);
      ArgValueAt(env, args, st, k);
    }
  }

  lemma SpillReadAt(env: Env, params: seq<Name>, vals: seq<int>, fb: int, m: map<Cell, int>, k: nat)
    requires k < |params| <= |vals| && fb >= 0 && forall n | n in env.ids :: env.ids[n] >= 0
    requires forall k, l | 0 <= k < l < |params| :: Slot(env, params[k]) != Slot(env, params[l])
    ensures Read(Spill(env, params, vals, fb, m), CellOf(Local, fb + Slot(env, params[k]))) == vals[|vals| - 1 - k]
  {
    SpillReads(env, params, vals, fb, m);
  }

  lemma ArgValueAt(env: Env, args: seq<Value>, st: State, k: nat)
    requires k < |args| && ArgsOk(env, args, 0)
    ensures GetLocal(env, args[k]).Ok? && ArgValues(env, args, 0, st)[|args| - 1 - k] == ValueOf(env, args[k], st)
  {
    ArgValuesOrder(env, args, 0, st);
  }
}
