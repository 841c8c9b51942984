/**
 * `getLocal`: the code that pushes an operand. A global pushes its address,
 * an integer constant itself, a null pointer 0, and an argument or an
 * instruction result is read from its slot in the current frame.
 */
module Operands {
  import opened Ir
  import opened Machine
  import opened Literals
  import opened Addressing
  import Plan

  /** Everything the lowering rules look up: the tables the planner and the global setup filled, and the module itself. */
  datatype Env = Env(
    globals: map<Name, int>,        // global_map_: the address of each placed global
    inits: map<Name, Init>,         // each global's initializer, for `puts`
    ids: map<Name, int>,            // id_map_: the frame slot of each argument and instruction
    blocks: map<Plan.Key, int>,     // block_map_: the block id of each block and instruction
    localSize: map<string, int>,    // local_size_map_: each defined function's frame size
    funcs: map<string, Function>,   // the module's functions by name
    blockOf: map<Name, Block>)      // the module's blocks by name

  /** The operands `getLocal` can push: constants, and globals and slots that are in their tables. */
  predicate Resolvable(env: Env, v: Value)
  {
    match v
    case GlobalAddr(g) => g in env.globals
    case ConstInt(_) => true
    case NullPtr => true
    case InstResult(n) => n in env.ids
    case Argument(n) => n in env.ids
    case UndefValue => false
    case ConstGep(_) => false
  }

  /** `getLocal`: the code pushing the operand `v`; anything not in a table aborts. */
  function GetLocal(env: Env, v: Value): Result<string>
  {
    match v
    case GlobalAddr(g) => if g in env.globals then Ok(Literal(env.globals[g])) else Err(MissingId)
    case ConstInt(c) => Ok(Literal(c))
    case NullPtr => Ok(Literal(0))
    case InstResult(n) => if n in env.ids then Ok(Get(Local, env.ids[n])) else Err(MissingId)
    case Argument(n) => if n in env.ids then Ok(Get(Local, env.ids[n])) else Err(MissingId)
    case UndefValue => Err(MissingId)
    case ConstGep(_) => Err(MissingId)
  }

  /** `getLocal` succeeds exactly on the resolvable operands, and otherwise reports a missing id. */
  lemma GetLocalOk(env: Env, v: Value)
    ensures GetLocal(env, v).Ok? <==> Resolvable(env, v)
    ensures GetLocal(env, v).Err? ==> GetLocal(env, v).error == MissingId
  {
  }

  /** The current frame base: the local-pointer register. */
  function FrameBase(st: State): int
  {
    Read(st.mem, RegisterCell(LocalPointer))
  }

  /** The value an operand has in state `st`: a constant, a global's address, or the content of its frame slot. */
  function ValueOf(env: Env, v: Value, st: State): int
    requires GetLocal(env, v).Ok?
  {
    match v
    case GlobalAddr(g) => env.globals[g]
    case ConstInt(c) => c
    case NullPtr => 0
    case InstResult(n) => Read(st.mem, CellOf(Local, FrameBase(st) + env.ids[n]))
    case Argument(n) => Read(st.mem, CellOf(Local, FrameBase(st) + env.ids[n]))
  }

  /** Frame slots have non-negative addresses: the frame base and every slot id are non-negative. */
  predicate Addressable(env: Env, st: State)
  {
    FrameBase(st) >= 0 && forall n | n in env.ids :: env.ids[n] >= 0
  }

  /** Two memories agree on the LOCAL cell of address `a`. */
  ghost predicate LocalAgrees(m1: map<Cell, int>, m2: map<Cell, int>, a: int)
  {
    Read(m1, CellOf(Local, a)) == Read(m2, CellOf(Local, a))
  }

  /** Two memories agree on the local-pointer register and on every LOCAL cell. */
  ghost predicate SameLocals(m1: map<Cell, int>, m2: map<Cell, int>)
  {
    Read(m1, RegisterCell(LocalPointer)) == Read(m2, RegisterCell(LocalPointer)) &&
    forall a: int | a >= 0 :: LocalAgrees(m1, m2, a)
  }

  lemma SameLocalsTrans(m1: map<Cell, int>, m2: map<Cell, int>, m3: map<Cell, int>)
    requires SameLocals(m1, m2) && SameLocals(m2, m3)
    ensures SameLocals(m1, m3)
  {
    forall a: int | a >= 0
      ensures LocalAgrees(m1, m3, a)
    {
      assert LocalAgrees(m1, m2, a) && LocalAgrees(m2, m3, a);
    }
  }

  /** `getLocal` pushes exactly the operand's value and changes nothing else. */
  lemma GetLocalRuns(env: Env, v: Value, st: State)
    requires GetLocal(env, v).Ok? && !st.halted && Addressable(env, st)
    ensures Run(GetLocal(env, v).value, st) == Push(st, ValueOf(env, v, st))
  {
    if v.InstResult? || v.Argument? {
      SlotRuns(env, v, st);
    } else {
      ConstantRuns(env, v, st);
    }
  }

  lemma ConstantRuns(env: Env, v: Value, st: State)
    requires GetLocal(env, v).Ok? && !st.halted && !(v.InstResult? || v.Argument?)
    ensures Run(GetLocal(env, v).value, st) == Push(st, ValueOf(env, v, st))
  {
    var k := ValueOf(env, v, st);
    assert GetLocal(env, v).value == Literal(k);
    LiteralRuns(k, st);
  }

  lemma SlotRuns(env: Env, v: Value, st: State)
    requires GetLocal(env, v).Ok? && !st.halted && Addressable(env, st) && (v.InstResult? || v.Argument?)
    ensures Run(GetLocal(env, v).value, st) == Push(st, ValueOf(env, v, st))
  {
    var id := env.ids[v.name];
    assert GetLocal(env, v).value == Get(Local, id);
    assert ValueOf(env, v, st) == Read(st.mem, CellOf(Local, AddressOf(Local, id, st)));
    GetRuns(Local, id, st);
  }

  /** An operand's value depends only on the frame: memories that agree there give it the same value. */
  lemma ValueOfLocal(env: Env, v: Value, st: State, m: map<Cell, int>)
    requires GetLocal(env, v).Ok? && Addressable(env, st) && SameLocals(st.mem, m)
    ensures ValueOf(env, v, st.(mem := m)) == ValueOf(env, v, st)
    ensures Addressable(env, st.(mem := m))
  {
    match v
    case InstResult(n) => assert LocalAgrees(st.mem, m, FrameBase(st) + env.ids[n]);
    case Argument(n) => assert LocalAgrees(st.mem, m, FrameBase(st) + env.ids[n]);
    case _ =>
  }

  /** An operand has the same value in any state that agrees with `st` on the frame. */
  lemma ValueOfSameFrame(env: Env, v: Value, s: State, st: State)
    requires GetLocal(env, v).Ok? && Addressable(env, st) && SameLocals(st.mem, s.mem)
    ensures ValueOf(env, v, s) == ValueOf(env, v, st)
    ensures Addressable(env, s)
  {
    match v
    case InstResult(n) => assert LocalAgrees(st.mem, s.mem, FrameBase(st) + env.ids[n]);
    case Argument(n) => assert LocalAgrees(st.mem, s.mem, FrameBase(st) + env.ids[n]);
    case _ =>
  }

  /** A push of operands leaves the memory, and so every operand's value, as it was. */
  lemma ValueOfPush(env: Env, v: Value, st: State, x: int)
    requires GetLocal(env, v).Ok?
    ensures ValueOf(env, v, Push(st, x)) == ValueOf(env, v, st)
    ensures Addressable(env, Push(st, x)) == Addressable(env, st)
  {
  }

  /** Code pushing x, followed by code pushing y, followed by code folding them into r, pushes r. */
  lemma Binary(c1: string, c2: string, tail: string, st: State, x: int, y: int, r: int)
    requires Run(c1, st) == Push(st, x)
    requires Run(c2, Push(st, x)) == Push(Push(st, x), y)
    requires Run(tail, Push(Push(st, x), y)) == Push(st, r)
    ensures Run(c1 + c2 + tail, st) == Push(st, r)
  {
    RunThen(c1, c2, st, Push(st, x), Push(Push(st, x), y));
    RunThen(c1 + c2, tail, st, Push(Push(st, x), y), Push(st, r));
  }

  /** Two operands pushed one after the other. */
  lemma TwoOperands(env: Env, a: Value, b: Value, st: State)
    requires GetLocal(env, a).Ok? && GetLocal(env, b).Ok? && !st.halted && Addressable(env, st)
    ensures var x := ValueOf(env, a, st);
      Run(GetLocal(env, a).value, st) == Push(st, x) &&
      Run(GetLocal(env, b).value, Push(st, x)) == Push(Push(st, x), ValueOf(env, b, st))
  {
    var x := ValueOf(env, a, st);
    GetLocalRuns(env, a, st);
    ValueOfPush(env, b, st, x);
    GetLocalRuns(env, b, Push(st, x));
  }
}
