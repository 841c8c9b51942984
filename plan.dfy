/**
 * `assignIds`: the numbering every later stage relies on. Blocks get dense
 * ids across the whole module, with one extra id after each call of a
 * non-intrinsic function (the block the callee returns to); inside each
 * defined function, arguments and then instructions get frame slots
 * 0, 1, 2, ... and the function's frame size is the number of slots.
 */
module Plan {
  import opened Ir

  /** The key of the block map: blocks and instructions both get a block id. */
  datatype Key = BlockKey(name: Name) | InstKey(name: Name)

  /** The tables `assignIds` fills (the backend's `block_map_`, `id_map_`, `func_map_`, `local_size_map_`). */
  datatype Tables = Tables(
    blockMap: map<Key, int>,
    idMap: map<Name, int>,
    funcMap: map<string, int>,
    localSize: map<string, int>)

  /** The planner's running state: the block counter, the slot counter, the entry block and the tables. */
  datatype Planner = Planner(blockId: int, id: int, entry: int, tables: Tables)

  const EmptyTables := Tables(map[], map[], map[], map[])

  /** Before any function: block 0, slot 0, no entry point (-1). */
  const Start := Planner(0, 0, -1, EmptyTables)

  // ---------------------------------------------------------------------------
  // The specification: one function per loop body, one per loop

  /** The body of the instruction loop, for `insts[k]`. */
  function InstStep(insts: seq<Inst>, k: nat, p: Planner): Result<Planner>
    requires k < |insts|
  {
    var inst := insts[k];
    var t := p.tables;
    var q := p.(id := p.id + 1,
                tables := t.(blockMap := Insert(t.blockMap, InstKey(inst.name), p.blockId),
                             idMap := Insert(t.idMap, inst.name, p.id)));
    if !inst.op.Call? then Ok(q)
    else if inst.op.callee.Indirect? then Err(IndirectCall)
    else if IsIntrinsic(inst.op.callee.fname) then Ok(q)
    else if k + 1 == |insts| then Err(CallEndsBlock)
    else Ok(q.(blockId := q.blockId + 1))
  }

  /** The instruction loop after its first `n` rounds. */
  function PlanInsts(insts: seq<Inst>, n: nat, p: Planner): Result<Planner>
    requires n <= |insts|
  {
    if n == 0 then Ok(p)
    else
      match PlanInsts(insts, n - 1, p)
      case Err(e) => Err(e)
      case Ok(q) => InstStep(insts, n - 1, q)
  }

  /** The argument loop after its first `n` rounds. */
  function PlanArgs(args: seq<Name>, n: nat, p: Planner): Planner
    requires n <= |args|
  {
    if n == 0 then p
    else
      var q := PlanArgs(args, n - 1, p);
      q.(id := q.id + 1, tables := q.tables.(idMap := Insert(q.tables.idMap, args[n - 1], q.id)))
  }

  /** The body of the block loop. */
  function BlockStep(b: Block, p: Planner): Result<Planner>
  {
    var p1 := p.(tables := p.tables.(blockMap := Insert(p.tables.blockMap, BlockKey(b.name), p.blockId)));
    match PlanInsts(b.insts, |b.insts|, p1)
    case Err(e) => Err(e)
    case Ok(q) => Ok(q.(blockId := q.blockId + 1))
  }

  /** The block loop after its first `n` rounds. */
  function PlanBlocks(bs: seq<Block>, n: nat, p: Planner): Result<Planner>
    requires n <= |bs|
  {
    if n == 0 then Ok(p)
    else
      match PlanBlocks(bs, n - 1, p)
      case Err(e) => Err(e)
      case Ok(q) => BlockStep(bs[n - 1], q)
  }

  /** The state when a defined function's numbering starts: slot 0, its first block id recorded. */
  function FuncStart(f: Function, p: Planner): Planner
  {
    p.(id := 0,
       entry := if f.name == "main" then p.blockId else p.entry,
       tables := p.tables.(funcMap := p.tables.funcMap[f.name := p.blockId]))
  }

  /** The body of the function loop: declarations are skipped. */
  function FuncStep(f: Function, p: Planner): Result<Planner>
  {
    if f.IsDeclaration() then Ok(p)
    else
      var p1 := PlanArgs(f.args, |f.args|, FuncStart(f, p));
      match PlanBlocks(f.blocks, |f.blocks|, p1)
      case Err(e) => Err(e)
      case Ok(q) => Ok(q.(tables := q.tables.(localSize := q.tables.localSize[f.name := q.id])))
  }

  /** The function loop after its first `n` rounds. */
  function PlanFuncs(fs: seq<Function>, n: nat, p: Planner): Result<Planner>
    requires n <= |fs|
  {
    if n == 0 then Ok(p)
    else
      match PlanFuncs(fs, n - 1, p)
      case Err(e) => Err(e)
      case Ok(q) => FuncStep(fs[n - 1], q)
  }

  /** What `assignIds` computes for a module: the final planner state, whose `entry` it returns. */
  function PlanOf(m: Module): Result<Planner>
  {
    PlanFuncs(m.functions, |m.functions|, Start)
  }

  // ---------------------------------------------------------------------------
  // The planner as written

  /** `assignIds`: a loop over the functions, and in each defined one, over its arguments and its blocks. */
  method AssignIds(m: Module) returns (r: Result<Planner>)
    ensures r == PlanOf(m)
  {
    var fs := m.functions;
    var p := Start;
    var i := 0;
    while i < |fs|
      invariant 0 <= i <= |fs|
      invariant PlanFuncs(fs, i, Start) == Ok(p)
    {
      var rf := NumberFunction(fs[i], p);
      assert PlanFuncs(fs, i + 1, Start) == rf;
      if rf.Err? {
        PlanFuncsErrSticks(fs, i + 1, |fs|, Start);
        return Err(rf.error);
      }
      p := rf.value;
      i := i + 1;
    }
    r := Ok(p);
  }

  /** One round of the function loop: a declaration is skipped, a definition numbered and its frame size recorded. */
  method NumberFunction(f: Function, p0: Planner) returns (r: Result<Planner>)
    ensures r == FuncStep(f, p0)
  {
    if f.IsDeclaration() {
      return Ok(p0);
    }
    var p := NumberArgs(f.args, FuncStart(f, p0));
    var rb := NumberBlocks(f.blocks, p);
    if rb.Err? {
      return Err(rb.error);
    }
    p := rb.value;
    r := Ok(p.(tables := p.tables.(localSize := p.tables.localSize[f.name := p.id])));
  }

  /** The argument loop of `assignIds`: one slot per argument. */
  method NumberArgs(args: seq<Name>, p0: Planner) returns (p: Planner)
    ensures p == PlanArgs(args, |args|, p0)
  {
    p := p0;
    var j := 0;
    while j < |args|
      invariant 0 <= j <= |args|
      invariant PlanArgs(args, j, p0) == p
    {
      p := p.(id := p.id + 1, tables := p.tables.(idMap := Insert(p.tables.idMap, args[j], p.id)));
      j := j + 1;
    }
  }

  /** The block loop of `assignIds`: each block's id, then its instructions, then the next id. */
  method NumberBlocks(bs: seq<Block>, p0: Planner) returns (r: Result<Planner>)
    ensures r == PlanBlocks(bs, |bs|, p0)
  {
    r := Ok(p0);
    var b := 0;
    while b < |bs| && r.Ok?
      invariant 0 <= b <= |bs|
      invariant PlanBlocks(bs, b, p0) == r
    {
      assert PlanBlocks(bs, b + 1, p0) == BlockStep(bs[b], r.value);
      r := NumberBlock(bs[b], r.value);
      b := b + 1;
    }
    if r.Err? {
      PlanBlocksErrSticks(bs, b, |bs|, p0);
    } else {
      assert b == |bs|;
    }
  }

  /** One round of the block loop. */
  method NumberBlock(block: Block, p0: Planner) returns (r: Result<Planner>)
    ensures r == BlockStep(block, p0)
  {
    var p := p0.(tables := p0.tables.(blockMap := Insert(p0.tables.blockMap, BlockKey(block.name), p0.blockId)));
    var ri := NumberInsts(block.insts, p);
    if ri.Err? {
      return Err(ri.error);
    }
    p := ri.value;
    r := Ok(p.(blockId := p.blockId + 1));
  }

  /** The instruction loop of `assignIds`: a slot and a block id per instruction, and a new block id after a call that returns. */
  method NumberInsts(insts: seq<Inst>, p0: Planner) returns (r: Result<Planner>)
    ensures r == PlanInsts(insts, |insts|, p0)
  {
    var p := p0;
    var k := 0;
    while k < |insts|
      invariant 0 <= k <= |insts|
      invariant PlanInsts(insts, k, p0) == Ok(p)
    {
      var inst := insts[k];
      var t := p.tables;
      p := p.(id := p.id + 1,
              tables := t.(blockMap := Insert(t.blockMap, InstKey(inst.name), p.blockId),
                           idMap := Insert(t.idMap, inst.name, p.id)));
      if inst.op.Call? {
        if inst.op.callee.Indirect? {
          PlanInstsErrSticks(insts, k + 1, |insts|, p0);
          return Err(IndirectCall);
        }
        if !IsIntrinsic(inst.op.callee.fname) {
          if k + 1 == |insts| {
            return Err(CallEndsBlock);
          }
          p := p.(blockId := p.blockId + 1);
        }
      }
      k := k + 1;
    }
    r := Ok(p);
  }

  lemma {:induction false} PlanInstsErrSticks(insts: seq<Inst>, n: nat, n': nat, p: Planner)
    requires n <= n' <= |insts| && PlanInsts(insts, n, p).Err?
    ensures PlanInsts(insts, n', p) == PlanInsts(insts, n, p)
    decreases n'
  {
    if n' > n {
      PlanInstsErrSticks(insts, n, n' - 1, p);
    }
  }

  lemma {:induction false} PlanBlocksErrSticks(bs: seq<Block>, n: nat, n': nat, p: Planner)
    requires n <= n' <= |bs| && PlanBlocks(bs, n, p).Err?
    ensures PlanBlocks(bs, n', p) == PlanBlocks(bs, n, p)
    decreases n'
  {
    if n' > n {
      PlanBlocksErrSticks(bs, n, n' - 1, p);
    }
  }

  lemma {:induction false} PlanFuncsErrSticks(fs: seq<Function>, n: nat, n': nat, p: Planner)
    requires n <= n' <= |fs| && PlanFuncs(fs, n, p).Err?
    ensures PlanFuncs(fs, n', p) == PlanFuncs(fs, n, p)
    decreases n'
  {
    if n' > n {
      PlanFuncsErrSticks(fs, n, n' - 1, p);
    }
  }

  // ---------------------------------------------------------------------------
  // What the numbering guarantees

  /** The number of calls among `insts` that get a continuation block. */
  function ContinuationCalls(insts: seq<Inst>): nat
  {
    if insts == [] then 0
    else ContinuationCalls(insts[..|insts| - 1]) + (if IsContinuationCall(insts[|insts| - 1].op) then 1 else 0)
  }

  /** The number of continuation calls in all of `bs`. */
  function BlockContinuations(bs: seq<Block>): nat
  {
    if bs == [] then 0 else BlockContinuations(bs[..|bs| - 1]) + ContinuationCalls(bs[|bs| - 1].insts)
  }

  /** The number of instructions in all of `bs`. */
  function InstCount(bs: seq<Block>): nat
  {
    if bs == [] then 0 else InstCount(bs[..|bs| - 1]) + |bs[|bs| - 1].insts|
  }

  /** The calls `assignIds` refuses: an indirect call, or a returning call with nothing after it in its block. */
  predicate Numberable(insts: seq<Inst>)
  {
    forall k | 0 <= k < |insts| ::
      (insts[k].op.Call? ==> insts[k].op.callee.Direct?) &&
      (IsContinuationCall(insts[k].op) ==> k + 1 < |insts|)
  }

  /** The numbering of one block's instructions fails exactly when the block holds a call it refuses. */
  lemma {:induction false} PlanInstsFails(insts: seq<Inst>, n: nat, p: Planner)
    requires n <= |insts|
    ensures PlanInsts(insts, n, p).Ok? <==>
      forall k | 0 <= k < n ::
        (insts[k].op.Call? ==> insts[k].op.callee.Direct?) &&
        (IsContinuationCall(insts[k].op) ==> k + 1 < |insts|)
  {
    if n > 0 {
      PlanInstsFails(insts, n - 1, p);
    }
  }

  lemma NumberableIffOk(insts: seq<Inst>, p: Planner)
    ensures PlanInsts(insts, |insts|, p).Ok? <==> Numberable(insts)
  {
    PlanInstsFails(insts, |insts|, p);
  }

  /**
   * After the first `n` instructions the slot counter has risen by `n` and
   * the block counter by the number of continuation calls among them; the
   * entry point, function map and frame sizes are untouched.
   */
  lemma {:induction false} PlanInstsCounters(insts: seq<Inst>, n: nat, p: Planner)
    requires n <= |insts| && PlanInsts(insts, n, p).Ok?
    ensures var q := PlanInsts(insts, n, p).value;
      q.id == p.id + n && q.blockId == p.blockId + ContinuationCalls(insts[..n]) &&
      q.entry == p.entry && q.tables.funcMap == p.tables.funcMap && q.tables.localSize == p.tables.localSize
  {
    if n > 0 {
      PlanInstsCounters(insts, n - 1, p);
      assert insts[..n][..n - 1] == insts[..n - 1];
    }
  }

  /** The names of `insts`. */
  function Names(insts: seq<Inst>): set<Name>
  {
    set k | 0 <= k < |insts| :: insts[k].name
  }

  predicate DistinctNames(insts: seq<Inst>)
  {
    forall k, l | 0 <= k < l < |insts| :: insts[k].name != insts[l].name
  }

  /** None of `insts` has an entry in the block map or the id map yet. */
  predicate Fresh(insts: seq<Inst>, t: Tables)
  {
    forall k | 0 <= k < |insts| :: InstKey(insts[k].name) !in t.blockMap && insts[k].name !in t.idMap
  }

  /** The only entries the instruction loop adds are those of the instructions it has numbered. */
  lemma {:induction false} PlanInstsDomain(insts: seq<Inst>, n: nat, p: Planner)
    requires n <= |insts| && PlanInsts(insts, n, p).Ok?
    ensures var t := PlanInsts(insts, n, p).value.tables;
      (forall key | key in t.blockMap :: key in p.tables.blockMap || (key.InstKey? && key.name in Names(insts[..n]))) &&
      (forall x | x in t.idMap :: x in p.tables.idMap || x in Names(insts[..n]))
  {
    if n > 0 {
      PlanInstsDomain(insts, n - 1, p);
      assert Names(insts[..n]) == Names(insts[..n - 1]) + {insts[n - 1].name} by {
        assert insts[..n][..n - 1] == insts[..n - 1];
      }
    }
  }

  /**
   * With distinct, fresh names, instruction `k` gets slot `p.id + k` and the
   * block id current when it is reached: the starting block id plus the
   * continuation calls before it.
   */
  lemma {:induction false} PlanInstsEntries(insts: seq<Inst>, n: nat, p: Planner)
    requires n <= |insts| && PlanInsts(insts, n, p).Ok?
    requires DistinctNames(insts) && Fresh(insts, p.tables)
    ensures forall k | 0 <= k < n :: NumberedAt(insts, k, p, PlanInsts(insts, n, p).value.tables)
  {
    if n > 0 {
      PlanInstsEntries(insts, n - 1, p);
      PlanInstsDomain(insts, n - 1, p);
      PlanInstsCounters(insts, n - 1, p);
      var q := PlanInsts(insts, n - 1, p).value;
      var inst := insts[n - 1];
      assert inst.name !in Names(insts[..n - 1]);
      PlanInstsLast(insts, n, p);
      var t := PlanInsts(insts, n, p).value.tables;
      forall k | 0 <= k < n
        ensures NumberedAt(insts, k, p, t)
      {
        if k < n - 1 {
          assert NumberedAt(insts, k, p, q.tables);
          assert insts[k].name != inst.name;
        }
      }
    }
  }

  /** Instruction `k` has block id `p.blockId` plus the continuation calls before it, and slot `p.id + k`, in `t`. */
  ghost predicate NumberedAt(insts: seq<Inst>, k: nat, p: Planner, t: Tables)
    requires k < |insts|
  {
    InstKey(insts[k].name) in t.blockMap && insts[k].name in t.idMap &&
    t.blockMap[InstKey(insts[k].name)] == p.blockId + ContinuationCalls(insts[..k]) &&
    t.idMap[insts[k].name] == p.id + k
  }

  /** The tables after instruction `n - 1`: its block id and its slot added to those before it, which had neither. */
  lemma PlanInstsLast(insts: seq<Inst>, n: nat, p: Planner)
    requires 0 < n <= |insts| && PlanInsts(insts, n, p).Ok?
    requires DistinctNames(insts) && Fresh(insts, p.tables)
    requires var q := PlanInsts(insts, n - 1, p);
      q.Ok? && InstKey(insts[n - 1].name) !in q.value.tables.blockMap && insts[n - 1].name !in q.value.tables.idMap
    ensures var q := PlanInsts(insts, n - 1, p).value; var t := PlanInsts(insts, n, p).value.tables;
      t.blockMap == q.tables.blockMap[InstKey(insts[n - 1].name) := q.blockId] &&
      t.idMap == q.tables.idMap[insts[n - 1].name := q.id]
  {
  }

  /**
   * The continuation id: the instruction after a call that returns is
   * numbered one block further than the call (the id the call pushes as its
   * return address), and after any other instruction the block id stays.
   */
  lemma ContinuationBlock(insts: seq<Inst>, k: nat, p: Planner)
    requires k + 1 < |insts| && PlanInsts(insts, |insts|, p).Ok?
    requires DistinctNames(insts) && Fresh(insts, p.tables)
    ensures var t := PlanInsts(insts, |insts|, p).value.tables;
      InstKey(insts[k].name) in t.blockMap && InstKey(insts[k + 1].name) in t.blockMap &&
      t.blockMap[InstKey(insts[k + 1].name)] ==
      t.blockMap[InstKey(insts[k].name)] + (if IsContinuationCall(insts[k].op) then 1 else 0)
  {
    PlanInstsEntries(insts, |insts|, p);
    var t := PlanInsts(insts, |insts|, p).value.tables;
    assert NumberedAt(insts, k, p, t) && NumberedAt(insts, k + 1, p, t);
    assert insts[..k + 1][..k] == insts[..k];
  }

  /** The argument loop gives argument `k` slot `p.id + k` when the arguments are distinct and fresh. */
  lemma {:induction false} PlanArgsSlots(args: seq<Name>, n: nat, p: Planner)
    requires n <= |args|
    requires forall k, l | 0 <= k < l < |args| :: args[k] != args[l]
    requires forall k | 0 <= k < |args| :: args[k] !in p.tables.idMap
    ensures var q := PlanArgs(args, n, p);
      q.id == p.id + n && q.blockId == p.blockId && q.entry == p.entry &&
      q.tables.blockMap == p.tables.blockMap && q.tables.funcMap == p.tables.funcMap &&
      q.tables.localSize == p.tables.localSize &&
      (forall k | 0 <= k < n :: args[k] in q.tables.idMap && q.tables.idMap[args[k]] == p.id + k) &&
      (forall x | x in q.tables.idMap :: x in p.tables.idMap || x in args[..n])
  {
    if n > 0 {
      PlanArgsSlots(args, n - 1, p);
      var q0 := PlanArgs(args, n - 1, p);
      var q := PlanArgs(args, n, p);
      assert args[n - 1] !in args[..n - 1];
      assert args[n - 1] !in q0.tables.idMap;
      assert q.tables.idMap == q0.tables.idMap[args[n - 1] := q0.id];
      forall k | 0 <= k < n
        ensures args[k] in q.tables.idMap && q.tables.idMap[args[k]] == p.id + k
      {
        if k < n - 1 {
          assert args[k] != args[n - 1];
        }
      }
      assert forall x | x in args[..n] :: x in args[..n - 1] || x == args[n - 1];
    }
  }

  /**
   * After the first `n` blocks, the block counter has risen by one per block
   * plus one per continuation call, and the slot counter by the number of
   * instructions.
   */
  lemma {:induction false} PlanBlocksCounters(bs: seq<Block>, n: nat, p: Planner)
    requires n <= |bs| && PlanBlocks(bs, n, p).Ok?
    ensures var q := PlanBlocks(bs, n, p).value;
      q.id == p.id + InstCount(bs[..n]) &&
      q.blockId == p.blockId + n + BlockContinuations(bs[..n]) &&
      q.entry == p.entry && q.tables.funcMap == p.tables.funcMap && q.tables.localSize == p.tables.localSize
  {
    if n > 0 {
      PlanBlocksCounters(bs, n - 1, p);
      var q := PlanBlocks(bs, n - 1, p).value;
      var b := bs[n - 1];
      var q1 := q.(tables := q.tables.(blockMap := Insert(q.tables.blockMap, BlockKey(b.name), q.blockId)));
      PlanInstsCounters(b.insts, |b.insts|, q1);
      assert b.insts[..|b.insts|] == b.insts;
      assert bs[..n][..n - 1] == bs[..n - 1];
    }
  }

  /** Entries made by the first `m` blocks stay as they were through the rest of the block loop. */
  lemma {:induction false} PlanBlocksKeeps(bs: seq<Block>, m: nat, n: nat, p: Planner)
    requires m <= n <= |bs| && PlanBlocks(bs, n, p).Ok?
    ensures PlanBlocks(bs, m, p).Ok?
    ensures var t0 := PlanBlocks(bs, m, p).value.tables; var t := PlanBlocks(bs, n, p).value.tables;
      forall key | key in t0.blockMap :: key in t.blockMap && t.blockMap[key] == t0.blockMap[key]
    decreases n
  {
    if PlanBlocks(bs, m, p).Err? {
      PlanBlocksErrSticks(bs, m, n, p);
    }
    if n > m {
      PlanBlocksKeeps(bs, m, n - 1, p);
      var q := PlanBlocks(bs, n - 1, p).value;
      var b := bs[n - 1];
      var q1 := q.(tables := q.tables.(blockMap := Insert(q.tables.blockMap, BlockKey(b.name), q.blockId)));
      PlanInstsKeeps(b.insts, |b.insts|, q1);
    }
  }

  /** The instruction loop never changes an entry already present. */
  lemma {:induction false} PlanInstsKeeps(insts: seq<Inst>, n: nat, p: Planner)
    requires n <= |insts| && PlanInsts(insts, n, p).Ok?
    ensures var t := PlanInsts(insts, n, p).value.tables;
      (forall key | key in p.tables.blockMap :: key in t.blockMap && t.blockMap[key] == p.tables.blockMap[key]) &&
      (forall x | x in p.tables.idMap :: x in t.idMap && t.idMap[x] == p.tables.idMap[x])
  {
    if n > 0 {
      PlanInstsKeeps(insts, n - 1, p);
    }
  }

  /**
   * For a defined function: its frame size is its argument count plus its
   * instruction count, the function map holds the id its first block gets,
   * `main` becomes the entry point, and the block counter moves on by one per
   * block and one per continuation call.
   */
  lemma FuncStepCounters(f: Function, p: Planner)
    requires !f.IsDeclaration() && FuncStep(f, p).Ok?
    ensures var q := FuncStep(f, p).value;
      f.name in q.tables.localSize && q.tables.localSize[f.name] == |f.args| + InstCount(f.blocks) &&
      f.name in q.tables.funcMap && q.tables.funcMap[f.name] == p.blockId &&
      q.entry == (if f.name == "main" then p.blockId else p.entry) &&
      q.blockId == p.blockId + |f.blocks| + BlockContinuations(f.blocks)
  {
    var p0 := FuncStart(f, p);
    var p1 := PlanArgs(f.args, |f.args|, p0);
    PlanArgsCounters(f.args, |f.args|, p0);
    PlanBlocksCounters(f.blocks, |f.blocks|, p1);
    assert f.blocks[..|f.blocks|] == f.blocks;
  }

  lemma {:induction false} PlanArgsCounters(args: seq<Name>, n: nat, p: Planner)
    requires n <= |args|
    ensures var q := PlanArgs(args, n, p);
      q.id == p.id + n && q.blockId == p.blockId && q.entry == p.entry && q.tables.blockMap == p.tables.blockMap &&
      q.tables.funcMap == p.tables.funcMap && q.tables.localSize == p.tables.localSize
  {
    if n > 0 {
      PlanArgsCounters(args, n - 1, p);
    }
  }

  /** A defined function's first block is numbered with the id the function map records for it. */
  lemma FirstBlockId(f: Function, p: Planner)
    requires !f.IsDeclaration() && FuncStep(f, p).Ok?
    requires BlockKey(f.blocks[0].name) !in p.tables.blockMap
    ensures var q := FuncStep(f, p).value;
      BlockKey(f.blocks[0].name) in q.tables.blockMap && f.name in q.tables.funcMap &&
      q.tables.blockMap[BlockKey(f.blocks[0].name)] == q.tables.funcMap[f.name]
  {
    var p0 := FuncStart(f, p);
    var p1 := PlanArgs(f.args, |f.args|, p0);
    PlanArgsCounters(f.args, |f.args|, p0);
    FuncStepCounters(f, p);
    var b := f.blocks[0];
    PlanBlocksKeeps(f.blocks, 1, |f.blocks|, p1);
    assert PlanBlocks(f.blocks, 1, p1) == BlockStep(b, p1);
    var q1 := p1.(tables := p1.tables.(blockMap := Insert(p1.tables.blockMap, BlockKey(b.name), p1.blockId)));
    PlanInstsKeeps(b.insts, |b.insts|, q1);
    assert q1.tables.blockMap[BlockKey(b.name)] == p.blockId;
  }

  /** In a defined function with distinct arguments not yet numbered, argument `k` gets frame slot `k`. */
  lemma ArgumentSlots(f: Function, p: Planner)
    requires forall k, l | 0 <= k < l < |f.args| :: f.args[k] != f.args[l]
    requires forall k | 0 <= k < |f.args| :: f.args[k] !in p.tables.idMap
    ensures var q := PlanArgs(f.args, |f.args|, FuncStart(f, p));
      q.id == |f.args| &&
      forall k | 0 <= k < |f.args| :: f.args[k] in q.tables.idMap && q.tables.idMap[f.args[k]] == k
  {
    PlanArgsSlots(f.args, |f.args|, FuncStart(f, p));
  }
}
