/**
 * `prepareBranch`, `handleBr` and `handleSwitch`. Before control moves to
 * a block, the value each of its leading phis takes on this edge is stored
 * into the phi's cell of the PHI band, and then the block's id is pushed; the
 * dispatcher at the end of the current block jumps to the id on top. A
 * conditional branch prepares both successors and lets `S` choose between
 * their ids; a switch starts from the default's id and lets every case
 * replace the id on top when its value equals the discriminant.
 */
module Branches {
  import opened Ir
  import opened Machine
  import opened Literals
  import opened Addressing
  import opened Operands
  import Plan

  // ---------------------------------------------------------------------------
  // The phis of a block and their incoming values

  /** The phis at the top of a block: `prepareBranch` stops at the first instruction that is not one. */
  function LeadingPhis(insts: seq<Inst>): (r: seq<Inst>)
    ensures forall k | 0 <= k < |r| :: r[k].op.Phi?
  {
    if insts == [] || !insts[0].op.Phi? then []
    else [insts[0]] + LeadingPhis(insts[1..])
  }

  /** The leading phis are a prefix of the block, ended by its first instruction that is not a phi. */
  lemma {:induction false} LeadingPhisPrefix(insts: seq<Inst>)
    ensures var r := LeadingPhis(insts);
      |r| <= |insts| && (forall k | 0 <= k < |r| :: r[k] == insts[k]) &&
      (|r| < |insts| ==> !insts[|r|].op.Phi?)
  {
    if insts != [] && insts[0].op.Phi? {
      LeadingPhisPrefix(insts[1..]);
    }
  }

  /** The first incoming entry from position `i` on that names block `src`. */
  function FirstIncoming(incoming: seq<(Value, Name)>, src: Name, i: nat): (r: Option<nat>)
    requires i <= |incoming|
    ensures r.Some? ==> i <= r.value < |incoming| && incoming[r.value].1 == src &&
                        forall j | i <= j < r.value :: incoming[j].1 != src
    ensures r.None? ==> forall j | i <= j < |incoming| :: incoming[j].1 != src
    decreases |incoming| - i
  {
    if i == |incoming| then None
    else if incoming[i].1 == src then Some(i)
    else FirstIncoming(incoming, src, i + 1)
  }

  /** The code pushing a phi's incoming value: 0 for `undef`, otherwise the operand. */
  function PushIncoming(env: Env, v: Value): Result<string>
  {
    if v.UndefValue? then Ok(Literal(0)) else GetLocal(env, v)
  }

  /** The value `PushIncoming` pushes. */
  function IncomingValue(env: Env, v: Value, st: State): int
    requires PushIncoming(env, v).Ok?
  {
    if v.UndefValue? then 0 else ValueOf(env, v, st)
  }

  /** The incoming value a phi takes on the edge from `src`: the first entry for that block. */
  function Chosen(phi: Inst, src: Name): Option<Value>
    requires phi.op.Phi?
  {
    match FirstIncoming(phi.op.incoming, src, 0)
    case None => None
    case Some(i) => Some(phi.op.incoming[i].0)
  }

  /** Whether a phi can be staged on the edge from `src`: it has an entry for `src`, that entry's value can be pushed, and the phi has a slot. */
  predicate MoveOk(env: Env, src: Option<Name>, phi: Inst)
    requires phi.op.Phi?
  {
    src.Some? && Chosen(phi, src.value).Some? &&
    (Chosen(phi, src.value).value.UndefValue? || Resolvable(env, Chosen(phi, src.value).value)) &&
    phi.name in env.ids
  }

  /** Staging one phi: push its incoming value for this edge and store it into the phi's PHI slot. */
  function PhiMove(env: Env, src: Option<Name>, phi: Inst): (r: Result<string>)
    requires phi.op.Phi?
    ensures r.Ok? <==> MoveOk(env, src, phi)
    ensures src.None? ==> r == Err(PhiWithoutSource)
    ensures src.Some? && Chosen(phi, src.value).None? ==> r == Err(UnmatchedPhi)
  {
    if src.None? then Err(PhiWithoutSource)
    else match Chosen(phi, src.value)
      case None => Err(UnmatchedPhi)
      case Some(v) =>
        GetLocalOk(env, v);
        match PushIncoming(env, v)
        case Err(e) => Err(e)
        case Ok(c) => if phi.name in env.ids then Ok(c + Set(PhiMem, env.ids[phi.name])) else Err(MissingId)
  }

  predicate AllPhis(phis: seq<Inst>)
  {
    forall k | 0 <= k < |phis| :: phis[k].op.Phi?
  }

  /** Whether each of the first `n` phis can be staged. */
  predicate MovesOk(env: Env, src: Option<Name>, phis: seq<Inst>, n: nat)
    requires n <= |phis| && AllPhis(phis)
  {
    forall k | 0 <= k < n :: MoveOk(env, src, phis[k])
  }

  /** Staging the first `n` phis: it succeeds exactly when every phi's move does. */
  function PhiMoves(env: Env, src: Option<Name>, phis: seq<Inst>, n: nat): (r: Result<string>)
    requires n <= |phis| && AllPhis(phis)
    ensures r.Ok? <==> MovesOk(env, src, phis, n)
  {
    if n == 0 then Ok("")
    else
      match PhiMoves(env, src, phis, n - 1)
      case Err(e) => Err(e)
      case Ok(c) =>
        match PhiMove(env, src, phis[n - 1])
        case Err(e) => Err(e)
        case Ok(m) => Ok(c + m)
  }

  /** The phis of a known block. */
  function PhisOf(env: Env, target: Name): seq<Inst>
    requires target in env.blockOf
  {
    LeadingPhis(env.blockOf[target].insts)
  }

  /** Whether a branch to `target` can be prepared: the target is a known block, its phis can be staged and it has a block id. */
  predicate BranchOk(env: Env, src: Option<Name>, target: Name)
  {
    target in env.blockOf && MovesOk(env, src, PhisOf(env, target), |PhisOf(env, target)|) &&
    Plan.BlockKey(target) in env.blocks
  }

  /** `prepareBranch(src, target)`: stage the target's phis, then push the target's block id. */
  function PrepareBranch(env: Env, src: Option<Name>, target: Name): Result<string>
  {
    if target !in env.blockOf then Err(MissingId)
    else
      var phis := PhisOf(env, target);
      match PhiMoves(env, src, phis, |phis|)
      case Err(e) => Err(e)
      case Ok(c) =>
        if Plan.BlockKey(target) in env.blocks then Ok(c + Literal(env.blocks[Plan.BlockKey(target)]))
        else Err(MissingId)
  }

  // ---------------------------------------------------------------------------
  // prepareBranch as written: a loop over the block's leading phis, and in
  // each, a search of its incoming entries

  method FindIncoming(incoming: seq<(Value, Name)>, src: Name) returns (r: Option<nat>)
    ensures r == FirstIncoming(incoming, src, 0)
  {
    var i := 0;
    while i < |incoming|
      invariant 0 <= i <= |incoming|
      invariant FirstIncoming(incoming, src, 0) == FirstIncoming(incoming, src, i)
    {
      if incoming[i].1 == src {
        return Some(i);
      }
      i := i + 1;
    }
    return None;
  }

  method StagePhi(env: Env, src: Option<Name>, phi: Inst) returns (r: Result<string>)
    requires phi.op.Phi?
    ensures r == PhiMove(env, src, phi)
  {
    if src.None? {
      return Err(PhiWithoutSource);
    }
    var found := FindIncoming(phi.op.incoming, src.value);
    if found.None? {
      return Err(UnmatchedPhi);
    }
    var v := phi.op.incoming[found.value].0;
    var push: Result<string>;
    if v.UndefValue? {
      var z := GenInt(0);
      push := Ok(z);
    } else {
      push := GetLocal(env, v);
    }
    if push.Err? {
      return Err(push.error);
    }
    if phi.name !in env.ids {
      return Err(MissingId);
    }
    r := Ok(push.value + Set(PhiMem, env.ids[phi.name]));
  }

  lemma {:induction false} PhiMovesErrSticks(env: Env, src: Option<Name>, phis: seq<Inst>, n: nat, n': nat)
    requires n <= n' <= |phis| && AllPhis(phis) && PhiMoves(env, src, phis, n).Err?
    ensures PhiMoves(env, src, phis, n') == PhiMoves(env, src, phis, n)
    decreases n'
  {
    if n' > n {
      PhiMovesErrSticks(env, src, phis, n, n' - 1);
    }
  }

  /** One more phi: its move's error, or the code so far followed by its move. */
  lemma PhiMovesNext(env: Env, src: Option<Name>, phis: seq<Inst>, k: nat)
    requires k < |phis| && AllPhis(phis) && PhiMoves(env, src, phis, k).Ok?
    ensures PhiMove(env, src, phis[k]).Err? ==> PhiMoves(env, src, phis, k + 1) == Err(PhiMove(env, src, phis[k]).error)
    ensures PhiMove(env, src, phis[k]).Ok? ==>
      PhiMoves(env, src, phis, k + 1) == Ok(PhiMoves(env, src, phis, k).value + PhiMove(env, src, phis[k]).value)
  {
  }

  /** The loop over a block's leading phis. */
  method StagePhis(env: Env, src: Option<Name>, insts: seq<Inst>) returns (r: Result<string>)
    ensures var phis := LeadingPhis(insts); r == PhiMoves(env, src, phis, |phis|)
  {
    ghost var phis := LeadingPhis(insts);
    LeadingPhisPrefix(insts);
    var code := "";
    var k := 0;
    while k < |insts| && insts[k].op.Phi?
      invariant 0 <= k <= |phis|
      invariant PhiMoves(env, src, phis, k) == Ok(code)
    {
      assert k < |phis| && insts[k] == phis[k];
      var m := StagePhi(env, src, insts[k]);
      PhiMovesNext(env, src, phis, k);
      if m.Err? {
        PhiMovesErrSticks(env, src, phis, k + 1, |phis|);
        return Err(m.error);
      }
      code := code + m.value;
      k := k + 1;
    }
    assert k == |phis|;
    r := Ok(code);
  }

  method PrepareBranchCode(env: Env, src: Option<Name>, target: Name) returns (r: Result<string>)
    ensures r == PrepareBranch(env, src, target)
  {
    if target !in env.blockOf {
      return Err(MissingId);
    }
    var moves := StagePhis(env, src, env.blockOf[target].insts);
    if moves.Err? {
      return Err(moves.error);
    }
    if Plan.BlockKey(target) !in env.blocks {
      return Err(MissingId);
    }
    var id := GenInt(env.blocks[Plan.BlockKey(target)]);
    r := Ok(moves.value + id);
  }

  // ---------------------------------------------------------------------------
  // What staging does

  /** The PHI-band cell of a phi. */
  function PhiCell(env: Env, phi: Inst): Cell
    requires phi.name in env.ids
  {
    CellOf(PhiMem, LocalPos + env.ids[phi.name])
  }

  /** The memory after staging the first `n` phis onto `base`, their values read in `st`. */
  function Stage(env: Env, src: Option<Name>, phis: seq<Inst>, n: nat, base: map<Cell, int>, st: State): map<Cell, int>
    requires n <= |phis| && AllPhis(phis) && MovesOk(env, src, phis, n)
  {
    if n == 0 then base
    else
      var phi := phis[n - 1];
      var v := Chosen(phi, src.value).value;
      Stage(env, src, phis, n - 1, base, st)[PhiCell(env, phi) := IncomingValue(env, v, st)]
  }

  /** The memory after a branch to `target` has staged the target's phis onto `base`. */
  function Staged(env: Env, src: Option<Name>, target: Name, base: map<Cell, int>, st: State): map<Cell, int>
    requires PrepareBranch(env, src, target).Ok?
  {
    PrepareBranchOk(env, src, target);
    var phis := PhisOf(env, target);
    Stage(env, src, phis, |phis|, base, st)
  }

  /** Staging writes the PHI band only: the frame pointer and every LOCAL cell keep their contents. */
  lemma {:induction false} StageKeepsLocals(env: Env, src: Option<Name>, phis: seq<Inst>, n: nat, base: map<Cell, int>, st: State)
    requires n <= |phis| && AllPhis(phis) && MovesOk(env, src, phis, n) && Addressable(env, st)
    ensures SameLocals(base, Stage(env, src, phis, n, base, st))
  {
    if n > 0 {
      StageKeepsLocals(env, src, phis, n - 1, base, st);
      var c := PhiCell(env, phis[n - 1]);
      assert c.0 >= 18;
      forall a: int | a >= 0
        ensures LocalAgrees(base, Stage(env, src, phis, n, base, st), a)
      {
        assert LocalAgrees(base, Stage(env, src, phis, n - 1, base, st), a);
        assert CellOf(Local, a) != c;
      }
    }
  }

  /** Staging from a memory that agrees with `st` on the frame keeps it agreeing. */
  lemma StagedSameLocals(env: Env, src: Option<Name>, phis: seq<Inst>, n: nat, m: map<Cell, int>, st: State)
    requires n <= |phis| && AllPhis(phis) && MovesOk(env, src, phis, n) && Addressable(env, st)
    requires SameLocals(st.mem, m)
    ensures SameLocals(st.mem, Stage(env, src, phis, n, m, st))
  {
    StageKeepsLocals(env, src, phis, n, m, st);
    SameLocalsTrans(st.mem, m, Stage(env, src, phis, n, m, st));
  }

  lemma PushConstantIncoming(env: Env, v: Value, s: State, st: State)
    requires v.UndefValue? && !s.halted
    ensures Run(PushIncoming(env, v).value, s) == Push(s, IncomingValue(env, v, st))
  {
    LiteralRuns(0, s);
  }

  lemma PushOperandIncoming(env: Env, v: Value, s: State, st: State)
    requires !v.UndefValue? && PushIncoming(env, v).Ok? && !s.halted
    requires Addressable(env, st) && SameLocals(st.mem, s.mem)
    ensures Run(PushIncoming(env, v).value, s) == Push(s, IncomingValue(env, v, st))
  {
    ValueOfSameFrame(env, v, s, st);
    GetLocalRuns(env, v, s);
  }

  /** A phi's incoming value is pushed as it stood in `st`, in any state that agrees with `st` on the frame. */
  lemma PushIncomingRuns(env: Env, v: Value, s: State, st: State)
    requires PushIncoming(env, v).Ok? && !s.halted
    requires Addressable(env, st) && SameLocals(st.mem, s.mem)
    ensures Run(PushIncoming(env, v).value, s) == Push(s, IncomingValue(env, v, st))
  {
    if v.UndefValue? {
      PushConstantIncoming(env, v, s, st);
    } else {
      PushOperandIncoming(env, v, s, st);
    }
  }

  /** One staging move stores the phi's incoming value into its PHI slot and leaves the stack alone. */
  lemma PhiMoveRuns(env: Env, src: Option<Name>, phi: Inst, s: State, st: State)
    requires phi.op.Phi? && PhiMove(env, src, phi).Ok? && !s.halted
    requires Addressable(env, st) && SameLocals(st.mem, s.mem)
    ensures Run(PhiMove(env, src, phi).value, s) ==
            s.(mem := s.mem[PhiCell(env, phi) := IncomingValue(env, Chosen(phi, src.value).value, st)])
  {
    var v := Chosen(phi, src.value).value;
    var x := IncomingValue(env, v, st);
    var id := env.ids[phi.name];
    PushIncomingRuns(env, v, s, st);
    SetRuns(PhiMem, id, s, x);
    RunThen(PushIncoming(env, v).value, Set(PhiMem, id), s, Push(s, x), s.(mem := s.mem[PhiCell(env, phi) := x]));
  }

  /** One more phi, from where the phis before it leave the memory. */
  lemma PhiMovesStep(env: Env, src: Option<Name>, phis: seq<Inst>, n: nat, s: State, st: State)
    requires 0 < n <= |phis| && AllPhis(phis) && MovesOk(env, src, phis, n) && !s.halted
    requires Addressable(env, st) && SameLocals(st.mem, s.mem) && MovesOk(env, src, phis, n - 1)
    requires Run(PhiMoves(env, src, phis, n - 1).value, s) == s.(mem := Stage(env, src, phis, n - 1, s.mem, st))
    ensures Run(PhiMoves(env, src, phis, n).value, s) == s.(mem := Stage(env, src, phis, n, s.mem, st))
  {
    var s1 := s.(mem := Stage(env, src, phis, n - 1, s.mem, st));
    var a := PhiMoves(env, src, phis, n - 1).value;
    var b := PhiMove(env, src, phis[n - 1]).value;
    assert PhiMoves(env, src, phis, n).value == a + b;
    StagedSameLocals(env, src, phis, n - 1, s.mem, st);
    assert MoveOk(env, src, phis[n - 1]);
    PhiMoveRuns(env, src, phis[n - 1], s1, st);
    RunAppend(a, b, s);
    var v := IncomingValue(env, Chosen(phis[n - 1], src.value).value, st);
    assert Stage(env, src, phis, n, s.mem, st) == s1.mem[PhiCell(env, phis[n - 1]) := v];
  }

  /** Staging the first `n` phis from a state `s` that agrees with `st` on the frame: memory becomes `Stage`. */
  lemma {:induction false} PhiMovesRuns(env: Env, src: Option<Name>, phis: seq<Inst>, n: nat, s: State, st: State)
    requires n <= |phis| && AllPhis(phis) && MovesOk(env, src, phis, n) && !s.halted
    requires Addressable(env, st) && SameLocals(st.mem, s.mem)
    ensures Run(PhiMoves(env, src, phis, n).value, s) == s.(mem := Stage(env, src, phis, n, s.mem, st))
  {
    if n == 0 {
      assert Run("", s) == s;
    } else {
      PhiMovesRuns(env, src, phis, n - 1, s, st);
      PhiMovesStep(env, src, phis, n, s, st);
    }
  }

  /**
   * `prepareBranch` stages the target's phis (their values read before the
   * branch) and pushes the target's block id, whatever the state agrees with
   * `st` on the frame.
   */
  lemma PrepareBranchRuns(env: Env, src: Option<Name>, target: Name, s: State, st: State)
    requires PrepareBranch(env, src, target).Ok? && !s.halted
    requires Addressable(env, st) && SameLocals(st.mem, s.mem)
    ensures Run(PrepareBranch(env, src, target).value, s) ==
      Push(s.(mem := Staged(env, src, target, s.mem, st)), env.blocks[Plan.BlockKey(target)])
  {
    PrepareBranchOk(env, src, target);
    var phis := PhisOf(env, target);
    var c := PhiMoves(env, src, phis, |phis|).value;
    var s1 := s.(mem := Stage(env, src, phis, |phis|, s.mem, st));
    var id := env.blocks[Plan.BlockKey(target)];
    PhiMovesRuns(env, src, phis, |phis|, s, st);
    LiteralRuns(id, s1);
    RunThen(c, Literal(id), s, s1, Push(s1, id));
  }

  /**
   * After staging, each phi's cell holds the value its first incoming entry
   * for the source block names (phi ids distinct): what the phi then reads
   * in the target block.
   */
  lemma {:induction false} StagedValues(env: Env, src: Option<Name>, phis: seq<Inst>, n: nat, base: map<Cell, int>, st: State)
    requires n <= |phis| && AllPhis(phis) && MovesOk(env, src, phis, n) && Addressable(env, st)
    requires forall k, l | 0 <= k < l < n && phis[k].name in env.ids && phis[l].name in env.ids ::
      env.ids[phis[k].name] != env.ids[phis[l].name]
    ensures forall k | 0 <= k < n && MoveOk(env, src, phis[k]) ::
      Read(Stage(env, src, phis, n, base, st), PhiCell(env, phis[k])) ==
      IncomingValue(env, Chosen(phis[k], src.value).value, st)
  {
    if n > 0 {
      StagedValues(env, src, phis, n - 1, base, st);
      forall k | 0 <= k < n - 1 ensures PhiCell(env, phis[k]) != PhiCell(env, phis[n - 1]) {
        CellOfInjective(PhiMem, LocalPos + env.ids[phis[k].name], PhiMem, LocalPos + env.ids[phis[n - 1].name]);
      }
    }
  }

  /** A phi, lowered as a read of its PHI slot, reads back what staging stored there. */
  lemma PhiReadsStaged(env: Env, phi: Inst, st: State)
    requires phi.name in env.ids && !st.halted && Addressable(env, st)
    ensures Run(Get(PhiMem, env.ids[phi.name]), st) == Push(st, Read(st.mem, PhiCell(env, phi)))
  {
    GetRuns(PhiMem, env.ids[phi.name], st);
  }

  // ---------------------------------------------------------------------------
  // handleBr

  /** `handleBr`: an unconditional branch prepares its target; a conditional one prepares the false target, the true target, pushes the condition and selects. */
  function HandleBr(env: Env, src: Name, op: Op): Result<string>
    requires op.Br? || op.CondBr?
  {
    if op.Br? then PrepareBranch(env, Some(src), op.dest)
    else
      match PrepareBranch(env, Some(src), op.falseDest)
      case Err(e) => Err(e)
      case Ok(f) =>
        match PrepareBranch(env, Some(src), op.trueDest)
        case Err(e) => Err(e)
        case Ok(t) =>
          match GetLocal(env, op.cond)
          case Err(e) => Err(e)
          case Ok(c) => Ok(f + t + c + "S")
  }

  /** A conditional branch's code, when every part of it lowers. */
  lemma CondBrParts(env: Env, src: Name, op: Op)
    requires op.CondBr? && HandleBr(env, src, op).Ok?
    ensures PrepareBranch(env, Some(src), op.falseDest).Ok? && PrepareBranch(env, Some(src), op.trueDest).Ok?
    ensures GetLocal(env, op.cond).Ok?
    ensures HandleBr(env, src, op).value ==
      PrepareBranch(env, Some(src), op.falseDest).value + PrepareBranch(env, Some(src), op.trueDest).value +
      GetLocal(env, op.cond).value + "S"
  {
  }

  /** Preparing two targets one after the other pushes both ids, staging the first's phis and then the second's. */
  lemma TwoTargetsRun(env: Env, src: Name, first: Name, second: Name, st: State)
    requires PrepareBranch(env, Some(src), first).Ok? && PrepareBranch(env, Some(src), second).Ok?
    requires !st.halted && Addressable(env, st)
    ensures var m1 := Staged(env, Some(src), first, st.mem, st);
      var m2 := Staged(env, Some(src), second, m1, st);
      SameLocals(st.mem, m2) &&
      Run(PrepareBranch(env, Some(src), first).value + PrepareBranch(env, Some(src), second).value, st) ==
      Push(Push(st.(mem := m2), env.blocks[Plan.BlockKey(first)]), env.blocks[Plan.BlockKey(second)])
  {
    PrepareBranchOk(env, Some(src), first);
    PrepareBranchOk(env, Some(src), second);
    var p1 := PhisOf(env, first);
    var p2 := PhisOf(env, second);
    var m1 := Stage(env, Some(src), p1, |p1|, st.mem, st);
    var m2 := Stage(env, Some(src), p2, |p2|, m1, st);
    var id1 := env.blocks[Plan.BlockKey(first)];
    var s1 := Push(st.(mem := m1), id1);
    PrepareBranchRuns(env, Some(src), first, st, st);
    StageKeepsLocals(env, Some(src), p1, |p1|, st.mem, st);
    PrepareBranchRuns(env, Some(src), second, s1, st);
    StageKeepsLocals(env, Some(src), p2, |p2|, m1, st);
    SameLocalsTrans(st.mem, m1, m2);
    RunAppend(PrepareBranch(env, Some(src), first).value, PrepareBranch(env, Some(src), second).value, st);
  }

  /**
   * A conditional branch leaves the true target's id when the condition is
   * non-zero and the false target's otherwise, with the phis of both
   * targets staged: the false target's first.
   */
  lemma CondBrRuns(env: Env, src: Name, op: Op, st: State)
    requires op.CondBr? && HandleBr(env, src, op).Ok? && !st.halted && Addressable(env, st)
    ensures var mf := Staged(env, Some(src), op.falseDest, st.mem, st);
      var mt := Staged(env, Some(src), op.trueDest, mf, st);
      Run(HandleBr(env, src, op).value, st) ==
      Push(st.(mem := mt), if ValueOf(env, op.cond, st) != 0
                           then env.blocks[Plan.BlockKey(op.trueDest)]
                           else env.blocks[Plan.BlockKey(op.falseDest)])
  {
    CondBrParts(env, src, op);
    var mf := Staged(env, Some(src), op.falseDest, st.mem, st);
    var mt := Staged(env, Some(src), op.trueDest, mf, st);
    var fId := env.blocks[Plan.BlockKey(op.falseDest)];
    var tId := env.blocks[Plan.BlockKey(op.trueDest)];
    var ft := PrepareBranch(env, Some(src), op.falseDest).value + PrepareBranch(env, Some(src), op.trueDest).value;
    var c := GetLocal(env, op.cond).value;
    var x := ValueOf(env, op.cond, st);
    var s2 := Push(Push(st.(mem := mt), fId), tId);
    TwoTargetsRun(env, src, op.falseDest, op.trueDest, st);
    ValueOfSameFrame(env, op.cond, s2, st);
    GetLocalRuns(env, op.cond, s2);
    SelectAfter(ft, c, st, st.(mem := mt), fId, tId, x);
  }

  // ---------------------------------------------------------------------------
  // handleSwitch

  /** One case: prepare its target, then replace the id on top by the target's id when value - discriminant is 0. */
  function CaseCode(env: Env, src: Name, disc: Value, c: (int, Name)): Result<string>
  {
    match PrepareBranch(env, Some(src), c.1)
    case Err(e) => Err(e)
    case Ok(p) =>
      match GetLocal(env, disc)
      case Err(e) => Err(e)
      case Ok(d) => Ok(p + Literal(c.0) + d + "-!S")
  }

  /** Whether the targets of the first `n` cases can all be prepared. */
  predicate TargetsOk(env: Env, src: Name, cases: seq<(int, Name)>, n: nat)
    requires n <= |cases|
  {
    forall k | 0 <= k < n :: BranchOk(env, Some(src), cases[k].1)
  }

  /** The first `n` cases: they lower exactly when every target can be prepared and, if there is a case, the discriminant pushed. */
  function CasesCode(env: Env, src: Name, disc: Value, cases: seq<(int, Name)>, n: nat): Result<string>
    requires n <= |cases|
  {
    if n == 0 then Ok("")
    else
      match CasesCode(env, src, disc, cases, n - 1)
      case Err(e) => Err(e)
      case Ok(c) =>
        match CaseCode(env, src, disc, cases[n - 1])
        case Err(e) => Err(e)
        case Ok(k) => Ok(c + k)
  }

  /** A branch can be prepared exactly when `BranchOk` holds. */
  lemma PrepareBranchOk(env: Env, src: Option<Name>, target: Name)
    ensures PrepareBranch(env, src, target).Ok? <==> BranchOk(env, src, target)
  {
  }

  /** The first `n` cases lower exactly when every target can be prepared and, if there is a case, the discriminant pushed. */
  lemma {:induction false} CasesCodeOk(env: Env, src: Name, disc: Value, cases: seq<(int, Name)>, n: nat)
    requires n <= |cases|
    ensures CasesCode(env, src, disc, cases, n).Ok? <==> n == 0 || (TargetsOk(env, src, cases, n) && Resolvable(env, disc))
  {
    if n > 0 {
      CasesCodeOk(env, src, disc, cases, n - 1);
      CasesCodeStepOk(env, src, disc, cases, n);
      PrepareBranchOk(env, Some(src), cases[n - 1].1);
      GetLocalOk(env, disc);
      TargetsOkStep(env, src, cases, n);
    }
  }

  lemma TargetsOkStep(env: Env, src: Name, cases: seq<(int, Name)>, n: nat)
    requires 0 < n <= |cases|
    ensures TargetsOk(env, src, cases, n) <==> TargetsOk(env, src, cases, n - 1) && BranchOk(env, Some(src), cases[n - 1].1)
  {
  }

  lemma CasesCodeStepOk(env: Env, src: Name, disc: Value, cases: seq<(int, Name)>, n: nat)
    requires 0 < n <= |cases|
    ensures CasesCode(env, src, disc, cases, n).Ok? <==>
      CasesCode(env, src, disc, cases, n - 1).Ok? && PrepareBranch(env, Some(src), cases[n - 1].1).Ok? && GetLocal(env, disc).Ok?
  {
  }

  /** `handleSwitch`: at least one case; the default target first, then every case in order. */
  function HandleSwitch(env: Env, src: Name, disc: Value, default: Name, cases: seq<(int, Name)>): Result<string>
  {
    if |cases| == 0 then Err(EmptySwitch)
    else
      match PrepareBranch(env, Some(src), default)
      case Err(e) => Err(e)
      case Ok(p) =>
        match CasesCode(env, src, disc, cases, |cases|)
        case Err(e) => Err(e)
        case Ok(c) => Ok(p + c)
  }

  lemma {:induction false} CasesCodeErrSticks(env: Env, src: Name, disc: Value, cases: seq<(int, Name)>, n: nat, n': nat)
    requires n <= n' <= |cases| && CasesCode(env, src, disc, cases, n).Err?
    ensures CasesCode(env, src, disc, cases, n') == CasesCode(env, src, disc, cases, n)
    decreases n'
  {
    if n' > n {
      CasesCodeErrSticks(env, src, disc, cases, n, n' - 1);
    }
  }

  /** `handleSwitch` as written: the default target, then the loop over the cases. */
  method SwitchCode(env: Env, src: Name, disc: Value, default: Name, cases: seq<(int, Name)>) returns (r: Result<string>)
    ensures r == HandleSwitch(env, src, disc, default, cases)
  {
    if |cases| == 0 {
      return Err(EmptySwitch);
    }
    var p := PrepareBranchCode(env, Some(src), default);
    if p.Err? {
      return Err(p.error);
    }
    var cs := EmitCases(env, src, disc, cases);
    if cs.Err? {
      return Err(cs.error);
    }
    r := Ok(p.value + cs.value);
  }

  /** The case loop of `handleSwitch`. */
  method EmitCases(env: Env, src: Name, disc: Value, cases: seq<(int, Name)>) returns (cs: Result<string>)
    ensures cs == CasesCode(env, src, disc, cases, |cases|)
  {
    cs := Ok("");
    var i := 0;
    while i < |cases| && cs.Ok?
      invariant 0 <= i <= |cases|
      invariant CasesCode(env, src, disc, cases, i) == cs
    {
      var k := EmitCase(env, src, disc, cases[i]);
      if k.Err? {
        cs := Err(k.error);
      } else {
        cs := Ok(cs.value + k.value);
      }
      i := i + 1;
    }
    if cs.Err? {
      CasesCodeErrSticks(env, src, disc, cases, i, |cases|);
    }
  }

  /** One round of the case loop: prepare the target, push the case value, read the discriminant, compare. */
  method EmitCase(env: Env, src: Name, disc: Value, c: (int, Name)) returns (r: Result<string>)
    ensures r == CaseCode(env, src, disc, c)
  {
    var t := PrepareBranchCode(env, Some(src), c.1);
    if t.Err? {
      return Err(t.error);
    }
    var v := GenInt(c.0);
    var d := GetLocal(env, disc);
    if d.Err? {
      return Err(d.error);
    }
    r := Ok(t.value + v + d.value + "-!S");
  }

  /** The id on top after the first `n` cases, starting from `cur`: each matching case replaces the one before. */
  function SwitchTarget(env: Env, cur: int, cases: seq<(int, Name)>, n: nat, d: int): int
    requires n <= |cases|
  {
    if n == 0 then cur
    else if cases[n - 1].0 == d then Lookup(env, cases[n - 1].1)
    else SwitchTarget(env, cur, cases, n - 1, d)
  }

  /** A target's block id, or 0 when it has none (only reached where it has one). */
  function Lookup(env: Env, target: Name): int
  {
    if Plan.BlockKey(target) in env.blocks then env.blocks[Plan.BlockKey(target)] else 0
  }

  /** With no case matching, the id on top stays the one the cases started from. */
  lemma {:induction false} SwitchDefault(env: Env, cur: int, cases: seq<(int, Name)>, n: nat, d: int)
    requires n <= |cases| && forall k | 0 <= k < n :: cases[k].0 != d
    ensures SwitchTarget(env, cur, cases, n, d) == cur
  {
    if n > 0 {
      SwitchDefault(env, cur, cases, n - 1, d);
    }
  }

  /** The cases leave the id of the last case whose value equals the discriminant. */
  lemma {:induction false} SwitchLastMatch(env: Env, cur: int, cases: seq<(int, Name)>, n: nat, d: int, k: nat)
    requires k < n <= |cases| && cases[k].0 == d && forall l | k < l < n :: cases[l].0 != d
    ensures SwitchTarget(env, cur, cases, n, d) == Lookup(env, cases[k].1)
  {
    if n - 1 > k {
      SwitchLastMatch(env, cur, cases, n - 1, d, k);
    }
  }

  /** The memory after the first `n` cases have staged their targets' phis onto `base`. */
  function CasesStage(env: Env, src: Name, cases: seq<(int, Name)>, n: nat, base: map<Cell, int>, st: State): map<Cell, int>
    requires n <= |cases| && TargetsOk(env, src, cases, n)
  {
    if n == 0 then base
    else
      var p := PhisOf(env, cases[n - 1].1);
      Stage(env, Some(src), p, |p|, CasesStage(env, src, cases, n - 1, base, st), st)
  }

  lemma {:induction false} CasesStageKeepsLocals(env: Env, src: Name, cases: seq<(int, Name)>, n: nat, base: map<Cell, int>, st: State)
    requires n <= |cases| && TargetsOk(env, src, cases, n) && Addressable(env, st)
    ensures SameLocals(base, CasesStage(env, src, cases, n, base, st))
  {
    if n > 0 {
      var m := CasesStage(env, src, cases, n - 1, base, st);
      var p := PhisOf(env, cases[n - 1].1);
      CasesStageKeepsLocals(env, src, cases, n - 1, base, st);
      StageKeepsLocals(env, Some(src), p, |p|, m, st);
      SameLocalsTrans(base, m, Stage(env, Some(src), p, |p|, m, st));
    }
  }

  /** `-!S` on [cur, id, value, discriminant] keeps id when the two are equal and cur otherwise. */
  lemma MatchTailRuns(s: State, cur: int, id: int, v: int, d: int)
    requires !s.halted
    ensures Run("-!S", Push(Push(Push(Push(s, cur), id), v), d)) == Push(s, if v == d then id else cur)
  {
    RunThree('-', '!', 'S', Push(Push(Push(Push(s, cur), id), v), d));
    SelectStep(s, cur, id, if v - d == 0 then 1 else 0);
  }

  /** One case replaces the id on top as `SwitchTarget` says and stages its target. */
  lemma CaseRuns(env: Env, src: Name, disc: Value, c: (int, Name), s: State, cur: int, st: State)
    requires CaseCode(env, src, disc, c).Ok? && !s.halted
    requires Addressable(env, st) && SameLocals(st.mem, s.mem)
    ensures var m := Staged(env, Some(src), c.1, s.mem, st);
      Run(CaseCode(env, src, disc, c).value, Push(s, cur)) ==
      Push(s.(mem := m), if c.0 == ValueOf(env, disc, st) then Lookup(env, c.1) else cur)
  {
    PrepareBranchOk(env, Some(src), c.1);
    var p := PhisOf(env, c.1);
    var m := Stage(env, Some(src), p, |p|, s.mem, st);
    var id := env.blocks[Plan.BlockKey(c.1)];
    var pc := PrepareBranch(env, Some(src), c.1).value;
    var dc := GetLocal(env, disc).value;
    var d := ValueOf(env, disc, st);
    var s0 := Push(s, cur);
    var s1 := Push(Push(s.(mem := m), cur), id);
    var s2 := Push(s1, c.0);
    var s3 := Push(s2, d);
    PrepareBranchRuns(env, Some(src), c.1, s0, st);
    StagedSameLocals(env, Some(src), p, |p|, s.mem, st);
    LiteralRuns(c.0, s1);
    ValueOfSameFrame(env, disc, s2, st);
    GetLocalRuns(env, disc, s2);
    MatchTailRuns(s.(mem := m), cur, id, c.0, d);
    RunThen(pc, Literal(c.0), s0, s1, s2);
    RunThen(pc + Literal(c.0), dc, s0, s2, s3);
    RunThen(pc + Literal(c.0) + dc, "-!S", s0, s3, Push(s.(mem := m), if c.0 == d then id else cur));
  }

  /** When the first `n` cases lower, so do the first `n - 1` and case `n - 1`. */
  lemma CasesCodeParts(env: Env, src: Name, disc: Value, cases: seq<(int, Name)>, n: nat)
    requires 0 < n <= |cases| && CasesCode(env, src, disc, cases, n).Ok?
    ensures CasesCode(env, src, disc, cases, n - 1).Ok? && CaseCode(env, src, disc, cases[n - 1]).Ok?
  {
  }

  /** Running the first `n` cases runs the first `n - 1`, then case `n - 1`. */
  lemma CasesCodeSplitRuns(env: Env, src: Name, disc: Value, cases: seq<(int, Name)>, n: nat, s: State)
    requires 0 < n <= |cases| && CasesCode(env, src, disc, cases, n).Ok?
    ensures CasesCode(env, src, disc, cases, n - 1).Ok? && CaseCode(env, src, disc, cases[n - 1]).Ok?
    ensures Run(CasesCode(env, src, disc, cases, n).value, s) ==
            Run(CaseCode(env, src, disc, cases[n - 1]).value, Run(CasesCode(env, src, disc, cases, n - 1).value, s))
  {
    CasesCodeSplit(env, src, disc, cases, n);
    RunAppend(CasesCode(env, src, disc, cases, n - 1).value, CaseCode(env, src, disc, cases[n - 1]).value, s);
  }

  /** The code of the first `n` cases is that of the first `n - 1` followed by case `n - 1`. */
  lemma CasesCodeSplit(env: Env, src: Name, disc: Value, cases: seq<(int, Name)>, n: nat)
    requires 0 < n <= |cases| && CasesCode(env, src, disc, cases, n).Ok?
    ensures CasesCode(env, src, disc, cases, n - 1).Ok? && CaseCode(env, src, disc, cases[n - 1]).Ok?
    ensures CasesCode(env, src, disc, cases, n).value ==
            CasesCode(env, src, disc, cases, n - 1).value + CaseCode(env, src, disc, cases[n - 1]).value
  {
  }

  /** Case `n - 1` takes the state the first `n - 1` cases leave to the one the first `n` leave. */
  lemma LastCaseRuns(env: Env, src: Name, disc: Value, cases: seq<(int, Name)>, n: nat, s: State, cur: int, st: State)
    requires 0 < n <= |cases| && CasesCode(env, src, disc, cases, n).Ok? && TargetsOk(env, src, cases, n)
    requires !s.halted && Addressable(env, st) && SameLocals(st.mem, s.mem) && GetLocal(env, disc).Ok?
    ensures CasesCode(env, src, disc, cases, n - 1).Ok? && CaseCode(env, src, disc, cases[n - 1]).Ok?
    ensures Run(CaseCode(env, src, disc, cases[n - 1]).value,
                Push(s.(mem := CasesStage(env, src, cases, n - 1, s.mem, st)),
                     SwitchTarget(env, cur, cases, n - 1, ValueOf(env, disc, st)))) ==
            Push(s.(mem := CasesStage(env, src, cases, n, s.mem, st)),
                 SwitchTarget(env, cur, cases, n, ValueOf(env, disc, st)))
  {
    CasesCodeParts(env, src, disc, cases, n);
    var m := CasesStage(env, src, cases, n - 1, s.mem, st);
    var c := SwitchTarget(env, cur, cases, n - 1, ValueOf(env, disc, st));
    CasesStageKeepsLocals(env, src, cases, n - 1, s.mem, st);
    SameLocalsTrans(st.mem, s.mem, m);
    CasesStageStep(env, src, disc, cases, n, s.mem, st);
    SwitchTargetStep(env, cur, cases, n, ValueOf(env, disc, st));
    CaseRuns(env, src, disc, cases[n - 1], s.(mem := m), c, st);
    var x := Staged(env, Some(src), cases[n - 1].1, m, st);
    assert s.(mem := m).(mem := x) == s.(mem := x);
  }

  lemma CasesStageStep(env: Env, src: Name, disc: Value, cases: seq<(int, Name)>, n: nat, base: map<Cell, int>, st: State)
    requires 0 < n <= |cases| && TargetsOk(env, src, cases, n) && CaseCode(env, src, disc, cases[n - 1]).Ok?
    ensures PrepareBranch(env, Some(src), cases[n - 1].1).Ok?
    ensures CasesStage(env, src, cases, n, base, st) ==
      Staged(env, Some(src), cases[n - 1].1, CasesStage(env, src, cases, n - 1, base, st), st)
  {
  }

  lemma SwitchTargetStep(env: Env, cur: int, cases: seq<(int, Name)>, n: nat, d: int)
    requires 0 < n <= |cases|
    ensures SwitchTarget(env, cur, cases, n, d) ==
      if cases[n - 1].0 == d then Lookup(env, cases[n - 1].1) else SwitchTarget(env, cur, cases, n - 1, d)
  {
  }

  lemma NoCases(env: Env, src: Name, disc: Value, cases: seq<(int, Name)>, s: State, cur: int, st: State)
    requires GetLocal(env, disc).Ok?
    ensures CasesCode(env, src, disc, cases, 0) == Ok("")
    ensures Push(s.(mem := CasesStage(env, src, cases, 0, s.mem, st)), SwitchTarget(env, cur, cases, 0, ValueOf(env, disc, st))) ==
            Push(s, cur)
  {
  }

  lemma TargetsOkPrefix(env: Env, src: Name, cases: seq<(int, Name)>, n: nat, m: nat)
    requires m <= n <= |cases| && TargetsOk(env, src, cases, n)
    ensures TargetsOk(env, src, cases, m)
  {
  }

  /** One more case, from where the cases before it leave the stack and the memory. */
  lemma CasesStep(env: Env, src: Name, disc: Value, cases: seq<(int, Name)>, n: nat, s: State, cur: int, st: State)
    requires 0 < n <= |cases| && CasesCode(env, src, disc, cases, n).Ok? && TargetsOk(env, src, cases, n)
    requires !s.halted && Addressable(env, st) && SameLocals(st.mem, s.mem) && GetLocal(env, disc).Ok?
    requires CasesCode(env, src, disc, cases, n - 1).Ok? && TargetsOk(env, src, cases, n - 1)
    requires Run(CasesCode(env, src, disc, cases, n - 1).value, Push(s, cur)) ==
             Push(s.(mem := CasesStage(env, src, cases, n - 1, s.mem, st)),
                  SwitchTarget(env, cur, cases, n - 1, ValueOf(env, disc, st)))
    ensures Run(CasesCode(env, src, disc, cases, n).value, Push(s, cur)) ==
            Push(s.(mem := CasesStage(env, src, cases, n, s.mem, st)),
                 SwitchTarget(env, cur, cases, n, ValueOf(env, disc, st)))
  {
    CasesCodeSplitRuns(env, src, disc, cases, n, Push(s, cur));
    LastCaseRuns(env, src, disc, cases, n, s, cur, st);
  }

  /**
   * The first `n` cases, run with `cur` on top, leave `SwitchTarget` of the
   * discriminant's value on top and the phis of their targets staged.
   */
  lemma {:induction false} CasesRun(env: Env, src: Name, disc: Value, cases: seq<(int, Name)>, n: nat, s: State, cur: int, st: State)
    requires n <= |cases| && CasesCode(env, src, disc, cases, n).Ok? && TargetsOk(env, src, cases, n)
    requires !s.halted && Addressable(env, st) && SameLocals(st.mem, s.mem) && GetLocal(env, disc).Ok?
    ensures Run(CasesCode(env, src, disc, cases, n).value, Push(s, cur)) ==
            Push(s.(mem := CasesStage(env, src, cases, n, s.mem, st)),
                 SwitchTarget(env, cur, cases, n, ValueOf(env, disc, st)))
  {
    if n == 0 {
      NoCases(env, src, disc, cases, s, cur, st);
      RunEmpty(Push(s, cur));
    } else {
      TargetsOkPrefix(env, src, cases, n, n - 1);
      CasesRun(env, src, disc, cases, n - 1, s, cur, st);
      CasesStep(env, src, disc, cases, n, s, cur, st);
    }
  }

  /** The memory after a switch: the default's phis staged, then every case target's. */
  function SwitchStage(env: Env, src: Name, disc: Value, default: Name, cases: seq<(int, Name)>, st: State): map<Cell, int>
    requires HandleSwitch(env, src, disc, default, cases).Ok?
  {
    PrepareBranchOk(env, Some(src), default);
    CasesCodeOk(env, src, disc, cases, |cases|);
    var p := PhisOf(env, default);
    CasesStage(env, src, cases, |cases|, Stage(env, Some(src), p, |p|, st.mem, st), st)
  }

  /**
   * A switch leaves the id of the last case whose value equals the
   * discriminant (the default's when none does), with the phis of the default
   * and of every case target staged.
   */
  lemma SwitchRuns(env: Env, src: Name, disc: Value, default: Name, cases: seq<(int, Name)>, st: State)
    requires HandleSwitch(env, src, disc, default, cases).Ok? && !st.halted && Addressable(env, st)
    ensures GetLocal(env, disc).Ok?
    ensures Run(HandleSwitch(env, src, disc, default, cases).value, st) ==
            Push(st.(mem := SwitchStage(env, src, disc, default, cases, st)),
                 SwitchTarget(env, Lookup(env, default), cases, |cases|, ValueOf(env, disc, st)))
  {
    CasesFirstOk(env, src, disc, cases, |cases|);
    CasesCodeOk(env, src, disc, cases, |cases|);
    PrepareBranchOk(env, Some(src), default);
    var p := PhisOf(env, default);
    var s := st.(mem := Stage(env, Some(src), p, |p|, st.mem, st));
    var id := Lookup(env, default);
    var pd := PrepareBranch(env, Some(src), default).value;
    var cc := CasesCode(env, src, disc, cases, |cases|).value;
    PrepareBranchRuns(env, Some(src), default, st, st);
    StageKeepsLocals(env, Some(src), p, |p|, st.mem, st);
    CasesRun(env, src, disc, cases, |cases|, s, id, st);
    RunThen(pd, cc, st, Push(s, id), Run(cc, Push(s, id)));
  }

  lemma {:induction false} CasesFirstOk(env: Env, src: Name, disc: Value, cases: seq<(int, Name)>, n: nat)
    requires 0 < n <= |cases| && CasesCode(env, src, disc, cases, n).Ok?
    ensures CaseCode(env, src, disc, cases[0]).Ok? && GetLocal(env, disc).Ok?
  {
    if n > 1 {
      CasesFirstOk(env, src, disc, cases, n - 1);
    }
  }
}
