/**
 * `setupGlobalVars`: every global that is not an aggregate gets the next
 * address of the global region, one word each, and the setup code stores
 * its initial value there unless that value is zero. A zero-initialised
 * global is left unwritten, so the program relies on the interpreter
 * starting its memory at zero; in `Machine` an unwritten cell reads as a
 * space (32) instead.
 */
module Globals {
  import opened Ir
  import opened Machine
  import opened Literals
  import opened Addressing

  /** What `setupGlobalVars` leaves behind: the setup code, the global map and the next free address. */
  datatype GlobalLayout = GlobalLayout(code: string, addrs: map<Name, int>, next: int)

  /** Before the first global: no code, no addresses, the region base. */
  const NoGlobals := GlobalLayout("", map[], GlobalPos)

  /** A global whose initializer has an element 0 (a string or array) gets no address at all. */
  predicate Skipped(g: Global)
  {
    g.init.AggregateInit? && |g.init.elems| > 0
  }

  /** A global whose initial value the setup code writes: a non-zero integer. */
  predicate Stored(g: Global)
  {
    g.init.ScalarInit? && g.init.v != 0
  }

  /** The code storing `v` at global address `a`: push the value, push the address, split it, `p`. */
  function GlobalStore(v: int, a: int): string
  {
    Literal(v) + Literal(a) + Make2D(Mem) + "p"
  }

  /** The loop body for one global. The step is the size of the global's own (pointer) type: 1. */
  function GlobalStep(g: Global, l: GlobalLayout): Result<GlobalLayout>
  {
    if Skipped(g) then Ok(l)
    else if !(g.init.NullInit? || g.init.ScalarInit?) then Err(NotAConstant)
    else
      var code := if Stored(g) then l.code + GlobalStore(g.init.v, l.next) else l.code;
      Ok(GlobalLayout(code, Insert(l.addrs, g.name, l.next), l.next + 1))
  }

  /** The loop after its first `n` globals. */
  function SetupGlobals(gs: seq<Global>, n: nat): Result<GlobalLayout>
    requires n <= |gs|
  {
    if n == 0 then Ok(NoGlobals)
    else
      match SetupGlobals(gs, n - 1)
      case Err(e) => Err(e)
      case Ok(l) => GlobalStep(gs[n - 1], l)
  }

  /** `setupGlobalVars` as written: one pass over the globals with a running address. */
  method SetupGlobalVars(gs: seq<Global>) returns (r: Result<GlobalLayout>)
    ensures r == SetupGlobals(gs, |gs|)
  {
    var code := "";
    var addrs: map<Name, int> := map[];
    var globalId := GlobalPos;
    var i := 0;
    while i < |gs|
      invariant 0 <= i <= |gs|
      invariant SetupGlobals(gs, i) == Ok(GlobalLayout(code, addrs, globalId))
    {
      var g := gs[i];
      if Skipped(g) {
        i := i + 1;
        continue;
      }
      if !g.init.NullInit? {
        if !g.init.ScalarInit? {
          SetupGlobalsErrSticks(gs, i + 1, |gs|);
          return Err(NotAConstant);
        }
        var v := g.init.v;
        if v != 0 {
          var lv := GenInt(v);
          var la := GenInt(globalId);
          var store := lv + la + Make2D(Mem) + "p";
          assert store == GlobalStore(v, globalId);
          code := code + store;
        }
      }
      addrs := Insert(addrs, g.name, globalId);
      globalId := globalId + 1;
      i := i + 1;
    }
    r := Ok(GlobalLayout(code, addrs, globalId));
  }

  lemma {:induction false} SetupGlobalsErrSticks(gs: seq<Global>, n: nat, n': nat)
    requires n <= n' <= |gs| && SetupGlobals(gs, n).Err?
    ensures SetupGlobals(gs, n') == SetupGlobals(gs, n)
    decreases n'
  {
    if n' > n {
      SetupGlobalsErrSticks(gs, n, n' - 1);
    }
  }

  // ---------------------------------------------------------------------------
  // Addresses

  /** The number of globals among `gs` that get an address. */
  function Placed(gs: seq<Global>): nat
  {
    if gs == [] then 0 else Placed(gs[..|gs| - 1]) + (if Skipped(gs[|gs| - 1]) then 0 else 1)
  }

  /**
   * The setup fails exactly when a global that is not skipped has an
   * initializer other than an integer or a null pointer.
   */
  lemma {:induction false} SetupGlobalsFails(gs: seq<Global>, n: nat)
    requires n <= |gs|
    ensures SetupGlobals(gs, n).Ok? <==>
      forall k | 0 <= k < n :: Skipped(gs[k]) || gs[k].init.NullInit? || gs[k].init.ScalarInit?
  {
    if n > 0 {
      SetupGlobalsFails(gs, n - 1);
    }
  }

  /**
   * With distinct names, global `k` that is not skipped has address
   * `GlobalPos` plus the number of placed globals before it; skipped globals
   * have none, and the next address counts one word per placed global.
   */
  lemma {:induction false} GlobalAddresses(gs: seq<Global>, n: nat)
    requires n <= |gs| && SetupGlobals(gs, n).Ok?
    requires forall k, l | 0 <= k < l < |gs| :: gs[k].name != gs[l].name
    ensures var l := SetupGlobals(gs, n).value;
      l.next == GlobalPos + Placed(gs[..n]) &&
      (forall k | 0 <= k < n && !Skipped(gs[k]) ::
         gs[k].name in l.addrs && l.addrs[gs[k].name] == GlobalPos + Placed(gs[..k])) &&
      (forall k | 0 <= k < n && Skipped(gs[k]) :: gs[k].name !in l.addrs) &&
      (forall x | x in l.addrs :: exists k | 0 <= k < n :: gs[k].name == x)
  {
    if n > 0 {
      GlobalAddresses(gs, n - 1);
      assert gs[..n][..n - 1] == gs[..n - 1];
      var l := SetupGlobals(gs, n - 1).value;
      if !Skipped(gs[n - 1]) {
        assert gs[n - 1].name !in l.addrs;
      }
    }
  }

  // ---------------------------------------------------------------------------
  // What the setup code does

  /** The store of one global writes its value into the global's MEM cell and leaves the stack as it was. */
  lemma GlobalStoreRuns(v: int, a: int, st: State)
    requires !st.halted && a >= 0
    ensures Run(GlobalStore(v, a), st) == st.(mem := st.mem[CellOf(Mem, a) := v])
  {
    var c := CellOf(Mem, a);
    var s1 := Push(st, v);
    var s2 := Push(s1, a);
    var s3 := Push(Push(s1, c.0), c.1);
    LiteralRuns(v, st);
    LiteralRuns(a, s1);
    Make2DRuns(Mem, s1, a);
    PutStep(st, v, c.0, c.1);
    RunThen(Literal(v), Literal(a), st, s1, s2);
    RunThen(Literal(v) + Literal(a), Make2D(Mem), st, s2, s3);
    RunThen(Literal(v) + Literal(a) + Make2D(Mem), "p", st, s3, st.(mem := st.mem[c := v]));
  }

  /**
   * Running the setup code changes memory only, and only the MEM cells of
   * the global region: the registers, the frames, the PHI band and all other
   * MEM addresses keep their contents.
   */
  lemma {:induction false} SetupGlobalsFrame(gs: seq<Global>, n: nat, st: State)
    requires n <= |gs| && SetupGlobals(gs, n).Ok? && !st.halted
    ensures var l := SetupGlobals(gs, n).value; var st' := Run(l.code, st);
      st' == st.(mem := st'.mem) &&
      (forall r: Register :: Read(st'.mem, RegisterCell(r)) == Read(st.mem, RegisterCell(r))) &&
      (forall mt: MemType, a: int | a >= 0 && !(mt == Mem && GlobalPos <= a < l.next) ::
         Read(st'.mem, CellOf(mt, a)) == Read(st.mem, CellOf(mt, a)))
  {
    if n == 0 {
      assert Run("", st) == st;
    } else {
      var l := SetupGlobals(gs, n - 1).value;
      SetupGlobalsFrame(gs, n - 1, st);
      GlobalNextGrows(gs, n - 1);
      var s1 := Run(l.code, st);
      var g := gs[n - 1];
      if Stored(g) {
        var a := l.next;
        GlobalStoreRuns(g.init.v, a, s1);
        RunAppend(l.code, GlobalStore(g.init.v, a), st);
        forall r: Register ensures CellOf(Mem, a) != RegisterCell(r) {
          DataIsNotARegister(Mem, a, r);
        }
        forall mt: MemType, a2: int | a2 >= 0 && !(mt == Mem && GlobalPos <= a2 < a + 1)
          ensures CellOf(mt, a2) != CellOf(Mem, a)
        {
          CellOfInjective(Mem, a, mt, a2);
        }
      }
    }
  }

  /** The running address never drops below the region base. */
  lemma {:induction false} GlobalNextGrows(gs: seq<Global>, n: nat)
    requires n <= |gs| && SetupGlobals(gs, n).Ok?
    ensures SetupGlobals(gs, n).value.next >= GlobalPos
  {
    if n > 0 {
      GlobalNextGrows(gs, n - 1);
    }
  }

  /** The running address is the region base plus one word per placed global. */
  lemma {:induction false} GlobalNext(gs: seq<Global>, n: nat)
    requires n <= |gs| && SetupGlobals(gs, n).Ok?
    ensures SetupGlobals(gs, n).value.next == GlobalPos + Placed(gs[..n])
  {
    if n > 0 {
      GlobalNext(gs, n - 1);
      assert gs[..n][..n - 1] == gs[..n - 1];
    }
  }

  /** The first `n` globals that the setup stores hold their initial values in `mem`, each in its own cell. */
  predicate Initialised(gs: seq<Global>, n: nat, mem: map<Cell, int>)
    requires n <= |gs|
  {
    forall k | 0 <= k < n && Stored(gs[k]) ::
      Read(mem, CellOf(Mem, GlobalPos + Placed(gs[..k]))) == gs[k].init.v
  }

  /**
   * After the setup code, the cell of every stored global holds its initial
   * value: each global has a cell of its own.
   */
  lemma {:induction false} SetupGlobalsValues(gs: seq<Global>, n: nat, st: State)
    requires n <= |gs| && SetupGlobals(gs, n).Ok? && !st.halted
    ensures Initialised(gs, n, Run(SetupGlobals(gs, n).value.code, st).mem)
  {
    if n > 0 {
      var l := SetupGlobals(gs, n - 1).value;
      var s1 := Run(l.code, st);
      var s2 := Run(SetupGlobals(gs, n).value.code, st);
      SetupGlobalsValues(gs, n - 1, st);
      GlobalNext(gs, n - 1);
      if Stored(gs[n - 1]) {
        StoreStep(gs, n, st);
        forall k | 0 <= k < n && Stored(gs[k])
          ensures Read(s2.mem, CellOf(Mem, GlobalPos + Placed(gs[..k]))) == gs[k].init.v
        {
          if k < n - 1 {
            StoreMisses(gs, n, k);
          }
        }
      } else {
        assert SetupGlobals(gs, n).value.code == l.code;
      }
    }
  }

  /** The store of global `n - 1` lands after every earlier stored global's cell. */
  lemma StoreMisses(gs: seq<Global>, n: nat, k: nat)
    requires 0 < n <= |gs| && SetupGlobals(gs, n).Ok? && k < n - 1 && Stored(gs[k])
    requires SetupGlobals(gs, n - 1).value.next == GlobalPos + Placed(gs[..n - 1])
    ensures CellOf(Mem, SetupGlobals(gs, n - 1).value.next) != CellOf(Mem, GlobalPos + Placed(gs[..k]))
  {
    PlacedGrows(gs, k, n - 1);
    CellOfInjective(Mem, SetupGlobals(gs, n - 1).value.next, Mem, GlobalPos + Placed(gs[..k]));
  }

  /** The setup code of the first `n` globals never halts the machine nor touches the stack. */
  lemma SetupGlobalsRunning(gs: seq<Global>, n: nat, st: State)
    requires n <= |gs| && SetupGlobals(gs, n).Ok? && !st.halted
    ensures var s := Run(SetupGlobals(gs, n).value.code, st); !s.halted && s.stack == st.stack
  {
    SetupGlobalsFrame(gs, n, st);
  }

  /** A stored global's step runs the code before it, then one store at the running address. */
  lemma StoreStep(gs: seq<Global>, n: nat, st: State)
    requires 0 < n <= |gs| && SetupGlobals(gs, n).Ok? && !st.halted && Stored(gs[n - 1])
    requires SetupGlobals(gs, n - 1).value.next == GlobalPos + Placed(gs[..n - 1])
    ensures var l := SetupGlobals(gs, n - 1).value; var s1 := Run(l.code, st);
      Run(SetupGlobals(gs, n).value.code, st) == s1.(mem := s1.mem[CellOf(Mem, l.next) := gs[n - 1].init.v])
  {
    var l := SetupGlobals(gs, n - 1).value;
    var s1 := Run(l.code, st);
    var g := gs[n - 1];
    var store := GlobalStore(g.init.v, l.next);
    assert SetupGlobals(gs, n).value.code == l.code + store;
    SetupGlobalsRunning(gs, n - 1, st);
    GlobalNextGrows(gs, n - 1);
    GlobalStoreRuns(g.init.v, l.next, s1);
    RunAppend(l.code, store, st);
  }

  /** A placed global before position `n` has a smaller address than everything placed from `n` on. */
  lemma {:induction false} PlacedGrows(gs: seq<Global>, k: nat, n: nat)
    requires k < n <= |gs| && !Skipped(gs[k])
    ensures Placed(gs[..k]) < Placed(gs[..n])
    decreases n
  {
    assert gs[..k + 1][..k] == gs[..k];
    if n > k + 1 {
      PlacedGrows(gs, k, n - 1);
      assert gs[..n][..n - 1] == gs[..n - 1];
    }
  }
}
