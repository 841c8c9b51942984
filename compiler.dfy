/**
 * `run`: filter the instructions, number everything, lay out the setup
 * code, then translate every defined function and lay out its pieces: the
 * header row as a row of text, every block segment with its dispatcher.
 * Any error aborts the whole translation, so nothing is printed.
 */
module Compiler {
  import opened Ir
  import opened Machine
  import opened Literals
  import opened Addressing
  import opened Globals
  import opened Operands
  import opened Translate
  import opened Layout
  import Plan

  // ---------------------------------------------------------------------------
  // `emitSetup`

  /** The code that stores `v` in register `r`. */
  function Store(r: Register, v: int): string
  {
    Literal(v) + SetRegister(r)
  }

  /** The start of `emitSetup`: the three pointer registers, then the entry block id. */
  function SetupPrefix(entry: int): string
  {
    Store(StackPointer, StackPos) + Store(HeapPointer, HeapPos) + Store(LocalPointer, LocalPos) + Literal(entry)
  }

  /** The code of `emitSetup`: the registers and the entry block id, then the stores of the globals. */
  function SetupCode(entry: int, globalsCode: string): string
  {
    SetupPrefix(entry) + globalsCode
  }

  /** The registers after the setup code: the stack pointer at `kStackPos`, the heap pointer at `kHeapPos`, the frame base at `kLocalPos`. */
  function Registers(mem: map<Cell, int>): map<Cell, int>
  {
    mem[RegisterCell(StackPointer) := StackPos][RegisterCell(HeapPointer) := HeapPos][RegisterCell(LocalPointer) := LocalPos]
  }

  lemma StoreRuns(r: Register, v: int, st: State)
    requires !st.halted
    ensures RunsTo(Store(r, v), st, st.(mem := st.mem[RegisterCell(r) := v]))
  {
    LiteralRuns(v, st);
    SetRegisterRuns(r, st, v);
    RunsToThen(Literal(v), SetRegister(r), Store(r, v), st, Push(st, v), st.(mem := st.mem[RegisterCell(r) := v]));
  }

  /** Three stores and a literal, for any three values. */
  lemma StoresRun(a: int, b: int, c: int, entry: int, st: State)
    requires !st.halted
    ensures RunsTo(Store(StackPointer, a) + Store(HeapPointer, b) + Store(LocalPointer, c) + Literal(entry), st,
      Push(st.(mem := st.mem[RegisterCell(StackPointer) := a][RegisterCell(HeapPointer) := b][RegisterCell(LocalPointer) := c]), entry))
  {
    var s1 := st.(mem := st.mem[RegisterCell(StackPointer) := a]);
    var s2 := s1.(mem := s1.mem[RegisterCell(HeapPointer) := b]);
    var s3 := s2.(mem := s2.mem[RegisterCell(LocalPointer) := c]);
    var x := Store(StackPointer, a);
    var y := Store(HeapPointer, b);
    var z := Store(LocalPointer, c);
    StoreRuns(StackPointer, a, st);
    StoreRuns(HeapPointer, b, s1);
    StoreRuns(LocalPointer, c, s2);
    LiteralRuns(entry, s3);
    RunsToThen(x, y, x + y, st, s1, s2);
    RunsToThen(x + y, z, x + y + z, st, s2, s3);
    RunsToThen(x + y + z, Literal(entry), x + y + z + Literal(entry), st, s3, Push(s3, entry));
  }

  /** The first half of the setup code sets the three registers and leaves the entry block id on the stack. */
  lemma RegistersRun(entry: int, st: State)
    requires !st.halted
    ensures RunsTo(SetupPrefix(entry), st, Push(st.(mem := Registers(st.mem)), entry))
  {
    StoresRun(StackPos, HeapPos, LocalPos, entry, st);
  }

  /** The setup code runs the register part, then the globals' stores from there. */
  lemma SetupThenGlobals(entry: int, code: string, st: State)
    requires !st.halted
    ensures Run(SetupCode(entry, code), st) == Run(code, Push(st.(mem := Registers(st.mem)), entry))
  {
    RegistersRun(entry, st);
    RunAppend(SetupPrefix(entry), code, st);
  }

  /**
   * After the whole setup code the entry block id is on top of the stack
   * and the registers hold their region bases.
   */
  lemma SetupRunsRegisters(gs: seq<Global>, entry: int, st: State)
    requires SetupGlobals(gs, |gs|).Ok? && !st.halted
    ensures var s := Run(SetupCode(entry, SetupGlobals(gs, |gs|).value.code), st);
      s.stack == Cons(entry, st.stack) &&
      forall r: Register :: Read(s.mem, RegisterCell(r)) == Read(Registers(st.mem), RegisterCell(r))
  {
    var code := SetupGlobals(gs, |gs|).value.code;
    SetupThenGlobals(entry, code, st);
    SetupGlobalsFrame(gs, |gs|, Push(st.(mem := Registers(st.mem)), entry));
  }

  /** Whatever code runs before the globals' stores, the stored globals end up holding their initial values. */
  lemma GlobalsAfter(gs: seq<Global>, pre: string, st: State, s0: State)
    requires SetupGlobals(gs, |gs|).Ok? && RunsTo(pre, st, s0) && !s0.halted
    ensures Initialised(gs, |gs|, Run(pre + SetupGlobals(gs, |gs|).value.code, st).mem)
  {
    RunAppend(pre, SetupGlobals(gs, |gs|).value.code, st);
    SetupGlobalsValues(gs, |gs|, s0);
  }

  /** After the whole setup code every stored global holds its initial value. */
  lemma SetupRunsGlobals(gs: seq<Global>, entry: int, st: State)
    requires SetupGlobals(gs, |gs|).Ok? && !st.halted
    ensures Initialised(gs, |gs|, Run(SetupCode(entry, SetupGlobals(gs, |gs|).value.code), st).mem)
  {
    RegistersRun(entry, st);
    GlobalsAfter(gs, SetupPrefix(entry), st, Push(st.(mem := Registers(st.mem)), entry));
  }

  /** The three registers hold the bases of the stack, the heap and the frames. */
  lemma RegistersSet(mem: map<Cell, int>)
    ensures Read(Registers(mem), RegisterCell(StackPointer)) == StackPos
    ensures Read(Registers(mem), RegisterCell(HeapPointer)) == HeapPos
    ensures Read(Registers(mem), RegisterCell(LocalPointer)) == LocalPos
  {
  }

  /** The rows of `emitSetup`: the setup code laid out from row 0, then `<` in column 6 and `v` in column 0 of its last row. */
  function SetupGrid(g: Grid, code: string): (h: Grid)
    ensures |h| > 0
  {
    var ws := CodeWrites(g, code, 0, false);
    var s := Apply(g, ws);
    Put(Put(s, 6, |s| - 1, '<'), 0, |s| - 1, 'v')
  }

  /** The setup's last row sends the program counter left from column 6 to column 0, and down from there. */
  lemma SetupTurnsDown(g: Grid, code: string)
    ensures var h := SetupGrid(g, code);
      At(h, 0, |h| - 1) == 'v' && At(h, 6, |h| - 1) == '<'
  {
    var s := Apply(g, CodeWrites(g, code, 0, false));
    var h1 := Put(s, 6, |s| - 1, '<');
    PutCells(s, 6, |s| - 1, '<');
    PutCells(h1, 0, |s| - 1, 'v');
  }

  // ---------------------------------------------------------------------------
  // Laying out the pieces

  /** One piece: a text row is appended, a block segment is laid out below the rows so far. */
  function LayPiece(g: Grid, p: Piece): (h: Grid)
    ensures |h| > |g| && h[..|g|] == g
  {
    match p
    case Row(t) => g + [t]
    case Segment(id, code) =>
      BlockKeepsDispatcher(g, code, id);
      EmitBlockGrid(g, code, id)
  }

  /** The pieces, in order. */
  function LayPieces(g: Grid, ps: seq<Piece>): (h: Grid)
    ensures |h| >= |g| + |ps| && h[..|g|] == g
    decreases |ps|
  {
    if ps == [] then g else LayPiece(LayPieces(g, ps[..|ps| - 1]), ps[|ps| - 1])
  }

  /** Later pieces never touch the rows of earlier ones. */
  lemma {:induction false} LayPiecesKeeps(g: Grid, ps: seq<Piece>, k: nat)
    requires k <= |ps|
    ensures var early := LayPieces(g, ps[..k]);
      |LayPieces(g, ps)| >= |early| && LayPieces(g, ps)[..|early|] == early
    decreases |ps|
  {
    if k < |ps| {
      var early := LayPieces(g, ps[..k]);
      var prev := LayPieces(g, ps[..|ps| - 1]);
      assert ps[..|ps| - 1][..k] == ps[..k];
      LayPiecesKeeps(g, ps[..|ps| - 1], k);
      assert prev[..|early|] == early;
      var h := LayPieces(g, ps);
      assert h[..|prev|] == prev;
      assert h[..|early|] == prev[..|early|];
    } else {
      assert ps[..k] == ps;
    }
  }

  /** The rows laid out for the first `k + 1` pieces are those for the first `k`, then piece `k`. */
  lemma LayPiecesStep(g: Grid, ps: seq<Piece>, k: nat)
    requires k < |ps|
    ensures LayPieces(g, ps[..k + 1]) == LayPiece(LayPieces(g, ps[..k]), ps[k])
  {
    assert ps[..k + 1][..k] == ps[..k];
  }

  /** In the finished grid a text row reads exactly as it was written, at the row after those of the pieces before it. */
  lemma RowInPlace(g: Grid, ps: seq<Piece>, k: nat)
    requires k < |ps| && ps[k].Row?
    ensures var top := |LayPieces(g, ps[..k])|;
      var h := LayPieces(g, ps);
      |h| > top && h[top] == ps[k].text
  {
    var top := |LayPieces(g, ps[..k])|;
    var after := LayPieces(g, ps[..k + 1]);
    LayPiecesStep(g, ps, k);
    LayPiecesKeeps(g, ps, k + 1);
    var h := LayPieces(g, ps);
    assert after[top] == ps[k].text;
    assert h[top] == h[..|after|][top];
  }

  /** In the finished grid a block's dispatcher occupies columns 0-9 of the three rows where its segment starts. */
  lemma SegmentInPlace(g: Grid, ps: seq<Piece>, k: nat)
    requires k < |ps| && ps[k].Segment?
    ensures DispatcherAt(LayPieces(g, ps), |LayPieces(g, ps[..k])|)
  {
    var before := LayPieces(g, ps[..k]);
    var after := LayPieces(g, ps[..k + 1]);
    LayPiecesStep(g, ps, k);
    BlockKeepsDispatcher(before, ps[k].code, ps[k].id);
    LayPiecesKeeps(g, ps, k + 1);
    DispatcherStays(after, LayPieces(g, ps), |before|);
  }

  // ---------------------------------------------------------------------------
  // The whole translation

  /** The module's functions by name; the first of a name is kept, as `std::map::insert` does. */
  function FuncsByName(fs: seq<Function>): map<string, Function>
    decreases |fs|
  {
    if fs == [] then map[] else Insert(FuncsByName(fs[..|fs| - 1]), fs[|fs| - 1].name, fs[|fs| - 1])
  }

  /** The blocks of one function by label. */
  function BlocksByName(bs: seq<Block>): map<Name, Block>
    decreases |bs|
  {
    if bs == [] then map[] else Insert(BlocksByName(bs[..|bs| - 1]), bs[|bs| - 1].name, bs[|bs| - 1])
  }

  /** The blocks of all functions by label. */
  function AllBlocks(fs: seq<Function>): map<Name, Block>
    decreases |fs|
  {
    if fs == [] then map[] else AllBlocks(fs[..|fs| - 1]) + BlocksByName(fs[|fs| - 1].blocks)
  }

  /** The globals' initializers by name. */
  function InitsByName(gs: seq<Global>): map<Name, Init>
    decreases |gs|
  {
    if gs == [] then map[] else Insert(InitsByName(gs[..|gs| - 1]), gs[|gs| - 1].name, gs[|gs| - 1].init)
  }

  /** The tables translation reads: the global map, the planner's maps and the module itself. */
  function EnvOf(m: Module, p: Plan.Planner, l: GlobalLayout): Env
  {
    Env(l.addrs, InitsByName(m.globals), p.tables.idMap, p.tables.blockMap, p.tables.localSize,
        FuncsByName(m.functions), AllBlocks(m.functions))
  }

  /** The rows printed for setup code `code` followed by the pieces `ps`. */
  function Output(code: string, ps: seq<Piece>): (h: Grid)
    ensures |h| >= |ps| + 1
  {
    LayPieces(SetupGrid([], code), ps)
  }

  /** Everything `run` produces, or the first error. */
  function Program(m: Module): Result<Grid>
  {
    match FilterInstructions(m)
    case Err(e) => Err(e)
    case Ok(fm) =>
      match Plan.PlanOf(fm)
      case Err(e) => Err(e)
      case Ok(p) =>
        match SetupGlobals(fm.globals, |fm.globals|)
        case Err(e) => Err(e)
        case Ok(l) =>
          match LowerFunctions(EnvOf(fm, p, l), p.tables.funcMap, fm.functions)
          case Err(e) => Err(e)
          case Ok(ps) => Ok(Output(SetupCode(p.entry, l.code), ps))
  }

  /** The output starts with the setup rows, whose last row turns the program counter down into the dispatch column. */
  lemma OutputStartsWithSetup(code: string, ps: seq<Piece>)
    ensures var s := SetupGrid([], code);
      var h := Output(code, ps);
      |h| >= |s| && h[..|s|] == s && At(h, 0, |s| - 1) == 'v' && At(h, 6, |s| - 1) == '<'
  {
    var s := SetupGrid([], code);
    var h := LayPieces(s, ps);
    SetupTurnsDown([], code);
    assert h[|s| - 1] == h[..|s|][|s| - 1];
  }

  // ---------------------------------------------------------------------------
  // `run`, as written

  /** `emitSetup`, given its code. */
  method EmitSetup(c: Canvas, code: string)
    modifies c
    ensures c.rows == SetupGrid(old(c.rows), code)
  {
    c.EmitCode(code, 0, false);
    c.EmitChar(6, |c.rows| - 1, '<');
    c.EmitChar(0, |c.rows| - 1, 'v');
  }

  /** The loop of `run` over the translated pieces: rows are printed as they are, segments through `emitBlock`. */
  method EmitPieces(c: Canvas, ps: seq<Piece>)
    modifies c
    ensures c.rows == LayPieces(old(c.rows), ps)
  {
    var i := 0;
    while i < |ps|
      invariant 0 <= i <= |ps|
      invariant c.rows == LayPieces(old(c.rows), ps[..i])
    {
      assert ps[..i + 1][..i] == ps[..i];
      match ps[i] {
        case Row(t) =>
          c.PushRow(t);
        case Segment(id, code) =>
          c.EmitBlock(code, id);
      }
      i := i + 1;
    }
    assert ps[..i] == ps;
  }

  /** `run`, then the rows `befunge()` hands back. */
  method Compile(m: Module) returns (r: Result<Grid>)
    ensures r == Program(m)
  {
    var fr := FilterInstructions(m);
    if fr.Err? {
      return Err(fr.error);
    }
    var fm := fr.value;
    var pr := Plan.AssignIds(fm);
    if pr.Err? {
      return Err(pr.error);
    }
    var p := pr.value;
    var gr := SetupGlobalVars(fm.globals);
    if gr.Err? {
      return Err(gr.error);
    }
    var l := gr.value;
    var c := new Canvas();
    EmitSetup(c, SetupCode(p.entry, l.code));
    var tr := TranslateFunctions(EnvOf(fm, p, l), p.tables.funcMap, fm.functions);
    if tr.Err? {
      return Err(tr.error);
    }
    EmitPieces(c, tr.value);
    r := Ok(c.rows);
  }
}
