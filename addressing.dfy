/**
 * Where the generated program keeps its data, and the token sequences that
 * reach it. Befunge memory is the two-dimensional program grid itself: a
 * linear address `a` is split by `make2D` into column `a % 9` (shifted right
 * by 9 for the MEM band, by 18 for the PHI band) and row `a / 9`, far below
 * the code. Three pointer registers live in the top-left cells of the grid.
 */
module Addressing {
  import opened Machine
  import opened Literals

  /** Region bases: frames of locals (and the PHI band), the alloca stack, globals and the heap. */
  const LocalPos: int := 52488   // 9^4 * 8
  const StackPos: int := 52488   // 9^4 * 8
  const GlobalPos: int := 354294 // 9^5 * 6
  const HeapPos: int := 472392   // 9^5 * 8

  /** The three column bands of data memory. */
  datatype MemType = Local | Mem | PhiMem

  /** The column offset of a band. */
  function Band(mt: MemType): nat
  {
    match mt
    case Local => 0
    case Mem => 9
    case PhiMem => 18
  }

  /** The cell that holds address `a` of band `mt`. */
  function CellOf(mt: MemType, a: int): Cell
  {
    (a % 9 + Band(mt), a / 9)
  }

  /** `make2D`: turn the address on top of the stack into the column and row `g` and `p` expect. */
  function Make2D(mt: MemType): string
  {
    ":9%" + (match mt case Mem => "9+" case PhiMem => "9+9+" case Local => "") + "\\9/"
  }

  /** The pointer registers: the alloca stack top, the heap top and the current frame base. */
  datatype Register = StackPointer | HeapPointer | LocalPointer

  /** The cell a register lives in: (0, 0), (1, 0) and (2, 0). */
  function RegisterCell(r: Register): Cell
  {
    match r
    case StackPointer => (0, 0)
    case HeapPointer => (1, 0)
    case LocalPointer => (2, 0)
  }

  function RegisterDigit(r: Register): char
  {
    match r
    case StackPointer => '0'
    case HeapPointer => '1'
    case LocalPointer => '2'
  }

  /** `getStackPointer`, `getHeapPointer`, `getLocalPointer`. */
  function GetRegister(r: Register): string
  {
    [RegisterDigit(r), '0', 'g']
  }

  /** `setStackPointer`, `setHeapPointer`, `setLocalPointer`. */
  function SetRegister(r: Register): string
  {
    [RegisterDigit(r), '0', 'p']
  }

  /** `addr`: LOCAL slots are relative to the frame base, the others are absolute from `LocalPos`. */
  function Addr(mt: MemType, id: int): string
  {
    if mt == Local then GetRegister(LocalPointer) + Literal(id) + "+"
    else Literal(LocalPos + id)
  }

  /** `get`: push the value of slot `id` of band `mt`. */
  function Get(mt: MemType, id: int): string
  {
    Addr(mt, id) + Make2D(mt) + "g"
  }

  /** `set`: pop a value into slot `id` of band `mt`. */
  function Set(mt: MemType, id: int): string
  {
    Addr(mt, id) + Make2D(mt) + "p"
  }

  /** The address `addr(mt, id)` computes in state `st`. */
  function AddressOf(mt: MemType, id: int, st: State): int
  {
    if mt == Local then Read(st.mem, RegisterCell(LocalPointer)) + id else LocalPos + id
  }

  // ---------------------------------------------------------------------------
  // Cells

  /** Distinct (band, non-negative address) pairs reach distinct cells, and the cell determines both. */
  lemma CellOfInjective(m1: MemType, a1: int, m2: MemType, a2: int)
    requires a1 >= 0 && a2 >= 0
    ensures CellOf(m1, a1) == CellOf(m2, a2) <==> m1 == m2 && a1 == a2
  {
    if CellOf(m1, a1) == CellOf(m2, a2) {
      assert Band(m1) == Band(m2);
      assert a1 == 9 * (a1 / 9) + a1 % 9;
      assert a2 == 9 * (a2 / 9) + a2 % 9;
    }
  }

  /** A band's column lies in [Band, Band + 9); an address from 9 on is below the register row. */
  lemma CellOfBounds(mt: MemType, a: int)
    requires a >= 0
    ensures Band(mt) <= CellOf(mt, a).0 < Band(mt) + 9
    ensures CellOf(mt, a).1 == a / 9
    ensures a >= 9 ==> CellOf(mt, a).1 >= 1
  {
  }

  /** No data address from 9 on is a register cell. */
  lemma DataIsNotARegister(mt: MemType, a: int, r: Register)
    requires a >= 9
    ensures CellOf(mt, a) != RegisterCell(r)
  {
  }

  /** The region bases, in address order: frames and the alloca stack, then globals, then the heap; all far below any register. */
  lemma RegionOrder()
    ensures 9 <= LocalPos == StackPos < GlobalPos < HeapPos
    ensures LocalPos / 9 == 5832 && GlobalPos / 9 == 39366 && HeapPos / 9 == 52488
  {
  }

  // ---------------------------------------------------------------------------
  // What the token sequences do

  lemma Make2DRunsLocal(st: State, a: int)
    requires !st.halted && a >= 0
    ensures Run(Make2D(Local), Push(st, a)) == Push(Push(st, a % 9), a / 9)
  {
    QuotRemNonNegative(a, 9);
    assert Make2D(Local) == ":9%" + "\\9/";
    RunAppend(":9%", "\\9/", Push(st, a));
    RunThree(':', '9', '%', Push(st, a));
    RunThree('\\', '9', '/', Push(Push(st, a), a % 9));
  }

  lemma Make2DRunsMem(st: State, a: int)
    requires !st.halted && a >= 0
    ensures Run(Make2D(Mem), Push(st, a)) == Push(Push(st, a % 9 + 9), a / 9)
  {
    QuotRemNonNegative(a, 9);
    assert Make2D(Mem) == ":9%" + "9+" + "\\9/";
    RunAppend3(":9%", "9+", "\\9/", Push(st, a));
    RunThree(':', '9', '%', Push(st, a));
    RunTwo('9', '+', Push(Push(st, a), a % 9));
    RunThree('\\', '9', '/', Push(Push(st, a), a % 9 + 9));
  }

  lemma Make2DRunsPhi(st: State, a: int)
    requires !st.halted && a >= 0
    ensures Run(Make2D(PhiMem), Push(st, a)) == Push(Push(st, a % 9 + 18), a / 9)
  {
    QuotRemNonNegative(a, 9);
    assert Make2D(PhiMem) == ":9%" + "9+9+" + "\\9/";
    RunAppend3(":9%", "9+9+", "\\9/", Push(st, a));
    RunThree(':', '9', '%', Push(st, a));
    RunAppend("9+", "9+", Push(Push(st, a), a % 9));
    RunTwo('9', '+', Push(Push(st, a), a % 9));
    RunTwo('9', '+', Push(Push(st, a), a % 9 + 9));
    RunThree('\\', '9', '/', Push(Push(st, a), a % 9 + 18));
  }

  /** `make2D` replaces a non-negative address with the column and row of its cell. */
  lemma Make2DRuns(mt: MemType, st: State, a: int)
    requires !st.halted && a >= 0
    ensures Run(Make2D(mt), Push(st, a)) == Push(Push(st, CellOf(mt, a).0), CellOf(mt, a).1)
  {
    match mt
    case Local => Make2DRunsLocal(st, a);
    case Mem => Make2DRunsMem(st, a);
    case PhiMem => Make2DRunsPhi(st, a);
  }

  /** Reading a register pushes its cell's value. */
  lemma GetRegisterRuns(r: Register, st: State)
    requires !st.halted
    ensures Run(GetRegister(r), st) == Push(st, Read(st.mem, RegisterCell(r)))
  {
    var d := RegisterDigit(r);
    RunThree(d, '0', 'g', st);
    DigitStep(d, st);
    DigitStep('0', Push(st, RegisterCell(r).0));
    GetStep(st, RegisterCell(r).0, 0);
  }

  /** Writing a register pops the value on top into its cell. */
  lemma SetRegisterRuns(r: Register, st: State, v: int)
    requires !st.halted
    ensures Run(SetRegister(r), Push(st, v)) == st.(mem := st.mem[RegisterCell(r) := v])
  {
    var d := RegisterDigit(r);
    RunThree(d, '0', 'p', Push(st, v));
    DigitStep(d, Push(st, v));
    DigitStep('0', Push(Push(st, v), RegisterCell(r).0));
    PutStep(st, v, RegisterCell(r).0, 0);
  }

  lemma AddrRunsLocal(id: int, st: State)
    requires !st.halted
    ensures Run(Addr(Local, id), st) == Push(st, AddressOf(Local, id, st))
  {
    var lp := Read(st.mem, RegisterCell(LocalPointer));
    GetRegisterRuns(LocalPointer, st);
    LiteralRuns(id, Push(st, lp));
    PlusRuns(st, lp, id);
    RunThen3(GetRegister(LocalPointer), Literal(id), "+", st, Push(st, lp), Push(Push(st, lp), id), Push(st, lp + id));
  }

  /** `addr` pushes the slot's address: frame base plus id for LOCAL, `LocalPos` plus id otherwise. */
  lemma AddrRuns(mt: MemType, id: int, st: State)
    requires !st.halted
    ensures Run(Addr(mt, id), st) == Push(st, AddressOf(mt, id, st))
  {
    if mt == Local {
      AddrRunsLocal(id, st);
    } else {
      LiteralRuns(LocalPos + id, st);
    }
  }

  /** `get` pushes exactly one value, the content of the slot's cell (net stack effect +1). */
  lemma GetRuns(mt: MemType, id: int, st: State)
    requires !st.halted && AddressOf(mt, id, st) >= 0
    ensures Run(Get(mt, id), st) == Push(st, Read(st.mem, CellOf(mt, AddressOf(mt, id, st))))
  {
    var a := AddressOf(mt, id, st);
    var c := CellOf(mt, a);
    RunAppend3(Addr(mt, id), Make2D(mt), "g", st);
    AddrRuns(mt, id, st);
    Make2DRuns(mt, st, a);
    RunOne('g', Push(Push(st, c.0), c.1));
    GetStep(st, c.0, c.1);
  }

  /** `set` pops exactly the value on top into the slot's cell (net stack effect -1) and changes nothing else. */
  lemma SetRuns(mt: MemType, id: int, st: State, v: int)
    requires !st.halted && AddressOf(mt, id, st) >= 0
    ensures Run(Set(mt, id), Push(st, v)) == st.(mem := st.mem[CellOf(mt, AddressOf(mt, id, st)) := v])
  {
    var a := AddressOf(mt, id, st);
    var c := CellOf(mt, a);
    var sv := Push(st, v);
    assert AddressOf(mt, id, sv) == a;
    RunAppend3(Addr(mt, id), Make2D(mt), "p", sv);
    AddrRuns(mt, id, sv);
    Make2DRuns(mt, sv, a);
    RunOne('p', Push(Push(sv, c.0), c.1));
    PutStep(st, v, c.0, c.1);
  }

  /** A slot reads back what was stored in it, as long as its address is outside the register row. */
  lemma SetThenGet(mt: MemType, id: int, st: State, v: int)
    requires !st.halted && AddressOf(mt, id, st) >= 9
    ensures var st' := Run(Set(mt, id), Push(st, v));
      AddressOf(mt, id, st') == AddressOf(mt, id, st) &&
      Run(Get(mt, id), st') == Push(st', v)
  {
    var a := AddressOf(mt, id, st);
    SetRuns(mt, id, st, v);
    var st' := st.(mem := st.mem[CellOf(mt, a) := v]);
    DataIsNotARegister(mt, a, LocalPointer);
    assert AddressOf(mt, id, st') == a;
    GetRuns(mt, id, st');
  }

  /** Storing into one slot leaves every other slot's cell as it was. */
  lemma SetKeepsOtherSlots(mt: MemType, id: int, st: State, v: int, mt2: MemType, a2: int)
    requires !st.halted && AddressOf(mt, id, st) >= 0 && a2 >= 0
    requires mt2 != mt || a2 != AddressOf(mt, id, st)
    ensures Read(Run(Set(mt, id), Push(st, v)).mem, CellOf(mt2, a2)) == Read(st.mem, CellOf(mt2, a2))
  {
    SetRuns(mt, id, st, v);
    CellOfInjective(mt, AddressOf(mt, id, st), mt2, a2);
  }
}
