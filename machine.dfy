/**
 * The part of the Befunge-93 machine that the generated code relies on, read
 * token by token: the data stack, the memory cells reached by `g` and `p`,
 * output and input. The backend's own two layout tokens are included: `S`
 * (select, laid out as a nine-character row construct) and `G` (read a
 * character, laid out as `#@~`). The two-dimensional travel of the
 * instruction pointer is not part of this reading, except for the row
 * semantics of the `S` construct at the end of this module.
 */
module Machine {

  /** A memory cell as `g` and `p` address it: (column, row). */
  type Cell = (int, int)

  /** The data stack, top first. */
  datatype Stack = Empty | Cons(top: int, below: Stack)

  datatype State = State(stack: Stack, mem: map<Cell, int>, out: seq<int>, inp: seq<int>, halted: bool)

  /** A cell nobody wrote holds a space. */
  function Read(mem: map<Cell, int>, c: Cell): int
  {
    if c in mem then mem[c] else 32
  }

  function Push(st: State, v: int): State
  {
    st.(stack := Cons(v, st.stack))
  }

  /** The top of the stack; an empty Befunge stack yields 0. */
  function Top(s: Stack): int
  {
    if s.Cons? then s.top else 0
  }

  /** The stack without its top; popping an empty stack leaves it empty. */
  function Pop(s: Stack): Stack
  {
    if s.Cons? then s.below else Empty
  }

  /** Integer division as the C interpreter computes it: truncated toward zero; a zero divisor yields 0. */
  function Quot(a: int, b: int): int
  {
    if b == 0 then 0
    else if (a >= 0) == (b > 0) then Abs(a) / Abs(b)
    else -(Abs(a) / Abs(b))
  }

  /** The remainder matching `Quot`: it takes the sign of the dividend. */
  function Rem(a: int, b: int): int
  {
    if b == 0 then 0 else a - b * Quot(a, b)
  }

  function Abs(a: int): nat
  {
    if a < 0 then -a else a
  }

  predicate IsDigit(c: char)
  {
    '0' <= c <= '9'
  }

  /** One token. `b` is the value under the top `a`. */
  function Step(c: char, st: State): State
  {
    if st.halted then st
    else
      var s := st.stack;
      var a := Top(s);
      var b := Top(Pop(s));
      var s2 := Pop(Pop(s));
      if IsDigit(c) then Push(st, c as int - '0' as int)
      else match c
        case '+' => st.(stack := Cons(b + a, s2))
        case '-' => st.(stack := Cons(b - a, s2))
        case '*' => st.(stack := Cons(b * a, s2))
        case '/' => st.(stack := Cons(Quot(b, a), s2))
        case '%' => st.(stack := Cons(Rem(b, a), s2))
        case '!' => st.(stack := Cons(if a == 0 then 1 else 0, Pop(s)))
        case '`' => st.(stack := Cons(if b > a then 1 else 0, s2))
        case ':' => st.(stack := Cons(a, Cons(a, Pop(s))))
        case '\\' => st.(stack := Cons(b, Cons(a, s2)))
        case '$' => st.(stack := Pop(s))
        case 'g' => st.(stack := Cons(Read(st.mem, (b, a)), s2))
        case 'p' => st.(stack := Pop(s2), mem := st.mem[(b, a) := Top(s2)])
        case ',' => st.(stack := Pop(s), out := st.out + [a])
        case 'S' => st.(stack := Cons(if a != 0 then b else Top(s2), Pop(s2)))
        case 'G' =>
          if st.inp == [] then Push(st, -1)
          else st.(stack := Cons(st.inp[0], s), inp := st.inp[1..])
        case '@' => st.(halted := true)
        case _ => st
  }

  /** The tokens of `code`, in order. */
  function Run(code: string, st: State): State
  {
    if code == [] then st else Run(code[1..], Step(code[0], st))
  }

  lemma {:induction false} RunAppend(a: string, b: string, st: State)
    ensures Run(a + b, st) == Run(b, Run(a, st))
  {
    if a != [] {
      assert (a + b)[1..] == a[1..] + b;
      RunAppend(a[1..], b, Step(a[0], st));
    } else {
      assert a + b == b;
    }
  }

  lemma RunAppend3(a: string, b: string, c: string, st: State)
    ensures Run(a + b + c, st) == Run(c, Run(b, Run(a, st)))
  {
    RunAppend(a + b, c, st);
    RunAppend(a, b, st);
  }

  /** Code that takes st to s1, followed by code that takes s1 to s2, takes st to s2. */
  lemma RunThen(a: string, b: string, st: State, s1: State, s2: State)
    requires Run(a, st) == s1 && Run(b, s1) == s2
    ensures Run(a + b, st) == s2
  {
    RunAppend(a, b, st);
  }

  /** Three pieces of code, each taking the state the one before it leaves. */
  lemma RunThen3(a: string, b: string, c: string, st: State, s1: State, s2: State, s3: State)
    requires Run(a, st) == s1 && Run(b, s1) == s2 && Run(c, s2) == s3
    ensures Run(a + b + c, st) == s3
  {
    RunThen(a, b, st, s1, s2);
    RunThen(a + b, c, st, s2, s3);
  }

  /** `+` replaces the two top values with their sum. */
  lemma PlusRuns(st: State, x: int, y: int)
    requires !st.halted
    ensures Run("+", Push(Push(st, x), y)) == Push(st, x + y)
  {
    RunOne('+', Push(Push(st, x), y));
    ArithStep('+', st, x, y);
  }

  /** `-` replaces the two top values x, y with x - y. */
  lemma MinusRuns(st: State, x: int, y: int)
    requires !st.halted
    ensures Run("-", Push(Push(st, x), y)) == Push(st, x - y)
  {
    RunOne('-', Push(Push(st, x), y));
    ArithStep('-', st, x, y);
  }

  /** `:` duplicates the top value. */
  lemma DupRuns(st: State, x: int)
    requires !st.halted
    ensures Run(":", Push(st, x)) == Push(Push(st, x), x)
  {
    RunOne(':', Push(st, x));
    DupStep(st, x);
  }

  /** Pushing commutes with replacing the memory. */
  lemma PushMem(st: State, x: int, m: map<Cell, int>)
    ensures Push(st, x).(mem := m) == Push(st.(mem := m), x)
  {
  }

  /** Running `code` from `st` ends in `s`. */
  predicate RunsTo(code: string, st: State, s: State)
  {
    Run(code, st) == s
  }

  /** Code `c` made of `a` then `b` leads where `b` leads from where `a` leads. */
  lemma RunsToThen(a: string, b: string, c: string, st: State, s1: State, s2: State)
    requires c == a + b && RunsTo(a, st, s1) && RunsTo(b, s1, s2)
    ensures RunsTo(c, st, s2)
  {
    RunThen(a, b, st, s1, s2);
  }

  /** Four pieces of code, each taking the state the one before it leaves. */
  lemma RunThen4(a: string, b: string, c: string, d: string, st: State, s1: State, s2: State, s3: State, s4: State)
    requires Run(a, st) == s1 && Run(b, s1) == s2 && Run(c, s2) == s3 && Run(d, s3) == s4
    ensures Run(a + b + c + d, st) == s4
  {
    RunThen3(a, b, c, st, s1, s2, s3);
    RunThen(a + b + c, d, st, s3, s4);
  }

  /** The same, with the second part written as a concatenation of its own. */
  lemma RunThenNested(a: string, b: string, c: string, st: State, s1: State, s2: State)
    requires Run(a + b, st) == s1 && Run(c, s1) == s2
    ensures Run(a + (b + c), st) == s2
  {
    assert a + (b + c) == (a + b) + c;
    RunAppend(a + b, c, st);
  }

  /**
   * Code that leaves f and t on top, then code that pushes c, then `S`:
   * t stays when c is non-zero, f otherwise.
   */
  lemma SelectAfter(ft: string, c: string, st: State, s: State, f: int, t: int, x: int)
    requires !s.halted
    requires Run(ft, st) == Push(Push(s, f), t)
    requires Run(c, Push(Push(s, f), t)) == Push(Push(Push(s, f), t), x)
    ensures Run(ft + c + "S", st) == Push(s, if x != 0 then t else f)
  {
    SelectStep(s, f, t, x);
    RunOne('S', Push(Push(Push(s, f), t), x));
    RunThen(ft, c, st, Push(Push(s, f), t), Push(Push(Push(s, f), t), x));
    RunThen(ft + c, "S", st, Push(Push(Push(s, f), t), x), Push(s, if x != 0 then t else f));
  }

  /** No code leaves the state as it is. */
  lemma RunEmpty(st: State)
    ensures Run("", st) == st
  {
  }

  lemma RunOne(c: char, st: State)
    ensures Run([c], st) == Step(c, st)
  {
  }

  lemma RunTwo(a: char, b: char, st: State)
    ensures Run([a, b], st) == Step(b, Step(a, st))
  {
    assert [a, b][1..] == [b];
    assert Run([a, b], st) == Run([b], Step(a, st));
    RunOne(b, Step(a, st));
  }

  lemma RunThree(a: char, b: char, c: char, st: State)
    ensures Run([a, b, c], st) == Step(c, Step(b, Step(a, st)))
  {
    assert [a, b, c][1..] == [b, c];
    assert Run([a, b, c], st) == Run([b, c], Step(a, st));
    RunTwo(b, c, Step(a, st));
  }

  /** `g` replaces the coordinates x, y on top with the value of cell (x, y). */
  lemma GetStep(st: State, x: int, y: int)
    requires !st.halted
    ensures Step('g', Push(Push(st, x), y)) == Push(st, Read(st.mem, (x, y)))
  {
  }

  /** `p` stores v, under the coordinates x, y, into cell (x, y) and pops all three. */
  lemma PutStep(st: State, v: int, x: int, y: int)
    requires !st.halted
    ensures Step('p', Push(Push(Push(st, v), x), y)) == st.(mem := st.mem[(x, y) := v])
  {
  }

  /** For a non-negative dividend and a positive divisor, truncating and Euclidean division agree. */
  lemma QuotRemNonNegative(a: int, b: int)
    requires a >= 0 && b > 0
    ensures Quot(a, b) == a / b && Rem(a, b) == a % b
  {
  }

  /** A digit pushes its value. */
  lemma DigitStep(c: char, st: State)
    requires IsDigit(c) && !st.halted
    ensures Step(c, st) == Push(st, c as int - '0' as int)
  {
  }

  /** `+`, `-` and `*` replace the two top values x, y with x + y, x - y, x * y. */
  lemma ArithStep(c: char, st: State, x: int, y: int)
    requires c in "+-*" && !st.halted
    ensures Step(c, Push(Push(st, x), y)) ==
            Push(st, if c == '+' then x + y else if c == '-' then x - y else x * y)
  {
  }

  /** `\\` exchanges the two top values. */
  lemma SwapStep(st: State, a: int, b: int)
    requires !st.halted
    ensures Step('\\', Push(Push(st, a), b)) == Push(Push(st, b), a)
  {
  }

  /** `S` on [f, t, c] keeps t when c is non-zero, f otherwise. */
  lemma SelectStep(st: State, f: int, t: int, c: int)
    requires !st.halted
    ensures Step('S', Push(Push(Push(st, f), t), c)) == Push(st, if c != 0 then t else f)
  {
  }

  /** `:` duplicates the top value. */
  lemma DupStep(st: State, x: int)
    requires !st.halted
    ensures Step(':', Push(st, x)) == Push(Push(st, x), x)
  {
  }

  /** `,` pops the top value and writes it as a character. */
  lemma OutStep(st: State, x: int)
    requires !st.halted
    ensures Step(',', Push(st, x)) == st.(out := st.out + [x])
  {
  }

  /** `G` (the `#@~` construct) pushes the next input character, or -1 at the end of the input. */
  lemma InStep(st: State)
    requires !st.halted
    ensures Step('G', st) == if st.inp == [] then Push(st, -1) else Push(st.(inp := st.inp[1..]), st.inp[0])
  {
  }

  /** `@` ends the program. */
  lemma HaltStep(st: State)
    ensures Step('@', st) == st.(halted := true)
  {
  }

  /** A halted machine ignores all further tokens. */
  lemma {:induction false} HaltedStaysHalted(code: string, st: State)
    requires st.halted
    ensures Run(code, st) == st
  {
    if code != [] {
      HaltedStaysHalted(code[1..], st);
    }
  }

  /** `code` pushes `v` and changes nothing else, whatever the state. */
  ghost predicate PushesValue(code: string, v: int)
  {
    forall st: State {:trigger Run(code, st)} :: !st.halted ==> Run(code, st) == Push(st, v)
  }

  // ---------------------------------------------------------------------------
  // The `S` construct on its row

  /** The instruction pointer while it travels along one row. */
  datatype Ip = Ip(pos: int, dir: int)

  /**
   * One move on a row: `>` and `<` set the direction, `_` pops and goes right
   * on zero and left otherwise, `#` jumps over the next cell; anything else is
   * a token as `Step` reads it.
   */
  function RowStep(row: string, ip: Ip, st: State): (Ip, State)
    requires 0 <= ip.pos < |row|
  {
    var c := row[ip.pos];
    if c == '>' then (Ip(ip.pos + 1, 1), st)
    else if c == '<' then (Ip(ip.pos - 1, -1), st)
    else if c == '_' then
      var d := if Top(st.stack) == 0 then 1 else -1;
      (Ip(ip.pos + d, d), st.(stack := Pop(st.stack)))
    else if c == '#' then (Ip(ip.pos + 2 * ip.dir, ip.dir), st)
    else (Ip(ip.pos + ip.dir, ip.dir), Step(c, st))
  }

  /** Travel along `row` until the pointer leaves it or `fuel` moves are spent. */
  function RowRun(row: string, ip: Ip, st: State, fuel: nat): (Ip, State)
    decreases fuel
  {
    if fuel == 0 || !(0 <= ip.pos < |row|) then (ip, st)
    else
      var (ip', st') := RowStep(row, ip, st);
      RowRun(row, ip', st', fuel - 1)
  }

  lemma RowAdvance(row: string, ip: Ip, st: State, fuel: nat, ip': Ip, st': State)
    requires 0 < fuel && 0 <= ip.pos < |row|
    requires RowStep(row, ip, st) == (ip', st')
    ensures RowRun(row, ip, st, fuel) == RowRun(row, ip', st', fuel - 1)
  {
  }

  /** The `S` construct written left to right, entered moving right. */
  const SelectRight: string := "> #0 #\\_$"
  /** The `S` construct as written while moving left, in writing order. */
  const SelectLeft: string := "<!#0 #\\_$"

  /** The cells the leftward construct occupies, read left to right. */
  const SelectLeftCells: string := "$_\\# 0#!<"

  function Reverse(s: string): (r: string)
    ensures |r| == |s|
  {
    if s == [] then [] else Reverse(s[1..]) + [s[0]]
  }

  /** Character i of the reversal is character i counted from the end. */
  lemma {:induction false} ReverseAt(s: string)
    ensures forall i :: 0 <= i < |s| ==> Reverse(s)[i] == s[|s| - 1 - i]
  {
    if s != [] {
      ReverseAt(s[1..]);
    }
  }

  /** Written from right to left, the leftward construct fills its cells in reverse. */
  lemma SelectLeftLaidOut()
    ensures Reverse(SelectLeft) == SelectLeftCells
  {
    var s := SelectLeft;
    assert Reverse(s[8..]) == "$" by { assert s[8..][1..] == []; }
    assert Reverse(s[7..]) == "$_" by { assert s[7..][1..] == s[8..]; }
    assert Reverse(s[6..]) == "$_\\" by { assert s[6..][1..] == s[7..]; }
    assert Reverse(s[5..]) == "$_\\#" by { assert s[5..][1..] == s[6..]; }
    assert Reverse(s[4..]) == "$_\\# " by { assert s[4..][1..] == s[5..]; }
    assert Reverse(s[3..]) == "$_\\# 0" by { assert s[3..][1..] == s[4..]; }
    assert Reverse(s[2..]) == "$_\\# 0#" by { assert s[2..][1..] == s[3..]; }
    assert Reverse(s[1..]) == "$_\\# 0#!" by { assert s[1..][1..] == s[2..]; }
    assert s[0..] == s;
  }

  /** Moving right from just inside the construct, the pointer reaches its `_` without touching the stack. */
  lemma SelectRightApproach(st: State, fuel: nat)
    requires 4 <= fuel
    ensures RowRun(SelectRight, Ip(1, 1), st, fuel) == RowRun(SelectRight, Ip(7, 1), st, fuel - 4)
  {
    var row := SelectRight;
    RowAdvance(row, Ip(1, 1), st, fuel, Ip(2, 1), st);
    RowAdvance(row, Ip(2, 1), st, fuel - 1, Ip(4, 1), st);
    RowAdvance(row, Ip(4, 1), st, fuel - 2, Ip(5, 1), st);
    RowAdvance(row, Ip(5, 1), st, fuel - 3, Ip(7, 1), st);
  }

  /** A zero on top at the `_` sends the pointer on to `$`, which drops the next value. */
  lemma SelectRightExit(st: State, v: int, fuel: nat)
    requires 2 <= fuel && !st.halted
    ensures RowRun(SelectRight, Ip(7, 1), Push(Push(st, v), 0), fuel) == (Ip(9, 1), st)
  {
    var row := SelectRight;
    RowAdvance(row, Ip(7, 1), Push(Push(st, v), 0), fuel, Ip(8, 1), Push(st, v));
    RowAdvance(row, Ip(8, 1), Push(st, v), fuel - 1, Ip(9, 1), st);
  }

  /** A non-zero condition at `_` turns back; the pointer swaps, pushes 0 and comes round to `_` again. */
  lemma SelectRightLoop(st: State, f: int, t: int, fuel: nat)
    requires 5 <= fuel && !st.halted
    ensures RowRun(SelectRight, Ip(6, -1), Push(Push(st, f), t), fuel) ==
            RowRun(SelectRight, Ip(1, 1), Push(Push(Push(st, t), f), 0), fuel - 5)
  {
    var row := SelectRight;
    var s1 := Push(Push(st, t), f);
    var s2 := Push(s1, 0);
    SwapStep(st, f, t);
    RowAdvance(row, Ip(6, -1), Push(Push(st, f), t), fuel, Ip(5, -1), s1);
    RowAdvance(row, Ip(5, -1), s1, fuel - 1, Ip(3, -1), s1);
    RowAdvance(row, Ip(3, -1), s1, fuel - 2, Ip(2, -1), s2);
    RowAdvance(row, Ip(2, -1), s2, fuel - 3, Ip(0, -1), s2);
    RowAdvance(row, Ip(0, -1), s2, fuel - 4, Ip(1, 1), s2);
  }

  /** A non-zero condition: the pointer turns at `_`, swaps, and leaves with t. */
  lemma SelectRightTaken(st: State, f: int, t: int, c: int)
    requires !st.halted && c != 0
    ensures RowRun(SelectRight, Ip(7, 1), Push(Push(Push(st, f), t), c), 15) == (Ip(9, 1), Push(st, t))
  {
    var s2 := Push(Push(Push(st, t), f), 0);
    RowAdvance(SelectRight, Ip(7, 1), Push(Push(Push(st, f), t), c), 15, Ip(6, -1), Push(Push(st, f), t));
    SelectRightLoop(st, f, t, 14);
    SelectRightApproach(s2, 9);
    SelectRightExit(Push(st, t), f, 5);
  }

  /** A zero condition: the pointer goes straight through and leaves with f. */
  lemma SelectRightNotTaken(st: State, f: int, t: int)
    requires !st.halted
    ensures RowRun(SelectRight, Ip(0, 1), Push(Push(Push(st, f), t), 0), 20) == (Ip(9, 1), Push(st, f))
  {
    var s0 := Push(Push(Push(st, f), t), 0);
    RowAdvance(SelectRight, Ip(0, 1), s0, 20, Ip(1, 1), s0);
    SelectRightApproach(s0, 19);
    SelectRightExit(Push(st, f), t, 15);
  }

  /**
   * Entered from the left on a stack ending in [f, t, c], the rightward `S`
   * construct leaves the row on its right with t on the stack when c is
   * non-zero and f otherwise: the meaning of the `S` token.
   */
  lemma SelectRightRow(st: State, f: int, t: int, c: int)
    requires !st.halted
    ensures RowRun(SelectRight, Ip(0, 1), Push(Push(Push(st, f), t), c), 20) ==
            (Ip(9, 1), Step('S', Push(Push(Push(st, f), t), c)))
  {
    var s0 := Push(Push(Push(st, f), t), c);
    SelectStep(st, f, t, c);
    if c == 0 {
      SelectRightNotTaken(st, f, t);
    } else {
      RowAdvance(SelectRight, Ip(0, 1), s0, 20, Ip(1, 1), s0);
      SelectRightApproach(s0, 19);
      SelectRightTaken(st, f, t, c);
    }
  }

  /** Moving left from the construct's entry: `!` negates the condition on the way to `_`. */
  lemma SelectLeftApproach(st: State, c: int, d: int, fuel: nat)
    requires 5 <= fuel && !st.halted
    ensures RowRun(SelectLeftCells, Ip(8, d), Push(st, c), fuel) ==
            RowRun(SelectLeftCells, Ip(1, -1), Push(st, if c == 0 then 1 else 0), fuel - 5)
  {
    var row := SelectLeftCells;
    var sn := Push(st, if c == 0 then 1 else 0);
    RowAdvance(row, Ip(8, d), Push(st, c), fuel, Ip(7, -1), Push(st, c));
    RowAdvance(row, Ip(7, -1), Push(st, c), fuel - 1, Ip(6, -1), sn);
    RowAdvance(row, Ip(6, -1), sn, fuel - 2, Ip(4, -1), sn);
    RowAdvance(row, Ip(4, -1), sn, fuel - 3, Ip(3, -1), sn);
    RowAdvance(row, Ip(3, -1), sn, fuel - 4, Ip(1, -1), sn);
  }

  /** A non-zero value at `_` lets the pointer go on to `$`, which drops the next value. */
  lemma SelectLeftExit(st: State, v: int, w: int, fuel: nat)
    requires 2 <= fuel && !st.halted && w != 0
    ensures RowRun(SelectLeftCells, Ip(1, -1), Push(Push(st, v), w), fuel) == (Ip(-1, -1), st)
  {
    var row := SelectLeftCells;
    RowAdvance(row, Ip(1, -1), Push(Push(st, v), w), fuel, Ip(0, -1), Push(st, v));
    RowAdvance(row, Ip(0, -1), Push(st, v), fuel - 1, Ip(-1, -1), st);
  }

  /** A zero at `_` turns back and the pointer swaps the two values under it. */
  lemma SelectLeftTurn(st: State, f: int, t: int, fuel: nat)
    requires 3 <= fuel && !st.halted
    ensures RowRun(SelectLeftCells, Ip(1, -1), Push(Push(Push(st, f), t), 0), fuel) ==
            RowRun(SelectLeftCells, Ip(5, 1), Push(Push(st, t), f), fuel - 3)
  {
    var row := SelectLeftCells;
    var s1 := Push(Push(st, t), f);
    SwapStep(st, f, t);
    RowAdvance(row, Ip(1, -1), Push(Push(Push(st, f), t), 0), fuel, Ip(2, 1), Push(Push(st, f), t));
    RowAdvance(row, Ip(2, 1), Push(Push(st, f), t), fuel - 1, Ip(3, 1), s1);
    RowAdvance(row, Ip(3, 1), s1, fuel - 2, Ip(5, 1), s1);
  }

  /** After the turn the pointer pushes 0 and comes round to `<` again. */
  lemma SelectLeftReturn(st: State, fuel: nat)
    requires 2 <= fuel && !st.halted
    ensures RowRun(SelectLeftCells, Ip(5, 1), st, fuel) ==
            RowRun(SelectLeftCells, Ip(8, 1), Push(st, 0), fuel - 2)
  {
    var row := SelectLeftCells;
    RowAdvance(row, Ip(5, 1), st, fuel, Ip(6, 1), Push(st, 0));
    RowAdvance(row, Ip(6, 1), Push(st, 0), fuel - 1, Ip(8, 1), Push(st, 0));
  }

  /**
   * The leftward construct occupies the row in reverse writing order; entered
   * from the right it leaves on the left with the same selection.
   */
  lemma SelectLeftRow(st: State, f: int, t: int, c: int)
    requires !st.halted
    ensures Reverse(SelectLeft) == SelectLeftCells
    ensures RowRun(SelectLeftCells, Ip(8, -1), Push(Push(Push(st, f), t), c), 20) ==
            (Ip(-1, -1), Step('S', Push(Push(Push(st, f), t), c)))
  {
    var sft := Push(Push(st, f), t);
    SelectLeftLaidOut();
    SelectStep(st, f, t, c);
    SelectLeftApproach(sft, c, -1, 20);
    if c == 0 {
      SelectLeftExit(Push(st, f), t, 1, 15);
    } else {
      var s1 := Push(Push(st, t), f);
      SelectLeftTurn(st, f, t, 15);
      SelectLeftReturn(s1, 12);
      SelectLeftApproach(s1, 0, 1, 10);
      SelectLeftExit(Push(st, t), f, 1, 5);
    }
  }
}
