/**
 * The two-dimensional layout: `emitChar`, `emitCode` and `emitBlock`.
 *
 * The program is a grid of rows. Columns 0-9 of every block hold the
 * dispatcher that compares the wanted block id with this block's; the code
 * of the block snakes through columns 10-78 from its first row down,
 * turning with a `v` and an arrow below it at either edge. The two
 * constructs that must not be split, `S` (the select gadget, 9 cells) and
 * `G` (getchar, 3 cells), make the pen turn early so that they fit on one
 * row. A block ends with a `v` down to its exit row, which holds `_1-`.
 */
module Layout {
  import opened Ir
  import opened Machine
  import opened Literals

  /** The program text, one string per row. */
  type Grid = seq<string>

  function Max(a: int, b: int): int
  {
    if a < b then b else a
  }

  /** What a Befunge-93 interpreter reads at (x, y): the character there, or a space outside the text. */
  function At(g: Grid, x: nat, y: nat): char
  {
    if y < |g| && x < |g[y]| then g[y][x] else ' '
  }

  /** `emitChar`: add empty rows until there is a row `y`, then put `c` in it at column `x`. */
  function Put(g: Grid, x: nat, y: nat, c: char): (h: Grid)
    ensures |h| == Max(|g|, y + 1)
    decreases y + 1 - |g|
  {
    if |g| < y + 1 then Put(g + [""], x, y, c) else g[y := Fill(g[y], x, c)]
  }

  /** Row `y` of `emitChar`: add spaces until there is a column `x`, then put `c` there. */
  function Fill(row: string, x: nat, c: char): (r: string)
    ensures |r| == Max(|row|, x + 1)
    decreases x + 1 - |row|
  {
    if |row| < x + 1 then Fill(row + [' '], x, c) else row[x := c]
  }

  /** The cell `Fill` writes reads `c`; every other cell reads as before, a space where the row was too short. */
  lemma {:induction false} FillCells(row: string, x: nat, c: char)
    ensures var r := Fill(row, x, c);
      r[x] == c && forall i :: 0 <= i < |r| && i != x ==> r[i] == (if i < |row| then row[i] else ' ')
    decreases x + 1 - |row|
  {
    if |row| < x + 1 {
      FillCells(row + [' '], x, c);
    }
  }

  /** After `emitChar(x, y, c)` the cell (x, y) reads `c` and every other cell reads as before; the grid has `max(rows, y + 1)` rows, row `y` is at least `x + 1` long and no other row changes. */
  lemma {:induction false} PutCells(g: Grid, x: nat, y: nat, c: char)
    ensures var h := Put(g, x, y, c);
      At(h, x, y) == c &&
      |h| == Max(|g|, y + 1) &&
      |h[y]| == Max(if y < |g| then |g[y]| else 0, x + 1) &&
      (forall j :: 0 <= j < |g| && j != y ==> h[j] == g[j]) &&
      (forall x', y' :: x' != x || y' != y ==> At(h, x', y') == At(g, x', y'))
    decreases y + 1 - |g|
  {
    if |g| < y + 1 {
      PutCells(g + [""], x, y, c);
    } else {
      FillCells(g[y], x, c);
    }
  }

  // ---------------------------------------------------------------------------
  // Writes

  /** One `emitChar`. */
  datatype Write = Write(x: nat, y: nat, c: char)

  /** The grid after a run of writes, in order. */
  function Apply(g: Grid, ws: seq<Write>): (h: Grid)
    ensures |h| >= |g|
    ensures ws != [] ==> ws[|ws| - 1].y < |h|
    decreases |ws|
  {
    if ws == [] then g
    else
      var w := ws[|ws| - 1];
      Put(Apply(g, ws[..|ws| - 1]), w.x, w.y, w.c)
  }

  /** What the last write to (x, y) put there, if any write did. */
  function LastWrite(ws: seq<Write>, x: nat, y: nat): Option<char>
    decreases |ws|
  {
    if ws == [] then None
    else if ws[|ws| - 1].x == x && ws[|ws| - 1].y == y then Some(ws[|ws| - 1].c)
    else LastWrite(ws[..|ws| - 1], x, y)
  }

  /** A cell reads what the last write to it put there; a cell no write touched reads as before. */
  lemma {:induction false} ApplyAt(g: Grid, ws: seq<Write>, x: nat, y: nat)
    ensures At(Apply(g, ws), x, y) == (if LastWrite(ws, x, y).Some? then LastWrite(ws, x, y).value else At(g, x, y))
    decreases |ws|
  {
    if ws != [] {
      var w := ws[|ws| - 1];
      ApplyAt(g, ws[..|ws| - 1], x, y);
      PutCells(Apply(g, ws[..|ws| - 1]), w.x, w.y, w.c);
    }
  }

  lemma ApplySnoc(g: Grid, ws: seq<Write>, w: Write)
    ensures Apply(g, ws + [w]) == Put(Apply(g, ws), w.x, w.y, w.c)
  {
    assert (ws + [w])[..|ws|] == ws;
  }

  lemma {:induction false} ApplyAppend(g: Grid, ws: seq<Write>, vs: seq<Write>)
    ensures Apply(g, ws + vs) == Apply(Apply(g, ws), vs)
    decreases |vs|
  {
    if vs == [] {
      assert ws + vs == ws;
    } else {
      var v := vs[|vs| - 1];
      assert ws + vs == (ws + vs[..|vs| - 1]) + [v];
      ApplySnoc(g, ws + vs[..|vs| - 1], v);
      ApplyAppend(g, ws, vs[..|vs| - 1]);
      ApplySnoc(Apply(g, ws), vs[..|vs| - 1], v);
    }
  }

  /** Writes in columns `lo` to `hi`. */
  predicate InColumns(ws: seq<Write>, lo: int, hi: int)
  {
    forall i :: 0 <= i < |ws| ==> lo <= ws[i].x <= hi
  }

  /** Writes in rows `top` to `bottom`. */
  predicate InRows(ws: seq<Write>, top: int, bottom: int)
  {
    forall i :: 0 <= i < |ws| ==> top <= ws[i].y <= bottom
  }

  /** Writes in rows from `top` down, each in the code columns or in a row from `free` down. */
  predicate Confined(ws: seq<Write>, top: int, free: int)
  {
    forall i :: 0 <= i < |ws| ==> top <= ws[i].y && ((CodeLeft <= ws[i].x <= CodeRight) || free <= ws[i].y)
  }

  /** Writes to rows from `k` down leave the rows above `k` exactly as they were. */
  lemma {:induction false} ApplyBelow(g: Grid, ws: seq<Write>, k: nat)
    requires k <= |g|
    requires forall i :: 0 <= i < |ws| ==> k <= ws[i].y
    ensures |Apply(g, ws)| >= k && Apply(g, ws)[..k] == g[..k]
    decreases |ws|
  {
    if ws != [] {
      var w := ws[|ws| - 1];
      var h := Apply(g, ws[..|ws| - 1]);
      ApplyBelow(g, ws[..|ws| - 1], k);
      PutCells(h, w.x, w.y, w.c);
      assert forall j :: 0 <= j < k ==> Put(h, w.x, w.y, w.c)[j] == h[j];
    }
  }

  // ---------------------------------------------------------------------------
  // The pen of `emitCode`

  /** The pen: column, row and direction (1 right, -1 left). */
  datatype Pen = Pen(x: int, y: int, dx: int)

  /** What a piece of the walk writes and where it leaves the pen. */
  datatype Stroke = Stroke(ws: seq<Write>, pen: Pen)

  const CodeLeft := 10
  const CodeRight := 78
  /** `kMargin`: the columns an `S` or `G` construct needs ahead of it. */
  const Margin := 19

  /** The pen is in the code columns, heading left or right. */
  predicate InCode(p: Pen)
  {
    CodeLeft <= p.x <= CodeRight && (p.dx == 1 || p.dx == -1) && 0 <= p.y
  }

  /** The arrow that sends the program counter in direction `dx`. */
  function Arrow(dx: int): char
  {
    if dx == 1 then '>' else '<'
  }

  /** A U-turn: `v` at the pen and, below it, the arrow for the opposite direction; the pen goes on from the row below, one column back. */
  function Turn(p: Pen): Stroke
    requires InCode(p)
  {
    Stroke([Write(p.x, p.y, 'v'), Write(p.x, p.y + 1, Arrow(-p.dx))], Pen(p.x - p.dx, p.y + 1, -p.dx))
  }

  /** A turn sends the program counter down from the pen and, from the cell below, the way the pen now heads; the pen's next cell is the one that arrow points to. */
  lemma TurnRedirects(p: Pen)
    requires InCode(p)
    ensures var t := Turn(p);
      |t.ws| == 2 && t.ws[0] == Write(p.x, p.y, 'v') &&
      t.ws[1].x == p.x && t.ws[1].y == p.y + 1 &&
      t.pen.dx == -p.dx && t.ws[1].c == Arrow(t.pen.dx) &&
      t.pen.y == t.ws[1].y && t.pen.x == t.ws[1].x + t.pen.dx
  {
  }

  /** The column `i` cells ahead of the pen. */
  function Col(p: Pen, i: int): int
  {
    if p.dx == 1 then p.x + i else p.x - i
  }

  /** Writing `s` from the pen along its row, one column per character. */
  function Line(s: string, p: Pen): (l: Stroke)
    requires InCode(p) && |s| <= p.x
    ensures l.pen == p.(x := Col(p, |s|))
    ensures |l.ws| == |s|
    decreases |s|
  {
    if s == [] then Stroke([], p)
    else
      var l := Line(s[..|s| - 1], p);
      Stroke(l.ws + [Write(l.pen.x, p.y, s[|s| - 1])], l.pen.(x := l.pen.x + p.dx))
  }

  /** The `i`-th character of the line is on the pen's row, `i` columns ahead of the pen. */
  lemma {:induction false} LineCells(s: string, p: Pen)
    requires InCode(p) && |s| <= p.x
    ensures forall i :: 0 <= i < |s| ==> Line(s, p).ws[i] == Write(Col(p, i), p.y, s[i])
    decreases |s|
  {
    if s != [] {
      LineCells(s[..|s| - 1], p);
    }
  }

  /** The cells of an `S` (`> #0 #\_$` heading right, `<!#0 #\_$` heading left) or a `G` (`#@~`). */
  function Construct(c: char, dx: int): string
  {
    if c == 'S' then (if dx > 0 then "> #0 #\\_$" else "<!#0 #\\_$") else "#@~"
  }

  /** Before a construct: turn when the pen heads right past column `78 - kMargin`, or left before column `10 + kMargin`. */
  function MakeRoom(p: Pen): Stroke
    requires InCode(p)
  {
    var a := if p.x > CodeRight - Margin && p.dx == 1 then Turn(p) else Stroke([], p);
    var b := if a.pen.x < CodeLeft + Margin && a.pen.dx == -1 then Turn(a.pen) else Stroke([], a.pen);
    Stroke(a.ws + b.ws, b.pen)
  }

  /** Before any other character: turn at the edge the pen is heading for. */
  function AtEdge(p: Pen): Stroke
    requires InCode(p)
  {
    if p.x == CodeRight && p.dx == 1 then Turn(p)
    else if p.x == CodeLeft && p.dx == -1 then Turn(p)
    else Stroke([], p)
  }

  function IsConstruct(c: char): bool
  {
    c == 'S' || c == 'G'
  }

  /** One character of the code: a construct after making room for it, or a single cell after turning at an edge. */
  function Token(c: char, p: Pen): (t: Stroke)
    requires InCode(p)
    ensures InCode(t.pen) && p.y <= t.pen.y
    ensures InColumns(t.ws, CodeLeft, CodeRight) && InRows(t.ws, p.y, t.pen.y)
    ensures |t.ws| >= 1
  {
    if IsConstruct(c) then
      var r := MakeRoom(p);
      var l := Line(Construct(c, r.pen.dx), r.pen);
      LineCells(Construct(c, r.pen.dx), r.pen);
      Stroke(r.ws + l.ws, l.pen)
    else
      var e := AtEdge(p);
      Stroke(e.ws + [Write(e.pen.x, e.pen.y, c)], e.pen.(x := e.pen.x + e.pen.dx))
  }

  /** The loop of `emitCode`: every character in turn. */
  function Walk(code: string, p: Pen): (s: Stroke)
    requires InCode(p)
    ensures InCode(s.pen) && p.y <= s.pen.y
    ensures InColumns(s.ws, CodeLeft, CodeRight) && InRows(s.ws, p.y, s.pen.y)
    ensures |s.ws| >= |code|
    decreases |code|
  {
    if code == [] then Stroke([], p)
    else
      var s := Walk(code[..|code| - 1], p);
      var t := Token(code[|code| - 1], s.pen);
      Stroke(s.ws + t.ws, t.pen)
  }

  /** `S` and `G` are never split: the construct's cells are the last writes of its token, side by side on one row inside the code columns. */
  lemma ConstructUnbroken(c: char, p: Pen)
    requires InCode(p) && IsConstruct(c)
    ensures var t := Token(c, p);
      var r := MakeRoom(p).pen;
      var s := Construct(c, r.dx);
      |s| <= |t.ws| &&
      forall i :: 0 <= i < |s| ==>
        t.ws[|t.ws| - |s| + i] == Write(Col(r, i), r.y, s[i]) &&
        CodeLeft <= Col(r, i) <= CodeRight
  {
    var m := MakeRoom(p);
    RoomMade(p);
    var s := Construct(c, m.pen.dx);
    var l := Line(s, m.pen);
    LineCells(s, m.pen);
    var ws := m.ws + l.ws;
    assert Token(c, p).ws == ws;
    forall i | 0 <= i < |s|
      ensures ws[|ws| - |s| + i] == Write(Col(m.pen, i), m.pen.y, s[i])
      ensures CodeLeft <= Col(m.pen, i) <= CodeRight
    {
      assert ws[|ws| - |s| + i] == l.ws[i];
    }
  }

  /** The pen makes room only by turning: heading right it is then at most at column `78 - kMargin`, heading left at least at `10 + kMargin`; it stays on its row exactly when it does not turn. */
  lemma RoomMade(p: Pen)
    requires InCode(p)
    ensures var r := MakeRoom(p);
      InCode(r.pen) &&
      (r.pen.dx == 1 ==> r.pen.x <= CodeRight - Margin) &&
      (r.pen.dx == -1 ==> r.pen.x >= CodeLeft + Margin) &&
      (r.pen.y == p.y <==> r.ws == [])
  {
  }

  // ---------------------------------------------------------------------------
  // The end of `emitCode`

  /** The row of a block's exit: below the last code row, and at least two rows below the first. */
  function ExitRow(p: Pen, oy: nat): int
  {
    Max((if p.x > 75 && p.dx > 0 then p.y + 1 else p.y) + 1, oy + 2)
  }

  /** Leaving a block from right of column 75 heading right: a `v` and a `<` below it. */
  function ExitTurn(p: Pen): seq<Write>
    requires InCode(p)
  {
    if p.x > 75 && p.dx > 0 then [Write(p.x, p.y, 'v'), Write(p.x, p.y + 1, '<')] else []
  }

  /** A `v` at (x, y) down to the exit row, at least two rows below the block's first row `oy`, which gets `_1-` from column `x`. */
  function Drop(x: nat, y: nat, oy: nat): seq<Write>
  {
    var y2 := Max(y + 1, oy + 2);
    [Write(x, y, 'v'), Write(x, y2, '_'), Write(x + 1, y2, '1'), Write(x + 2, y2, '-')]
  }

  /** From column 75 at most, down to the exit row. */
  function ExitDown(p: Pen, oy: nat): seq<Write>
    requires InCode(p)
  {
    Drop(if p.x > 75 then 75 else p.x, if p.x > 75 && p.dx > 0 then p.y + 1 else p.y, oy)
  }

  /** The way out of a block. */
  function ExitPath(p: Pen, oy: nat): (e: seq<Write>)
    requires InCode(p)
    ensures |e| >= 4
  {
    ExitTurn(p) + ExitDown(p, oy)
  }

  /** When a block is taller than its dispatcher, its last row gets `v` in column 0 and `^` in column 9. */
  function Marks(n: nat, oy: nat): seq<Write>
    requires n > 0
  {
    if oy + 3 != n then [Write(0, n - 1, 'v'), Write(9, n - 1, '^')] else []
  }

  /** The end of a block, written onto grid `g`. */
  function BlockExit(g: Grid, p: Pen, oy: nat): seq<Write>
    requires InCode(p)
  {
    var e := ExitPath(p, oy);
    e + Marks(|Apply(g, e)|, oy)
  }

  /** The end of straight-line code: a pen heading right turns back to the left. */
  function CodeEnd(p: Pen): seq<Write>
    requires InCode(p)
  {
    if p.dx > 0 then Turn(p).ws else []
  }

  /** The pen of `emitCode` starts at column 10 of row `oy`, heading right. */
  function Start(oy: nat): Pen
  {
    Pen(CodeLeft, oy, 1)
  }

  /** Everything `emitCode` writes onto grid `g`. */
  function CodeWrites(g: Grid, code: string, oy: nat, isBlock: bool): (ws: seq<Write>)
    ensures ws != []
  {
    var s := Walk(code, Start(oy));
    s.ws + (if isBlock then BlockExit(Apply(g, s.ws), s.pen, oy) else CodeEnd(s.pen))
  }

  /** The three rows of a block's dispatcher. */
  const Dispatcher: seq<string> := [">:#v_ >$", "v-1<>  1+^", "v   ^_^#:<"]

  /** The code `emitBlock` lays out: the block's code, then the test of the wanted id against the block's own. */
  function BlockCode(code: string, id: int): string
  {
    code + Literal(id) + "-:0`!"
  }

  /** The rows of `emitBlock`: the dispatcher, then the block's code from the dispatcher's first row. */
  function EmitBlockGrid(g: Grid, code: string, id: int): Grid
  {
    var d := g + Dispatcher;
    Apply(d, CodeWrites(d, BlockCode(code, id), |g|, true))
  }

  // ---------------------------------------------------------------------------
  // What the layout guarantees

  /** A block's exit row holds `_1-` and lies at least two rows below its first row and below every other row the block's code and exit path use. */
  lemma ExitRowBelow(code: string, oy: nat)
    ensures var s := Walk(code, Start(oy));
      var e := ExitPath(s.pen, oy);
      var n := |e|;
      var y := ExitRow(s.pen, oy);
      e[n - 3].c == '_' && e[n - 3].y == y &&
      e[n - 2] == Write(e[n - 3].x + 1, y, '1') && e[n - 1] == Write(e[n - 3].x + 2, y, '-') &&
      y >= oy + 2 &&
      (forall i :: 0 <= i < |s.ws| ==> s.ws[i].y < y) &&
      (forall i :: 0 <= i < n - 3 ==> e[i].y < y)
  {
  }

  lemma ExitPathConfined(p: Pen, oy: nat)
    requires InCode(p) && oy <= p.y
    ensures Confined(ExitPath(p, oy), oy, oy + 3)
  {
  }

  /** A block's writes keep to its own rows, and outside the code columns only to rows below its dispatcher. */
  lemma BlockWritesConfined(g: Grid, code: string, oy: nat)
    requires oy + 3 <= |g|
    ensures Confined(CodeWrites(g, code, oy, true), oy, oy + 3)
  {
    var s := Walk(code, Start(oy));
    var h := Apply(g, s.ws);
    var e := ExitPath(s.pen, oy);
    ExitPathConfined(s.pen, oy);
    var n := |Apply(h, e)|;
    assert Confined(Marks(n, oy), oy, oy + 3);
    assert Confined(s.ws, oy, oy + 3);
    ConfinedAppend(e, Marks(n, oy), oy, oy + 3);
    ConfinedAppend(s.ws, e + Marks(n, oy), oy, oy + 3);
    assert CodeWrites(g, code, oy, true) == s.ws + (e + Marks(n, oy));
  }

  lemma ConfinedAppend(a: seq<Write>, b: seq<Write>, top: int, free: int)
    requires Confined(a, top, free) && Confined(b, top, free)
    ensures Confined(a + b, top, free)
  {
    forall i | 0 <= i < |a + b|
      ensures top <= (a + b)[i].y && ((CodeLeft <= (a + b)[i].x <= CodeRight) || free <= (a + b)[i].y)
    {
      if i >= |a| {
        assert (a + b)[i] == b[i - |a|];
      }
    }
  }

  /** Confined writes leave the cells left of the code columns in rows `top` up to `free` as they were. */
  lemma {:induction false} ConfinedKeeps(g: Grid, ws: seq<Write>, top: int, free: int, x: nat, y: nat)
    requires Confined(ws, top, free)
    requires x < CodeLeft && top <= y < free
    ensures At(Apply(g, ws), x, y) == At(g, x, y)
    decreases |ws|
  {
    if ws != [] {
      var w := ws[|ws| - 1];
      assert Confined(ws[..|ws| - 1], top, free);
      ConfinedKeeps(g, ws[..|ws| - 1], top, free, x, y);
      PutCells(Apply(g, ws[..|ws| - 1]), w.x, w.y, w.c);
    }
  }

  /** `emitBlock` leaves every earlier row as it was, and the dispatcher's cells in columns 0-9 as written. */
  /** Columns 0-9 of rows `top` to `top + 2` hold the dispatcher. */
  predicate DispatcherAt(h: Grid, top: nat)
  {
    |h| >= top + 3 &&
    forall x: nat, j :: x < CodeLeft && 0 <= j < 3 ==> At(h, x, top + j) == At(Dispatcher, x, j)
  }

  /** Rows added below a dispatcher, with the rows above kept, keep it. */
  lemma DispatcherStays(a: Grid, h: Grid, top: nat)
    requires DispatcherAt(a, top) && |h| >= |a| && h[..|a|] == a
    ensures DispatcherAt(h, top)
  {
    forall x: nat, j | x < CodeLeft && 0 <= j < 3
      ensures At(h, x, top + j) == At(Dispatcher, x, j)
    {
      assert h[top + j] == h[..|a|][top + j];
    }
  }

  lemma BlockKeepsDispatcher(g: Grid, code: string, id: int)
    ensures var h := EmitBlockGrid(g, code, id);
      |h| >= |g| + 3 && h[..|g|] == g && DispatcherAt(h, |g|)
  {
    var d := g + Dispatcher;
    var ws := CodeWrites(d, BlockCode(code, id), |g|, true);
    var h := Apply(d, ws);
    assert h == EmitBlockGrid(g, code, id);
    BlockWritesConfined(d, BlockCode(code, id), |g|);
    ApplyBelow(d, ws, |g|);
    assert d[..|g|] == g;
    forall x: nat, j | x < CodeLeft && 0 <= j < 3
      ensures At(h, x, |g| + j) == At(Dispatcher, x, j)
    {
      DispatcherCell(g, ws, x, j);
    }
  }

  lemma DispatcherCell(g: Grid, ws: seq<Write>, x: nat, j: nat)
    requires Confined(ws, |g|, |g| + 3)
    requires x < CodeLeft && j < 3
    ensures At(Apply(g + Dispatcher, ws), x, |g| + j) == At(Dispatcher, x, j)
  {
    ConfinedKeeps(g + Dispatcher, ws, |g|, |g| + 3, x, |g| + j);
    assert (g + Dispatcher)[|g| + j] == Dispatcher[j];
  }

  /** The dispatch test: with the wanted block id on the stack, the code after a block leaves the difference and, above it, whether it is not positive, the flag the dispatcher's `_` branches on. */
  lemma DispatchTestRuns(id: int, st: State)
    requires !st.halted
    ensures var d := Top(st.stack) - id;
      RunsTo(BlockCode("", id), st, st.(stack := Cons(if d > 0 then 0 else 1, Cons(d, Pop(st.stack)))))
  {
    var d := Top(st.stack) - id;
    var rest := Pop(st.stack);
    LiteralRuns(id, st);
    var s1 := Push(st, id);
    var t1 := st.(stack := Cons(d, rest));
    var t2 := st.(stack := Cons(d, Cons(d, rest)));
    var t3 := st.(stack := Cons(0, Cons(d, Cons(d, rest))));
    var t4 := st.(stack := Cons(if d > 0 then 1 else 0, Cons(d, rest)));
    var t5 := st.(stack := Cons(if d > 0 then 0 else 1, Cons(d, rest)));
    assert Step('-', s1) == t1;
    assert Step(':', t1) == t2;
    assert Step('0', t2) == t3;
    assert Step('`', t3) == t4;
    assert Step('!', t4) == t5;
    assert Run("!", t4) == t5;
    assert Run("`!", t3) == t5;
    assert Run("0`!", t2) == t5;
    assert Run(":0`!", t1) == t5;
    assert Run("-:0`!", s1) == t5;
    assert BlockCode("", id) == Literal(id) + "-:0`!";
    RunsToThen(Literal(id), "-:0`!", BlockCode("", id), st, s1, t5);
  }

  // ---------------------------------------------------------------------------
  // The grid, updated in place

  /** The output rows (`bef_`). */
  class Canvas {
    var rows: Grid

    constructor ()
      ensures rows == []
    {
      rows := [];
    }

    /** `push_back`: a new row of text at the bottom. */
    method PushRow(text: string)
      modifies this
      ensures rows == old(rows) + [text]
    {
      rows := rows + [text];
    }

    /** `emitChar`. */
    method EmitChar(x: nat, y: nat, c: char)
      modifies this
      ensures rows == Put(old(rows), x, y, c)
    {
      while |rows| < y + 1
        invariant Put(rows, x, y, c) == Put(old(rows), x, y, c)
        decreases y + 1 - |rows|
      {
        rows := rows + [""];
      }
      var row := rows[y];
      while |row| < x + 1
        invariant Fill(row, x, c) == Fill(rows[y], x, c)
        decreases x + 1 - |row|
      {
        row := row + [' '];
      }
      rows := rows[y := row[x := c]];
    }

    /** A U-turn of the pen, as written out four times in `emitCode`. */
    method TurnPen(x: int, y: int, dx: int) returns (x': int, y': int, dx': int)
      requires InCode(Pen(x, y, dx))
      modifies this
      ensures rows == Apply(old(rows), Turn(Pen(x, y, dx)).ws)
      ensures Pen(x', y', dx') == Turn(Pen(x, y, dx)).pen
    {
      ghost var t := Turn(Pen(x, y, dx));
      EmitChar(x, y, 'v');
      EmitChar(x, y + 1, if dx == 1 then '<' else '>');
      assert t.ws == [t.ws[0]] + [t.ws[1]];
      ApplySnoc(old(rows), [t.ws[0]], t.ws[1]);
      ApplySnoc(old(rows), [], t.ws[0]);
      x', y', dx' := x - dx, y + 1, -dx;
    }

    /** The turns that make room for a construct. */
    method MakeRoomPen(x: int, y: int, dx: int) returns (x': int, y': int, dx': int)
      requires InCode(Pen(x, y, dx))
      modifies this
      ensures rows == Apply(old(rows), MakeRoom(Pen(x, y, dx)).ws)
      ensures Pen(x', y', dx') == MakeRoom(Pen(x, y, dx)).pen
    {
      ghost var p := Pen(x, y, dx);
      ghost var a := if x > CodeRight - Margin && dx == 1 then Turn(p) else Stroke([], p);
      x', y', dx' := x, y, dx;
      if x' > CodeRight - Margin && dx' == 1 {
        x', y', dx' := TurnPen(x', y', dx');
      }
      ghost var p1 := Pen(x', y', dx');
      if x' < CodeLeft + Margin && dx' == -1 {
        x', y', dx' := TurnPen(x', y', dx');
        ApplyAppend(old(rows), a.ws, Turn(p1).ws);
      } else {
        assert a.ws + [] == a.ws;
      }
    }

    /** The cells of a construct, one column after another along the pen's row. */
    method EmitLine(s: string, x: int, y: int, dx: int) returns (x': int)
      requires InCode(Pen(x, y, dx)) && |s| <= x
      modifies this
      ensures rows == Apply(old(rows), Line(s, Pen(x, y, dx)).ws)
      ensures x' == Col(Pen(x, y, dx), |s|)
    {
      ghost var p := Pen(x, y, dx);
      x' := x;
      var j := 0;
      while j < |s|
        invariant 0 <= j <= |s|
        invariant x' == Col(p, j)
        invariant rows == Apply(old(rows), Line(s[..j], p).ws)
      {
        assert s[..j + 1][..j] == s[..j];
        EmitChar(x', y, s[j]);
        ApplySnoc(old(rows), Line(s[..j], p).ws, Write(x', y, s[j]));
        x' := x' + dx;
        j := j + 1;
      }
      assert s[..j] == s;
    }

    /** Before a plain character, `emitCode` turns the pen down a row when it stands on an edge column. */
    method EdgePen(x: int, y: int, dx: int) returns (x': int, y': int, dx': int)
      requires InCode(Pen(x, y, dx))
      modifies this
      ensures rows == Apply(old(rows), AtEdge(Pen(x, y, dx)).ws)
      ensures Pen(x', y', dx') == AtEdge(Pen(x, y, dx)).pen
    {
      x', y', dx' := x, y, dx;
      if x' == CodeRight && dx' == 1 {
        x', y', dx' := TurnPen(x', y', dx');
      } else if x' == CodeLeft && dx' == -1 {
        x', y', dx' := TurnPen(x', y', dx');
      }
    }

    /** One pass of the loop of `emitCode`. */
    method EmitToken(c: char, x: int, y: int, dx: int) returns (x': int, y': int, dx': int)
      requires InCode(Pen(x, y, dx))
      modifies this
      ensures rows == Apply(old(rows), Token(c, Pen(x, y, dx)).ws)
      ensures Pen(x', y', dx') == Token(c, Pen(x, y, dx)).pen
    {
      ghost var p := Pen(x, y, dx);
      if IsConstruct(c) {
        ghost var m := MakeRoom(p);
        RoomMade(p);
        x', y', dx' := MakeRoomPen(x, y, dx);
        var code := Construct(c, dx');
        x' := EmitLine(code, x', y', dx');
        ApplyAppend(old(rows), m.ws, Line(code, m.pen).ws);
      } else {
        ghost var e := AtEdge(p);
        x', y', dx' := EdgePen(x, y, dx);
        EmitChar(x', y', c);
        ApplySnoc(old(rows), e.ws, Write(x', y', c));
        x' := x' + dx';
      }
    }

    /** `emitCode`: the code from column 10 of row `oy`, then the block's exit or the closing turn. */
    method EmitCode(code: string, oy: nat, isBlock: bool)
      modifies this
      ensures rows == Apply(old(rows), CodeWrites(old(rows), code, oy, isBlock))
    {
      var x, y, dx := CodeLeft, oy, 1;
      ghost var ws: seq<Write> := [];
      var i := 0;
      while i < |code|
        invariant 0 <= i <= |code|
        invariant Walk(code[..i], Start(oy)) == Stroke(ws, Pen(x, y, dx))
        invariant rows == Apply(old(rows), ws)
      {
        assert code[..i + 1][..i] == code[..i];
        ghost var g := rows;
        ghost var t := Token(code[i], Pen(x, y, dx));
        x, y, dx := EmitToken(code[i], x, y, dx);
        ApplyAppend(old(rows), ws, t.ws);
        ws := ws + t.ws;
        i := i + 1;
      }
      assert code[..i] == code;
      ghost var s := Walk(code, Start(oy));
      ghost var g := rows;
      if isBlock {
        EmitExit(x, y, dx, oy);
        ApplyAppend(old(rows), s.ws, BlockExit(g, s.pen, oy));
      } else {
        if dx > 0 {
          x, y, dx := TurnPen(x, y, dx);
        }
        ApplyAppend(old(rows), s.ws, CodeEnd(s.pen));
      }
    }

    /** The way out of a block, as `emitCode` writes it. */
    method EmitExitPath(x0: int, y0: int, dx: int, oy: nat)
      requires InCode(Pen(x0, y0, dx))
      modifies this
      ensures rows == Apply(old(rows), ExitPath(Pen(x0, y0, dx), oy))
    {
      ghost var p := Pen(x0, y0, dx);
      var x, y := x0, y0;
      if x > 75 {
        if dx > 0 {
          EmitChar(x, y, 'v');
          EmitChar(x, y + 1, '<');
          ApplySnoc(old(rows), [Write(x, y, 'v')], Write(x, y + 1, '<'));
          ApplySnoc(old(rows), [], Write(x, y, 'v'));
          assert [Write(x, y, 'v')] + [Write(x, y + 1, '<')] == ExitTurn(p);
          y := y + 1;
        }
        x := 75;
      }
      ghost var g := rows;
      EmitDrop(x, y, oy);
      ApplyAppend(old(rows), ExitTurn(p), Drop(x, y, oy));
    }

    /** The `v` down to the exit row and the `_1-` there. */
    method EmitDrop(x: nat, y0: nat, oy: nat)
      modifies this
      ensures rows == Apply(old(rows), Drop(x, y0, oy))
    {
      var y := y0;
      ghost var w0 := Write(x, y, 'v');
      EmitChar(x, y, 'v');
      ApplySnoc(old(rows), [], w0);
      assert [] + [w0] == [w0];
      y := Max(y + 1, oy + 2);
      ghost var w1 := Write(x, y, '_');
      EmitChar(x, y, '_');
      ApplySnoc(old(rows), [w0], w1);
      assert [w0] + [w1] == [w0, w1];
      ghost var w2 := Write(x + 1, y, '1');
      EmitChar(x + 1, y, '1');
      ApplySnoc(old(rows), [w0, w1], w2);
      assert [w0, w1] + [w2] == [w0, w1, w2];
      ghost var w3 := Write(x + 2, y, '-');
      EmitChar(x + 2, y, '-');
      ApplySnoc(old(rows), [w0, w1, w2], w3);
      assert [w0, w1, w2] + [w3] == [w0, w1, w2, w3];
    }

    /** The block end of `emitCode`: the exit path, then the dispatcher marks on the last row when the block is taller than three rows. */
    method EmitExit(x: int, y: int, dx: int, oy: nat)
      requires InCode(Pen(x, y, dx))
      modifies this
      ensures rows == Apply(old(rows), BlockExit(old(rows), Pen(x, y, dx), oy))
    {
      ghost var e := ExitPath(Pen(x, y, dx), oy);
      EmitExitPath(x, y, dx, oy);
      ghost var g := rows;
      ghost var n := |rows|;
      if oy + 3 != |rows| {
        EmitChar(0, |rows| - 1, 'v');
        EmitChar(9, |rows| - 1, '^');
        ApplySnoc(g, [Write(0, n - 1, 'v')], Write(9, n - 1, '^'));
        ApplySnoc(g, [], Write(0, n - 1, 'v'));
        assert [Write(0, n - 1, 'v')] + [Write(9, n - 1, '^')] == Marks(n, oy);
      }
      ApplyAppend(old(rows), e, Marks(n, oy));
    }

    /** `emitBlock`: the dispatcher rows, then the block's code laid out from the first of them. */
    method EmitBlock(code: string, id: int)
      modifies this
      ensures rows == EmitBlockGrid(old(rows), code, id)
    {
      PushRow(">:#v_ >$");
      PushRow("v-1<>  1+^");
      PushRow("v   ^_^#:<");
      assert rows == old(rows) + Dispatcher;
      var y := |rows| - 3;
      EmitCode(code + Literal(id) + "-:0`!", y, true);
    }
  }
}
