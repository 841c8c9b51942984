/**
 * `handleArith`, `handleCmp` and `convertUnsigned`: two operands pushed,
 * then one or a few operator tokens. Arithmetic is on the interpreter's
 * unbounded integers; the boolean `and`, `or` and `xor` of LLVM's `i1` are
 * lowered to `*`, `+` and `+2%`.
 */
module Arithmetic {
  import opened Ir
  import opened Machine
  import opened Operands

  // ---------------------------------------------------------------------------
  // handleArith

  /** The operator token of each arithmetic opcode; `or` shares `+` with `add`, `and` shares `*` with `mul`. */
  function ArithChar(k: ArithKind): char
  {
    match k
    case Add => '+'
    case Or => '+'
    case Xor => '+'
    case Sub => '-'
    case Mul => '*'
    case And => '*'
    case SDiv => '/'
    case SRem => '%'
  }

  /** The tokens after the two operands. */
  function ArithTail(k: ArithKind): string
  {
    [ArithChar(k)] + (if k == Xor then "2%" else "")
  }

  /** `handleArith`: operands in order, then the operator; `and` and `xor` must be on `i1`, and only they abort beyond a missing operand. */
  function HandleArith(env: Env, k: ArithKind, lhs: Value, rhs: Value, ty: Type): (r: Result<string>)
    ensures r.Ok? <==> GetLocal(env, lhs).Ok? && GetLocal(env, rhs).Ok? && (k in {Xor, And} ==> PrimitiveBits(ty) == 1)
    ensures r.Err? && GetLocal(env, lhs).Ok? && GetLocal(env, rhs).Ok? ==> r.error == NotBoolean
  {
    var a := GetLocal(env, lhs);
    var b := GetLocal(env, rhs);
    if a.Err? then Err(a.error)
    else if b.Err? then Err(b.error)
    else if (k == Xor || k == And) && PrimitiveBits(ty) != 1 then Err(NotBoolean)
    else Ok(a.value + b.value + ArithTail(k))
  }

  /** The value the lowered code leaves for x `k` y on the interpreter's integers. */
  function ArithValue(k: ArithKind, x: int, y: int): int
  {
    match k
    case Add => x + y
    case Or => x + y
    case Sub => x - y
    case Mul => x * y
    case And => x * y
    case SDiv => Quot(x, y)
    case SRem => Rem(x, y)
    case Xor => Rem(x + y, 2)
  }

  lemma XorTailRuns(st: State, x: int, y: int)
    requires !st.halted
    ensures Run(ArithTail(Xor), Push(Push(st, x), y)) == Push(st, ArithValue(Xor, x, y))
  {
    assert ArithTail(Xor) == ['+', '2', '%'];
    RunThree('+', '2', '%', Push(Push(st, x), y));
  }

  lemma PlainTailRuns(k: ArithKind, st: State, x: int, y: int)
    requires !st.halted && k != Xor
    ensures Run(ArithTail(k), Push(Push(st, x), y)) == Push(st, ArithValue(k, x, y))
  {
    assert ArithTail(k) == [ArithChar(k)];
    RunOne(ArithChar(k), Push(Push(st, x), y));
  }

  /** The lowered arithmetic pushes `ArithValue` of the two operands' values and changes nothing else. */
  lemma ArithRuns(env: Env, k: ArithKind, lhs: Value, rhs: Value, ty: Type, st: State)
    requires HandleArith(env, k, lhs, rhs, ty).Ok? && !st.halted && Addressable(env, st)
    ensures Run(HandleArith(env, k, lhs, rhs, ty).value, st) ==
            Push(st, ArithValue(k, ValueOf(env, lhs, st), ValueOf(env, rhs, st)))
  {
    var x := ValueOf(env, lhs, st);
    var y := ValueOf(env, rhs, st);
    TwoOperands(env, lhs, rhs, st);
    if k == Xor {
      XorTailRuns(st, x, y);
    } else {
      PlainTailRuns(k, st, x, y);
    }
    Binary(GetLocal(env, lhs).value, GetLocal(env, rhs).value, ArithTail(k), st, x, y, ArithValue(k, x, y));
  }

  /** On booleans (0 and 1), `and` and `xor` compute the logical operations. */
  lemma BooleanOps(x: int, y: int)
    requires x in {0, 1} && y in {0, 1}
    ensures ArithValue(And, x, y) == (if x == 1 && y == 1 then 1 else 0)
    ensures ArithValue(Xor, x, y) == (if x != y then 1 else 0)
    ensures ArithValue(Or, x, y) == (if x == 1 && y == 1 then 2 else if x == 1 || y == 1 then 1 else 0)
  {
    assert Rem(2, 2) == 0;
    assert Rem(1, 2) == 1;
    assert Rem(0, 2) == 0;
  }

  /**
   * Signed division truncates toward zero, as C's: the quotient and
   * remainder rebuild the dividend, the remainder is smaller than the divisor
   * and takes the dividend's sign.
   */
  lemma DivisionTruncates(x: int, y: int)
    requires y != 0
    ensures x == y * ArithValue(SDiv, x, y) + ArithValue(SRem, x, y)
    ensures Abs(ArithValue(SRem, x, y)) < Abs(y)
    ensures ArithValue(SRem, x, y) != 0 ==> (ArithValue(SRem, x, y) < 0 <==> x < 0)
  {
    var q := Abs(x) / Abs(y);
    var r := Abs(x) % Abs(y);
    assert Abs(x) == Abs(y) * q + r;
    if x >= 0 && y > 0 {
      assert Quot(x, y) == q;
    } else if x >= 0 && y < 0 {
      assert Quot(x, y) == -q;
      assert Rem(x, y) == x - y * (-q);
    } else if x < 0 && y > 0 {
      assert Quot(x, y) == -q;
      assert Rem(x, y) == x + y * q;
    } else {
      assert Quot(x, y) == q;
      assert Rem(x, y) == x - y * q;
    }
  }

  // ---------------------------------------------------------------------------
  // convertUnsigned

  /** `convertUnsigned`: keeps x when x >= 0 and computes x + 2^30 otherwise, with `S` choosing. */
  const ConvertUnsigned: string := "::88*::*:**+\\01-`!S"

  /** The value `convertUnsigned` leaves for x. */
  function Unsigned(x: int): int
  {
    if x < 0 then x + 0x4000_0000 else x
  }

  /** `:**` on [64, 4096] squares 4096 and multiplies by 64: 2^30. */
  lemma CubeRuns(s1: State)
    requires !s1.halted
    ensures Run(":**", Push(Push(s1, 64), 4096)) == Push(s1, 0x4000_0000)
  {
    var s3 := Push(Push(s1, 64), 4096);
    RunThree(':', '*', '*', s3);
    assert Step(':', s3) == Push(s3, 4096);
    ArithStep('*', Push(s1, 64), 4096, 4096);
    assert 4096 * 4096 == 16777216;
    ArithStep('*', s1, 64, 16777216);
    assert 64 * 16777216 == 0x4000_0000;
  }

  /** The first twelve tokens of `convertUnsigned` keep two copies of x and push x + 2^30. */
  lemma PowerPartRuns(st: State, x: int)
    requires !st.halted
    ensures Run("::88*::*:**+", Push(st, x)) == Push(Push(Push(st, x), x), x + 0x4000_0000)
  {
    var s0 := Push(st, x);
    var s1 := Push(Push(s0, x), x);
    var s2 := Push(s1, 64);
    var s3 := Push(Push(s1, 64), 4096);
    var s4 := Push(s1, 0x4000_0000);
    var s5 := Push(Push(s0, x), x + 0x4000_0000);
    RunTwo(':', ':', s0);
    RunThree('8', '8', '*', s1);
    RunThree(':', ':', '*', s2);
    CubeRuns(s1);
    RunOne('+', s4);
    assert "::" + "88*" == "::88*";
    RunThen("::", "88*", s0, s1, s2);
    assert "::88*" + "::*" == "::88*::*";
    RunThen("::88*", "::*", s0, s2, s3);
    assert "::88*::*" + ":**" == "::88*::*:**";
    RunThen("::88*::*", ":**", s0, s3, s4);
    assert "::88*::*:**" + "+" == "::88*::*:**+";
    RunThen("::88*::*:**", "+", s0, s4, s5);
  }

  /** The swap, `0 1 -` and `` ` `` leave x > -1 above x + 2^30. */
  lemma TestPartRuns(st: State, x: int)
    requires !st.halted
    ensures Run("\\01-`", Push(Push(Push(st, x), x), x + 0x4000_0000)) ==
            Push(Push(Push(st, x), x + 0x4000_0000), if x > -1 then 1 else 0)
  {
    var s0 := Push(st, x);
    var s5 := Push(Push(s0, x), x + 0x4000_0000);
    var s6 := Push(Push(s0, x + 0x4000_0000), x);
    var s7 := Push(s6, -1);
    var s8 := Push(Push(s0, x + 0x4000_0000), if x > -1 then 1 else 0);
    RunOne('\\', s5);
    RunThree('0', '1', '-', s6);
    RunOne('`', s7);
    assert "\\" + "01-" == "\\01-";
    RunThen("\\", "01-", s5, s6, s7);
    assert "\\01-" + "`" == "\\01-`";
    RunThen("\\01-", "`", s5, s7, s8);
  }

  lemma ChooseNegative(st: State, x: int)
    requires !st.halted && x < 0
    ensures Run("!S", Push(Push(Push(st, x), x + 0x4000_0000), 0)) == Push(st, Unsigned(x))
  {
    var s8 := Push(Push(Push(st, x), x + 0x4000_0000), 0);
    RunTwo('!', 'S', s8);
    SelectStep(st, x, x + 0x4000_0000, 1);
  }

  lemma ChooseNonNegative(st: State, x: int)
    requires !st.halted && x >= 0
    ensures Run("!S", Push(Push(Push(st, x), x + 0x4000_0000), 1)) == Push(st, Unsigned(x))
  {
    var s8 := Push(Push(Push(st, x), x + 0x4000_0000), 1);
    RunTwo('!', 'S', s8);
    SelectStep(st, x, x + 0x4000_0000, 0);
  }

  lemma ChoicePartRuns(st: State, x: int)
    requires !st.halted
    ensures Run("\\01-`!S", Push(Push(Push(st, x), x), x + 0x4000_0000)) == Push(st, Unsigned(x))
  {
    var s5 := Push(Push(Push(st, x), x), x + 0x4000_0000);
    var s8 := Push(Push(Push(st, x), x + 0x4000_0000), if x > -1 then 1 else 0);
    TestPartRuns(st, x);
    if x < 0 {
      ChooseNegative(st, x);
    } else {
      ChooseNonNegative(st, x);
    }
    assert "\\01-`" + "!S" == "\\01-`!S";
    RunThen("\\01-`", "!S", s5, s8, Push(st, Unsigned(x)));
  }

  /** `convertUnsigned` replaces the value x on top with `Unsigned(x)`. */
  lemma ConvertUnsignedRuns(st: State, x: int)
    requires !st.halted
    ensures Run(ConvertUnsigned, Push(st, x)) == Push(st, Unsigned(x))
  {
    PowerPartRuns(st, x);
    ChoicePartRuns(st, x);
    assert ConvertUnsigned == "::88*::*:**+" + "\\01-`!S";
    RunThen("::88*::*:**+", "\\01-`!S", Push(st, x), Push(Push(Push(st, x), x), x + 0x4000_0000), Push(st, Unsigned(x)));
  }

  /** A 32-bit value read as unsigned. */
  function AsUnsigned32(x: int): int
  {
    x % 0x1_0000_0000
  }

  /**
   * `convertUnsigned` orders values as their unsigned 32-bit readings do, as
   * long as both lie in [-2^29, 2^29).
   */
  lemma UnsignedOrderAgrees(x: int, y: int)
    requires -0x2000_0000 <= x < 0x2000_0000 && -0x2000_0000 <= y < 0x2000_0000
    ensures Unsigned(x) < Unsigned(y) <==> AsUnsigned32(x) < AsUnsigned32(y)
  {
    if x < 0 {
      assert AsUnsigned32(x) == x + 0x1_0000_0000;
    } else {
      assert AsUnsigned32(x) == x;
    }
    if y < 0 {
      assert AsUnsigned32(y) == y + 0x1_0000_0000;
    } else {
      assert AsUnsigned32(y) == y;
    }
  }

  /** Outside that range the order breaks: -2^30 and 0 both become 0, although -2^30 is the larger unsigned value. */
  lemma UnsignedOrderBreaks()
    ensures Unsigned(-0x4000_0000) == Unsigned(0)
    ensures AsUnsigned32(-0x4000_0000) > AsUnsigned32(0)
  {
  }

  // ---------------------------------------------------------------------------
  // handleCmp

  predicate IsUnsignedPred(p: Pred)
  {
    p in {Ugt, Uge, Ult, Ule}
  }

  /** Whether the right operand is pushed first: `<` and `>=` reverse the operands so that `` ` `` can test them. */
  function PushesRhsFirst(p: Pred): bool
  {
    p in {Ult, Slt, Uge, Sge}
  }

  /** The tokens after the operands: `-!` for ==, `-!!` for !=, `` ` `` for > and <, `` `! `` for >= and <=. */
  function CmpTail(p: Pred): string
  {
    match p
    case Eq => "-!"
    case Ne => "-!!"
    case Ugt => "`"
    case Sgt => "`"
    case Ult => "`"
    case Slt => "`"
    case Uge => "`!"
    case Sge => "`!"
    case Ule => "`!"
    case Sle => "`!"
  }

  /** One comparison operand, converted when the predicate is unsigned. */
  function CmpOperand(env: Env, v: Value, unsigned: bool): Result<string>
  {
    match GetLocal(env, v)
    case Err(e) => Err(e)
    case Ok(c) => Ok(if unsigned then c + ConvertUnsigned else c)
  }

  /** `handleCmp`: both operands in the predicate's order, then its tail. */
  function HandleCmp(env: Env, p: Pred, lhs: Value, rhs: Value): Result<string>
  {
    var u := IsUnsignedPred(p);
    var first := CmpOperand(env, if PushesRhsFirst(p) then rhs else lhs, u);
    var second := CmpOperand(env, if PushesRhsFirst(p) then lhs else rhs, u);
    if first.Err? then Err(first.error)
    else if second.Err? then Err(second.error)
    else Ok(first.value + second.value + CmpTail(p))
  }

  /** What each predicate means on 32-bit values: signed ones on the integers, unsigned ones on their unsigned readings. */
  predicate Holds(p: Pred, x: int, y: int)
  {
    match p
    case Eq => x == y
    case Ne => x != y
    case Sgt => x > y
    case Sge => x >= y
    case Slt => x < y
    case Sle => x <= y
    case Ugt => AsUnsigned32(x) > AsUnsigned32(y)
    case Uge => AsUnsigned32(x) >= AsUnsigned32(y)
    case Ult => AsUnsigned32(x) < AsUnsigned32(y)
    case Ule => AsUnsigned32(x) <= AsUnsigned32(y)
  }

  /** The value the tail leaves on x (pushed first) and y. */
  function TailValue(tail: string, x: int, y: int): int
  {
    if tail == "-!" then (if x - y == 0 then 1 else 0)
    else if tail == "-!!" then (if x - y == 0 then 0 else 1)
    else if tail == "`" then (if x > y then 1 else 0)
    else (if x > y then 0 else 1)
  }

  /** The two-token tails: `-!` (equal) and `` `! `` (not greater). */
  lemma PairTailRuns(tail: string, st: State, x: int, y: int)
    requires !st.halted
    requires tail == "-!" || tail == "`!"
    ensures Run(tail, Push(Push(st, x), y)) == Push(st, TailValue(tail, x, y))
  {
    assert tail == [tail[0], tail[1]];
    RunTwo(tail[0], tail[1], Push(Push(st, x), y));
  }

  lemma NeTailRuns(st: State, x: int, y: int)
    requires !st.halted
    ensures Run("-!!", Push(Push(st, x), y)) == Push(st, TailValue("-!!", x, y))
  {
    RunThree('-', '!', '!', Push(Push(st, x), y));
  }

  lemma GtTailRuns(st: State, x: int, y: int)
    requires !st.halted
    ensures Run("`", Push(Push(st, x), y)) == Push(st, TailValue("`", x, y))
  {
    RunOne('`', Push(Push(st, x), y));
  }

  lemma CmpTailRuns(p: Pred, st: State, x: int, y: int)
    requires !st.halted
    ensures Run(CmpTail(p), Push(Push(st, x), y)) == Push(st, TailValue(CmpTail(p), x, y))
  {
    var t := CmpTail(p);
    if t == "-!" {
      PairTailRuns(t, st, x, y);
    } else if t == "-!!" {
      NeTailRuns(st, x, y);
    } else if t == "`" {
      GtTailRuns(st, x, y);
    } else {
      assert t == "`!";
      PairTailRuns(t, st, x, y);
    }
  }

  /** The value a comparison operand pushes. */
  function Converted(x: int, unsigned: bool): int
  {
    if unsigned then Unsigned(x) else x
  }

  lemma CmpOperandRuns(env: Env, v: Value, unsigned: bool, st: State)
    requires CmpOperand(env, v, unsigned).Ok? && !st.halted && Addressable(env, st)
    ensures Run(CmpOperand(env, v, unsigned).value, st) == Push(st, Converted(ValueOf(env, v, st), unsigned))
  {
    var x := ValueOf(env, v, st);
    GetLocalRuns(env, v, st);
    if unsigned {
      ConvertUnsignedRuns(st, x);
      RunThen(GetLocal(env, v).value, ConvertUnsigned, st, Push(st, x), Push(st, Unsigned(x)));
    }
  }

  /** The value the lowered comparison leaves for operands x and y. */
  function CmpValue(p: Pred, x: int, y: int): int
  {
    var u := IsUnsignedPred(p);
    var a := Converted(x, u);
    var b := Converted(y, u);
    if PushesRhsFirst(p) then TailValue(CmpTail(p), b, a) else TailValue(CmpTail(p), a, b)
  }

  /** The lowered comparison pushes `CmpValue` of the operands' values and changes nothing else. */
  lemma CmpRuns(env: Env, p: Pred, lhs: Value, rhs: Value, st: State)
    requires HandleCmp(env, p, lhs, rhs).Ok? && !st.halted && Addressable(env, st)
    ensures Run(HandleCmp(env, p, lhs, rhs).value, st) ==
            Push(st, CmpValue(p, ValueOf(env, lhs, st), ValueOf(env, rhs, st)))
  {
    var u := IsUnsignedPred(p);
    var v1 := if PushesRhsFirst(p) then rhs else lhs;
    var v2 := if PushesRhsFirst(p) then lhs else rhs;
    var c1 := CmpOperand(env, v1, u).value;
    var c2 := CmpOperand(env, v2, u).value;
    var a := Converted(ValueOf(env, v1, st), u);
    var b := Converted(ValueOf(env, v2, st), u);
    CmpOperandRuns(env, v1, u, st);
    ValueOfPush(env, v2, st, a);
    CmpOperandRuns(env, v2, u, Push(st, a));
    CmpTailRuns(p, st, a, b);
    Binary(c1, c2, CmpTail(p), st, a, b, TailValue(CmpTail(p), a, b));
  }

  /** Every signed predicate, and `eq` and `ne`, leaves 1 exactly when it holds and 0 otherwise. */
  lemma SignedCmpCorrect(p: Pred, x: int, y: int)
    requires !IsUnsignedPred(p)
    ensures CmpValue(p, x, y) == if Holds(p, x, y) then 1 else 0
  {
  }

  /** Every unsigned predicate is right on operands in [-2^29, 2^29). */
  lemma UnsignedCmpCorrect(p: Pred, x: int, y: int)
    requires IsUnsignedPred(p)
    requires -0x2000_0000 <= x < 0x2000_0000 && -0x2000_0000 <= y < 0x2000_0000
    ensures CmpValue(p, x, y) == if Holds(p, x, y) then 1 else 0
  {
    UnsignedOrderAgrees(x, y);
    UnsignedOrderAgrees(y, x);
    if x < 0 {
      assert AsUnsigned32(x) == x + 0x1_0000_0000;
    } else {
      assert AsUnsigned32(x) == x;
    }
    if y < 0 {
      assert AsUnsigned32(y) == y + 0x1_0000_0000;
    } else {
      assert AsUnsigned32(y) == y;
    }
  }

  /** The unsigned `ugt` of -2^30 and 0 comes out false although it holds. */
  lemma UnsignedCmpWrong()
    ensures Holds(Ugt, -0x4000_0000, 0) && CmpValue(Ugt, -0x4000_0000, 0) == 0
  {
    UnsignedOrderBreaks();
  }
}
