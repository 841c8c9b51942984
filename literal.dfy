/**
 * `genInt`: the push sequence for an integer constant. The target has only
 * single-digit pushes, so the magnitude is written in base 9, most
 * significant digit first, as "digit (9* digit +)*", skipping the push of a
 * zero digit; a negative value is built by subtracting from 0.
 */
module Literals {
  import opened Machine

  /** The base-9 digits of `n`, least significant first, as `genInt`'s do-while loop collects them. */
  function Base9(n: nat): (ds: seq<nat>)
    ensures |ds| >= 1
    ensures forall k | 0 <= k < |ds| :: ds[k] < 9
  {
    if n < 9 then [n] else [n % 9] + Base9(n / 9)
  }

  function DigitChar(d: nat): char
    requires d < 9
  {
    ('0' as int + d) as char
  }

  predicate AreDigits(c: seq<nat>)
  {
    forall k | 0 <= k < |c| :: c[k] < 9
  }

  function Sign(neg: bool): char
  {
    if neg then '-' else '+'
  }

  /**
   * What round `i` of `genInt`'s emission loop appends, for the digits `c`
   * (least significant first): it handles digit `c[|c| - 1 - i]`, and a zero
   * digit is not pushed unless it is the only one.
   */
  function Round(c: seq<nat>, neg: bool, i: nat): string
    requires i < |c| && AreDigits(c)
  {
    var d := c[|c| - 1 - i];
    (if i != 0 then "9*" else "")
    + (if d != 0 || |c| == 1
       then [DigitChar(d)] + (if i != 0 || neg then [Sign(neg)] else "")
       else "")
  }

  /** What the emission loop has appended after `i` rounds. */
  function Emitted(c: seq<nat>, neg: bool, i: nat): string
    requires i <= |c| && AreDigits(c)
  {
    if i == 0 then "" else Emitted(c, neg, i - 1) + Round(c, neg, i - 1)
  }

  /**
   * The pushes for the magnitude `n`, most significant digit first: the
   * leading digit, then for every further digit `9*` and, unless the digit is
   * zero, the digit and the sign; the leading digit carries the sign only for
   * a negative value, which is built down from a 0 pushed before it.
   */
  function Pushes(n: nat, neg: bool): string
  {
    if n < 9 then [DigitChar(n)] + (if neg then "-" else "")
    else Pushes(n / 9, neg) + "9*" + (if n % 9 == 0 then "" else [DigitChar(n % 9), Sign(neg)])
  }

  /** The code `genInt(v)` appends. */
  function Literal(v: int): string
  {
    if v < 0 then "0" + Pushes(-v, true) else Pushes(v, false)
  }

  /** One round of the digit loop takes off the least significant digit. */
  lemma Base9Unfold(n: nat)
    requires n != 0
    ensures Base9(n) == [n % 9] + (if n / 9 == 0 then [] else Base9(n / 9))
  {
    if n < 9 {
      assert n % 9 == n && n / 9 == 0;
    }
  }

  /** The do-while loop of `genInt` that collects the digits of `n`, least significant first. */
  method Digits(n0: nat) returns (c: seq<nat>)
    ensures c == Base9(n0)
  {
    var n := n0;
    // the first round of the do-while loop, unrolled
    if n != 0 {
      Base9Unfold(n);
    }
    c := [n % 9];
    n := n / 9;
    while n != 0
      invariant c + (if n == 0 then [] else Base9(n)) == Base9(n0)
    {
      Base9Unfold(n);
      c := c + [n % 9];
      n := n / 9;
    }
  }

  /** One round of `genInt`'s emission loop: the part it appends for digit `c[|c| - 1 - i]`. */
  method EmitRound(c: seq<nat>, i: nat, op: char) returns (round: string)
    requires i < |c| && AreDigits(c) && (op == '+' || op == '-')
    ensures round == Round(c, op == '-', i)
  {
    round := "";
    if i != 0 {
      round := "9*";
    }
    var d := c[|c| - i - 1];
    if d != 0 || |c| == 1 {
      round := round + [DigitChar(d)];
      if i != 0 || op == '-' {
        round := round + [op];
      }
    }
  }

  /** `genInt`: the digits of |v|, then the pushes from the most significant digit. */
  method GenInt(v: int) returns (code: string)
    ensures code == Literal(v)
  {
    var op := '+';
    if v < 0 {
      op := '-';
    }
    var c := Digits(Abs(v));
    var rounds := EmitRounds(c, op);
    code := "";
    if op == '-' {
      code := code + "0";
    }
    code := code + rounds;
    EmittedIsPushes(Abs(v), v < 0);
  }

  /** The emission loop of `genInt`: one round per digit, most significant first. */
  method EmitRounds(c: seq<nat>, op: char) returns (code: string)
    requires AreDigits(c) && (op == '+' || op == '-')
    ensures code == Emitted(c, op == '-', |c|)
  {
    code := "";
    var i := 0;
    while i < |c|
      invariant 0 <= i <= |c|
      invariant code == Emitted(c, op == '-', i)
    {
      var round := EmitRound(c, i, op);
      code := code + round;
      i := i + 1;
    }
  }

  /** The most significant digit of a positive number is not zero. */
  lemma {:induction false} Base9Leading(n: nat)
    requires n > 0
    ensures Base9(n)[|Base9(n)| - 1] != 0
  {
    if n >= 9 {
      Base9Leading(n / 9);
    }
  }

  /** A further least significant digit leaves the earlier rounds as they were, when the leading digit is not zero. */
  lemma {:induction false} EmittedCons(d: nat, c: seq<nat>, neg: bool, i: nat)
    requires d < 9 && AreDigits(c) && 1 <= |c| && i <= |c| && c[|c| - 1] != 0
    ensures AreDigits([d] + c)
    ensures Emitted([d] + c, neg, i) == Emitted(c, neg, i)
  {
    if i > 0 {
      EmittedCons(d, c, neg, i - 1);
      assert ([d] + c)[|[d] + c| - 1 - (i - 1)] == c[|c| - 1 - (i - 1)];
    }
  }

  /** The round for the least significant digit of a number of two or more digits. */
  lemma LastRound(n: nat, neg: bool)
    requires n >= 9
    ensures var c := Base9(n);
      |c| >= 2 && Round(c, neg, |c| - 1) == "9*" + (if n % 9 == 0 then "" else [DigitChar(n % 9), Sign(neg)])
  {
    var c := Base9(n);
    assert c == [n % 9] + Base9(n / 9);
    assert c[|c| - 1 - (|c| - 1)] == n % 9;
  }

  /** The emission loop over the digits `Base9(n)` appends exactly `Pushes(n, neg)`. */
  lemma {:induction false} EmittedIsPushes(n: nat, neg: bool)
    ensures Emitted(Base9(n), neg, |Base9(n)|) == Pushes(n, neg)
  {
    if n >= 9 {
      var c := Base9(n / 9);
      var c' := Base9(n);
      assert c' == [n % 9] + c;
      EmittedIsPushes(n / 9, neg);
      Base9Leading(n / 9);
      EmittedCons(n % 9, c, neg, |c|);
      LastRound(n, neg);
      assert Emitted(c', neg, |c'|) == Emitted(c', neg, |c|) + Round(c', neg, |c|);
    }
  }

  lemma TimesNine(st: State, x: int)
    requires !st.halted
    ensures Run("9*", Push(st, x)) == Push(st, x * 9)
  {
    RunTwo('9', '*', Push(st, x));
    DigitStep('9', Push(st, x));
    ArithStep('*', st, x, 9);
  }

  lemma DigitThen(st: State, x: int, d: nat, op: char)
    requires !st.halted && d < 9 && (op == '+' || op == '-')
    ensures Run([DigitChar(d), op], Push(st, x)) == Push(st, if op == '+' then x + d else x - d)
  {
    RunTwo(DigitChar(d), op, Push(st, x));
    DigitStep(DigitChar(d), Push(st, x));
    ArithStep(op, st, x, d);
  }

  lemma DigitRuns(d: nat, st: State)
    requires d < 9 && !st.halted
    ensures Run([DigitChar(d)], st) == Push(st, d)
  {
    RunOne(DigitChar(d), st);
    DigitStep(DigitChar(d), st);
  }

  /** A later digit multiplies what is on top by 9 and adds (or, for a negative value, subtracts) the digit. */
  lemma LaterDigitRuns(n: nat, neg: bool, st: State, x: int)
    requires n >= 9 && !st.halted
    ensures var tail := "9*" + (if n % 9 == 0 then "" else [DigitChar(n % 9), Sign(neg)]);
      Run(tail, Push(st, x)) == Push(st, if neg then x * 9 - n % 9 else x * 9 + n % 9)
  {
    var d := n % 9;
    var tail := if d == 0 then "" else [DigitChar(d), Sign(neg)];
    RunAppend("9*", tail, Push(st, x));
    TimesNine(st, x);
    if d != 0 {
      DigitThen(st, x * 9, d, Sign(neg));
    }
  }

  /** The pushes of a non-negative magnitude push it. */
  lemma {:induction false} PushesRunsPositive(n: nat, st: State)
    requires !st.halted
    ensures Run(Pushes(n, false), st) == Push(st, n)
  {
    if n < 9 {
      assert Pushes(n, false) == [DigitChar(n)];
      DigitRuns(n, st);
    } else {
      var tail := "9*" + (if n % 9 == 0 then "" else [DigitChar(n % 9), Sign(false)]);
      assert Pushes(n, false) == Pushes(n / 9, false) + tail;
      PushesRunsPositive(n / 9, st);
      LaterDigitRuns(n, false, st, n / 9);
      assert n == (n / 9) * 9 + n % 9;
      RunThen(Pushes(n / 9, false), tail, st, Push(st, n / 9), Push(st, n));
    }
  }

  /** After a pushed 0, the negative pushes of a magnitude leave its negation. */
  lemma {:induction false} PushesRunsNegative(n: nat, st: State)
    requires !st.halted
    ensures Run(Pushes(n, true), Push(st, 0)) == Push(st, -(n as int))
  {
    if n < 9 {
      assert Pushes(n, true) == [DigitChar(n), '-'];
      DigitThen(st, 0, n, '-');
    } else {
      var tail := "9*" + (if n % 9 == 0 then "" else [DigitChar(n % 9), Sign(true)]);
      assert Pushes(n, true) == Pushes(n / 9, true) + tail;
      PushesRunsNegative(n / 9, st);
      LaterDigitRuns(n, true, st, -((n / 9) as int));
      assert -(n as int) == -((n / 9) as int) * 9 - n % 9;
      RunThen(Pushes(n / 9, true), tail, Push(st, 0), Push(st, -((n / 9) as int)), Push(st, -(n as int)));
    }
  }

  /** A leading `0` pushes zero before the rest of the code runs. */
  lemma ZeroThen(e: string, st: State)
    requires !st.halted
    ensures Run("0" + e, st) == Run(e, Push(st, 0))
  {
    RunAppend("0", e, st);
    RunOne('0', st);
    DigitStep('0', st);
  }

  /**
   * Literal round trip: running the code `genInt(v)` emits pushes exactly
   * `v` onto the stack and changes nothing else.
   */
  lemma LiteralRuns(v: int, st: State)
    requires !st.halted
    ensures Run(Literal(v), st) == Push(st, v)
  {
    if v < 0 {
      NegativeLiteralRuns(v, st);
    } else {
      PushesRunsPositive(v, st);
    }
  }

  lemma NegativeLiteralRuns(v: int, st: State)
    requires !st.halted && v < 0
    ensures Run(Literal(v), st) == Push(st, v)
  {
    assert Literal(v) == "0" + Pushes(-v, true);
    ZeroPushesRuns(v, st);
  }

  /** A 0 followed by the negative pushes of |v| leaves v. */
  lemma ZeroPushesRuns(v: int, st: State)
    requires !st.halted && v < 0
    ensures Run("0" + Pushes(-v, true), st) == Push(st, v)
  {
    ZeroThen(Pushes(-v, true), st);
    PushesRunsNegative(-v, st);
  }

  /** The same, for every state at once. */
  lemma LiteralPushes(v: int)
    ensures PushesValue(Literal(v), v)
  {
    forall st: State | !st.halted
      ensures Run(Literal(v), st) == Push(st, v)
    {
      LiteralRuns(v, st);
    }
  }

  /** The characters a literal may contain: digits, `*` and one sign. */
  predicate LiteralChar(ch: char, neg: bool)
  {
    ('0' <= ch <= '9') || ch == '*' || ch == Sign(neg)
  }

  lemma {:induction false} PushesAlphabet(n: nat, neg: bool)
    ensures forall k | 0 <= k < |Pushes(n, neg)| :: LiteralChar(Pushes(n, neg)[k], neg)
  {
    if n >= 9 {
      PushesAlphabet(n / 9, neg);
    }
  }

  /**
   * A literal uses only the digits, `*` and a single sign character: `+` for
   * a non-negative value, `-` for a negative one, which then starts from `0`.
   */
  lemma LiteralAlphabet(v: int)
    ensures forall k | 0 <= k < |Literal(v)| :: LiteralChar(Literal(v)[k], v < 0)
    ensures v < 0 ==> Literal(v)[0] == '0'
  {
    PushesAlphabet(Abs(v), v < 0);
  }
}
