/** What the operators compute (vm.c:394-465), told from counting up, doubling and single bits. */
module Arithmetic {
  import opened Wrappers
  import opened Bytes

  // ----- Sums, differences, products -----

  /** The next byte; behind the last one comes 0. */
  function Succ(b: byte): byte {
    if b == 255 then 0 else b + 1
  }

  /** `n` steps up from `x`. */
  function CountUp(x: byte, n: nat): byte {
    if n == 0 then x else Succ(CountUp(x, n - 1))
  }

  /** `n` times `x`, each time counting up by `x`. */
  function CountTimes(x: byte, n: nat): byte {
    if n == 0 then 0 else CountUp(CountTimes(x, n - 1), x)
  }

  lemma SuccIs(a: nat)
    ensures Succ(a % 256) == (a + 1) % 256
  {
  }

  lemma {:induction false} CountUpIs(x: byte, n: nat)
    ensures CountUp(x, n) == (x + n) % 256
  {
    hide Succ;
    if n > 0 {
      CountUpIs(x, n - 1);
      SuccIs(x + (n - 1));
    }
  }

  lemma {:induction false} CountTimesIs(x: byte, n: nat)
    ensures CountTimes(x, n) == (x * n) % 256
  {
    if n > 0 {
      var before := x * (n - 1);
      CountTimesIs(x, n - 1);
      CountUpIs(before % 256, x);
      Rounded(before, x);
      assert x * n == before + x;
    }
  }

  /** Rounding a summand before adding changes nothing. */
  lemma Rounded(a: int, b: nat)
    ensures (a % 256 + b) % 256 == (a + b) % 256
  {
  }

  /** Adding is counting up. */
  lemma Sums(x: byte, y: byte)
    ensures Apply(Add, x, y) == Some(CountUp(x, y))
  {
    CountUpIs(x, y);
  }

  /** From the difference, counting up by the subtrahend gets to the minuend. */
  lemma Differences(x: byte, y: byte)
    ensures Apply(Sub, x, y).Some? && CountUp(Apply(Sub, x, y).value, y) == x
  {
    hide CountUp;
    CountUpIs((x - y) % 256, y);
    Rounded(x - y, y);
  }

  /** A byte and its negation add up to 0. */
  lemma Negations(x: byte)
    ensures CountUp(Negate(x), x) == 0
  {
    hide CountUp;
    CountUpIs(Negate(x), x);
    Rounded(256 - x, x);
  }

  /** Multiplying is adding again and again. */
  lemma Products(x: byte, y: byte)
    ensures Apply(Mul, x, y) == Some(CountTimes(x, y))
  {
    CountTimesIs(x, y);
  }

  /** Division and remainder (section 6.5.5 of ISO C99): undefined exactly for 0; otherwise quotient times
      divisor and remainder make up the dividend, and the remainder is less than the divisor. */
  lemma QuotientsAndRemainders(x: byte, y: byte)
    ensures Apply(Div, x, y).None? <==> y == 0
    ensures Apply(Mod, x, y).None? <==> y == 0
    ensures y != 0 ==> Apply(Div, x, y).value * y + Apply(Mod, x, y).value == x && Apply(Mod, x, y).value < y
  {
  }

  // ----- Shifts -----

  /** `x` doubled `n` times, as a number of any size. */
  function Doubled(x: nat, n: nat): nat {
    if n == 0 then x else 2 * Doubled(x, n - 1)
  }

  lemma {:induction false} DoubledIs(x: nat, n: nat)
    ensures Doubled(x, n) == x * Pow2(n)
  {
    if n > 0 {
      DoubledIs(x, n - 1);
    }
  }

  /** A left shift (section 6.5.7 of ISO C99) is defined exactly for counts below 32 whose result fits an
      int of 32 bits; shifting by 0 changes nothing, and by one more adds the result to itself. */
  lemma LeftShifts(x: byte, n: byte)
    ensures Apply(Shl, x, n).Some? <==> n < 32 && Doubled(x, n) < 0x8000_0000
    ensures Apply(Shl, x, 0) == Some(x)
    ensures n > 0 && Apply(Shl, x, n).Some? ==>
              && Apply(Shl, x, n - 1).Some?
              && var half := Apply(Shl, x, n - 1).value; Apply(Shl, x, n) == Some(CountUp(half, half))
  {
    hide BitOr, BitXor, BitAnd, ShiftRight, CountUp, Pow2;
    DoubledIs(x, n);
    DoubledIs(x, 0);
    if n > 0 {
      DoubledIs(x, n - 1);
      var before := Doubled(x, n - 1);
      CountUpIs(before % 256, before % 256);
      Rounded(before, before);
      Rounded(before, before % 256);
    }
  }

  /** A right shift is defined exactly for counts below 32; shifting by 0 changes nothing, and by one more
      halves, dropping a remainder of 1. */
  lemma RightShifts(x: byte, n: byte)
    ensures Apply(Shr, x, n).Some? <==> n < 32
    ensures Apply(Shr, x, 0) == Some(x)
    ensures 0 < n < 32 ==>
              var before, after := Apply(Shr, x, n - 1).value, Apply(Shr, x, n).value;
              before == 2 * after || before == 2 * after + 1
  {
    if 0 < n < 32 {
      LastHalving(x, n);
    }
  }

  /** The last halving instead of the first one. */
  lemma {:induction false} LastHalving(x: byte, n: nat)
    requires n > 0
    ensures ShiftRight(x, n) == ShiftRight(x, n - 1) / 2
    decreases n
  {
    if n > 1 {
      LastHalving(x / 2, n - 1);
    }
  }

  // ----- Bits -----

  /** Bit `k`, the lowest being bit 0. */
  predicate Bit(x: nat, k: nat) {
    if k == 0 then x % 2 == 1 else Bit(x / 2, k - 1)
  }

  lemma {:induction false} BitwiseBit(f: (bool, bool) -> bool, x: nat, y: nat, n: nat, k: nat)
    requires k < n
    ensures Bit(Bitwise(f, x, y, n), k) <==> f(Bit(x, k), Bit(y, k))
    decreases n
  {
    var r := Bitwise(f, x / 2, y / 2, n - 1);
    assert Bitwise(f, x, y, n) / 2 == r;
    if k > 0 {
      BitwiseBit(f, x / 2, y / 2, n - 1, k - 1);
    }
  }

  /** The bitwise operators work on each of the eight bits alone. */
  lemma BitByBit(x: byte, y: byte, k: nat)
    requires k < 8
    ensures Apply(Or, x, y).Some? && (Bit(Apply(Or, x, y).value, k) <==> Bit(x, k) || Bit(y, k))
    ensures Apply(And, x, y).Some? && (Bit(Apply(And, x, y).value, k) <==> Bit(x, k) && Bit(y, k))
    ensures Apply(Xor, x, y).Some? && (Bit(Apply(Xor, x, y).value, k) <==> Bit(x, k) != Bit(y, k))
    ensures Bit(Complement(x), k) <==> !Bit(x, k)
  {
    hide Bit, Bitwise;
    BitwiseBit((a, b) => a || b, x, y, 8, k);
    BitwiseBit((a, b) => a && b, x, y, 8, k);
    BitwiseBit((a, b) => a != b, x, y, 8, k);
    assert Pow2(8) == 256;
    ComplementBit(x, 8, k);
  }

  lemma ComplementHalf(x: nat, p: nat)
    requires x < 2 * p
    ensures var c := 2 * p - 1 - x; c / 2 == p - 1 - x / 2 && (c % 2 == 1 <==> x % 2 != 1)
  {
  }

  lemma {:induction false} ComplementBit(x: nat, n: nat, k: nat)
    requires x < Pow2(n) && k < n
    ensures Bit(Pow2(n) - 1 - x, k) <==> !Bit(x, k)
    decreases k
  {
    ComplementHalf(x, Pow2(n - 1));
    if k > 0 {
      ComplementBit(x / 2, n - 1, k - 1);
    }
  }

  /** Eight bits make a byte: two bytes with the same ones are equal, so that the laws above leave
      nothing open. */
  lemma {:induction false} BitsTell(x: nat, y: nat, n: nat)
    requires x < Pow2(n) && y < Pow2(n) && forall k :: 0 <= k < n ==> (Bit(x, k) <==> Bit(y, k))
    ensures x == y
    decreases n
  {
    if n > 0 {
      assert Bit(x, 0) <==> Bit(y, 0);
      forall k | 0 <= k < n - 1
        ensures Bit(x / 2, k) <==> Bit(y / 2, k)
      {
        assert Bit(x, k + 1) <==> Bit(y, k + 1);
      }
      BitsTell(x / 2, y / 2, n - 1);
    }
  }

  // ----- Truth values -----

  /** `==` yields 0xFF or 0; nothing is less than 0; less than the next is less or equal; and `<=` is
      less or equal. */
  lemma Comparisons(x: byte, y: byte)
    ensures Apply(Eql, x, y) == Some(if x == y then 0xFF else 0)
    ensures Apply(Lss, x, 0) == Some(0)
    ensures y < 255 ==> Apply(Lss, x, y + 1) == Apply(Or, Apply(Lss, x, y).value, Apply(Eql, x, y).value)
    ensures Apply(Lte, x, y) == Apply(Or, Apply(Lss, x, y).value, Apply(Eql, x, y).value)
  {
    assert BitOr(0, 0) == 0 && BitOr(255, 0) == 255 && BitOr(0, 255) == 255;
  }

  /** `!` yields 0xFF for 0 and 0 otherwise; `||` and `&&` yield one of their operands, and `!` turns one
      into the other. */
  lemma Connectives(x: byte, y: byte)
    ensures LogicalNot(x) == Apply(Eql, x, 0).value
    ensures Apply(LOr, x, y) == Some(if x == 0 then y else x)
    ensures Apply(LAnd, x, y).Some?
            && LogicalNot(Apply(LAnd, x, y).value) == Apply(LOr, LogicalNot(x), LogicalNot(y)).value
    ensures Apply(LAnd, x, y).value in {0, y}
  {
  }
}
