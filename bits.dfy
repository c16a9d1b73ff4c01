/** Ruby's Integer bit operations on unbounded integers.

    Ruby integers behave as infinite two's-complement bit strings: `a >> n`
    rounds toward negative infinity, and `&`, `|`, `^` act bit by bit, so a
    negative number has infinitely many leading one bits. The emulator applies
    these operators to register values that can be negative, so they are
    defined here on `int` by recursion on the halves of the operands. */
module Bits {

  /** 2 to the power n. */
  function Pow2(n: nat): (r: nat)
    ensures r >= 1
  {
    if n == 0 then 1 else 2 * Pow2(n - 1)
  }

  function Abs(a: int): nat
  {
    if a < 0 then -a else a
  }

  /** Ruby `a >> n`: an arithmetic shift, halving n times and rounding toward negative infinity. */
  function Shr(a: int, n: nat): int
    decreases n
  {
    if n == 0 then a else Shr(a / 2, n - 1)
  }

  /** Ruby `a << n`. */
  function Shl(a: int, n: nat): int
  {
    a * Pow2(n)
  }

  /** 0 and -1 are the two integers whose bits are all equal (all zeros, all ones). */
  predicate Uniform(a: int)
  {
    a == 0 || a == -1
  }

  /** Ruby `a & b`. */
  function And(a: int, b: int): int
    decreases Abs(a) + Abs(b)
  {
    if Uniform(a) && Uniform(b) then (if a == -1 && b == -1 then -1 else 0)
    else 2 * And(a / 2, b / 2) + (if a % 2 == 1 && b % 2 == 1 then 1 else 0)
  }

  /** Ruby `a | b`. */
  function Or(a: int, b: int): int
    decreases Abs(a) + Abs(b)
  {
    if Uniform(a) && Uniform(b) then (if a == -1 || b == -1 then -1 else 0)
    else 2 * Or(a / 2, b / 2) + (if a % 2 == 1 || b % 2 == 1 then 1 else 0)
  }

  /** Ruby `a ^ b`. */
  function Xor(a: int, b: int): int
    decreases Abs(a) + Abs(b)
  {
    if Uniform(a) && Uniform(b) then (if (a == -1) != (b == -1) then -1 else 0)
    else 2 * Xor(a / 2, b / 2) + (if a % 2 != b % 2 then 1 else 0)
  }

  // The defining recurrences hold for every pair of operands, the uniform ones included.

  lemma AndStep(a: int, b: int)
    ensures And(a, b) == 2 * And(a / 2, b / 2) + (if a % 2 == 1 && b % 2 == 1 then 1 else 0)
  {
  }

  lemma OrStep(a: int, b: int)
    ensures Or(a, b) == 2 * Or(a / 2, b / 2) + (if a % 2 == 1 || b % 2 == 1 then 1 else 0)
  {
  }

  lemma XorStep(a: int, b: int)
    ensures Xor(a, b) == 2 * Xor(a / 2, b / 2) + (if a % 2 != b % 2 then 1 else 0)
  {
  }

  /** `data >> n > 0` holds exactly when data does not fit below 2^n (negative data passes). */
  lemma {:induction false} ShrPositive(a: int, n: nat)
    ensures Shr(a, n) > 0 <==> a >= Pow2(n)
    decreases n
  {
    if n > 0 {
      ShrPositive(a / 2, n - 1);
    }
  }

  /** `data >> n == 0` holds exactly when 0 <= data < 2^n. */
  lemma {:induction false} ShrZero(a: int, n: nat)
    ensures Shr(a, n) == 0 <==> 0 <= a < Pow2(n)
    decreases n
  {
    if n > 0 {
      ShrZero(a / 2, n - 1);
    }
  }

  /** Masking with 0 clears every bit. */
  lemma {:induction false} AndZero(a: int)
    ensures And(a, 0) == 0
    decreases Abs(a)
  {
    if !Uniform(a) {
      AndZero(a / 2);
    }
  }

  /** Or with 0 changes nothing. */
  lemma {:induction false} OrZero(a: int)
    ensures Or(a, 0) == a
    decreases Abs(a)
  {
    if !Uniform(a) {
      OrZero(a / 2);
    }
  }

  /** `(x << n) | b` is `x * 2^n + b` when b fits in the n vacated low bits. */
  lemma {:induction false} OrBelowShift(x: int, b: int, n: nat)
    requires 0 <= b < Pow2(n)
    ensures Or(Shl(x, n), b) == Shl(x, n) + b
  {
    if n == 0 {
      OrZero(x);
    } else {
      var h := Shl(x, n - 1);
      assert Shl(x, n) == 2 * h;
      OrStep(2 * h, b);
      OrBelowShift(x, b / 2, n - 1);
    }
  }

  // Masks of low bits, one bit at a time: `a & (2m + 1)` is twice `(a / 2) & m` plus the
  // lowest bit of a, and `a & 2m` is twice `(a / 2) & m`.

  lemma {:induction false} AndOddMask(a: int, m: int)
    requires m >= 0
    ensures And(a, 2 * m + 1) == 2 * And(a / 2, m) + a % 2
  {
    AndStep(a, 2 * m + 1);
  }

  lemma {:induction false} AndEvenMask(a: int, m: int)
    requires m > 0
    ensures And(a, 2 * m) == 2 * And(a / 2, m)
  {
    AndStep(a, 2 * m);
  }

  /** `a & 1` is the lowest bit, a mod 2. */
  lemma {:induction false} AndLowBit(a: int)
    ensures And(a, 1) == a % 2
  {
    AndStep(a, 1);
    AndZero(a / 2);
  }

  lemma {:induction false} AndLow2Bits(a: int)
    ensures And(a, 3) == a % 4
  {
    AndOddMask(a, 1);
    AndLowBit(a / 2);
  }

  lemma {:induction false} AndLow3Bits(a: int)
    ensures And(a, 7) == a % 8
  {
    AndOddMask(a, 3);
    AndLow2Bits(a / 2);
  }

  lemma {:induction false} AndLow4Bits(a: int)
    ensures And(a, 0xF) == a % 16
  {
    AndOddMask(a, 7);
    AndLow3Bits(a / 2);
  }

  lemma {:induction false} AndLow5Bits(a: int)
    ensures And(a, 0x1F) == a % 32
  {
    AndOddMask(a, 0xF);
    AndLow4Bits(a / 2);
  }

  lemma {:induction false} AndLow6Bits(a: int)
    ensures And(a, 0x3F) == a % 64
  {
    AndOddMask(a, 0x1F);
    AndLow5Bits(a / 2);
  }

  lemma {:induction false} AndLow7Bits(a: int)
    ensures And(a, 0x7F) == a % 128
  {
    AndOddMask(a, 0x3F);
    AndLow6Bits(a / 2);
  }

  /** `a & 0xFF` is a mod 256, also for negative a. */
  lemma {:induction false} AndLowByte(a: int)
    ensures And(a, 0xFF) == a % 256
  {
    AndOddMask(a, 0x7F);
    AndLow7Bits(a / 2);
  }

  /** `a & 2^k` isolates bit k: it is 2^k times bit k of a, for k = 1 .. 7. */
  lemma {:induction false} AndBit1(a: int)
    ensures And(a, 2) == 2 * ((a / 2) % 2)
  {
    AndEvenMask(a, 1);
    AndLowBit(a / 2);
  }

  lemma {:induction false} AndBit2(a: int)
    ensures And(a, 4) == 4 * ((a / 4) % 2)
  {
    AndEvenMask(a, 2);
    AndBit1(a / 2);
    assert (a / 2) / 2 == a / 4;
  }

  lemma {:induction false} AndBit3(a: int)
    ensures And(a, 8) == 8 * ((a / 8) % 2)
  {
    AndEvenMask(a, 4);
    AndBit2(a / 2);
    assert (a / 2) / 4 == a / 8;
  }

  lemma {:induction false} AndBit4(a: int)
    ensures And(a, 0x10) == 16 * ((a / 16) % 2)
  {
    AndEvenMask(a, 8);
    AndBit3(a / 2);
    assert (a / 2) / 8 == a / 16;
  }

  lemma {:induction false} AndBit5(a: int)
    ensures And(a, 0x20) == 32 * ((a / 32) % 2)
  {
    AndEvenMask(a, 0x10);
    AndBit4(a / 2);
    assert (a / 2) / 16 == a / 32;
  }

  lemma {:induction false} AndBit6(a: int)
    ensures And(a, 0x40) == 64 * ((a / 64) % 2)
  {
    AndEvenMask(a, 0x20);
    AndBit5(a / 2);
    assert (a / 2) / 32 == a / 64;
  }

  /** `a & 0x80` is non-zero exactly when a mod 256 >= 128. */
  lemma {:induction false} AndBit7(a: int)
    ensures And(a, 0x80) != 0 <==> a % 256 >= 128
  {
    AndEvenMask(a, 0x40);
    AndBit6(a / 2);
    assert (a / 2) / 64 == a / 128;
  }

  /** `&` of two n-bit naturals is an n-bit natural no larger than either. */
  lemma {:induction false} AndBounded(a: int, b: int, n: nat)
    requires 0 <= a < Pow2(n) && 0 <= b < Pow2(n)
    ensures 0 <= And(a, b) <= a && And(a, b) <= b
  {
    if n > 0 {
      AndStep(a, b);
      AndBounded(a / 2, b / 2, n - 1);
    }
  }

  /** `|` of two n-bit naturals is an n-bit natural no smaller than either. */
  lemma {:induction false} OrBounded(a: int, b: int, n: nat)
    requires 0 <= a < Pow2(n) && 0 <= b < Pow2(n)
    ensures a <= Or(a, b) < Pow2(n) && b <= Or(a, b)
  {
    if n > 0 {
      OrStep(a, b);
      OrBounded(a / 2, b / 2, n - 1);
    }
  }

  /** `^` of two n-bit naturals is an n-bit natural. */
  lemma {:induction false} XorBounded(a: int, b: int, n: nat)
    requires 0 <= a < Pow2(n) && 0 <= b < Pow2(n)
    ensures 0 <= Xor(a, b) < Pow2(n)
  {
    if n > 0 {
      XorStep(a, b);
      XorBounded(a / 2, b / 2, n - 1);
    }
  }

  // Signs. A negative number has infinitely many leading ones, so `|` with a negative
  // operand, `&` of two negatives and `^` of operands of opposite signs are negative,
  // while `&` with a natural operand stays between 0 and that operand.

  /** `a | b` is negative when either operand is. */
  lemma {:induction false} OrNegative(a: int, b: int)
    requires a < 0 || b < 0
    ensures Or(a, b) < 0
    decreases Abs(a) + Abs(b)
  {
    if !(Uniform(a) && Uniform(b)) {
      OrNegative(a / 2, b / 2);
    }
  }

  /** `a & b` of two negatives is negative. */
  lemma {:induction false} AndNegative(a: int, b: int)
    requires a < 0 && b < 0
    ensures And(a, b) < 0
    decreases Abs(a) + Abs(b)
  {
    if !(Uniform(a) && Uniform(b)) {
      AndNegative(a / 2, b / 2);
    }
  }

  /** `a & b` with a natural operand lies between 0 and that operand, whatever the sign
      of the other. */
  lemma {:induction false} AndNatural(a: int, b: int)
    requires 0 <= a || 0 <= b
    ensures 0 <= And(a, b)
    ensures 0 <= a ==> And(a, b) <= a
    ensures 0 <= b ==> And(a, b) <= b
    decreases Abs(a) + Abs(b)
  {
    if !(Uniform(a) && Uniform(b)) {
      AndNatural(a / 2, b / 2);
    }
  }

  /** `a ^ b` is negative exactly when the operands have opposite signs. */
  lemma {:induction false} XorSign(a: int, b: int)
    ensures Xor(a, b) < 0 <==> (a < 0) != (b < 0)
    decreases Abs(a) + Abs(b)
  {
    if !(Uniform(a) && Uniform(b)) {
      XorSign(a / 2, b / 2);
    }
  }

  /** `-1 ^ a` flips every bit: it is Ruby's `~a`, that is -1 - a. */
  lemma {:induction false} XorMinusOne(a: int)
    ensures Xor(-1, a) == -1 - a
    decreases Abs(a)
  {
    if !Uniform(a) {
      XorMinusOne(a / 2);
    }
  }

  /** Wider widths admit more values. */
  lemma {:induction false} Pow2Monotone(m: nat, n: nat)
    requires m <= n
    ensures Pow2(m) <= Pow2(n)
    decreases n
  {
    if m < n {
      Pow2Monotone(m, n - 1);
    }
  }

  /** The widths used by the emulator. */
  lemma Pow2Widths()
    ensures Pow2(1) == 2 && Pow2(8) == 256 && Pow2(12) == 4096 && Pow2(16) == 65536
  {
  }
}
