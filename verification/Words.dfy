/** Machine words of a symbolic width: powers of two, bits, shifts and bitwise operators on naturals. */
module Words {

  function Pow2(n: nat): (p: nat)
    ensures p > 0
  {
    if n == 0 then 1 else 2 * Pow2(n - 1)
  }

  /** The value of an integer expression converted to an unsigned type of `n` bits. */
  function Wrap(n: nat, x: int): (u: nat)
    ensures u < Pow2(n)
  {
    x % Pow2(n)
  }

  /** The value of an integer expression converted to a signed type of `n` bits. */
  function Signed(n: nat, x: int): int
    requires n > 0
  {
    var u := Wrap(n, x);
    if u < Pow2(n - 1) then u else u - Pow2(n)
  }

  /** Bit `i` of a word, counted from the least significant one. */
  predicate Bit(v: nat, i: nat)
    decreases i
  {
    if i == 0 then v % 2 == 1 else Bit(v / 2, i - 1)
  }

  function ShiftLeft(v: nat, k: nat): nat
    decreases k
  {
    if k == 0 then v else 2 * ShiftLeft(v, k - 1)
  }

  function ShiftRight(v: nat, k: nat): nat
    decreases k
  {
    if k == 0 then v else ShiftRight(v / 2, k - 1)
  }

  /** The low `n` bits: conversion of a natural number to an unsigned type of `n` bits. */
  function Low(n: nat, v: nat): (u: nat)
    ensures u < Pow2(n)
    decreases n
  {
    if n == 0 then 0 else 2 * Low(n - 1, v / 2) + v % 2
  }

  /** Bitwise or. */
  function Or(a: nat, b: nat): nat {
    if a == 0 && b == 0 then 0
    else 2 * Or(a / 2, b / 2) + (if a % 2 == 1 || b % 2 == 1 then 1 else 0)
  }

  /** Bitwise and. */
  function And(a: nat, b: nat): nat
  {
    if a == 0 || b == 0 then 0
    else 2 * And(a / 2, b / 2) + (if a % 2 == 1 && b % 2 == 1 then 1 else 0)
  }

  // ----- powers of two

  lemma {:induction false} Pow2Add(m: nat, n: nat)
    ensures Pow2(m + n) == Pow2(m) * Pow2(n)
  {
    if m > 0 {
      Pow2Add(m - 1, n);
      assert Pow2(m + n) == 2 * Pow2(m - 1 + n);
      assert 2 * (Pow2(m - 1) * Pow2(n)) == (2 * Pow2(m - 1)) * Pow2(n);
    }
  }

  lemma {:induction false} Pow2Monotone(m: nat, n: nat)
    requires m <= n
    ensures Pow2(m) <= Pow2(n)
  {
    if m < n {
      Pow2Monotone(m, n - 1);
    }
  }

  // ----- division

  /** Quotient and remainder are determined by the equation and the bound. */
  lemma DivModUnique(x: int, d: int, q: int, r: int)
    requires d > 0 && x == q * d + r && 0 <= r < d
    ensures x / d == q && x % d == r
  {
    var q2, r2 := x / d, x % d;
    assert x == d * q2 + r2;
    assert (q - q2) * d == r2 - r;
    if q > q2 {
      MulGe(q - q2, d);
    } else if q < q2 {
      MulGe(q2 - q, d);
    }
  }

  lemma MulGe(k: int, d: int)
    requires k >= 1 && d > 0
    ensures k * d >= d
  {
  }

  lemma DivBounds(v: nat, d: nat)
    requires d > 0
    ensures v / d * d <= v < (v / d + 1) * d
  {
  }

  lemma MulMonotone(a: nat, x: int, y: int)
    requires x <= y
    ensures x * a <= y * a
  {
  }

  // ----- bits

  lemma {:induction false} BitShiftRight(v: nat, k: nat, i: nat)
    ensures Bit(ShiftRight(v, k), i) == Bit(v, i + k)
    decreases k
  {
    if k > 0 {
      BitShiftRight(v / 2, k - 1, i);
    }
  }

  lemma {:induction false} BitLow(n: nat, v: nat, i: nat)
    ensures Bit(Low(n, v), i) == (i < n && Bit(v, i))
    decreases i, n
  {
    if n == 0 {
      BitZero(i);
    } else if i > 0 {
      BitLow(n - 1, v / 2, i - 1);
    }
  }

  lemma {:induction false} BitZero(i: nat)
    ensures !Bit(0, i)
  {
    if i > 0 {
      BitZero(i - 1);
    }
  }

  /** The bits of a word put together from a high part and `k` low bits. */
  lemma {:induction false} BitOfSplit(hi: nat, lo: nat, k: nat, i: nat)
    requires lo < Pow2(k)
    ensures Bit(ShiftLeft(hi, k) + lo, i) == if i < k then Bit(lo, i) else Bit(hi, i - k)
    decreases k
  {
    if k > 0 {
      assert (ShiftLeft(hi, k) + lo) / 2 == ShiftLeft(hi, k - 1) + lo / 2;
      if i > 0 {
        BitOfSplit(hi, lo / 2, k - 1, i - 1);
      }
    }
  }

  /** Words with equal bits are equal. */
  lemma {:induction false} BitsDetermine(n: nat, a: nat, b: nat)
    requires a < Pow2(n) && b < Pow2(n)
    requires forall i :: 0 <= i < n ==> Bit(a, i) == Bit(b, i)
    ensures a == b
  {
    if n > 0 {
      assert Bit(a, 0) == Bit(b, 0);
      forall i | 0 <= i < n - 1 ensures Bit(a / 2, i) == Bit(b / 2, i) {
        assert Bit(a, i + 1) == Bit(b, i + 1);
      }
      BitsDetermine(n - 1, a / 2, b / 2);
    }
  }

  /** Or of a word shifted to the left and something below the vacated bits is their sum. */
  lemma {:induction false} OrDisjoint(hi: nat, lo: nat, k: nat)
    requires lo < Pow2(k)
    ensures Or(ShiftLeft(hi, k), lo) == ShiftLeft(hi, k) + lo
    ensures Or(lo, ShiftLeft(hi, k)) == ShiftLeft(hi, k) + lo
    decreases k
  {
    if k == 0 {
      OrZero(hi);
    } else {
      OrDisjoint(hi, lo / 2, k - 1);
    }
  }

  // ----- shifts as arithmetic

  lemma {:induction false} ShiftLeftIsTimes(v: nat, k: nat)
    ensures ShiftLeft(v, k) == v * Pow2(k)
    decreases k
  {
    if k > 0 {
      ShiftLeftIsTimes(v, k - 1);
      assert 2 * (v * Pow2(k - 1)) == v * (2 * Pow2(k - 1));
    }
  }

  /** The parts a word splits into at bit `k`. */
  lemma {:induction false} SplitAt(v: nat, k: nat)
    ensures v == ShiftLeft(ShiftRight(v, k), k) + Low(k, v)
    decreases k
  {
    if k > 0 {
      SplitAt(v / 2, k - 1);
    }
  }

  lemma ShiftRightIsDiv(v: nat, k: nat)
    ensures ShiftRight(v, k) == v / Pow2(k)
    ensures Low(k, v) == v % Pow2(k)
  {
    SplitAt(v, k);
    ShiftLeftIsTimes(ShiftRight(v, k), k);
    DivModUnique(v, Pow2(k), ShiftRight(v, k), Low(k, v));
  }

  /** A word of `m + k` bits, shifted right by `k`, has `m` bits. */
  lemma {:induction false} ShiftRightBound(v: nat, m: nat, k: nat)
    requires v < Pow2(m + k)
    ensures ShiftRight(v, k) < Pow2(m)
    decreases k
  {
    if k > 0 {
      ShiftRightBound(v / 2, m, k - 1);
    }
  }

  /** Parts of `m` and `k` bits make a word of `m + k` bits. */
  lemma {:induction false} SplitBound(hi: nat, lo: nat, m: nat, k: nat)
    requires hi < Pow2(m) && lo < Pow2(k)
    ensures ShiftLeft(hi, k) + lo < Pow2(m + k)
    decreases k
  {
    if k > 0 {
      SplitBound(hi, lo / 2, m, k - 1);
    }
  }

  /** Truncating a left shift to `m + k` bits keeps the low `m` bits. */
  lemma {:induction false} LowShiftLeft(v: nat, m: nat, k: nat)
    ensures Low(m + k, ShiftLeft(v, k)) == ShiftLeft(Low(m, v), k)
    decreases k
  {
    if k > 0 {
      LowShiftLeft(v, m, k - 1);
    }
  }

  lemma {:induction false} LowOfSmall(n: nat, v: nat)
    requires v < Pow2(n)
    ensures Low(n, v) == v
    decreases n
  {
    if n > 0 {
      LowOfSmall(n - 1, v / 2);
    }
  }

  lemma {:induction false} OrZero(a: nat)
    ensures Or(a, 0) == a && Or(0, a) == a
  {
    if a > 0 {
      OrZero(a / 2);
    }
  }

  /** And with the mask of all bits from `k` up to `n` clears the low `k` bits. */
  lemma {:induction false} AndHighMask(n: nat, k: nat, x: nat)
    requires k <= n && x < Pow2(n)
    ensures Pow2(n) >= Pow2(k)
    ensures And(x, Pow2(n) - Pow2(k)) == x - x % Pow2(k)
    decreases n
  {
    Pow2Monotone(k, n);
    if k == 0 {
      AndAllOnes(n, x);
    } else {
      AndHighMask(n - 1, k - 1, x / 2);
      ModHalf(x, k);
      AndEven(x, Pow2(n - 1) - Pow2(k - 1));
    }
  }

  lemma AndEven(x: nat, half: nat)
    ensures And(x, 2 * half) == 2 * And(x / 2, half)
  {
  }

  lemma ModHalf(x: nat, k: nat)
    requires k > 0
    ensures x - x % Pow2(k) == 2 * (x / 2 - x / 2 % Pow2(k - 1))
  {
    var d := Pow2(k - 1);
    var half := x / 2;
    var q, r := half / d, half % d;
    assert half == d * q + r;
    assert x == q * (2 * d) + (2 * r + x % 2) by {
      assert 2 * (d * q) == q * (2 * d);
    }
    DivModUnique(x, 2 * d, q, 2 * r + x % 2);
  }

  lemma {:induction false} AndAllOnes(n: nat, x: nat)
    requires x < Pow2(n)
    ensures And(x, Pow2(n) - 1) == x
    decreases n
  {
    if n > 0 {
      AndAllOnes(n - 1, x / 2);
      assert (Pow2(n) - 1) / 2 == Pow2(n - 1) - 1;
    }
  }
}
