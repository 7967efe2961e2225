/** The alignment masks of source/types.h on addresses of `n` bits, for alignments that are powers of two. */
module Align {
  import opened Words

  /** `ALIGN_DOWN(x, a)`: and with the complement of `a - 1`. */
  function AlignDown(n: nat, x: nat, a: nat): nat
    requires 0 < a <= Pow2(n)
  {
    And(x, Pow2(n) - 1 - (a - 1))
  }

  /** `ALIGN_UP(x, a)`: the sum wraps around at the address width. */
  function AlignUp(n: nat, x: nat, a: nat): nat
    requires 0 < a <= Pow2(n)
  {
    And(Wrap(n, x + (a - 1)), Pow2(n) - 1 - (a - 1))
  }

  function Times(q: int, a: nat): int {
    q * a
  }

  ghost predicate IsMultiple(x: int, a: nat) {
    exists q :: x == Times(q, a)
  }

  /** The greatest multiple of `a` that is not above `x`. */
  ghost predicate IsFloor(r: int, x: int, a: nat) {
    r <= x && IsMultiple(r, a) && forall m :: IsMultiple(m, a) && m <= x ==> m <= r
  }

  /** The least multiple of `a` that is not below `x`. */
  ghost predicate IsCeiling(r: int, x: int, a: nat) {
    x <= r && IsMultiple(r, a) && forall m :: IsMultiple(m, a) && x <= m ==> r <= m
  }

  /** Neighbouring multiples of `a` are at least `a` apart. */
  lemma MultiplesApart(r: int, m: int, a: nat)
    requires a > 0 && IsMultiple(r, a) && IsMultiple(m, a)
    requires r < m
    ensures r + a <= m
  {
    var q :| r == Times(q, a);
    var p :| m == Times(p, a);
    if p <= q {
      MulMonotone(a, p, q);
    } else {
      MulMonotone(a, q + 1, p);
      assert (q + 1) * a == q * a + a;
    }
  }

  lemma FloorByRemainder(x: nat, a: nat)
    requires a > 0
    ensures IsMultiple(x - x % a, a) && 0 <= x % a < a
    ensures IsFloor(x - x % a, x, a)
  {
    assert x == a * (x / a) + x % a;
    var r := x - x % a;
    assert r == Times(x / a, a);
    forall m | IsMultiple(m, a) && m <= x ensures m <= r {
      if m > r {
        MultiplesApart(r, m, a);
      }
    }
  }

  lemma MaskClears(n: nat, x: nat, k: nat)
    requires k <= n && x < Pow2(n)
    ensures 0 < Pow2(k) <= Pow2(n)
    ensures AlignDown(n, x, Pow2(k)) == x - x % Pow2(k)
  {
    Pow2Monotone(k, n);
    AndHighMask(n, k, x);
  }

  /** For a power of two, `ALIGN_DOWN` is the greatest multiple not above the address. */
  lemma AlignDownIsFloor(n: nat, x: nat, k: nat)
    requires k <= n && x < Pow2(n)
    ensures 0 < Pow2(k) <= Pow2(n)
    ensures IsFloor(AlignDown(n, x, Pow2(k)), x, Pow2(k))
  {
    MaskClears(n, x, k);
    FloorByRemainder(x, Pow2(k));
  }

  /** Rounding down what was raised by `a - 1` is rounding up. */
  lemma CeilingByRemainder(x: nat, a: nat)
    requires a > 0
    ensures var y := x + (a - 1); IsCeiling(y - y % a, x, a)
  {
    var y := x + (a - 1);
    FloorByRemainder(y, a);
    var r := y - y % a;
    forall m | IsMultiple(m, a) && x <= m ensures r <= m {
      if m < r {
        MultiplesApart(m, r, a);
      }
    }
  }

  lemma RemainderOfSmall(v: nat, d: nat)
    requires v < d
    ensures v % d == v
  {
  }

  lemma WrapOnce(n: nat, v: nat)
    requires v < 2 * Pow2(n)
    ensures Wrap(n, v) == if v < Pow2(n) then v else v - Pow2(n)
  {
    if v < Pow2(n) {
      DivModUnique(v, Pow2(n), 0, v);
    } else {
      DivModUnique(v, Pow2(n), 1, v - Pow2(n));
    }
  }

  /**
   For a power of two, `ALIGN_UP` is the least multiple not below the address exactly when raising
   the address does not leave the address width; otherwise the result is zero.
   */
  lemma AlignUpIsCeiling(n: nat, x: nat, k: nat)
    requires k <= n && x < Pow2(n)
    ensures 0 < Pow2(k) <= Pow2(n)
    ensures IsCeiling(AlignUp(n, x, Pow2(k)), x, Pow2(k)) <==> x + (Pow2(k) - 1) < Pow2(n)
    ensures x + (Pow2(k) - 1) >= Pow2(n) ==> AlignUp(n, x, Pow2(k)) == 0
  {
    Pow2Monotone(k, n);
    var a := Pow2(k);
    var y := x + (a - 1);
    WrapOnce(n, y);
    MaskClears(n, Wrap(n, y), k);
    if y < Pow2(n) {
      CeilingByRemainder(x, a);
    } else {
      RemainderOfSmall(y - Pow2(n), a);
    }
  }
}
