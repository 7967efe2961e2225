/** `__ROL__` of source/idadefs.h on unsigned words of a symbolic width. */
module Rotate {
  import opened Words

  /** Words narrower than an `int` are promoted before shifting, so that shifting by the full width is defined. */
  predicate Promoted(n: nat) {
    n < 32
  }

  /** The rotation by `count` places to the left; a negative count rotates to the right. */
  function RotateLeft(n: nat, v: nat, count: int): nat
    requires n > 0
  {
    Exchange(n, v, count % n)
  }

  /** The word with its top `k` bits moved below the others. */
  function Exchange(n: nat, v: nat, k: nat): nat
    requires k < n
  {
    ShiftLeft(Low(n - k, v), k) + ShiftRight(v, n - k)
  }

  /**
   The template as it runs: `count` is reduced first, then the two shifted halves, truncated to the
   type, are or-ed. At 32 bits and above a full-width shift is undefined, so multiples of the width
   are excluded there.
   */
  method Rol(n: nat, v: nat, count: int) returns (value: nat)
    requires n > 0 && v < Pow2(n)
    requires Promoted(n) || count % n != 0
    ensures value == RotateLeft(n, v, count)
  {
    value := v;
    if count > 0 {
      var k: nat := count % n;
      OrIsExchange(n, v, k);
      var high := Low(n, ShiftRight(value, n - k));
      value := Low(n, ShiftLeft(value, k));
      value := Or(value, high);
    } else {
      var k: nat := (-count) % n;
      Complement(n, count);
      if k == 0 {
        NoExchange(n, v);
        OrOfNoShift(n, v);
      } else {
        OrIsExchange(n, v, n - k);
      }
      var low := Low(n, ShiftLeft(value, n - k));
      value := ShiftRight(value, k);
      value := Or(value, low);
    }
  }

  /** The two shifted halves are what the parts of the word become. */
  lemma ShiftedHalves(n: nat, v: nat, k: nat)
    requires k < n && v < Pow2(n)
    ensures Low(n, ShiftLeft(v, k)) == ShiftLeft(Low(n - k, v), k)
    ensures Low(n, ShiftRight(v, n - k)) == ShiftRight(v, n - k) < Pow2(k)
  {
    LowShiftLeft(v, n - k, k);
    ShiftRightBound(v, k, n - k);
    Pow2Monotone(k, n);
    LowOfSmall(n, ShiftRight(v, n - k));
  }

  lemma OrOfHalves(left: nat, right: nat, part: nat, k: nat)
    requires right < Pow2(k) && left == ShiftLeft(part, k)
    ensures Or(left, right) == left + right && Or(right, left) == left + right
  {
    OrDisjoint(part, right, k);
  }

  lemma OrIsExchange(n: nat, v: nat, k: nat)
    requires k < n && v < Pow2(n)
    ensures Or(Low(n, ShiftLeft(v, k)), Low(n, ShiftRight(v, n - k))) == Exchange(n, v, k)
    ensures Or(ShiftRight(v, n - k), Low(n, ShiftLeft(v, k))) == Exchange(n, v, k)
  {
    ShiftedHalves(n, v, k);
    OrOfHalves(Low(n, ShiftLeft(v, k)), ShiftRight(v, n - k), Low(n - k, v), k);
  }

  /** Shifting by nothing to the right and by the full width to the left. */
  lemma OrOfNoShift(n: nat, v: nat)
    ensures Or(ShiftRight(v, 0), Low(n, ShiftLeft(v, n))) == v
  {
    LowShiftLeft(v, 0, n);
    ShiftLeftIsTimes(0, n);
    OrZero(v);
  }

  lemma NoExchange(n: nat, v: nat)
    requires n > 0 && v < Pow2(n)
    ensures Exchange(n, v, 0) == v
  {
    LowOfSmall(n, v);
    ShiftRightBound(v, 0, n);
  }

  /** The rotation as arithmetic, with `k` the count modulo the width. */
  lemma RotationFormula(n: nat, v: nat, count: int)
    requires n > 0 && v < Pow2(n)
    ensures RotateLeft(n, v, count) == (v * Pow2(count % n)) % Pow2(n) + v / Pow2(n - count % n)
  {
    var k: nat := count % n;
    LowShiftLeft(v, n - k, k);
    ShiftLeftIsTimes(v, k);
    ShiftRightIsDiv(ShiftLeft(v, k), n);
    ShiftRightIsDiv(v, n - k);
  }

  // ----- counts modulo the width

  lemma ModShift(x: int, a: int, n: nat)
    requires n > 0
    ensures (x % n - a) % n == (x - a) % n
  {
    var q, r := x / n, x % n;
    assert x == n * q + r;
    var q2, r2 := (r - a) / n, (r - a) % n;
    assert r - a == n * q2 + r2;
    assert x - a == (q + q2) * n + r2 by {
      assert (q + q2) * n == n * q + n * q2;
    }
    DivModUnique(x - a, n, q + q2, r2);
  }

  lemma SourceIndex(n: nat, x: int, q: int, i: nat)
    requires i < n && x == n * q + i
    ensures x % n == i
  {
    assert n * q == q * n;
    DivModUnique(x, n, q, i);
  }

  /** The complement of a count modulo the width. */
  lemma Complement(n: nat, count: int)
    requires n > 0
    ensures count % n == if (-count) % n == 0 then 0 else n - (-count) % n
  {
    var q, k := (-count) / n, (-count) % n;
    assert -count == n * q + k;
    if k == 0 {
      SourceIndex(n, count, -q, 0);
    } else {
      assert n * (-q - 1) == -(n * q) - n;
      SourceIndex(n, count, -q - 1, n - k);
    }
  }

  /** Where bit `t` of a rotated word comes from. */
  lemma SourceOf(n: nat, count: int, t: nat)
    requires t < n
    ensures (t - count) % n == if t < count % n then t - count % n + n else t - count % n
  {
    var q, k := count / n, count % n;
    assert count == n * q + k;
    if t < k {
      assert n * (-q - 1) == -(n * q) - n;
      SourceIndex(n, t - count, -q - 1, t - k + n);
    } else {
      assert n * (-q) == -(n * q);
      SourceIndex(n, t - count, -q, t - k);
    }
  }

  // ----- what a rotation is

  lemma ExchangedBit(n: nat, v: nat, k: nat, t: nat)
    requires k < n && v < Pow2(n) && t < n
    ensures Bit(Exchange(n, v, k), t) == Bit(v, if t < k then t - k + n else t - k)
    ensures Exchange(n, v, k) < Pow2(n)
  {
    ShiftRightBound(v, k, n - k);
    BitOfSplit(Low(n - k, v), ShiftRight(v, n - k), k, t);
    if t < k {
      BitShiftRight(v, n - k, t);
    } else {
      BitLow(n - k, v, t - k);
    }
    SplitBound(Low(n - k, v), ShiftRight(v, n - k), n - k, k);
  }

  /** What rotating means, bit by bit. */
  ghost predicate IsRotation(n: nat, v: nat, count: int, r: nat)
    requires n > 0
  {
    r < Pow2(n) && forall t :: 0 <= t < n ==> Bit(r, t) == Bit(v, (t - count) % n)
  }

  /** `__ROL__` is the rotation: its result has every bit in its new place, and no other word does. */
  lemma RotateLeftIsRotation(n: nat, v: nat, count: int, r: nat)
    requires n > 0 && v < Pow2(n)
    ensures IsRotation(n, v, count, r) <==> r == RotateLeft(n, v, count)
  {
    var k: nat := count % n;
    var x := Exchange(n, v, k);
    ExchangedBit(n, v, k, 0);
    forall t | 0 <= t < n ensures Bit(x, t) == Bit(v, (t - count) % n) {
      ExchangedBit(n, v, k, t);
      SourceOf(n, count, t);
    }
    if IsRotation(n, v, count, r) {
      BitsDetermine(n, r, x);
    }
  }

  lemma ComposedRotation(n: nat, v: nat, a: int, r: nat, b: int, x: nat)
    requires n > 0
    requires IsRotation(n, v, a, r) && IsRotation(n, r, b, x)
    ensures IsRotation(n, v, a + b, x)
  {
    forall t | 0 <= t < n ensures Bit(x, t) == Bit(v, (t - (a + b)) % n) {
      var s := (t - b) % n;
      assert Bit(x, t) == Bit(r, s);
      assert Bit(r, s) == Bit(v, (s - a) % n);
      ModShift(t - b, a, n);
      assert t - b - a == t - (a + b);
    }
  }

  /** Rotations compose by adding their counts. */
  lemma RotationsCompose(n: nat, v: nat, a: int, b: int)
    requires n > 0 && v < Pow2(n)
    ensures RotateLeft(n, RotateLeft(n, v, a), b) == RotateLeft(n, v, a + b)
  {
    var r := RotateLeft(n, v, a);
    RotateLeftIsRotation(n, v, a, r);
    var x := RotateLeft(n, r, b);
    RotateLeftIsRotation(n, r, b, x);
    ComposedRotation(n, v, a, r, b, x);
    RotateLeftIsRotation(n, v, a + b, x);
  }

  /** A rotation by a multiple of the width does nothing. */
  lemma FullRotation(n: nat, v: nat, q: int)
    requires n > 0 && v < Pow2(n)
    ensures RotateLeft(n, v, q * n) == v
  {
    assert n * q == q * n;
    SourceIndex(n, q * n, q, 0);
    NoExchange(n, v);
  }

  lemma NoRotation(n: nat, v: nat, zero: int)
    requires n > 0 && v < Pow2(n) && zero == 0
    ensures RotateLeft(n, v, zero) == v
  {
    FullRotation(n, v, 0);
    assert 0 * n == 0;
  }

  /** `__ROR__` by a count undoes `__ROL__` by it. */
  lemma RotationsInvert(n: nat, v: nat, a: int)
    requires n > 0 && v < Pow2(n)
    ensures RotateLeft(n, RotateLeft(n, v, a), -a) == v
  {
    RotationsCompose(n, v, a, -a);
    NoRotation(n, v, a + -a);
  }
}
