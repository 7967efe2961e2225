/**
 The carry, borrow and overflow flags of source/idadefs.h at a symbolic width, and the test that a
 multiplication does not overflow.

 Operands are the integers the C++ values stand for; `n` is the width of the wider operand. The
 parameter `inverted` is `SUB_WITH_CARRY`: on some processors the borrow is kept inverted.
 */
module Flags {
  import opened Words

  /** A flag as the templates return it. */
  type Flag = f: int | 0 <= f <= 1

  function ToFlag(b: bool): Flag {
    if b then 1 else 0
  }

  function Xor(a: Flag, b: Flag): Flag {
    ToFlag(a != b)
  }

  function BitAnd(a: Flag, b: Flag): Flag {
    ToFlag(a == 1 && b == 1)
  }

  // ----- the templates

  function Sets(n: nat, x: int): Flag
    requires n > 0
  {
    ToFlag(Signed(n, x) < 0)
  }

  function OfSub(n: nat, x: int, y: int): Flag
    requires n > 0
  {
    var sx := Sets(n, x);
    BitAnd(Xor(sx, Sets(n, y)), Xor(sx, Sets(n, x - y)))
  }

  function OfAdd(n: nat, x: int, y: int): Flag
    requires n > 0
  {
    var sx := Sets(n, x);
    BitAnd(Xor(Xor(1, sx), Sets(n, y)), Xor(sx, Sets(n, x + y)))
  }

  function CfSub(n: nat, x: int, y: int, inverted: bool): Flag {
    var res := Wrap(n, x) < Wrap(n, y);
    ToFlag(if inverted then !res else res)
  }

  function CfAdd(n: nat, x: int, y: int): Flag {
    ToFlag(Wrap(n, x) > Wrap(n, x + y))
  }

  /** The carry that takes part in a subtraction. */
  function CarryIn(cf: Flag, inverted: bool): Flag {
    if inverted then 1 - cf else cf
  }

  function CfSub3(n: nat, x: int, y: int, cf: Flag, inverted: bool): Flag {
    var c := CarryIn(cf, inverted);
    Xor(CfAdd(n, y, c), CfSub(n, x, y + c, inverted))
  }

  function OfSub3(n: nat, x: int, y: int, cf: Flag, inverted: bool): Flag
    requires n > 0
  {
    var c := CarryIn(cf, inverted);
    Xor(OfAdd(n, y, c), OfSub(n, x, y + c))
  }

  // ----- wrapping

  lemma WrapUnique(n: nat, x: int, q: int, r: nat)
    requires r < Pow2(n) && x == q * Pow2(n) + r
    ensures Wrap(n, x) == r
  {
    DivModUnique(x, Pow2(n), q, r);
  }

  lemma WrapQuotient(n: nat, x: int) returns (q: int)
    ensures x == q * Pow2(n) + Wrap(n, x)
  {
    q := x / Pow2(n);
    assert x == Pow2(n) * q + x % Pow2(n);
  }

  lemma WrapSum(n: nat, x: int, y: int)
    ensures var (u, v) := (Wrap(n, x), Wrap(n, y));
      Wrap(n, x + y) == if u + v < Pow2(n) then u + v else u + v - Pow2(n)
  {
    var p := WrapQuotient(n, x);
    var q := WrapQuotient(n, y);
    var u, v := Wrap(n, x), Wrap(n, y);
    var d := Pow2(n);
    assert (p + q) * d == p * d + q * d;
    if u + v < d {
      WrapUnique(n, x + y, p + q, u + v);
    } else {
      assert (p + q + 1) * d == (p + q) * d + d;
      WrapUnique(n, x + y, p + q + 1, u + v - d);
    }
  }

  lemma WrapDifference(n: nat, x: int, y: int)
    ensures var (u, v) := (Wrap(n, x), Wrap(n, y));
      Wrap(n, x - y) == if u >= v then u - v else u - v + Pow2(n)
  {
    WrapSum(n, x - y, y);
  }

  lemma WrapOfSmall(n: nat, x: nat)
    requires x < Pow2(n)
    ensures Wrap(n, x) == x
  {
    WrapUnique(n, x, 0, x);
  }

  // ----- what the flags mean

  /** Values an `n`-bit signed type holds. */
  predicate InRange(n: nat, x: int)
    requires n > 0
  {
    -(Pow2(n - 1) as int) <= x < Pow2(n - 1)
  }

  /** Carry of an addition: the exact unsigned sum does not fit, and exactly then the stored sum differs from it. */
  lemma CarryOfSum(n: nat, x: int, y: int)
    ensures CfAdd(n, x, y) == 1 <==> Wrap(n, x) + Wrap(n, y) >= Pow2(n)
    ensures CfAdd(n, x, y) == 1 <==> Wrap(n, x + y) != Wrap(n, x) + Wrap(n, y)
  {
    WrapSum(n, x, y);
  }

  /** Borrow of a subtraction: the stored difference is not the exact one. The flag is the borrow, or its inverse. */
  lemma BorrowOfDifference(n: nat, x: int, y: int, inverted: bool)
    ensures (CfSub(n, x, y, inverted) == 1) != inverted <==> Wrap(n, x - y) != Wrap(n, x) - Wrap(n, y)
  {
    WrapDifference(n, x, y);
  }

  /** Overflow of an addition: the exact signed sum is out of range. */
  lemma OverflowOfSum(n: nat, x: int, y: int)
    requires n > 0
    ensures OfAdd(n, x, y) == 1 <==> !InRange(n, Signed(n, x) + Signed(n, y))
    ensures OfAdd(n, x, y) == 1 <==> Signed(n, x + y) != Signed(n, x) + Signed(n, y)
  {
    WrapSum(n, x, y);
  }

  /** Overflow of a subtraction: the exact signed difference is out of range. */
  lemma OverflowOfDifference(n: nat, x: int, y: int)
    requires n > 0
    ensures OfSub(n, x, y) == 1 <==> !InRange(n, Signed(n, x) - Signed(n, y))
    ensures OfSub(n, x, y) == 1 <==> Signed(n, x - y) != Signed(n, x) - Signed(n, y)
  {
    WrapDifference(n, x, y);
  }

  /**
   The three-argument borrow. Where the flag is the borrow, it is that of `x - y - cf`; where the flag is kept
   inverted, it is set exactly if `x - y - (1 - cf)` does not borrow.
   */
  lemma BorrowWithCarry(n: nat, x: int, y: int, cf: Flag, inverted: bool)
    requires n > 0
    ensures !inverted ==> (CfSub3(n, x, y, cf, inverted) == 1 <==> Wrap(n, x) - Wrap(n, y) - cf < 0)
    ensures inverted ==> (CfSub3(n, x, y, cf, inverted) == 1 <==> Wrap(n, x) - Wrap(n, y) - (1 - cf) >= 0)
  {
    var c := CarryIn(cf, inverted);
    WrapOfSmall(n, c);
    WrapSum(n, y, c);
  }

  /** The overflow of `x - y - cf` or, where the flag is kept inverted, of `x - y - (1 - cf)`. */
  lemma OverflowWithCarry(n: nat, x: int, y: int, cf: Flag, inverted: bool)
    requires n > 1
    ensures !inverted ==>
      (OfSub3(n, x, y, cf, inverted) == 1 <==> !InRange(n, Signed(n, x) - Signed(n, y) - cf))
    ensures inverted ==>
      (OfSub3(n, x, y, cf, inverted) == 1 <==> !InRange(n, Signed(n, x) - Signed(n, y) - (1 - cf)))
  {
    var c := CarryIn(cf, inverted);
    WrapOfSmall(n, c);
    WrapSum(n, y, c);
    OverflowOfSum(n, y, c);
    OverflowOfDifference(n, x, y + c);
  }

  /**
   If the inner sum `y + cf` is kept at a wider type, as integer promotion does for operands narrower
   than `int`, the borrow is right exactly when that sum does not leave the narrow type.
   */
  lemma BorrowUnderPromotion(n: nat, m: nat, x: nat, y: nat, cf: Flag)
    requires 0 < n < m && x < Pow2(n) && y < Pow2(n)
    ensures Xor(CfAdd(n, y, cf), CfSub(m, x, y + cf, false)) == ToFlag(x - y - cf < 0) <==> y + cf < Pow2(n)
  {
    Pow2Monotone(n + 1, m);
    WrapOfSmall(n, cf);
    WrapOfSmall(n, y);
    WrapSum(n, y, cf);
    WrapOfSmall(m, x);
    WrapOfSmall(m, y + cf);
  }

  /** 0 - 255 - 1 on bytes borrows, but not in the flags when 255 + 1 is kept as 256. */
  lemma BorrowUnderPromotionExample()
    ensures Xor(CfAdd(8, 255, 1), CfSub(32, 0, 256, false)) == 0 && 0 - 255 - 1 < 0
  {
    assert Pow2(8) == 256;
    Pow2Monotone(9, 32);
    BorrowUnderPromotion(8, 32, 0, 255, 1);
  }

  /**
   The same for the overflow: the promoted difference never leaves the wider type, so that the flag only
   tells whether the inner sum does; it is right exactly if that decides the overflow of the whole.
   */
  lemma OverflowUnderPromotion(n: nat, m: nat, x: int, y: int, cf: Flag)
    requires 1 < n < m && InRange(n, x) && InRange(n, y)
    ensures var flag := Xor(OfAdd(n, y, cf), OfSub(m, x, y + cf));
      && (flag == 1 <==> !InRange(n, y + cf))
      && (flag == ToFlag(!InRange(n, x - y - cf)) <==> if InRange(n, y + cf) then InRange(n, x - y - cf) else x < 0)
  {
    Pow2Monotone(n, m - 1);
    NarrowSum(n, y, cf);
    NarrowDifference(m, x, y + cf);
  }

  /** -128 - 1 overflows a byte, and the promoted flags do not say so. */
  lemma OverflowUnderPromotionExample()
    ensures Xor(OfAdd(8, 1, 0), OfSub(32, -128, 1)) == 0 && !InRange(8, -128 - 1)
  {
    assert Pow2(7) == 128;
    OverflowUnderPromotion(8, 32, -128, 1, 0);
  }

  /**
   An unsigned second operand of `m` bits, narrower than the first of `n`: the borrow of `x - y - c` is
   right exactly if `y + c` fits the second operand's type, or the first operand would fit it too.
   */
  lemma BorrowOfNarrow(n: nat, m: nat, x: nat, y: nat, cf: Flag)
    requires 0 < m < n && x < Pow2(n) && y < Pow2(m)
    ensures Xor(CfAdd(m, y, cf), CfSub(n, x, Wrap(m, y + cf), false)) == ToFlag(x - y - cf < 0)
      <==> y + cf < Pow2(m) || x < Pow2(m)
  {
    Pow2Monotone(m, n);
    WrapOfSmall(m, cf);
    WrapOfSmall(m, y);
    WrapSum(m, y, cf);
    WrapOfSmall(n, x);
    WrapOfSmall(n, Wrap(m, y + cf));
  }

  /** 256 - 255 - 1 with a carry does not borrow, but the flags say so when 255 is a byte. */
  lemma BorrowOfNarrowExample()
    ensures Pow2(16) == 65536 && Pow2(8) == 256
    ensures Xor(CfAdd(8, 255, 1), CfSub(16, 256, Wrap(8, 256), false)) == 1 && 256 - 255 - 1 == 0
  {
    assert Pow2(8) == 256 && Pow2(16) == 65536;
    BorrowOfNarrow(16, 8, 256, 255, 1);
  }

  /**
   A signed second operand of `m` bits, narrower than the first of `n`: the overflow of `x - y - c` is
   right exactly if `y + c` stays in the second operand's range, or the first operand is closer to an end
   of its own range than the second's is wide.
   */
  lemma OverflowOfNarrow(n: nat, m: nat, x: int, y: int, cf: Flag)
    requires 1 < m < n && InRange(n, x) && InRange(m, y)
    ensures Xor(OfAdd(m, y, cf), OfSub(n, x, Signed(m, y + cf))) == ToFlag(!InRange(n, x - y - cf))
      <==> InRange(m, y + cf) || !InRange(n, x - Pow2(m - 1)) || !InRange(n, x + Pow2(m - 1))
  {
    var p, q := Pow2(m - 1), Pow2(n - 1);
    Pow2Monotone(m, n - 1);
    NarrowSum(m, y, cf);
    NarrowDifference(n, x, Signed(m, y + cf));
    NarrowFlags(p, q, x, y, cf, Signed(m, y + cf), OfAdd(m, y, cf), OfSub(n, x, Signed(m, y + cf)));
  }

  /** 0 - 127 - 1 does not overflow sixteen bits, but the flags say so when 127 is a byte. */
  lemma OverflowOfNarrowExample()
    ensures Pow2(7) == 128 && InRange(16, 0 - 127 - 1)
    ensures Xor(OfAdd(8, 127, 1), OfSub(16, 0, Signed(8, 127 + 1))) != ToFlag(!InRange(16, 0 - 127 - 1))
  {
    assert Pow2(7) == 128;
    Pow2Monotone(8, 15);
    OverflowOfNarrow(16, 8, 0, 127, 1);
  }

  /**
   A signed second operand, narrower than the first: the borrow, of operands taken as unsigned words of the
   wider type, is right exactly if the inner sum stays in range or the first operand is within its reach.
   */
  lemma BorrowOfNarrowSigned(n: nat, m: nat, x: nat, y: int, cf: Flag)
    requires 1 < m < n && x < Pow2(n) && InRange(m, y)
    ensures Xor(CfAdd(m, y, cf), CfSub(n, x, Signed(m, y + cf), false)) == ToFlag(x - Wrap(n, y) - cf < 0)
      <==> InRange(m, y + cf) || x < Pow2(m - 1) || x >= Pow2(n) - Pow2(m - 1)
  {
    var p := Pow2(m - 1);
    Pow2Monotone(m, n);
    Pow2Monotone(m + 1, n);
    NarrowSum(m, y, cf);
    WrapOfSmall(n, x);
    WrapInRange(n, y);
    WrapInRange(m, y);
    WrapOfSmall(m, cf);
    WrapSum(m, y, cf);
    WrapInRange(n, Signed(m, y + cf));
    NarrowBorrow(p, Pow2(n), x, y, cf, Signed(m, y + cf), Wrap(n, y), Wrap(n, Signed(m, y + cf)),
      CfAdd(m, y, cf), CfSub(n, x, Signed(m, y + cf), false));
  }

  lemma WrapInRange(n: nat, x: int)
    requires n > 0 && InRange(n, x)
    ensures Wrap(n, x) == if x < 0 then x + Pow2(n) else x
  {
    WrapUnique(n, x, if x < 0 then -1 else 0, if x < 0 then x + Pow2(n) else x);
  }

  /** The same in numbers, with `p` half the size of the narrow type and `w` the size of the wide one. */
  lemma NarrowBorrow(p: int, w: int, x: int, y: int, cf: Flag, s: int, uy: int, us: int, inner: Flag, outer: Flag)
    requires 2 * p < w && 0 <= x < w && -p <= y < p
    requires s == if y + cf < p then y + cf else -p
    requires uy == (if y < 0 then y + w else y) && us == (if s < 0 then s + w else s)
    requires inner == 1 <==> y < 0 && y + cf >= 0
    requires outer == 1 <==> x < us
    ensures Xor(inner, outer) == ToFlag(x - uy - cf < 0) <==> y + cf < p || x < p || x >= w - p
  {
  }

  /**
   An unsigned second operand, narrower than the first: the overflow is never right when the operand is the
   largest signed value of its type and there is a carry, and when the sum wraps to zero only while the
   exact difference does not overflow.
   */
  lemma OverflowOfNarrowUnsigned(n: nat, m: nat, x: int, y: nat, cf: Flag)
    requires 1 < m < n && InRange(n, x) && y < Pow2(m)
    ensures Xor(OfAdd(m, y, cf), OfSub(n, x, Wrap(m, y + cf))) == ToFlag(!InRange(n, x - y - cf))
      <==> cf == 0 || (y != Pow2(m - 1) - 1 && (y + 1 < Pow2(m) || InRange(n, x - Pow2(m))))
  {
    Pow2Monotone(m, n - 1);
    var s := Wrap(m, y + cf);
    WrapOfSmall(m, y);
    WrapOfSmall(m, cf);
    WrapSum(m, y, cf);
    SignedInRange(m, cf);
    OverflowOfSum(m, y, cf);
    NarrowDifference(n, x, s);
    NarrowUnsigned(Pow2(m - 1), Pow2(n - 1), x, y, cf, s, OfAdd(m, y, cf), OfSub(n, x, s));
  }

  lemma NarrowUnsigned(p: int, q: int, x: int, y: int, cf: Flag, s: int, inner: Flag, outer: Flag)
    requires 2 * p <= q && p > 1 && -q <= x < q && 0 <= y < 2 * p
    requires s == if y + cf < 2 * p then y + cf else y + cf - 2 * p
    requires var z := if y < p then y else y - 2 * p; inner == 1 <==> !(-p <= z + cf < p)
    requires outer == 1 <==> !(-q <= x - s < q)
    ensures Xor(inner, outer) == ToFlag(!(-q <= x - y - cf < q))
      <==> cf == 0 || (y != p - 1 && (y + 1 < 2 * p || -q <= x - 2 * p < q))
  {
  }

  /** The inner sum and its overflow flag: it leaves the range only upwards, and then wraps to the lowest value. */
  lemma NarrowSum(m: nat, y: int, cf: Flag)
    requires m > 1 && InRange(m, y)
    ensures OfAdd(m, y, cf) == 1 <==> !InRange(m, y + cf)
    ensures Signed(m, y + cf) == if InRange(m, y + cf) then y + cf else -(Pow2(m - 1) as int)
  {
    SignedInRange(m, y);
    SignedInRange(m, cf);
    OverflowOfSum(m, y, cf);
    if InRange(m, y + cf) {
      SignedInRange(m, y + cf);
    } else {
      WrapOfSmall(m, y + cf);
    }
  }

  lemma NarrowDifference(n: nat, x: int, s: int)
    requires n > 0 && InRange(n, x) && InRange(n, s)
    ensures OfSub(n, x, s) == 1 <==> !InRange(n, x - s)
  {
    SignedInRange(n, x);
    SignedInRange(n, s);
    OverflowOfDifference(n, x, s);
  }

  /** The same in numbers, with `p` and `q` half the sizes of the two types. */
  lemma NarrowFlags(p: int, q: int, x: int, y: int, cf: Flag, s: int, inner: Flag, outer: Flag)
    requires 2 * p <= q && -q <= x < q && -p <= y < p
    requires s == if y + cf < p then y + cf else -p
    requires inner == 1 <==> y + cf >= p
    requires outer == 1 <==> !(-q <= x - s < q)
    ensures Xor(inner, outer) == ToFlag(!(-q <= x - y - cf < q)) <==> y + cf < p || x - p < -q || x + p >= q
  {
  }

  lemma SignedInRange(n: nat, x: int)
    requires n > 0 && InRange(n, x)
    ensures Signed(n, x) == x
  {
    WrapUnique(n, x, if x < 0 then -1 else 0, if x < 0 then x + Pow2(n) else x);
  }

  // ----- multiplication

  /** `is_mul_ok` for a type whose largest value is `max`. */
  predicate IsMulOk(max: nat, count: nat, elsize: nat) {
    if elsize == 0 || count == 0 then true else count <= max / elsize
  }

  /** The test holds exactly when the exact product fits. */
  lemma MulOkIsExact(max: nat, count: nat, elsize: nat)
    ensures IsMulOk(max, count, elsize) <==> count * elsize <= max
  {
    if elsize > 0 && count > 0 {
      DivBounds(max, elsize);
      var q := max / elsize;
      if count <= q {
        MulMonotone(elsize, count, q);
      } else {
        MulMonotone(elsize, q + 1, count);
      }
    }
  }

  /** `saturated_mul`: declared to return `bool`, so that its number is converted to a truth value. */
  function SaturatedMul(max: nat, count: nat, elsize: nat): bool {
    (if IsMulOk(max, count, elsize) then count * elsize else max) != 0
  }

  /**
   The function only tells whether the product is zero. As a number its result is the product, capped
   at the largest value, exactly when that is at most one.
   */
  lemma SaturatedMulIsTest(max: nat, count: nat, elsize: nat)
    requires max > 0
    ensures SaturatedMul(max, count, elsize) <==> count != 0 && elsize != 0
    ensures ToFlag(SaturatedMul(max, count, elsize)) == (if count * elsize <= max then count * elsize else max)
      <==> count * elsize <= 1 || max == 1
  {
  }

  /** Two times three elements: the promised product is 6, the returned value is 1. */
  lemma SaturatedMulExample()
    ensures ToFlag(SaturatedMul(255, 2, 3)) == 1
    ensures IsMulOk(255, 2, 3) && 2 * 3 == 6
  {
  }
}
