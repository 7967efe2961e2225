/** The output sizes of `ResolutionHackConfig` in source/program/config.hpp, in exact arithmetic. */
module Resolution {
  import opened Settings
  import opened PatchConfigs

  /** The width of a 16:9 picture, rounded down. */
  function WidthForHeight(height: nat): nat {
    height * 16 / 9
  }

  function AlignEven(value: nat): nat {
    value - value % 2
  }

  function OutputHeightPx(target: nat): nat {
    AlignEven(target)
  }

  function OutputWidthPx(target: nat): nat {
    AlignEven(WidthForHeight(OutputHeightPx(target)))
  }

  /** The handheld scale as a fraction; a scale that is not positive stands for the default of 80 percent. */
  function HandheldScaleFraction(scale: real): real {
    if scale <= 0.0 then 80.0 * 0.01 else ClampReal(scale, 40.0, 100.0) * 0.01
  }

  function Scaled(f: real, target: nat): real {
    f * target as real
  }

  function OutputHandheldHeightPx(scale: real, target: nat): nat {
    ScaledHeight(scale, target);
    AlignEven(RoundHalfAway(Scaled(HandheldScaleFraction(scale), target)))
  }

  lemma ScaledHeight(scale: real, target: nat)
    ensures 0 <= RoundHalfAway(Scaled(HandheldScaleFraction(scale), target)) <= target
  {
  }

  lemma ScaledMonotone(f: real, g: real, a: nat, b: nat)
    requires 0.0 <= f <= g && a <= b
    ensures 0.0 <= Scaled(f, a) <= Scaled(g, b)
  {
  }

  /** The docked output has even sides, the largest height within the target and the largest width within 16:9. */
  lemma DockedIsEvenAndWide(target: nat)
    ensures var (w, h) := (OutputWidthPx(target), OutputHeightPx(target));
      w % 2 == 0 && h % 2 == 0 && 9 * w <= 16 * h < 9 * (w + 2) && target - 1 <= h <= target
  {
    EvenBelow(target);
    EvenBelow(WidthForHeight(OutputHeightPx(target)));
  }

  lemma EvenBelow(value: nat)
    ensures AlignEven(value) % 2 == 0 && value - 1 <= AlignEven(value) <= value
  {
  }

  lemma RoundMonotone(a: real, b: real)
    requires 0.0 <= a <= b
    ensures 0 <= RoundHalfAway(a) <= RoundHalfAway(b)
  {
  }

  lemma EvenMonotone(a: nat, b: nat)
    requires a <= b
    ensures AlignEven(a) <= AlignEven(b) && AlignEven(a) % 2 == 0
  {
  }

  lemma FractionMonotone(scale: real, larger: real)
    requires 0.0 < scale <= larger
    ensures 0.0 <= HandheldScaleFraction(scale) <= HandheldScaleFraction(larger)
  {
  }

  /** The handheld height is even and never above the docked one; for positive scales it grows with target and scale. */
  lemma HandheldBelowDocked(scale: real, target: nat, larger: real, higher: nat)
    ensures OutputHandheldHeightPx(scale, target) % 2 == 0
    ensures OutputHandheldHeightPx(scale, target) <= OutputHeightPx(target)
    ensures 0.0 < scale <= larger && target <= higher ==>
      OutputHandheldHeightPx(scale, target) <= OutputHandheldHeightPx(larger, higher)
  {
    var a := Scaled(HandheldScaleFraction(scale), target);
    ScaledHeight(scale, target);
    EvenMonotone(RoundHalfAway(a), target);
    if 0.0 < scale <= larger && target <= higher {
      FractionMonotone(scale, larger);
      var b := Scaled(HandheldScaleFraction(larger), higher);
      ScaledMonotone(HandheldScaleFraction(scale), HandheldScaleFraction(larger), target, higher);
      RoundMonotone(a, b);
      EvenMonotone(RoundHalfAway(a), RoundHalfAway(b));
    }
  }

  /** The handheld height is the scaled height, rounded and made even; a scale that is not positive means 80 percent. */
  lemma HandheldIsScaled(scale: real, target: nat)
    ensures var percent := if scale <= 0.0 then 80.0 else if scale < 40.0 then 40.0
      else if scale > 100.0 then 100.0 else scale;
      var h := OutputHandheldHeightPx(scale, target) as real;
      100.0 * h - 50.0 <= percent * target as real < 100.0 * h + 150.0
  {
    var percent := if scale <= 0.0 then 80.0 else if scale < 40.0 then 40.0 else if scale > 100.0 then 100.0 else scale;
    assert HandheldScaleFraction(scale) == percent * 0.01;
    var x := Scaled(HandheldScaleFraction(scale), target);
    assert 100.0 * x == percent * target as real;
    ScaledHeight(scale, target);
    RoundWithinHalf(x);
    EvenBelow(RoundHalfAway(x));
  }

  lemma RoundWithinHalf(x: real)
    requires x >= 0.0
    ensures x - 0.5 < RoundHalfAway(x) as real <= x + 0.5
  {
  }
}
