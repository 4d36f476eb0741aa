/**
 * The brightness step arithmetic of `increaseBrightness` and
 * `decreaseBrightness`: the delta is `(max / 100) * step` with Go's
 * truncating division performed BEFORE the multiplication, an increase is
 * clamped down to `max`, and a decrease that goes negative is replaced by 1.
 * Go's `int` is modelled as an unbounded `int` (no 64-bit wrap-around).
 */
module Brightness {

  datatype Direction = Up | Down

  /** Go's `m / 100`: truncates toward zero, unlike Dafny's Euclidean `/`. */
  function Quot100(m: int): (q: int)
    ensures 0 <= m ==> q * 100 <= m < q * 100 + 100
    ensures m < 0 ==> q * 100 - 100 < m <= q * 100
  {
    if m >= 0 then m / 100 else -((-m) / 100)
  }

  /** The amount one invocation moves the brightness by. */
  function Delta(max: int, step: int): int
  {
    Quot100(max) * step
  }

  /** The value written by the increase path: `current + delta`, but never above `max`. */
  function Increased(current: int, max: int, step: int): (r: int)
    ensures r <= max && r <= current + Delta(max, step)
    ensures r == max || r == current + Delta(max, step)
  {
    var v := current + Delta(max, step);
    if v > max then max else v
  }

  /** The value written by the decrease path: `current - delta`, or 1 when that is negative. */
  function Decreased(current: int, max: int, step: int): (r: int)
    ensures r >= 0
    ensures current - Delta(max, step) >= 0 ==> r == current - Delta(max, step)
    ensures current - Delta(max, step) < 0 ==> r == 1
  {
    var v := current - Delta(max, step);
    if v < 0 then 1 else v
  }

  /**
   * The only lines where `increaseBrightness` and `decreaseBrightness`
   * differ: an increase never passes `max`, a decrease never goes below 0.
   */
  function Stepped(dir: Direction, current: int, max: int, step: int): (r: int)
    ensures dir == Up ==> r <= max
    ensures dir == Down ==> r >= 0
  {
    match dir
    case Up => Increased(current, max, step)
    case Down => Decreased(current, max, step)
  }

  /** The brightness after `n` consecutive invocations in the same direction with the same step. */
  function Iterated(dir: Direction, current: int, max: int, step: int, n: nat): int
  {
    if n == 0 then current else Stepped(dir, Iterated(dir, current, max, step, n - 1), max, step)
  }

  /** A non-negative maximum and step never give a negative delta. */
  lemma DeltaNonNegative(max: int, step: int)
    requires max >= 0 && step >= 0
    ensures Delta(max, step) >= 0
  {
  }

  /**
   * The delta is the percentage rounded in two stages: it never exceeds the
   * true `max * step / 100`, and falls short of it by less than one step.
   */
  lemma DeltaUnderestimatesPercentage(max: int, step: int)
    requires max >= 0 && step >= 0
    ensures Delta(max, step) <= (max * step) / 100
    ensures step > 0 ==> (max * step) / 100 < Delta(max, step) + step
  {
    var q, rem := max / 100, max % 100;
    assert Delta(max, step) == q * step;
    SplitProduct(q, rem, step);
    DivShift(q * step, rem * step);
    RemainderShare(rem, step);
  }

  /** `(q * 100 + rem) * step == (q * step) * 100 + rem * step`. */
  lemma SplitProduct(q: int, rem: int, step: int)
    ensures (q * 100 + rem) * step == (q * step) * 100 + rem * step
  {
  }

  /** A remainder below 100 contributes less than one whole step. */
  lemma RemainderShare(rem: int, step: int)
    requires 0 <= rem < 100 && step >= 0
    ensures 0 <= (rem * step) / 100
    ensures step > 0 ==> (rem * step) / 100 < step
  {
    assert 0 <= rem * step <= 99 * step;
  }

  /** `(a * 100 + b) / 100 == a + b / 100` for a non-negative `b`. */
  lemma DivShift(a: int, b: int)
    requires b >= 0
    ensures (a * 100 + b) / 100 == a + b / 100
  {
  }

  /** The order of operations matters: for max 255 and step 7 the delta is 14, not 17. */
  lemma DivisionBeforeMultiplication()
    ensures Delta(255, 7) == 14
    ensures (255 * 7) / 100 == 17
  {
  }

  /** Go truncates: a maximum between -99 and -1 gives delta 0, where floor division would not. */
  lemma NegativeMaxTruncatesToZero(max: int, step: int)
    requires -100 < max < 0
    ensures Delta(max, step) == 0
    ensures max / 100 == -1
  {
  }

  /** Starting inside `[0, max]`, an increase never lowers the value and never passes `max`. */
  lemma IncreaseStaysInRange(current: int, max: int, step: int)
    requires 0 <= current <= max && step >= 0
    ensures current <= Increased(current, max, step) <= max
  {
  }

  /** Once the value is at `max`, any number of further increases keep it there. */
  lemma {:induction false} IncreaseFixedAtCeiling(max: int, step: int, n: nat)
    requires max >= 0 && step >= 0
    ensures Iterated(Up, max, max, step, n) == max
  {
    if n > 0 {
      IncreaseFixedAtCeiling(max, step, n - 1);
      DeltaNonNegative(max, step);
    }
  }

  /**
   * A decrease lands in `[0, current]`, except that a negative difference is
   * replaced by 1, which exceeds `current` only when `current` is 0; from
   * inside `[0, max]` it never passes `max`, since a negative difference
   * needs a delta of at least 1 and so a maximum of at least 100.
   */
  lemma DecreaseBounds(current: int, max: int, step: int)
    requires current >= 0 && max >= 0 && step >= 0
    ensures 0 <= Decreased(current, max, step) <= current || (current == 0 && Decreased(current, max, step) == 1)
    ensures current <= max ==> Decreased(current, max, step) <= max
  {
    if current - Delta(max, step) < 0 {
      assert Quot100(max) >= 1;
    }
  }

  /** A decrease writes 0 exactly when the delta equals the current value: the clamp only catches negatives. */
  lemma DecreaseReachesZero(current: int, max: int, step: int)
    ensures Decreased(current, max, step) == 0 <==> current == Delta(max, step)
  {
  }

  /** For example: current 20, max 255, step 10 writes brightness 0. */
  lemma DecreaseToZeroExample()
    ensures Decreased(20, 255, 10) == 0
  {
  }

  /**
   * Repeated decreases from 1 stay in `{0, 1}`; they stay at 1 unless the
   * delta is exactly 1, in which case the value alternates between 1 and 0.
   */
  lemma {:induction false} DecreaseNearFloor(max: int, step: int, n: nat)
    requires max >= 0 && step >= 0
    ensures 0 <= Iterated(Down, 1, max, step, n) <= 1
    ensures Delta(max, step) != 1 ==> Iterated(Down, 1, max, step, n) == 1
    ensures Delta(max, step) == 1 ==> Iterated(Down, 1, max, step, n) == (if n % 2 == 0 then 1 else 0)
  {
    DeltaNonNegative(max, step);
    if n > 0 {
      DecreaseNearFloor(max, step, n - 1);
    }
  }

  /** A maximum below 100 gives a zero delta, so neither direction changes a value within `[0, max]`. */
  lemma SmallMaxIsNoOp(current: int, max: int, step: int)
    requires 0 <= max < 100 && 0 <= current <= max
    ensures Delta(max, step) == 0
    ensures Increased(current, max, step) == current
    ensures Decreased(current, max, step) == current
  {
  }
}
