/** The decomposition in setSpeed of the ideal (fractional) number of
    interrupt ticks per motor step into an integer baseline interval and a
    dithering cycle, over exact reals in place of single-precision floats.
    C++ `long(x)` and `int(x)` on the non-negative values that occur here
    are the floor. */
module Dither {
  import PulseTrain

  /** The two thresholds and the epsilon of the source's arithmetic. */
  const OFFSET_SPLIT: real := 0.4999695
  const EPSILON: real := 0.0000306

  /** The dither parameters written by setSpeed. */
  datatype Plan = Plan(tickPerStep: int, totalSteps: int, longSteps: int)

  /** Ticks per step for a feed of feedAbs mm/min on an axis with
      stepsPerMM steps/mm and tickPerMin ticks/min. */
  function IdealTickPerStep(tickPerMin: real, feedAbs: int, stepsPerMM: real): (ideal: real)
    requires tickPerMin > 0.0 && feedAbs > 0 && stepsPerMM > 0.0
    ensures ideal > 0.0
    ensures ideal * (feedAbs as real * stepsPerMM) == tickPerMin
  {
    tickPerMin / (feedAbs as real * stepsPerMM)
  }

  /** Rounding the reciprocal of a remainder half-up, as `int(1.0f / o + 0.5f)`
      does: at least 2 for a remainder of at most 0.5000611, and at most 32680
      (within a 16-bit int) for a remainder of at least EPSILON. */
  function RoundedReciprocal(o: real): (n: int)
    requires EPSILON <= o <= 0.5000611
    ensures 2 <= n <= 32680
  {
    var q := 1.0 / o;
    assert q * o == 1.0;
    assert q > 1.5;
    assert q < 32680.5;
    (q + 0.5).Floor
  }

  /** setSpeed's choice of dither parameters for an ideal interval. */
  function PlanFor(ideal: real): (d: Plan)
    requires ideal >= 0.0
    ensures d.tickPerStep as real <= ideal < d.tickPerStep as real + 1.0
    ensures 1 <= d.longSteps < d.totalSteps <= 32680
    ensures ideal - d.tickPerStep as real < OFFSET_SPLIT ==> d.longSteps == 1
    ensures ideal - d.tickPerStep as real >= OFFSET_SPLIT ==> d.longSteps == d.totalSteps - 1
  {
    var baseline := ideal.Floor;
    var offset := ideal - baseline as real;
    if offset < OFFSET_SPLIT then
      Plan(baseline, RoundedReciprocal(offset + EPSILON), 1)
    else
      var total := RoundedReciprocal(1.0000306 - offset);
      Plan(baseline, total, total - 1)
  }

  /** The mean interval over one dithering cycle, when longSteps of its
      totalSteps steps last tickPerStep + 1 ticks and the rest tickPerStep:
      the baseline plus the fraction of long steps. */
  function MeanInterval(d: Plan): (m: real)
    requires d.totalSteps > 0
    ensures m == d.tickPerStep as real + d.longSteps as real / d.totalSteps as real
  {
    var t, n, l := d.tickPerStep as real, d.totalSteps as real, d.longSteps as real;
    assert l * (t + 1.0) + (n - l) * t == n * t + l;
    assert (n * t + l) / n == t + l / n;
    (l * (t + 1.0) + (n - l) * t) / n
  }

  /** The mean interval is the average step length of the pulse train: times
      the cycle length it gives the ticks that one cycle takes. */
  lemma MeanIsCycleAverage(d: Plan)
    requires 1 <= d.longSteps < d.totalSteps && d.tickPerStep >= 0
    ensures MeanInterval(d) * d.totalSteps as real
      == PulseTrain.CycleTicks(1, d.longSteps, d.totalSteps, d.tickPerStep, d.totalSteps) as real
  {
    var t, n, l := d.tickPerStep, d.totalSteps, d.longSteps;
    PulseTrain.CycleLength(l, n, t);
    var tr, nr, lr := t as real, n as real, l as real;
    assert (l * (t + 1) + (n - l) * t) as real == lr * (tr + 1.0) + (nr - lr) * tr;
    assert MeanInterval(d) == (lr * (tr + 1.0) + (nr - lr) * tr) / nr;
  }

  /** With 1 <= longSteps < totalSteps the mean interval lies strictly
      between tickPerStep and tickPerStep + 1. */
  lemma MeanBetween(d: Plan)
    requires 1 <= d.longSteps < d.totalSteps
    ensures d.tickPerStep as real < MeanInterval(d) < d.tickPerStep as real + 1.0
  {
    var n, l := d.totalSteps as real, d.longSteps as real;
    var r := l / n;
    assert r * n == l;
    assert (1.0 - r) * n == n - l;
    PositiveFactor(1.0 - r, n);
    PositiveFactor(r, n);
  }

  /** The dithered mean interval lies strictly between the baseline and the
      baseline plus one, so it is less than one tick from the ideal. */
  lemma MeanWithinOneTick(ideal: real)
    requires ideal >= 0.0
    ensures var d := PlanFor(ideal);
      d.tickPerStep as real < MeanInterval(d) < d.tickPerStep as real + 1.0
      && -1.0 < MeanInterval(d) - ideal < 1.0
  {
    MeanBetween(PlanFor(ideal));
  }

  /** The dithered mean is much closer to the ideal interval than the
      baseline alone: within 0.13 ticks, where the baseline can be off by
      up to a whole tick. This pins the direction of the dithering: one long
      step per cycle when the remainder is small, one short step when it is
      large. */
  lemma MeanNearIdeal(ideal: real)
    requires ideal >= 0.0
    ensures -0.13 < MeanInterval(PlanFor(ideal)) - ideal < 0.13
  {
    var d := PlanFor(ideal);
    var offset := ideal - d.tickPerStep as real;
    var nr := d.totalSteps as real;
    if offset < OFFSET_SPLIT {
      ReciprocalNear(offset + EPSILON);
      assert MeanInterval(d) - ideal == (1.0 / nr - (offset + EPSILON)) + EPSILON;
    } else {
      ReciprocalNear(1.0000306 - offset);
      assert (nr - 1.0) / nr == 1.0 - 1.0 / nr;
      assert MeanInterval(d) - ideal == -(1.0 / nr - (1.0000306 - offset)) - EPSILON;
    }
  }

  /** Rounding 1/o to the nearest integer n puts 1/n within 0.126 of o:
      n * o is within o/2 of 1 and n is at least 2. */
  lemma ReciprocalNear(o: real)
    requires EPSILON <= o <= 0.5000611
    ensures -0.126 < 1.0 / RoundedReciprocal(o) as real - o < 0.126
  {
    var q := 1.0 / o;
    assert q * o == 1.0;
    var n := RoundedReciprocal(o) as real;
    RoundingError(q, n, o);
    var y := 1.0 / n - o;
    assert y * n == 1.0 - n * o;
    DivideBound(y, n);
  }

  /** n rounds q = 1/o to within half a unit, so n * o is within o/2 of 1. */
  lemma RoundingError(q: real, n: real, o: real)
    requires o > 0.0 && q * o == 1.0 && q - 0.5 < n <= q + 0.5
    ensures -0.5 * o < n * o - 1.0 <= 0.5 * o
  {
    var x := n - q;
    ScaleBound(x, o);
    assert x * o == n * o - q * o;
    assert n * o - 1.0 == x * o;
  }

  /** A value within half a unit, scaled by a positive factor o. */
  lemma ScaleBound(x: real, o: real)
    requires o > 0.0 && -0.5 < x <= 0.5
    ensures -0.5 * o < x * o <= 0.5 * o
  {
  }

  /** |y * n| < 0.2500306 with n >= 2 gives |y| < 0.126. */
  lemma DivideBound(y: real, n: real)
    requires n >= 2.0 && -0.2500306 < y * n < 0.2500306
    ensures -0.126 < y < 0.126
  {
  }

  lemma PositiveFactor(a: real, n: real)
    requires n > 0.0 && a * n > 0.0
    ensures a > 0.0
  {
  }

  /** 600 mm/min on an axis of 12.7 steps/mm under a 20000 Hz interrupt:
      an ideal of about 157.48 ticks per step, so a baseline of 157 and,
      from the first branch, a two-step cycle with one long step. */
  lemma WorkedScenario()
    ensures IdealTickPerStep(20000.0 * 60.0, 600, 12.7) == 1200000.0 / 7620.0
    ensures PlanFor(1200000.0 / 7620.0) == Plan(157, 2, 1)
  {
    var ideal := 1200000.0 / 7620.0;
    assert 157.0 <= ideal < 158.0;
    assert ideal.Floor == 157;
    var offset := ideal - 157.0;
    assert 0.48 < offset < 0.4804;
    var o := offset + EPSILON;
    var q := 1.0 / o;
    assert q * o == 1.0;
    assert 2.0 < q < 2.5;
    assert RoundedReciprocal(o) == 2;
  }
}
