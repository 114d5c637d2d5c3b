/** The state that the interrupt-side pulse generator of one axis touches,
    and what step(), stepPulseOn() and stepPulseOff() do to it, as pure
    functions. The Stepper class's methods are proved equal to these; the
    lemmas here say what runs of many interrupt ticks do. */
module PulseTrain {

  /** tickCounter is an AVR `unsigned int`: 16 bits, wrapping at 65536. */
  const TICK_COUNTER_MAX: int := 65535

  /** tickPerStep while the axis is stopped: no threshold is ever met early. */
  const STOPPED_TICKS: int := 65535

  datatype Direction = Positive | Negative | Stopped

  datatype Pulse = Pulse(
    tickCounter: int,
    tickPerStep: int,
    stepPinOn: bool,
    moveDirection: Direction,
    position: int,
    ditherCounter: int,
    ditherTotalSteps: int,
    ditherLongSteps: int)

  /** The 16-bit increment of tickCounter. */
  function Inc16(c: int): (r: int)
    requires 0 <= c <= TICK_COUNTER_MAX
    ensures 0 <= r <= TICK_COUNTER_MAX
    ensures c < TICK_COUNTER_MAX ==> r == c + 1
    ensures c == TICK_COUNTER_MAX ==> r == 0
  {
    (c + 1) % (TICK_COUNTER_MAX + 1)
  }

  predicate CounterInRange(p: Pulse)
  {
    0 <= p.tickCounter <= TICK_COUNTER_MAX
  }

  /** Whether the pulse that ends at ditherCounter c is a long one in the
      dithering cycle. */
  predicate IsLongStep(c: int, longSteps: int)
  {
    c <= longSteps
  }

  /** The tick count a falling edge at cycle position c restarts from: 0
      after a long step, 1 after a short one. */
  function Restart(c: int, longSteps: int): (r: int)
    ensures r == 0 || r == 1
    ensures r == 0 <==> IsLongStep(c, longSteps)
  {
    if IsLongStep(c, longSteps) then 0 else 1
  }

  /** The cycle position after one falling edge. */
  function DitherNext(c: int, longSteps: int, totalSteps: int): int
  {
    if c > longSteps && c >= totalSteps then 1 else c + 1
  }

  /** The change of position that one step pulse makes in a direction. */
  function StepDelta(d: Direction): int
  {
    match d
    case Positive => 1
    case Negative => -1
    case Stopped => 0
  }

  /** stepPulseOn: a rising edge while moving, or a counter reset while stopped. */
  function PulseOn(p: Pulse): (r: Pulse)
    ensures r.position == p.position + StepDelta(p.moveDirection)
    ensures p.moveDirection != Stopped ==> r.stepPinOn && r.tickCounter == p.tickCounter
    ensures p.moveDirection == Stopped ==> r.stepPinOn == p.stepPinOn && r.tickCounter == 0
    ensures r.(tickCounter := p.tickCounter, stepPinOn := p.stepPinOn, position := p.position) == p
  {
    match p.moveDirection
    case Positive => p.(position := p.position + 1, stepPinOn := true)
    case Negative => p.(position := p.position - 1, stepPinOn := true)
    case Stopped => p.(tickCounter := 0)
  }

  /** stepPulseOff: a falling edge, then one step of the dithering cycle. */
  function PulseOff(p: Pulse): (r: Pulse)
    ensures !r.stepPinOn && r.position == p.position
    ensures r.tickCounter == 0 || r.tickCounter == 1
    ensures r.tickCounter == 0 <==> IsLongStep(p.ditherCounter, p.ditherLongSteps)
    ensures r.ditherCounter == DitherNext(p.ditherCounter, p.ditherLongSteps, p.ditherTotalSteps)
    ensures r.(tickCounter := p.tickCounter, stepPinOn := p.stepPinOn, ditherCounter := p.ditherCounter) == p
  {
    p.(stepPinOn := false,
       tickCounter := Restart(p.ditherCounter, p.ditherLongSteps),
       ditherCounter := DitherNext(p.ditherCounter, p.ditherLongSteps, p.ditherTotalSteps))
  }

  /** step(): one interrupt tick. The counter stays within its 16 bits, the
      speed settings are untouched, the pin changes only on a tick that
      reaches the threshold, and the position moves only on a rising edge,
      by one in the direction of motion. */
  function Step(p: Pulse): (r: Pulse)
    requires CounterInRange(p)
    ensures CounterInRange(r)
    ensures r.tickPerStep == p.tickPerStep && r.moveDirection == p.moveDirection
    ensures r.ditherTotalSteps == p.ditherTotalSteps && r.ditherLongSteps == p.ditherLongSteps
    ensures r.stepPinOn != p.stepPinOn ==> Inc16(p.tickCounter) >= p.tickPerStep
    ensures r.position == p.position
      || (!p.stepPinOn && r.stepPinOn && r.position == p.position + StepDelta(p.moveDirection))
  {
    var q := p.(tickCounter := Inc16(p.tickCounter));
    if q.tickCounter >= q.tickPerStep then
      if q.stepPinOn then PulseOff(q) else PulseOn(q)
    else q
  }

  /** The state after n interrupt ticks. */
  function Run(p: Pulse, n: nat): (q: Pulse)
    requires CounterInRange(p)
    ensures CounterInRange(q)
  {
    if n == 0 then p else Step(Run(p, n - 1))
  }

  /** One tick that stays below the threshold only increments tickCounter:
      pin, position and dither state are untouched. A tick that reaches it
      lowers a high pin and otherwise applies stepPulseOn. */
  lemma StepCases(p: Pulse)
    requires CounterInRange(p)
    ensures var c := Inc16(p.tickCounter);
      && (c < p.tickPerStep ==> Step(p) == p.(tickCounter := c))
      && (c >= p.tickPerStep && p.stepPinOn ==> Step(p) == PulseOff(p.(tickCounter := c)) && !Step(p).stepPinOn)
      && (c >= p.tickPerStep && !p.stepPinOn ==> Step(p) == PulseOn(p.(tickCounter := c)))
  {
  }

  /** Pulse pairing: a rising edge on one tick is followed by a falling edge
      on the very next tick, because stepPulseOn leaves tickCounter at or
      above the threshold. Position moves by one in the axis's direction. */
  lemma RiseThenFall(p: Pulse)
    requires CounterInRange(p) && p.tickCounter < TICK_COUNTER_MAX - 1
    requires !p.stepPinOn && Step(p).stepPinOn
    ensures p.moveDirection != Stopped
    ensures Step(p).position == p.position + (if p.moveDirection == Positive then 1 else -1)
    ensures !Step(Step(p)).stepPinOn
    ensures Step(Step(p)).position == Step(p).position
  {
  }

  /** While Stopped, no run of ticks moves the axis or raises the pin, and
      once the pin is low nothing but tickCounter changes. */
  lemma {:induction false} StoppedRun(p: Pulse, n: nat)
    requires CounterInRange(p) && p.moveDirection == Stopped
    ensures Run(p, n).moveDirection == Stopped
    ensures Run(p, n).position == p.position
    ensures !p.stepPinOn ==> Run(p, n) == p.(tickCounter := Run(p, n).tickCounter)
    ensures Run(p, n).stepPinOn ==> p.stepPinOn
  {
    if n > 0 {
      StoppedRun(p, n - 1);
    }
  }

  /** A threshold above what the 16-bit tickCounter can hold is never met:
      however many ticks pass, nothing but tickCounter changes. */
  lemma {:induction false} ThresholdOutOfRange(p: Pulse, n: nat)
    requires CounterInRange(p) && p.tickPerStep > TICK_COUNTER_MAX
    ensures Run(p, n) == p.(tickCounter := Run(p, n).tickCounter)
  {
    if n > 0 {
      ThresholdOutOfRange(p, n - 1);
    }
  }

  /** Below the threshold, k ticks with the pin low only count. */
  lemma {:induction false} CountUp(p: Pulse, k: nat)
    requires CounterInRange(p) && !p.stepPinOn
    requires p.tickCounter + k < p.tickPerStep && p.tickPerStep <= TICK_COUNTER_MAX
    ensures Run(p, k) == p.(tickCounter := p.tickCounter + k)
  {
    if k > 0 {
      CountUp(p, k - 1);
    }
  }

  /** The step period. Right after a falling edge has restarted the count at
      r (0 after a long step, 1 after a short one), the pin stays low for
      the next tickPerStep - r - 1 ticks, rises on tick tickPerStep - r and
      falls again on tick tickPerStep - r + 1: a long step lasts
      tickPerStep + 1 ticks and a short one tickPerStep. */
  lemma StepPeriod(p: Pulse)
    requires !p.stepPinOn && p.moveDirection != Stopped
    requires p.tickCounter == 0 || p.tickCounter == 1
    requires 2 <= p.tickPerStep < TICK_COUNTER_MAX
    ensures forall k: nat :: k < p.tickPerStep - p.tickCounter ==>
      Run(p, k) == p.(tickCounter := p.tickCounter + k)
    ensures Run(p, p.tickPerStep - p.tickCounter) == PulseOn(p.(tickCounter := p.tickPerStep))
    ensures Run(p, p.tickPerStep - p.tickCounter).stepPinOn
    ensures Run(p, p.tickPerStep - p.tickCounter + 1)
      == PulseOff(PulseOn(p.(tickCounter := p.tickPerStep + 1)))
  {
    var t, r := p.tickPerStep, p.tickCounter;
    forall k: nat | k < t - r
      ensures Run(p, k) == p.(tickCounter := r + k)
    {
      CountUp(p, k);
    }
    FallToFall(p);
  }

  /** From one falling edge to the next: the last two clauses of StepPeriod. */
  lemma FallToFall(p: Pulse)
    requires !p.stepPinOn && p.moveDirection != Stopped
    requires p.tickCounter == 0 || p.tickCounter == 1
    requires 2 <= p.tickPerStep < TICK_COUNTER_MAX
    ensures Run(p, p.tickPerStep - p.tickCounter) == PulseOn(p.(tickCounter := p.tickPerStep))
    ensures Run(p, p.tickPerStep - p.tickCounter + 1)
      == PulseOff(PulseOn(p.(tickCounter := p.tickPerStep + 1)))
  {
    var k := p.tickPerStep - p.tickCounter - 1;
    CountUp(p, k);
    var q := Run(p, k);
    assert q == p.(tickCounter := p.tickPerStep - 1);
    TwoTicks(q);
    var q1 := Run(p, k + 1);
    assert q1 == Step(q);
    assert Run(p, k + 2) == Step(q1);
    assert k + 1 == p.tickPerStep - p.tickCounter;
  }

  /** The last tick below the threshold raises the pin, and the next one
      lowers it. */
  lemma TwoTicks(q: Pulse)
    requires !q.stepPinOn && q.moveDirection != Stopped
    requires 1 <= q.tickPerStep < TICK_COUNTER_MAX && q.tickCounter == q.tickPerStep - 1
    ensures Step(q) == PulseOn(q.(tickCounter := q.tickPerStep))
    ensures Step(Step(q)) == PulseOff(PulseOn(q.(tickCounter := q.tickPerStep + 1)))
  {
  }

  /** The number of long steps among n consecutive falling edges starting at
      cycle position c. */
  function LongResets(c: int, longSteps: int, totalSteps: int, n: nat): nat
    decreases n
  {
    if n == 0 then 0
    else
      (if IsLongStep(c, longSteps) then 1 else 0)
      + LongResets(DitherNext(c, longSteps, totalSteps), longSteps, totalSteps, n - 1)
  }

  /** The cycle position after n consecutive falling edges starting at c. */
  function DitherAfter(c: int, longSteps: int, totalSteps: int, n: nat): int
    decreases n
  {
    if n == 0 then c else DitherAfter(DitherNext(c, longSteps, totalSteps), longSteps, totalSteps, n - 1)
  }

  /** With 1 <= longSteps < totalSteps, one falling edge puts any
      non-negative cycle position into 1..totalSteps; in particular a
      position left over from a previous speed re-enters the cycle at once. */
  lemma DitherInRange(c: int, longSteps: int, totalSteps: int)
    requires 1 <= longSteps < totalSteps && 0 <= c
    ensures 1 <= DitherNext(c, longSteps, totalSteps) <= totalSteps
  {
  }

  /** From cycle position c in 1..totalSteps, the rest of the cycle holds
      max(0, longSteps - c + 1) long steps and ends back at position 1. */
  lemma {:induction false} DitherTail(c: int, longSteps: int, totalSteps: int)
    requires 1 <= longSteps < totalSteps && 1 <= c <= totalSteps
    decreases totalSteps - c
    ensures LongResets(c, longSteps, totalSteps, totalSteps - c + 1)
      == if c <= longSteps then longSteps - c + 1 else 0
    ensures DitherAfter(c, longSteps, totalSteps, totalSteps - c + 1) == 1
  {
    if c < totalSteps {
      DitherTail(c + 1, longSteps, totalSteps);
    }
  }

  /** Any totalSteps consecutive falling edges from cycle position 1 give
      exactly longSteps long steps and totalSteps - longSteps short ones,
      and end back at position 1. */
  lemma DitherCycle(longSteps: int, totalSteps: int)
    requires 1 <= longSteps < totalSteps
    ensures LongResets(1, longSteps, totalSteps, totalSteps) == longSteps
    ensures DitherAfter(1, longSteps, totalSteps, totalSteps) == 1
  {
    DitherTail(1, longSteps, totalSteps);
  }

  /** The ticks taken by n consecutive steps from cycle position c: a long
      step lasts tickPerStep + 1 ticks and a short one tickPerStep. */
  function CycleTicks(c: int, longSteps: int, totalSteps: int, tickPerStep: nat, n: nat): nat
    decreases n
  {
    if n == 0 then 0
    else
      (if IsLongStep(c, longSteps) then tickPerStep + 1 else tickPerStep)
      + CycleTicks(DitherNext(c, longSteps, totalSteps), longSteps, totalSteps, tickPerStep, n - 1)
  }

  lemma {:induction false} CycleTicksCount(c: int, longSteps: int, totalSteps: int, tickPerStep: nat, n: nat)
    decreases n
    ensures CycleTicks(c, longSteps, totalSteps, tickPerStep, n)
      == n * tickPerStep + LongResets(c, longSteps, totalSteps, n)
  {
    if n > 0 {
      CycleTicksCount(DitherNext(c, longSteps, totalSteps), longSteps, totalSteps, tickPerStep, n - 1);
    }
  }

  /** One full dithering cycle takes
      longSteps * (tickPerStep + 1) + (totalSteps - longSteps) * tickPerStep
      ticks: the interpolated interval of the setSpeed debug output. */
  lemma CycleLength(longSteps: int, totalSteps: int, tickPerStep: nat)
    requires 1 <= longSteps < totalSteps
    ensures CycleTicks(1, longSteps, totalSteps, tickPerStep, totalSteps)
      == longSteps * (tickPerStep + 1) + (totalSteps - longSteps) * tickPerStep
  {
    CycleTicksCount(1, longSteps, totalSteps, tickPerStep, totalSteps);
    DitherCycle(longSteps, totalSteps);
  }

  /** Running a ticks and then b more is running a + b ticks. */
  lemma {:induction false} RunAdd(p: Pulse, a: nat, b: nat)
    requires CounterInRange(p)
    ensures Run(p, a + b) == Run(Run(p, a), b)
  {
    if b > 0 {
      RunAdd(p, a, b - 1);
    }
  }

  /** The pulse train over n whole steps. Start just after the falling edge
      at cycle position c of a moving axis: pin low, the counter restarted
      by that edge, the cycle position advanced past c. Then CycleTicks
      ticks later the axis has moved n steps and sits just after the
      falling edge at cycle position DitherAfter(c, n), with nothing else
      changed. */
  lemma {:induction false} CycleRun(s: Pulse, c: int, n: nat)
    requires !s.stepPinOn && s.moveDirection != Stopped
    requires 2 <= s.tickPerStep < TICK_COUNTER_MAX
    requires s.tickCounter == Restart(c, s.ditherLongSteps)
    requires s.ditherCounter == DitherNext(c, s.ditherLongSteps, s.ditherTotalSteps)
    decreases n
    ensures var e := DitherAfter(c, s.ditherLongSteps, s.ditherTotalSteps, n);
      Run(s, CycleTicks(c, s.ditherLongSteps, s.ditherTotalSteps, s.tickPerStep, n))
      == s.(position := s.position + n * StepDelta(s.moveDirection),
            tickCounter := Restart(e, s.ditherLongSteps),
            ditherCounter := DitherNext(e, s.ditherLongSteps, s.ditherTotalSteps))
  {
    var L, T, t := s.ditherLongSteps, s.ditherTotalSteps, s.tickPerStep;
    if n > 0 {
      var c1 := DitherNext(c, L, T);
      var len := if IsLongStep(c, L) then t + 1 else t;
      var s1 := s.(position := s.position + StepDelta(s.moveDirection),
                   tickCounter := Restart(c1, L),
                   ditherCounter := DitherNext(c1, L, T));
      OneStep(s, c);
      RunAdd(s, len, CycleTicks(c1, L, T, t, n - 1));
      CycleRun(s1, c1, n - 1);
      assert (n - 1) * StepDelta(s.moveDirection) + StepDelta(s.moveDirection)
        == n * StepDelta(s.moveDirection);
    }
  }

  /** One step of CycleRun: a long step after the falling edge at c takes
      tickPerStep + 1 ticks, a short one tickPerStep, and ends just after the
      falling edge at the next cycle position, one step further on. */
  lemma OneStep(s: Pulse, c: int)
    requires !s.stepPinOn && s.moveDirection != Stopped
    requires 2 <= s.tickPerStep < TICK_COUNTER_MAX
    requires s.tickCounter == Restart(c, s.ditherLongSteps)
    requires s.ditherCounter == DitherNext(c, s.ditherLongSteps, s.ditherTotalSteps)
    ensures var L, T := s.ditherLongSteps, s.ditherTotalSteps;
      var c1 := DitherNext(c, L, T);
      Run(s, if IsLongStep(c, L) then s.tickPerStep + 1 else s.tickPerStep)
      == s.(position := s.position + StepDelta(s.moveDirection),
            tickCounter := Restart(c1, L),
            ditherCounter := DitherNext(c1, L, T))
  {
    FallToFall(s);
    assert (if IsLongStep(c, s.ditherLongSteps) then s.tickPerStep + 1 else s.tickPerStep)
      == s.tickPerStep - s.tickCounter + 1;
  }

  /** The pulse train is periodic: from just after the falling edge at cycle
      position 1, one full dithering cycle (CycleLength gives its number of
      ticks) moves the axis totalSteps steps and returns every other field
      to where it started. */
  lemma CyclePeriodic(s: Pulse)
    requires !s.stepPinOn && s.moveDirection != Stopped
    requires 2 <= s.tickPerStep < TICK_COUNTER_MAX
    requires 1 <= s.ditherLongSteps < s.ditherTotalSteps
    requires s.tickCounter == 0 && s.ditherCounter == 2
    ensures Run(s, CycleTicks(1, s.ditherLongSteps, s.ditherTotalSteps, s.tickPerStep, s.ditherTotalSteps))
      == s.(position := s.position + s.ditherTotalSteps * StepDelta(s.moveDirection))
  {
    var L, T := s.ditherLongSteps, s.ditherTotalSteps;
    CycleRun(s, 1, T);
    DitherCycle(L, T);
    assert Restart(1, L) == 0 && DitherNext(1, L, T) == 2;
  }
}
