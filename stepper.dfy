/** One axis's step-pulse generator (class uStepper): the direction, step and
    enable outputs of one motor driver, the signed step position, and the
    dithered pulse schedule that step() plays out on every interrupt tick.
    Output pins are fields holding the level last written; the float-valued
    configuration is modelled with reals. */
module UStepper {
  import opened PulseTrain
  import opened Dither

  const LOW: int := 0
  const HIGH: int := 1

  /** Arduino's constrain(x, lo, hi). */
  function Constrain(x: int, lo: int, hi: int): (r: int)
    ensures lo <= hi ==> lo <= r <= hi
    ensures lo <= x <= hi ==> r == x
    ensures lo <= hi ==> (r == x || (r == lo && x < lo) || (r == hi && x > hi))
  {
    if x < lo then lo else if x > hi then hi else x
  }

  /** The feed setSpeed works with: the request clamped to the axis's
      limits, or 0 on a disabled axis. */
  function EffectiveFeed(enabled: bool, feedRate: int, maxFeedRate: int): (f: int)
    requires maxFeedRate >= 0
    ensures !enabled ==> f == 0
    ensures enabled ==> -maxFeedRate <= f <= maxFeedRate
    ensures enabled && -maxFeedRate <= feedRate <= maxFeedRate ==> f == feedRate
  {
    if enabled then Constrain(feedRate, -maxFeedRate, maxFeedRate) else 0
  }

  function Abs(x: int): (r: int)
    ensures r >= 0 && (r == x || r == -x)
  {
    if x < 0 then -x else x
  }

  class Stepper {
    const stepsPerMM: real
    const tickPerMin: real
    const forwardLevel: int
    const reverseLevel: int
    const maxFeedRate: int
    const minFeedRate: int

    var tickCounter: int
    var tickPerStep: int
    var stepPinOn: bool
    var moveDirection: Direction
    var position: int
    var ditherCounter: int
    var ditherTotalSteps: int
    var ditherLongSteps: int
    var enabled: bool
    var velocity: real
    var directionLevel: int
    var enableLevel: int

    ghost predicate Valid()
      reads this
    {
      && stepsPerMM > 0.0 && tickPerMin > 0.0
      && 0 <= minFeedRate && 0 <= maxFeedRate
      && 0 <= tickCounter <= TICK_COUNTER_MAX
      && 0 <= tickPerStep
    }

    /** The fields that the interrupt-side functions of PulseTrain act on. */
    function State(): Pulse
      reads this
    {
      Pulse(tickCounter, tickPerStep, stepPinOn, moveDirection, position,
            ditherCounter, ditherTotalSteps, ditherLongSteps)
    }

    /** The fields that only the main-loop side writes. */
    function Controls(): (bool, real, int, int)
      reads this
    {
      (enabled, velocity, directionLevel, enableLevel)
    }

    /** Stopped at position 0, step pin low, dither cycle at position 1,
        axis disabled. The forward/reverse direction levels follow the sign
        of direction. Fields the source leaves uninitialised belong to
        objects with static storage and so start at 0. */
    constructor (stepsPerMM: real, direction: int, tickRateHz: nat, maxFeedRate: int, minFeedRate: int)
      requires stepsPerMM > 0.0 && tickRateHz > 0
      requires 0 <= maxFeedRate <= 32767 && 0 <= minFeedRate
      ensures Valid()
      ensures this.stepsPerMM == stepsPerMM && tickPerMin == tickRateHz as real * 60.0
      ensures this.maxFeedRate == maxFeedRate && this.minFeedRate == minFeedRate
      ensures position == 0 && tickPerStep == STOPPED_TICKS && moveDirection == Stopped
      ensures ditherCounter == 1 && ditherTotalSteps == 0 && ditherLongSteps == 0
      ensures tickCounter == 0 && !stepPinOn && directionLevel == LOW
      ensures !enabled && enableLevel == HIGH && velocity == 0.0
      ensures direction > 0 ==> forwardLevel == 1 && reverseLevel == 0
      ensures direction <= 0 ==> forwardLevel == 0 && reverseLevel == 1
    {
      this.stepsPerMM := stepsPerMM;
      tickPerMin := tickRateHz as real * 60.0;
      this.maxFeedRate := maxFeedRate;
      this.minFeedRate := minFeedRate;
      if direction > 0 {
        forwardLevel, reverseLevel := 1, 0;
      } else {
        forwardLevel, reverseLevel := 0, 1;
      }
      tickCounter, ditherTotalSteps, ditherLongSteps, velocity := 0, 0, 0, 0.0;
      position := 0;
      tickPerStep := STOPPED_TICKS;
      moveDirection := Stopped;
      ditherCounter := 1;
      stepPinOn := false;
      directionLevel := LOW;
      new;
      Disable();
    }

    /** setSpeed: forces 0 on a disabled axis, clamps to maxFeedRate, stops
        inside the dead band [-minFeedRate, minFeedRate] and otherwise sets
        the direction output and the dither plan for the requested feed. */
    method SetSpeed(feedRate: int)
      requires Valid()
      modifies this
      ensures Valid()
      ensures enabled == old(enabled) && enableLevel == old(enableLevel)
      ensures tickCounter == old(tickCounter) && stepPinOn == old(stepPinOn)
      ensures position == old(position) && ditherCounter == old(ditherCounter)
      ensures var f := EffectiveFeed(old(enabled), feedRate, maxFeedRate);
        && (-minFeedRate <= f <= minFeedRate ==>
              && moveDirection == Stopped && tickPerStep == STOPPED_TICKS && velocity == 0.0
              && directionLevel == old(directionLevel)
              && ditherTotalSteps == old(ditherTotalSteps) && ditherLongSteps == old(ditherLongSteps))
        && (f > minFeedRate ==> moveDirection == Positive && directionLevel == forwardLevel)
        && (f < -minFeedRate ==> moveDirection == Negative && directionLevel == reverseLevel)
        && (f > minFeedRate || f < -minFeedRate ==>
              && velocity == f as real
              && Plan(tickPerStep, ditherTotalSteps, ditherLongSteps)
                 == PlanFor(IdealTickPerStep(tickPerMin, Abs(f), stepsPerMM))
              && 1 <= ditherLongSteps < ditherTotalSteps)
      ensures !old(enabled) ==> moveDirection == Stopped
    {
      var f := EffectiveFeed(enabled, feedRate, maxFeedRate);
      if f < -minFeedRate {
        directionLevel := reverseLevel;
        moveDirection := Negative;
        velocity := f as real;
      } else if f > minFeedRate {
        directionLevel := forwardLevel;
        moveDirection := Positive;
        velocity := f as real;
      } else {
        moveDirection := Stopped;
        tickPerStep := STOPPED_TICKS;
        velocity := 0.0;
        return;
      }
      var ideal := IdealTickPerStep(tickPerMin, Abs(f), stepsPerMM);
      var plan := PlanFor(ideal);
      tickPerStep := plan.tickPerStep;
      ditherTotalSteps := plan.totalSteps;
      ditherLongSteps := plan.longSteps;
    }

    method SetPosition(pos: int)
      requires Valid()
      modifies this
      ensures Valid() && Controls() == old(Controls())
      ensures State() == old(State()).(position := pos)
    {
      position := pos;
    }

    method GetPositionSteps() returns (pos: int)
      ensures pos == position
    {
      pos := position;
    }

    /** enable: drive the enable output LOW (active) and stop. */
    method Enable()
      requires Valid()
      modifies this
      ensures Valid()
      ensures enabled && enableLevel == LOW
      ensures State() == old(State()).(moveDirection := Stopped, tickPerStep := STOPPED_TICKS)
      ensures velocity == old(velocity) && directionLevel == old(directionLevel)
    {
      enableLevel := LOW;
      moveDirection := Stopped;
      tickPerStep := STOPPED_TICKS;
      enabled := true;
    }

    /** disable: drive the enable output HIGH (inactive) and stop. */
    method Disable()
      requires Valid()
      modifies this
      ensures Valid()
      ensures !enabled && enableLevel == HIGH
      ensures State() == old(State()).(moveDirection := Stopped, tickPerStep := STOPPED_TICKS)
      ensures velocity == old(velocity) && directionLevel == old(directionLevel)
    {
      enableLevel := HIGH;
      moveDirection := Stopped;
      tickPerStep := STOPPED_TICKS;
      enabled := false;
    }

    /** stepPulseOff: step pin low, then advance the dithering cycle and
        restart the tick count at 0 (long step) or 1 (short step). */
    method StepPulseOff()
      requires Valid()
      modifies this
      ensures Valid() && Controls() == old(Controls())
      ensures State() == PulseOff(old(State()))
    {
      stepPinOn := false;
      if ditherCounter > ditherLongSteps {
        tickCounter := 1;
        if ditherCounter >= ditherTotalSteps {
          ditherCounter := 0;
        }
      } else {
        tickCounter := 0;
      }
      ditherCounter := ditherCounter + 1;
    }

    /** stepPulseOn: while moving, count one step and raise the step pin;
        while stopped, only restart the tick count. */
    method StepPulseOn()
      requires Valid()
      modifies this
      ensures Valid() && Controls() == old(Controls())
      ensures State() == PulseOn(old(State()))
    {
      if moveDirection == Positive {
        position := position + 1;
        stepPinOn := true;
      } else if moveDirection == Negative {
        position := position - 1;
        stepPinOn := true;
      } else {
        tickCounter := 0;
      }
    }

    /** step: the interrupt body. */
    method Step()
      requires Valid()
      modifies this
      ensures Valid() && Controls() == old(Controls())
      ensures State() == PulseTrain.Step(old(State()))
    {
      tickCounter := Inc16(tickCounter);
      if tickCounter >= tickPerStep {
        if stepPinOn {
          StepPulseOff();
        } else {
          StepPulseOn();
        }
      }
    }
  }

  /** A disabled axis holds its position: after disable(), no request to
      setSpeed and no number of interrupt ticks moves it or raises its step
      pin. */
  method HoldWhileDisabled(s: Stepper, feedRate: int, ticks: nat)
    requires s.Valid()
    modifies s
    ensures s.Valid() && !s.enabled && s.moveDirection == Stopped
    ensures s.position == old(s.position)
    ensures s.stepPinOn ==> old(s.stepPinOn)
  {
    s.Disable();
    s.SetSpeed(feedRate);
    ghost var start := s.State();
    var k := 0;
    while k < ticks
      invariant 0 <= k <= ticks
      invariant s.Valid() && !s.enabled
      invariant s.State() == Run(start, k)
    {
      s.Step();
      k := k + 1;
    }
    StoppedRun(start, ticks);
  }
}
