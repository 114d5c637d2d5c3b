# min-vplot motion core in Dafny

A model of the real-time core of the min-vplot firmware for a two-cable
("v-") plotter, with proofs about it. It covers three parts.

- **Step-pulse generator of one axis** (class `uStepper`). It is modelled as the
  class `UStepper.Stepper`, with the same fields. The interrupt body `step()`
  counts ticks up to a threshold `tickPerStep`. On the threshold tick it raises
  the step pin, or lowers it one tick later. `setSpeed` turns a feed rate into
  that threshold plus a dithering cycle that alternates long steps
  (`tickPerStep + 1` ticks) and short ones (`tickPerStep` ticks).
  - What the interrupt-side methods do to the fields is also written as pure
    functions on a `Pulse` value (module `PulseTrain`). Each method is proved
    equal to its function.
  - Lemmas about the function give the behaviour over many ticks:
    - pulse pairing;
    - the exact long and short step periods;
    - a stopped axis never moves;
    - one dithering cycle has exactly `ditherLongSteps` long steps and ends
      back at cycle position 1;
    - the ticks that `step()` spends over n whole steps are the sum of the
      long and short step lengths, and one full cycle returns the pulse
      state to where it started, the axis `ditherTotalSteps` steps further on.
  - The `setSpeed` decomposition is in module `Dither`, over exact reals. It is
    proved to give `1 <= ditherLongSteps < ditherTotalSteps <= 32680`. Its mean
    interval is the cycle's tick count divided by its steps, and lies within
    0.13 ticks of the ideal interval.
- **Block queue** (`buffer.cpp`). It is modelled as the class
  `Buffer.BlockBuffer`: an array of 5 slots that is never replaced, plus the
  `front` and `back` indices. The ghost function `Contents()` reads the slots
  from `front` up to `back` as a FIFO sequence. The emptiness and fullness
  queries, `Current`, `Last` and both mutators are specified against it;
  `Next` is specified against `back`.
- **Line parser and flow control** (`parse_line` in `parse.cpp`, and the older
  one in `parse.h`).
  - The scanner loop `Parse.ScanLine` is proved equal to the recursive function
    `Parse.Scan`, and the lemmas are stated about `Scan`.
  - `Parse.ParseLine` adds the seed block, the write of the rapid flag, and the
    "ok"/"dropped"/no-reply decision. The decision is specified by the function
    `Parse.Intake` on the queue contents.
  - The two versions of `parse_line` differ only in how a G word sets the rapid
    flag. This is the `Dialect` parameter: `Current` for `parse.cpp`, `Legacy`
    for `parse.h`.

Modelling choices:

- Output pins are fields holding the last level written.
- Replies are a returned `Reply` value.
- `read_float` is not part of this model. It is a function parameter, and the
  predicate `Advances` states what the parser relies on: a successful read ends
  strictly past its start index and within the line.
- The example `Parse.InheritanceExample` runs the parser on concrete lines. It
  uses `IntegerReader`, a reader of unsigned decimal integers.
- Floats are reals; C++ `long(x)`/`int(x)` on the non-negative values of
  `setSpeed` are `Floor`. `(int)value` in the parser truncates toward zero
  (`Parse.Trunc`).
- `tickCounter` is an AVR `unsigned int` (16 bits) and wraps at 65536.
- Fields that the constructor leaves uninitialised belong to objects with
  static storage, so they start at 0: `ditherTotalSteps`, `ditherLongSteps`,
  `tickCounter` and `velocity`.
- `maxFeedRate` and `minFeedRate` come from float formulas in `setTickRateHz`
  and `setMinVelocity`. Here they are constructor parameters, with
  `0 <= maxFeedRate <= 32767` and `0 <= minFeedRate`, the ranges those formulas
  produce.

Behaviour of the code worth knowing:

- In the dead band, `setSpeed` leaves the direction pin and the dither fields
  as they were.
- `enable()` and `disable()` do not reset `velocity`.
- `buffer_advance` does not check for emptiness. Advancing an empty queue makes
  the indices describe a full one (`Advance`'s last `Contents` clause).
- `buffer_last` reads the slot before `back` even when the queue is empty. The
  parser therefore inherits from the last block ever queued, or from a default
  block at start-up, even after that block has been consumed.
- `parse.cpp` sets `rapid := (value == 1)` for every G word.
- After an invalid number, the rapid flag keeps what earlier G words of the
  same line wrote. Nothing is queued and no reply is sent.
- The pulse pairing ("every rising edge is followed by a falling edge one tick
  later") holds only while the 16-bit tick counter does not wrap. A moving axis
  with `tickPerStep == 65535` raises the pin at counter 65535. The next tick
  wraps the counter to 0, so the pin stays high for another 65535 ticks. A
  threshold above 65535 is never reached (`ThresholdOutOfRange`). The lemmas
  `RiseThenFall` and `StepPeriod` assume these cases away.
- The dithering direction is consistent with the ideal rate. In the first
  branch, one long step in a cycle of about `1/offset` steps adds about
  `offset` ticks. In the second branch, one short step in a cycle of about
  `1/(1-offset)` steps adds about `offset` ticks too. `MeanNearIdeal` proves
  the mean within 0.13 ticks of the ideal. Without dithering, or with the
  two branches swapped, the error would reach half a tick or more.

## Model

| member | source | states |
|---|---|---|
| Gcode.BlockAt | gcode.h:16 | the three-argument constructor is the default block with the point and lift overridden; the feed keeps its default |
| Gcode.DefaultBlock | gcode.h:10-15 | a default block has feed MAX_FEED = 800, lift true and point (0, 0) |
| Buffer.BlockBuffer.constructor | buffer.cpp:6-9 | all five slots hold default blocks, both indices are 0, the queue is empty |
| Buffer.BlockBuffer.Next | buffer.cpp:21-27 | the index after back is (back + 1) mod 5 and lies in [0, 5) |
| Buffer.BlockBuffer.IsEmpty | buffer.cpp:16-19 | front == back exactly when the FIFO contents are empty |
| Buffer.BlockBuffer.IsFull | buffer.cpp:29-32 | front == next(back) exactly when 4 blocks are queued |
| Buffer.BlockBuffer.Current | buffer.cpp:43-46 | on a non-empty queue the front slot is the oldest queued block |
| Buffer.BlockBuffer.Last | buffer.cpp:48-51 | on a non-empty queue the slot before back is the newest queued block |
| Buffer.BlockBuffer.Add | buffer.cpp:53-64 | full: returns false and changes no slot and no index; otherwise stores at old back, advances back, leaves front and the other slots alone, appends to the FIFO, makes Last() the block, returns true |
| Buffer.BlockBuffer.Advance | buffer.cpp:34-41 | returns the old front slot, moves front by one mod 5, changes neither back nor any slot; on a non-empty queue removes and returns the head; Last() is unchanged |
| Buffer.FillAndDrainOne | buffer.cpp:21-64 | from empty, four adds succeed, the fifth fails, and after one advance another add succeeds |
| PulseTrain.Inc16 | uStepper.h:86 | the tick counter increment is +1 within 16 bits and wraps 65535 to 0 |
| PulseTrain.Restart | uStepper.cpp:230-240 | a falling edge restarts the count at 0 exactly after a long step, and at 1 otherwise |
| PulseTrain.PulseOn | uStepper.cpp:246-265 | the position moves by the direction's step (0 when stopped); while moving the pin goes high, while stopped the counter resets to 0; nothing else changes |
| PulseTrain.PulseOff | uStepper.cpp:224-243 | pin low, position kept, counter 0 after a long step and 1 after a short one, cycle position advanced; nothing else changes |
| PulseTrain.Step | uStepper.h:83-105 | a tick keeps the counter within 16 bits, never changes the speed settings, changes the pin only when the incremented counter reaches the threshold, and moves the position only on a rising edge, by one in the direction of motion |
| PulseTrain.StepCases | uStepper.h:86-104 | a tick that stays below the threshold changes only the counter; on the threshold a high pin goes low via stepPulseOff and a low pin gets stepPulseOn |
| PulseTrain.RiseThenFall | uStepper.h:86-103 | a rising edge happens only while moving, moves the position by one in the direction of motion, and is followed by a falling edge on the next tick with no further move |
| PulseTrain.StoppedRun | uStepper.cpp:246-265 | while Stopped, no number of ticks changes the position or raises the pin; with the pin low only the counter changes |
| PulseTrain.ThresholdOutOfRange | uStepper.h:86-88 | a threshold above 65535 is never met by the 16-bit counter, so nothing but the counter ever changes |
| PulseTrain.CountUp | uStepper.h:86-88 | below the threshold with the pin low, k ticks add k to the counter and change nothing else |
| PulseTrain.StepPeriod | uStepper.cpp:230-240 | after a restart at r (0 or 1) the pin rises on tick tickPerStep - r and falls on tick tickPerStep - r + 1: a long step lasts tickPerStep + 1 ticks, a short one tickPerStep |
| PulseTrain.DitherInRange | uStepper.cpp:230-242 | with 1 <= L < T, one falling edge puts any cycle position into 1..T |
| PulseTrain.DitherTail | uStepper.cpp:230-242 | from position c the rest of the cycle has max(0, L - c + 1) long steps and ends at position 1 |
| PulseTrain.DitherCycle | uStepper.cpp:230-242 | T consecutive falling edges from position 1 give exactly L long and T - L short steps and end at position 1 |
| PulseTrain.CycleTicksCount | uStepper.cpp:230-240 | n steps take n * tickPerStep ticks plus one per long step |
| PulseTrain.TwoTicks | uStepper.h:86-104 | the tick that reaches the threshold raises the pin and the next one lowers it |
| PulseTrain.FallToFall | uStepper.cpp:224-265 | from the restart after one falling edge, the pin rises after tickPerStep - r ticks and the next falling edge comes one tick later |
| PulseTrain.OneStep | uStepper.cpp:224-265 | after the falling edge at cycle position c, a long step takes tickPerStep + 1 ticks and a short one tickPerStep, and ends just after the next falling edge, one step further on |
| PulseTrain.RunAdd | uStepper.h:83-105 | a ticks followed by b ticks are a + b ticks |
| PulseTrain.CycleRun | uStepper.cpp:224-265 | n whole steps after a falling edge take exactly CycleTicks ticks of step(), move the axis n steps and end just after the falling edge at the cycle position n edges on |
| PulseTrain.CyclePeriodic | uStepper.cpp:224-265 | one full dithering cycle of step() ticks moves the axis ditherTotalSteps steps and returns every other pulse field to its start |
| PulseTrain.CycleLength | uStepper.cpp:142 | one full cycle takes L * (tickPerStep + 1) + (T - L) * tickPerStep ticks, the interpolation formula of the debug output |
| Dither.IdealTickPerStep | uStepper.cpp:104-108 | the ideal interval is positive and times the steps per minute gives the ticks per minute |
| Dither.RoundedReciprocal | uStepper.cpp:115-128 | rounding 1/offset half-up gives a cycle length in [2, 32680], within a 16-bit int |
| Dither.PlanFor | uStepper.cpp:110-134 | tickPerStep is the floor of the ideal interval; 1 <= ditherLongSteps < ditherTotalSteps <= 32680; ditherLongSteps is 1 when the offset is below 0.4999695 and ditherTotalSteps - 1 otherwise |
| Dither.MeanInterval | uStepper.cpp:142 | the interpolated interval is the baseline plus the fraction of long steps in the cycle |
| Dither.MeanIsCycleAverage | uStepper.cpp:142 | the interpolated interval times the cycle length is the number of step() ticks a cycle takes (CycleTicks) |
| Dither.MeanBetween | uStepper.cpp:142 | with 1 <= L < T the mean interval lies strictly between tickPerStep and tickPerStep + 1 |
| Dither.MeanWithinOneTick | uStepper.cpp:104-142 | the dithered mean interval is less than one tick from the ideal interval |
| Dither.ReciprocalNear | uStepper.cpp:115-128 | rounding 1/o half-up to n puts 1/n within 0.126 of o |
| Dither.MeanNearIdeal | uStepper.cpp:104-142 | the dithered mean interval is within 0.13 ticks of the ideal interval |
| Dither.WorkedScenario | uStepper.cpp:104-134 | 600 mm/min at 12.7 steps/mm and 20000 Hz gives an ideal of 1200000/7620, baseline 157 and a two-step cycle with one long step |
| UStepper.Constrain | uStepper.cpp:77 | the clamped value lies in [lo, hi], equals the input when it is in range, and is otherwise the nearer bound |
| UStepper.EffectiveFeed | uStepper.cpp:75-82 | a disabled axis works with feed 0; an enabled one with the request clamped to [-maxFeedRate, maxFeedRate] |
| UStepper.Abs | uStepper.cpp:104 | the magnitude of the feed is non-negative and equals it up to sign |
| UStepper.Stepper.constructor | uStepper.cpp:28-64 | position 0, tickPerStep 65535, Stopped, ditherCounter 1, step pin low, direction pin low, disabled with the enable pin HIGH; FORWARD/REVERSE are 1/0 when direction > 0 and 0/1 otherwise |
| UStepper.Stepper.SetSpeed | uStepper.cpp:72-146 | dead band: Stopped, tickPerStep 65535, velocity 0, direction pin and dither fields unchanged; above it Positive with FORWARD, below it Negative with REVERSE, velocity the clamped feed, and the dither fields from PlanFor; never touches counter, pin, position or cycle position |
| UStepper.Stepper.SetPosition | uStepper.cpp:159-164 | position becomes the given value and nothing else changes |
| UStepper.Stepper.GetPositionSteps | uStepper.cpp:185-192 | returns the position last written by setPosition or by the pulses |
| UStepper.Stepper.Enable | uStepper.cpp:201-207 | enable pin LOW, enabled, Stopped, tickPerStep 65535; nothing else changes |
| UStepper.Stepper.Disable | uStepper.cpp:210-216 | enable pin HIGH, disabled, Stopped, tickPerStep 65535; nothing else changes |
| UStepper.Stepper.StepPulseOff | uStepper.cpp:224-243 | step pin low, counter restarted at 0 or 1, cycle position advanced, as PulseTrain.PulseOff |
| UStepper.Stepper.StepPulseOn | uStepper.cpp:246-265 | Positive: position + 1 and pin high; Negative: position - 1 and pin high; Stopped: counter 0, position and pin unchanged |
| UStepper.Stepper.Step | uStepper.h:83-105 | the interrupt body changes the fields as PulseTrain.Step and leaves the main-loop fields alone |
| UStepper.HoldWhileDisabled | uStepper.cpp:210-216 | after disable(), a setSpeed request and any number of ticks leave the position unchanged and do not raise the pin |
| Parse.MachineState.constructor | machine.h:15 | the rapid flag starts false |
| Parse.Trunc | parse.cpp:83 | (int)value truncates toward zero |
| Parse.FeedFrom | parse.cpp:83 | an F word sets a feed of at most MAX_FEED, the truncated value unless that is larger |
| Parse.GRapid | parse.h:49-59 | G1 sets rapid and G0 clears it in both versions; parse.cpp sets rapid iff the value is 1, parse.h leaves it unchanged for other values |
| Parse.ApplyWord | parse.cpp:56-92 | a G word changes only the rapid flag; M0 changes nothing and another M sets lift iff the value is 3; F sets the capped feed; X and Y set one coordinate; any other letter changes nothing |
| Parse.Scan | parse.cpp:21-104 | the scan of a line, ended by NUL or the end of the sequence; a completed scan either keeps the seed's feed or sets one of at most MAX_FEED |
| Parse.ScanLine | parse.h:15-104 | the character loop (shared by both versions) computes Scan from index 0, no comment, the seed block and the current rapid flag |
| Parse.Intake | parse.cpp:106-116 | "ok" iff the line is complete and fewer than 3 blocks were queued; "dropped" iff it is complete and the queue was full; no reply after an invalid number or when the add fills the queue; the block is appended exactly when it is complete and the queue had room |
| Parse.ParseLine | parse.cpp:13-117 | the block is seeded with buffer_last(); rapid is written from the scan; reply and new queue contents follow Intake; a line that queues nothing leaves every slot and index unchanged, one that queues stores the block in the slot at the old back, changes no other slot, advances back and makes the block the new last |
| Parse.SkippedCharacters | parse.cpp:25-43 | space, CR and LF are skipped with no effect, and so is a ')' outside a comment |
| Parse.CommentToEnd | parse.cpp:31-36 | once '(' is seen the rest of the line, ')' included, is skipped and the line completes with the block reached so far |
| Parse.InvalidNumberStops | parse.cpp:45-101 | a letter whose number fails to read ends the scan at once with InvalidNumber |
| Parse.Inherits | parse.cpp:19-93 | fields the line does not name keep the seed block's values, and rapid keeps its value without a G |
| Parse.DialectsAgree | parse.h:49-59 | on a line without G both versions of parse_line scan to the same result |
| Parse.ScanFirstExample | parse.cpp:21-93 | with an integer reader, "X10 Y10" scanned from a default block gives that block at (10, 10) |
| Parse.ScanSecondExample | parse.cpp:21-93 | "X20" scanned from the block at (10, 10) changes only x, to 20 |
| Parse.InheritanceExample | parse.cpp:19 | "X10 Y10" then "X20" on an empty queue both reply "ok" and the second block is at (20, 10) |

## Left out

- Kinematics (the inverse and forward formulas of `geo.h` and `machine.h`): float square roots over the pulley separation. They are not part of this model.
- The executor and the rest of `machine_state`, the motor and servo globals: float initialisation and a servo driver object. The parser only needs the rapid flag, which is `Parse.MachineState.rapid`.
- Critical sections (`noInterrupts`/`interrupts`) and the interrupt-versus-main-loop concurrency: every method is atomic and sequential.
- `setTickRateHz`, `setMinVelocity`, `getSpeed`, `getPositionMM` and `setPositionMM`: float-only helpers. `maxFeedRate` and `minFeedRate` are constructor parameters instead.
- IEEE single-precision rounding in `setSpeed`: the dither arithmetic is over exact reals.
- `read_float`: a foreign call, given as a parameter constrained by `Advances`.
- Serial output (`Serial.print`, the "Parsing error" and "Invalid number" lines, the M0 diagnostic line) and `pinMode`/`digitalWrite`: output only. Pins are fields and replies are returned.
- `get_buffer_front`: it only returns the index; the model reads the field `front`.
- `buffer_current` and `buffer_last` return references; the model returns values, so aliasing through those references is not modelled. The parser copies the block it gets anyway.
- The host sending tool: serial transports, regex-based block reading, transforms and arc flattening.
- `UStepper.Stepper.position` is an unbounded integer: the wrap of the `int32_t` position is not modelled (signed overflow is undefined in C++ and out of reach at plotter scale).
- `UStepper.Stepper.tickPerStep` is an unbounded integer: the `uint32_t` width and the undefined `long(...)` cast of a huge ideal interval are not modelled.
- `Parse.Trunc`: ignores the range of the 16-bit `int` that `(int)value` yields; values outside it are undefined behaviour in C++.
- `Parse.ScanLine`: the `uint8_t` index and the 128-byte line buffer are not modelled. A line ends at its first NUL or at the end of the sequence.
- `Parse.ParseLine`: writes the rapid flag once, after the scan. The source writes it inside the loop; with atomic methods the two are the same.
- `PulseTrain.RiseThenFall`: assumes the counter before the rising edge is below 65534, because on a 16-bit wrap the falling edge comes 65536 ticks later.
- `PulseTrain.StepPeriod`: assumes tickPerStep < 65535, for the same wrap. It also assumes tickPerStep >= 2. At tickPerStep 1 a restart at 1 still needs one tick to rise, so long and short steps both last 2 ticks and dithering has no effect. The source keeps the ideal interval at about 3 ticks or more through its maxFeedRate formula ("one step every three ticks", uStepper.cpp:170), but the model's `maxFeedRate` parameter is only bounded by 32767. `FallToFall`, `OneStep`, `CycleRun` and `CyclePeriodic` carry the same assumptions.
