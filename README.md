# Motor speed controller — Dafny model

This project models the firmware of a hand-held controller for a motor
driven through two RC-style servo outputs (`src/main.cpp`). The controller
has:

- a rotary encoder with a push button;
- a dead-man switch;
- two outputs, `controller` and `controller2`, that are always driven as a
  mirrored pair: the second output's pulse is the first one reflected about
  the 1500 µs neutral.

At power-on a main menu lets the operator pick *Master* or *Slave* with the
encoder. In Master mode the control screen runs:

- the encoder sets a speed target in percent, in steps of 10 (coarse) or 1
  (fine);
- the button toggles between the two step sizes;
- the target is clamped to -100..100;
- while the dead-man switch is held, the outputs are attached, ramped one
  percent per step from neutral to the target, and held there;
- releasing the switch detaches both outputs.

The model has five modules:

- `Signals`: pin levels, the servo calls (`Attach`, `Detach`, `Write(a, b)`
  for the pair), and the pulse-width formulas `Pulse(v) = 5v + 1500` and
  `Mirror(v) = -5v + 1500`.
- `Encoder`: the edge-triggered decoder as pure functions, plus lemmas about
  runs of polls.
- `Speed`: the fine/coarse toggle, the speed clamp and the menu cursor clamp.
- `Ramp`: what the dead-man loop does to the outputs, as the sequence of
  servo calls it makes. The ramp is defined step by step, exactly as the
  `for` loop runs (`RampFrom`/`RampTrace`). It is also given in an
  independent closed form (`RampClosedForm`), and the two are proved equal.
  The lemmas then prove:
  - the ramp lands on the target;
  - it stops at a release;
  - each step moves the output 5 µs;
  - it never overshoots;
  - every write is a mirrored pair in 1000..2000 µs;
  - every pass of the loop ends detached.
- `SpeedController`: the program's globals as the fields of a class
  `Controller`, and the routines that change them as methods.
  - `getEncoder`, `fineAdjustment`, `speedCheck`, the menu and the control
    screen each become a method.
  - Each loop of the source is a `while` loop with invariants.
  - The calls on the outputs are appended to the field `events`.
  - The menu and the control screen are also defined as functions of their
    inputs (`MenuCursor`, `MenuOutcome`, `PollStep`, `ControlRun`). The
    methods are proved to compute exactly these functions, and the safety
    properties are proved about the functions.

Every pin read is a parameter. A run of the control screen is a sequence of
`Poll`s. Each poll carries:

- the button read;
- the two encoder pin reads;
- the passes of the dead-man loop (`Session`s). A session holds the switch
  reads of each ramp step and the number of LOW reads in the hold loop.

The switch reads LOW at the loop guard before each session and HIGH at the
guard after the last one.

## Model

| member | source | states |
|---|---|---|
| SpeedController.Controller.constructor | src/main.cpp:28-38 | the globals start as encoderValue -1, pin A last LOW, no new value, fine mode labelled "Fine", slave; outputs detached and no servo call made |
| Signals.Pulse | src/main.cpp:265 | the first output's pulse for a speed in -100..100 lies in 1000..2000, and is above/below neutral exactly when the speed is positive/negative |
| Signals.Mirror | src/main.cpp:266 | the second output's pulse is the first one reflected about neutral: the two sum to 3000, and it equals the first output's pulse for the opposite speed |
| Encoder.StepSize | src/main.cpp:112-125 | an encoder step is 1 or 10, and 1 exactly in fine mode |
| Encoder.EncoderDelta | src/main.cpp:105-126 | a poll changes the value iff pin A rose (was LOW, is HIGH); the change then has magnitude 1 (fine) or 10 (coarse), and it is negative iff pin B reads LOW |
| Encoder.EdgesNeverDoubleFire | src/main.cpp:105-132 | since the last pin A level is stored on every poll, at most one poll in two fires: twice the number of firing polls is at most the number of polls, plus one when the remembered level was LOW |
| Encoder.HeldHighFiresOnce | src/main.cpp:105-132 | pin A held HIGH over any number of polls fires exactly once, and only if it was LOW before |
| Encoder.ClockwiseTurn | src/main.cpp:105-126 | when pin B reads HIGH at every poll where pin A rises (its level at other polls is free), a run of polls adds exactly one step per rising edge of pin A |
| Encoder.RisingEdges | src/main.cpp:105-132 | the number of firing polls in a run of pin A samples is at most the number of polls |
| Encoder.TurnMonotone | src/main.cpp:105-132 | the value after a run of polls in one mode: with pin B HIGH at every poll it never decreases, and with pin B LOW at every poll it never increases |
| Encoder.TurnAppend | src/main.cpp:105-132 | one more poll adds exactly the delta of that poll read against the pin A level the previous poll left behind (the starting level for the first poll) |
| Encoder.EdgesWith | src/main.cpp:105-109 | the firing polls at which pin B reads a given level, at most one per poll |
| Encoder.EdgesSplit | src/main.cpp:105-126 | every firing poll reads pin B either HIGH or LOW: the two counts add up to all rising edges of pin A |
| Encoder.TurnCountsEdges | src/main.cpp:105-126 | in both directions: a run of polls adds one step per rising edge read with pin B HIGH and subtracts one per rising edge read with pin B LOW |
| SpeedController.Controller.GetEncoder | src/main.cpp:97-133 | the value changes by the edge-triggered delta for the remembered and new pin A level; the remembered level becomes the new sample; the new-value flag is raised exactly on an edge and is otherwise unchanged |
| Speed.ToggleAdjustment | src/main.cpp:136-164 | a LOW button read flips the mode and sets the label to match the new mode; a HIGH read leaves mode and label unchanged |
| Speed.TwoPressesRestore | src/main.cpp:146-162 | two presses restore any consistent mode and label: the toggle is an involution |
| SpeedController.Controller.FineAdjustment | src/main.cpp:136-164 | the new mode and label are the toggle of the old ones for the button read; a label that named the mode still does |
| Speed.SpeedClamp | src/main.cpp:166-177 | the result lies in -100..100; values above 100 become 100, values below -100 become -100, and values in range are unchanged |
| Speed.SpeedClampIdempotent | src/main.cpp:166-177 | clamping twice is clamping once |
| Speed.NoDeadZone | src/main.cpp:166-177 | values in -10..10 pass the clamp unchanged: the clamp has no dead zone |
| SpeedController.Controller.SpeedCheck | src/main.cpp:167-177 | the target becomes the speed clamp of the old target |
| SpeedController.Controller.AttachOutputs | src/main.cpp:230-231 | both outputs become attached, and one attach is appended to the calls |
| SpeedController.Controller.DetachOutputs | src/main.cpp:247-248 | both outputs become detached, and one detach is appended to the calls (also lines 273-274, 300-301) |
| SpeedController.Controller.WriteOutputs | src/main.cpp:259-260 | one write of the pair (a, b) is appended to the calls (also lines 267-268, 296-297) |
| Speed.MenuClamp | src/main.cpp:343-349 | the menu cursor is 0 or 1; non-positive values map to 0 and positive ones to 1 |
| Ramp.FirstRelease | src/main.cpp:243-250 | the first ramp step at which the switch reads HIGH: every earlier read is LOW and the read at that step is HIGH, or it is past the last step when every read is LOW |
| Ramp.FirstReleaseAt | src/main.cpp:243-250 | a HIGH read preceded only by LOW reads is the first release |
| Ramp.RampFrom | src/main.cpp:243-281 | the calls of the ramp from step i on, step by step as the loop runs: at least one while a step remains, and at most one per remaining step |
| Ramp.RampTrace | src/main.cpp:243-281 | the whole ramp makes at least one call and at most one per step 0..abs(target) |
| Ramp.RampClosedForm | src/main.cpp:243-281 | the closed-form partner of the ramp: at most one call per step, every call but the last a write, and no attach |
| Ramp.RampFromSplit | src/main.cpp:243-281 | every ramp step before the first release writes its own pair, so the ramp is those writes followed by what the remaining steps do |
| Ramp.RampTraceClosedForm | src/main.cpp:243-281 | the step-by-step ramp equals the closed form: a zero target detaches at once; otherwise one write per step before the first release, then a detach if the switch was released. The outputs stay attached exactly when the target is non-zero and no step reads HIGH |
| Ramp.RampLandsOnTarget | src/main.cpp:243-281 | an uninterrupted ramp makes one write per step 0..abs(target), starts at neutral, makes no attach or detach, and ends on exactly the target's pair |
| Ramp.RampReleaseStops | src/main.cpp:246-250 | an interrupted ramp makes one write per step before the release, then detaches and writes nothing more; a zero target detaches at step 0 (lines 272-276) |
| Ramp.RampGradual | src/main.cpp:256-270 | consecutive ramp writes move the first output 5 µs away from neutral towards the target and the second 5 µs the other way |
| Ramp.RampTowardTarget | src/main.cpp:243-281 | every ramp write is mirrored and lies between neutral and the target's pulse |
| Ramp.HoldWrites | src/main.cpp:293-298 | the hold loop's calls for k LOW reads: exactly k writes, each a pair mirrored about neutral |
| Ramp.SessionTrace | src/main.cpp:230-301 | one pass of the dead-man loop: its calls start with an attach and end with a detach, at least 3 and at most abs(target) + held + 3 of them |
| Ramp.SessionAttachesOnce | src/main.cpp:230-301 | a pass attaches only with its first call |
| Ramp.LoopTrace | src/main.cpp:229-308 | the calls of the dead-man loop's passes: at least three per pass |
| Ramp.HoldWritesStep | src/main.cpp:293-298 | each pass of the hold loop appends one write of the target's pair |
| Ramp.LoopTraceAppend | src/main.cpp:229-308 | one more pass of the dead-man loop appends attach, ramp, hold and detach to the calls so far |
| Ramp.LoopTowardTarget | src/main.cpp:229-308 | every write of the dead-man loop (ramp and hold) is mirrored and never drives further from neutral than the target |
| Ramp.LoopSafe | src/main.cpp:229-308 | with the target inside the clamp, every write of the dead-man loop is a pair summing to 3000 with both pulses in 1000..2000 |
| Ramp.LoopDetaches | src/main.cpp:229-308 | the loop makes calls iff it makes at least one pass; then the calls start with an attach and end with a detach, and every attach after the first directly follows a detach |
| Ramp.TargetFiftyHeld | src/main.cpp:243-270 | target 50 with the switch held: 51 ramp writes ending at (1750, 1250) |
| Ramp.TargetMinusThirtyReleasedAtTen | src/main.cpp:243-262 | target -30 released at step 10: ten writes ending at (1455, 1545), then a detach |
| Ramp.ZeroTargetSession | src/main.cpp:229-301 | a zero target: attach, then detach at step 0; then one neutral write per held read of the hold loop; then a detach |
| Ramp.ReleasedRampThenHold | src/main.cpp:246-301 | after a ramp stopped by a release, the hold loop still runs: the pass is the writes before the release, a detach, then one full target pair per LOW read at the hold guard, then a detach |
| Ramp.ReleasedThenPressedAgain | src/main.cpp:246-301 | target 30, released at step 0, LOW again for two hold reads: (1650, 1350) is written twice between two detaches |
| SpeedController.Controller.RampUp | src/main.cpp:243-281 | the ramp loop makes exactly the ramp's calls for the target and the switch reads; the outputs stay attached iff the ramp completes |
| SpeedController.Controller.Hold | src/main.cpp:293-298 | the hold loop writes the target's pair once per LOW read, and writes nothing when slave is set |
| SpeedController.Controller.DeadManSession | src/main.cpp:230-301 | one pass makes attach, ramp, hold and detach, and leaves the outputs detached |
| SpeedController.Controller.DeadManLoop | src/main.cpp:229-308 | the loop makes the calls of all its passes, none when slave is set; after at least one pass the outputs are detached |
| SpeedController.PollStep | src/main.cpp:212-308 | one pass of the control loop as a function of the state: the new target lies in -100..100, the new pin A level is the sample, the mode is toggled on a LOW button read, and the calls only grow, not at all in slave mode |
| SpeedController.PollStepSafe | src/main.cpp:229-308 | every write one pass makes is a pair summing to 3000 with both pulses in 1000..2000 |
| SpeedController.ControlRun | src/main.cpp:212-309 | the control screen after a run of passes: once a pass has run the target is in -100..100; the calls only grow, and not at all in slave mode |
| SpeedController.ControlRunTurns | src/main.cpp:212-226 | with no LOW read of the fine button and the target inside -100..100 after every prefix of the polls, the control screen's target is exactly the encoder turn of the polls' pin readings: the clamp never acts, the mode stays and pin A's last level is the last sample |
| SpeedController.ControlRunSafe | src/main.cpp:212-309 | every write of a run of control screen passes is a pair summing to 3000 with both pulses in 1000..2000 |
| SpeedController.Controller.ControlInputs | src/main.cpp:214-226 | the input half of a pass: the mode and label toggled on a LOW read, then the target moved by the encoder delta in the new mode and clamped, then the pin A sample remembered and the flag cleared |
| SpeedController.Controller.ControlPoll | src/main.cpp:212-308 | one pass of the control loop: target, pin A level, mode and calls become exactly the pass function of the old ones; the label is toggled with the mode; the flag is cleared; the outputs end detached after any dead-man pass |
| SpeedController.Controller.EnterControlScreen | src/main.cpp:203-207 | entering the control screen sets target 0 in coarse mode, labelled "Course" |
| SpeedController.Controller.ControlScreen | src/main.cpp:200-310 | after entry (target 0, coarse) and any number of passes, target, pin A level, mode and calls are exactly the run of the pass function; hence the target is in -100..100, the label matches the mode, every new write is safe, a slave makes no call, the outputs are never left attached that were not attached before, and once a pass has run the redraw flag is clear |
| SpeedController.Controller.ControlLoop | src/main.cpp:212-309 | from any valid state, the passes leave target, pin A level, mode and calls exactly as the run of the pass function from that state, keep the label matching the mode, clear the redraw flag once a pass has run, and never attach outputs that were not attached |
| SpeedController.Controller.MenuStep | src/main.cpp:337-391 | one menu pass: encoder poll, then the cursor is clamped to 0..1 and the flag cleared. A press selects Master with slave cleared on row 0, or Slave with slave set on row 1; no press selects nothing and keeps slave |
| SpeedController.FirstPress | src/main.cpp:372 | the first menu pass whose button read is LOW: every earlier read is HIGH |
| SpeedController.MenuCursor | src/main.cpp:341-349 | the cursor after a run of menu passes, each adding the encoder delta and clamping: after at least one pass it is row 0 or row 1 |
| SpeedController.MenuOutcome | src/main.cpp:341-390 | the menu selects nothing exactly when the button is never pressed; otherwise it selects the cursor's row at the first press |
| SpeedController.MenuCursorStill | src/main.cpp:341-349 | when no poll sees a rising edge of pin A (against the level the previous poll left), the cursor stays on its row whatever pin A and pin B read |
| SpeedController.PowerOnSelections | src/main.cpp:341-390 | from power-on, a press without turning selects Master (the -1 start is clamped to row 0); an idle poll with both pins LOW, then a press on the poll where pin A rises with pin B HIGH (one clockwise click), selects Slave |
| SpeedController.Controller.MainMenu | src/main.cpp:327-393 | the menu runs until the first press. The cursor and the remembered pin A level are exactly the fold of the encoder polls read so far, and the choice is the menu outcome of the inputs, with slave set to match; once an input has been read the redraw flag is clear |
| SpeedController.Run | src/main.cpp:327-393 | from the initial globals, the choice is the menu outcome of the menu inputs. Anything other than Master makes no call on the outputs. Master makes exactly the calls of the control screen run from target 0, coarse mode and the pin A level at the press, and ends with slave clear, outputs detached, all writes safe and the target in range |

## Left out

- LCD drawing (`drawControlScreen`, the title screen, the menu cursor and
  every `lcd.print`) is not modelled: it changes no state the motor logic
  reads. The same goes for `lcd.setCursor(0, encoderValue)` with the initial
  value -1.
- Delays (`delay`, the button debounce, the 25 ms ramp step) are not
  modelled, because the model has no clock.
- `setup`, pin modes, `Wire`/LCD initialisation, the version and date
  constants, and the internals of the `Servo` library are not modelled.
  Attach, detach and write are recorded as events on the pair of outputs.
- The `while(true)` loops of the menu, the control screen and the slave
  screen never end in the source. The model runs them over a finite
  sequence of inputs. What the slave screen does after selection (sleeping
  forever) is not modelled.
- The switch read at line 284 only decides whether "Ready" is drawn, so it
  is not modelled.
- The global `n` is the local sample of pin A in `GetEncoder`.
- `PWMvalue` and `rPWMvalue` are not kept as state. The written values are
  recorded in the events.
- `int` is 16 bits on the target. The model uses unbounded integers. The
  values stay within -110..110 and the pulses within 1000..2000, so no
  overflow is possible.
- The comment above `speedCheck` speaks of skipping -10..10, but the code has
  no dead zone. The model follows the code (`Speed.NoDeadZone`).
- The hold loop runs after every ramp, including one that has already
  detached, and the model follows the code.
  - With a zero target, the ramp detaches at step 0, but the hold loop still
    writes neutral pulses to the detached outputs while the switch is held
    (`Ramp.ZeroTargetSession`).
  - A ramp stopped by a release behaves the same way. The hold loop's guard
    reads the switch again with no debounce in between. If that read is
    LOW, the full target pair is written, unramped, to the detached outputs
    (`Ramp.ReleasedRampThenHold`, `Ramp.ReleasedThenPressedAgain`).
  - The model therefore does not promise that nothing is written after the
    release detach.
- `Encoder.Turn` is tied to the control screen (`ControlRunTurns`), but not
  to the menu cursor. The menu clamps to rows 0..1 after every poll, so a
  coarse click of 10 is cut back at once and the unclamped turn says little
  about the cursor. `MenuCursorStill` and `PowerOnSelections` state what the
  menu does instead.
