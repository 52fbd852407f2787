# Operator-control state machine of the 8568G robot

This project models the operator-control loop `opcontrol()` of the robot's
PROS program (`src/main.cpp`). Each 20 ms tick the loop does five things:

- it passes the left and right vertical sticks unchanged to the three motors
  of each side of the tank drive;
- it compares the R1, R2, L1, L2, A and B buttons with their readings in the
  previous tick;
- on a rising edge it toggles the intake forward/reverse flags (R2/R1), the
  outake forward/reverse flags (L1/L2) and the descore/scoop pistons (A/B);
- it commands +127, -127 or 0 to the two intake motors and to the outake
  motor;
- it shows "FWD"/"REV"/"OFF" and "OUT"/"IN" labels on the LCD.

The project has four modules, one file each:

- `Toggle` (`toggle.dfy`) handles one motorised actuator. `Pair` holds its two
  flags. `Mode` (`Off | Forward | Reverse`) is the three-state reading of those
  flags. The module has the flag flips of the rising-edge branches, the
  per-tick step of the intake and of the outake, and the power and label
  derived from a pair.
- `Teleop` (`teleop.dfy`) holds the loop's twelve booleans as a value
  (`State`). `Next` is one tick as a function and `Output` is the commands of
  that tick. `Run` and `Trace` fold a tick over a finite sequence of
  controller readings. The module also has the lemmas about runs: mutual
  exclusion, held buttons firing once, piston parity, and "the later edge
  wins".
- `OpControl` (`opcontrol.dfy`) is the loop in the source's own shape. Each
  block of the loop body is a method that updates its flags branch by
  branch. `Step` runs the blocks in the source's order and is proved equal to
  `Next`/`Output`. `Opcontrol` keeps the twelve flags as loop state, runs
  `Step` once per reading of a finite sequence, and is proved equal to
  `Trace`.
- `Scenarios` (`scenarios.dfy`) holds concrete sessions from the initial
  state and the commands they produce.

Hardware calls are recorded as values. `Commands` holds the value sent to
each motor's `move`. For each pneumatic output it holds the value passed to
`set_value` that tick, or `None` when nothing was written. It also holds the
four LCD labels. The controller's readings are the input `Snapshot`.

Two behaviours of the loop are worth stating up front:

- The loop passes the raw stick values to the drive motors with no clamp and
  no deadband (src/main.cpp:129-136), so `Snapshot`'s axes are unconstrained
  integers.
- The intake handles R1 (reverse) before R2 (forward) (src/main.cpp:142-149),
  while the outake handles L1 (forward) before L2 (reverse)
  (src/main.cpp:157-167). So when both buttons of a pair rise in the same
  tick, the intake ends forward and the outake ends reverse
  (`Toggle.SimultaneousEdges`).

## Model

| member | source | states |
|---|---|---|
| `Toggle.FlipReverse` | src/main.cpp:142-145 | the reverse flag is negated and the result never has both flags set |
| `Toggle.FlipForward` | src/main.cpp:146-149 | the forward flag is negated and the result never has both flags set |
| `Toggle.FlipsAreToggles` | src/main.cpp:142-149 | on an exclusive pair the flag flips are the three-state toggles: forward becomes off and anything else becomes forward; reverse becomes off and anything else becomes reverse |
| `Toggle.IntakeStep` | src/main.cpp:142-149 | one tick of the intake keeps forward/reverse exclusive and changes nothing without an edge |
| `Toggle.IntakeStepModes` | src/main.cpp:142-149 | on modes, an intake tick is the reverse toggle (on an R1 edge) followed by the forward toggle (on an R2 edge) |
| `Toggle.OutakeStep` | src/main.cpp:157-167 | one tick of the outake keeps exclusivity and changes nothing without an edge |
| `Toggle.OutakeStepModes` | src/main.cpp:157-167 | on modes, an outake tick is the forward toggle (on an L1 edge) followed by the reverse toggle (on an L2 edge) |
| `Toggle.Power` | src/main.cpp:190-203 | the signed power of a pair: 127 if forward is set, else -127 if reverse is set, else 0; `PowerOfMode` states its range and its agreement with the mode |
| `Toggle.MotorLabel` | src/main.cpp:209-214 | the motor label chosen from the flags; `LabelsOfState` states which text names which mode |
| `Toggle.PistonLabel` | src/main.cpp:215-216 | the piston label chosen from the piston state; `LabelsOfState` states it is "OUT" exactly when extended |
| `Toggle.PowerOfMode` | src/main.cpp:190-205 | the commanded power lies in {-127, 0, 127} and is +127 for forward, -127 for reverse, 0 for off |
| `Toggle.LabelsOfState` | src/main.cpp:209-216 | a motor label is "FWD", "REV" or "OFF", whichever names the mode the flags stand for; a piston label is "OUT" exactly when the piston is extended, otherwise "IN" |
| `Toggle.LabelMatchesPower` | src/main.cpp:190-214 | the displayed label and the commanded power always agree: FWD iff 127, REV iff -127, OFF iff 0 |
| `Toggle.SimultaneousEdges` | src/main.cpp:142-167 | when both buttons of a pair rise in one tick, the intake ends forward and the outake ends reverse |
| `Teleop.Next` | src/main.cpp:139-187 | a tick preserves the exclusivity of both pairs and leaves the button memory equal to this tick's reading |
| `Teleop.Rising` | src/main.cpp:142-183 | a button's branch fires exactly when it is pressed now and was not pressed in the previous tick's reading (the `current && !last` tests at 142, 146, 157, 163, 175 and 183); `RisingIsEdgeAt` relates it to a run's readings |
| `Teleop.Emit` | src/main.cpp:131-216 | the hardware writes of a tick from the new state: raw sticks on the six drive motors, the pair powers on the intake and outake motors, the given piston writes, and the four labels; `TickCommands` states these properties |
| `Teleop.Output` | src/main.cpp:131-216 | the commands of one tick: `Emit` of the next state, with each piston written (its new value) exactly on its button's rising edge (177, 185); `TickCommands` and `PistonTick` state this |
| `Teleop.Run` | src/main.cpp:127-219 | the flags after N passes of the loop body; `RunPreservesInv`, `RunLastButtons` and `PistonParity` state what it keeps |
| `Teleop.TickCommands` | src/main.cpp:129-216 | in every tick, all three left motors get the raw left stick and all three right motors the raw right stick; both intake motors get the same power; each power is in {-127, 0, 127} and matches its new mode; the labels describe the new state |
| `Teleop.PistonTick` | src/main.cpp:174-187 | a piston's output is written iff its button rises, with the new value; the piston flips on that edge and is unchanged on every other tick |
| `Teleop.RepeatedReadingIsFixpoint` | src/main.cpp:139-187 | a tick whose buttons repeat the previous reading leaves the whole state unchanged |
| `Teleop.Trace` | src/main.cpp:127-219 | a run over N readings issues exactly N ticks of commands |
| `Teleop.TraceAt` | src/main.cpp:127-219 | tick i of a run commands what one tick commands in the state that the first i readings lead to |
| `Teleop.RunLastButtons` | src/main.cpp:150-187 | after a run the button memory holds the last reading (or the starting memory for an empty run) |
| `Teleop.RunPreservesInv` | src/main.cpp:142-167 | any run from a state without both directions set never sets both directions |
| `Teleop.NeverBothDirections` | src/main.cpp:113-167 | from the all-false start, neither the intake nor the outake ever has forward and reverse both set, whatever the operator does |
| `Teleop.HeldButtonsActOnce` | src/main.cpp:139-187 | holding the same buttons across N ticks leaves the same state as the first of those ticks alone |
| `Teleop.HeldButtonsCommands` | src/main.cpp:139-205 | while the same buttons are held, each later tick writes no piston and commands the same intake and outake powers as the first tick |
| `Teleop.FiringsAreEdges` | src/main.cpp:142-187 | the number of ticks in which a button's branch fires equals the number of rising edges in that button's readings |
| `Teleop.HeldEdges` | src/main.cpp:142-151 | a reading held true over N ticks has one rising edge if it was released before, none if it was already held |
| `Teleop.HeldButtonFiresOnce` | src/main.cpp:142-187 | a button held across N consecutive ticks fires its toggle exactly once (zero times if it was already held), not N times |
| `Teleop.PistonParity` | src/main.cpp:174-187 | after a run a piston differs from its start exactly when its button fired an odd number of times |
| `Teleop.HeldPistonFlipsOnce` | src/main.cpp:174-187 | holding a piston's button from released over any number of ticks flips that piston exactly once |
| `Teleop.OutputMirrorsPiston` | src/main.cpp:174-187 | although the output is written only on rising edges, the last value written always equals the piston's current state |
| `Teleop.RisingIsEdgeAt` | src/main.cpp:139-187 | a button's branch fires at tick i exactly when its reading at i is pressed and its reading at i-1 (or the starting memory) is not |
| `Teleop.QuietIntake` | src/main.cpp:142-151 | ticks with no R1 and no R2 edge leave the intake flags unchanged |
| `Teleop.LaterForwardEdgeWins` | src/main.cpp:142-149 | an R1 edge followed, after ticks without intake edges, by an R2 edge leaves the intake forward |
| `Teleop.LaterReverseEdgeWins` | src/main.cpp:142-149 | an R2 edge followed, after ticks without intake edges, by an R1-only edge leaves the intake in reverse |
| `Teleop.ForwardEdgeTwice` | src/main.cpp:146-194 | two R2 edges with no R1 edge between them take an idle intake from off to forward (power 127) and back to off (power 0) |
| `OpControl.IntakeBlock` | src/main.cpp:139-151 | the R1 and R2 branches, flag by flag, leave the intake pair as `IntakeStep` over this tick's edges and keep it exclusive |
| `OpControl.OutakeBlock` | src/main.cpp:154-170 | the L1 and L2 branches leave the outake pair as `OutakeStep` over this tick's edges and keep it exclusive |
| `OpControl.PistonBlock` | src/main.cpp:174-187 | on a rising edge the piston flips and its new value is written; otherwise it keeps its value and nothing is written |
| `OpControl.Actuate` | src/main.cpp:190-216 | the powers and labels chosen by the if-chains are the ones `Emit` derives from the new state, with the raw sticks on all six drive motors |
| `OpControl.Step` | src/main.cpp:128-216 | one pass of the loop body yields `Next` of the old flags and `Output` of the tick, and preserves exclusivity |
| `OpControl.Opcontrol` | src/main.cpp:111-220 | running the loop from fresh flags over a finite sequence of readings produces exactly the commands of `Trace` from the initial state, and leaves the flags of `Run` from the initial state, which never have both directions of a pair set |
| `Scenarios.DoubleTapForward` | src/main.cpp:146-209 | R2, release, R2 from the start: the intake power goes 127, 127, 0 and its label goes FWD, FWD, OFF |
| `Scenarios.ReverseThenForward` | src/main.cpp:142-209 | R1, release, R2 from the start: the intake goes reverse (-127, "REV") and then forward (127, "FWD") |
| `Scenarios.AllMotorButtonsAtOnce` | src/main.cpp:129-205 | R1, R2, L1, L2 all pressed in the first tick: the intake gets 127, the outake -127, the sticks pass through, and no piston is written |
| `Scenarios.DescoreTaps` | src/main.cpp:174-215 | A held for two ticks, released, pressed again: the descore output is written true once, then false once, and the label follows |
| `Scenarios.DoubleTapThroughLoop` | src/main.cpp:111-220 | the loop run over R2, release, R2 commands intake powers 127, 127, 0 |

## Left out

- Hardware object construction, port numbers and gear cartridges (src/main.cpp:5-43) are not modelled. Motors and pneumatic outputs appear only as the values commanded to them.
- The `set_reversed` calls in `initialize()` are not modelled. The model records the *requested* value passed to `move`; how a reversed motor turns that into physical output happens inside the PROS library.
- `initializeRandomSeed()` is not modelled: it reads the clock and the battery as floating-point values and calls `srand`.
- `autonomous()` is not modelled because its whole body is commented out. The Python simulation `test auton.py` is not part of this model either. It has clamped drive helpers (`forward`, `turn_right`, … at lines 161-183), timed actuator helpers (`intake_on_for`, `outake_on_for` at lines 211-239) and a hand-written autonomous routine (lines 285-358), a fixed run of helper calls. Neither file has a step-list sequencer.
- `pros::delay(20)` and the non-terminating `while (true)` are not modelled as real time or non-termination. The model covers one tick and any finite sequence of ticks.
- LCD initialisation and printing are left out as I/O. The model keeps only which label is chosen, not the "Intake: %s" style text around it or the line numbers.
- The unused IMU and the empty `disabled()` and `competition_initialize()` stubs are not modelled.
- The controller's analog readings are taken as arbitrary integers. PROS documents them as lying in [-127, 127], but the loop does not rely on that or enforce it.
- `OpControl.Step` collects a tick's commands into one `Commands` record. So it does not capture the order in which the source issues them within the tick: drive first, piston writes in the middle, intake, outake and LCD last.
