/** One tick of the operator-control loop as a function: from the loop's
    state and one controller reading to the new state (`Next`) and the
    commands sent to the hardware that tick (`Output`); then the fold of
    the tick over a finite sequence of readings (`Run`, `Trace`) and what
    such runs guarantee. */
module Teleop {
  import opened Toggle

  datatype Option<T> = None | Some(value: T)

  /** The six digital buttons the loop tracks. */
  datatype Button = R1 | R2 | L1 | L2 | A | B

  /** One reading of the six tracked buttons. */
  datatype Buttons = Buttons(r1: bool, r2: bool, l1: bool, l2: bool, a: bool, b: bool)

  const NonePressed: Buttons := Buttons(false, false, false, false, false, false)

  function Pressed(bs: Buttons, b: Button): bool {
    match b
    case R1 => bs.r1
    case R2 => bs.r2
    case L1 => bs.l1
    case L2 => bs.l2
    case A => bs.a
    case B => bs.b
  }

  /** One tick's controller reading: the left and right vertical sticks and
      the tracked buttons. */
  datatype Snapshot = Snapshot(leftY: int, rightY: int, buttons: Buttons)

  /** The two pneumatic pistons and the button that toggles each. */
  datatype Piston = Descore | Scoop

  function PistonButton(p: Piston): Button {
    match p
    case Descore => A
    case Scoop => B
  }

  /** The twelve booleans `opcontrol` keeps across ticks: the intake and
      outake toggle pairs, the two piston states, and the previous reading
      of every tracked button (the `*_lastState` variables). */
  datatype State = State(intake: Pair, outake: Pair, descore: bool, scoop: bool, last: Buttons)

  /** Every flag starts false. */
  const Initial: State := State(Stopped, Stopped, false, false, NonePressed)

  function Extended(s: State, p: Piston): bool {
    match p
    case Descore => s.descore
    case Scoop => s.scoop
  }

  /** Neither motorised actuator has forward and reverse both set. */
  predicate Inv(s: State) {
    Exclusive(s.intake) && Exclusive(s.outake)
  }

  /** A button fires in a tick when it is pressed now and was not pressed in
      the previous tick. */
  predicate Rising(s: State, snap: Snapshot, b: Button) {
    Pressed(snap.buttons, b) && !Pressed(s.last, b)
  }

  /** The state after one tick: the four motor toggles and the two piston
      toggles fire on their rising edges, and every button's memory is
      overwritten with this tick's reading. */
  function Next(s: State, snap: Snapshot): (t: State)
    ensures Inv(s) ==> Inv(t)
    ensures t.last == snap.buttons
  {
    State(IntakeStep(s.intake, Rising(s, snap, R1), Rising(s, snap, R2)),
          OutakeStep(s.outake, Rising(s, snap, L1), Rising(s, snap, L2)),
          if Rising(s, snap, A) then !s.descore else s.descore,
          if Rising(s, snap, B) then !s.scoop else s.scoop,
          snap.buttons)
  }

  /** Everything the loop sends out in one tick: the six drive motors, the
      two intake motors and the outake motor, the value written to each
      pneumatic output (`None` when nothing is written), and the four LCD
      labels. */
  datatype Commands = Commands(
    leftTop: int, leftBottom: int, leftBottomTop: int,
    rightTop: int, rightBottom: int, rightBottomTop: int,
    bottomIntake: int, topIntake: int, outake: int,
    descore: Option<bool>, scoop: Option<bool>,
    intakeLabel: string, outakeLabel: string, descoreLabel: string, scoopLabel: string)

  function Write(c: Commands, p: Piston): Option<bool> {
    match p
    case Descore => c.descore
    case Scoop => c.scoop
  }

  /** The commands sent at the end of a tick whose new state is `t`: the
      sticks, the powers and labels derived from `t`, and the piston writes
      performed during the tick. */
  function Emit(t: State, leftY: int, rightY: int, descore: Option<bool>, scoop: Option<bool>): Commands {
    Commands(leftY, leftY, leftY, rightY, rightY, rightY,
             Power(t.intake), Power(t.intake), Power(t.outake),
             descore, scoop,
             MotorLabel(t.intake), MotorLabel(t.outake),
             PistonLabel(t.descore), PistonLabel(t.scoop))
  }

  /** The commands of one tick taken in state `s` with reading `snap`. */
  function Output(s: State, snap: Snapshot): Commands {
    var t := Next(s, snap);
    Emit(t, snap.leftY, snap.rightY,
         if Rising(s, snap, A) then Some(t.descore) else None,
         if Rising(s, snap, B) then Some(t.scoop) else None)
  }

  /** One tick assembled from its parts, as the loop body computes it: each
      pair takes its step over this tick's edges, each piston flips on its
      own edge and is written exactly then, and the memory becomes the new
      reading. */
  lemma TickByParts(s: State, snap: Snapshot, intake: Pair, outake: Pair, descore: bool, scoop: bool,
                    descoreWrite: Option<bool>, scoopWrite: Option<bool>)
    requires intake == IntakeStep(s.intake, snap.buttons.r1 && !s.last.r1, snap.buttons.r2 && !s.last.r2)
    requires outake == OutakeStep(s.outake, snap.buttons.l1 && !s.last.l1, snap.buttons.l2 && !s.last.l2)
    requires descore == (if snap.buttons.a && !s.last.a then !s.descore else s.descore)
    requires scoop == (if snap.buttons.b && !s.last.b then !s.scoop else s.scoop)
    requires descoreWrite == if snap.buttons.a && !s.last.a then Some(descore) else None
    requires scoopWrite == if snap.buttons.b && !s.last.b then Some(scoop) else None
    ensures Next(s, snap) ==
            State(Pair(intake.fwd, intake.rev), Pair(outake.fwd, outake.rev), descore, scoop,
                  Buttons(snap.buttons.r1, snap.buttons.r2, snap.buttons.l1, snap.buttons.l2,
                          snap.buttons.a, snap.buttons.b))
    ensures Output(s, snap) == Emit(Next(s, snap), snap.leftY, snap.rightY, descoreWrite, scoopWrite)
  {
  }

  /** What one tick commands: the sticks go unchanged to all three motors of
      their side, both intake motors get the same power, every actuator power
      is the one its new mode calls for, and the labels describe the new
      state. */
  lemma TickCommands(s: State, snap: Snapshot)
    ensures var c, t := Output(s, snap), Next(s, snap);
      c.leftTop == snap.leftY && c.leftBottom == snap.leftY && c.leftBottomTop == snap.leftY &&
      c.rightTop == snap.rightY && c.rightBottom == snap.rightY && c.rightBottomTop == snap.rightY &&
      c.bottomIntake == c.topIntake &&
      c.bottomIntake in {-127, 0, 127} && c.outake in {-127, 0, 127} &&
      c.bottomIntake == ModePower(ModeOf(t.intake)) && c.outake == ModePower(ModeOf(t.outake)) &&
      c.intakeLabel == ModeLabel(ModeOf(t.intake)) && c.outakeLabel == ModeLabel(ModeOf(t.outake)) &&
      (c.descoreLabel == "OUT" <==> t.descore) && (c.scoopLabel == "OUT" <==> t.scoop)
  {
    var t := Next(s, snap);
    PowerOfMode(t.intake);
    PowerOfMode(t.outake);
    LabelsOfState(t.intake, t.descore);
    LabelsOfState(t.outake, t.scoop);
  }

  /** A piston flips exactly on its button's rising edge, and its output is
      written on that tick only, with the new value; on every other tick the
      piston and its output are left alone. */
  lemma PistonTick(s: State, snap: Snapshot, p: Piston)
    ensures Write(Output(s, snap), p).Some? <==> Rising(s, snap, PistonButton(p))
    ensures Rising(s, snap, PistonButton(p)) ==>
      Extended(Next(s, snap), p) == !Extended(s, p) &&
      Write(Output(s, snap), p) == Some(Extended(Next(s, snap), p))
    ensures !Rising(s, snap, PistonButton(p)) ==> Extended(Next(s, snap), p) == Extended(s, p)
  {
  }

  /** A reading that repeats the previous one fires nothing: the state is a
      fixpoint of such a tick. */
  lemma RepeatedReadingIsFixpoint(s: State, snap: Snapshot)
    requires snap.buttons == s.last
    ensures Next(s, snap) == s
  {
  }

  /** The state after a finite sequence of ticks. */
  function Run(s: State, snaps: seq<Snapshot>): State
    decreases |snaps|
  {
    if snaps == [] then s else Next(Run(s, snaps[..|snaps| - 1]), snaps[|snaps| - 1])
  }

  /** The commands of every tick of a finite sequence of ticks, in order. */
  function Trace(s: State, snaps: seq<Snapshot>): (cs: seq<Commands>)
    ensures |cs| == |snaps|
    decreases |snaps|
  {
    if snaps == [] then []
    else
      var n := |snaps| - 1;
      Trace(s, snaps[..n]) + [Output(Run(s, snaps[..n]), snaps[n])]
  }

  /** Taking one more tick extends a run by one `Next`. */
  lemma RunStep(s: State, snaps: seq<Snapshot>, i: nat)
    requires i < |snaps|
    ensures Run(s, snaps[..i + 1]) == Next(Run(s, snaps[..i]), snaps[i])
  {
    assert snaps[..i + 1][..i] == snaps[..i];
  }

  /** After a run the button memory holds the last reading. */
  lemma RunLastButtons(s: State, snaps: seq<Snapshot>)
    ensures Run(s, snaps).last == if snaps == [] then s.last else snaps[|snaps| - 1].buttons
  {
  }

  /** Tick `i` of a trace is the tick taken in the state the first `i`
      readings lead to. */
  lemma {:induction false} TraceAt(s: State, snaps: seq<Snapshot>, i: nat)
    requires i < |snaps|
    ensures Trace(s, snaps)[i] == Output(Run(s, snaps[..i]), snaps[i])
  {
    var n := |snaps| - 1;
    if i < n {
      TraceAt(s, snaps[..n], i);
      assert snaps[..n][..i] == snaps[..i];
      ElementBeforeAppend(Trace(s, snaps[..n]), Output(Run(s, snaps[..n]), snaps[n]), i);
    }
  }

  lemma ElementBeforeAppend<T>(a: seq<T>, x: T, i: nat)
    requires i < |a|
    ensures (a + [x])[i] == a[i]
  {
  }

  /** The mutual exclusion of forward and reverse survives any run. */
  lemma {:induction false} RunPreservesInv(s: State, snaps: seq<Snapshot>)
    requires Inv(s)
    ensures Inv(Run(s, snaps))
    decreases |snaps|
  {
    if snaps != [] {
      RunPreservesInv(s, snaps[..|snaps| - 1]);
    }
  }

  /** From the initial state, whatever the operator does, the intake and the
      outake never have forward and reverse both set. */
  lemma NeverBothDirections(snaps: seq<Snapshot>)
    ensures var t := Run(Initial, snaps);
      !(t.intake.fwd && t.intake.rev) && !(t.outake.fwd && t.outake.rev)
  {
    RunPreservesInv(Initial, snaps);
  }

  /** Holding the same buttons across many ticks acts exactly like the first
      of those ticks alone. */
  lemma {:induction false} HeldButtonsActOnce(s: State, snaps: seq<Snapshot>)
    requires |snaps| >= 1
    requires forall i :: 0 <= i < |snaps| ==> snaps[i].buttons == snaps[0].buttons
    ensures Run(s, snaps) == Next(s, snaps[0])
    decreases |snaps|
  {
    var n := |snaps| - 1;
    if n == 0 {
      assert snaps[..0] == [];
    } else {
      HeldButtonsActOnce(s, snaps[..n]);
      RepeatedReadingIsFixpoint(Next(s, snaps[0]), snaps[n]);
    }
  }

  /** While the same buttons are held, every tick after the first writes
      nothing to the pistons and commands the same actuator powers as the
      first. */
  lemma HeldButtonsCommands(s: State, snaps: seq<Snapshot>, i: nat)
    requires |snaps| >= 1
    requires forall j :: 0 <= j < |snaps| ==> snaps[j].buttons == snaps[0].buttons
    requires 1 <= i < |snaps|
    ensures Trace(s, snaps)[i].descore == None && Trace(s, snaps)[i].scoop == None
    ensures Trace(s, snaps)[i].bottomIntake == Trace(s, snaps)[0].bottomIntake
    ensures Trace(s, snaps)[i].outake == Trace(s, snaps)[0].outake
  {
    TraceAt(s, snaps, i);
    TraceAt(s, snaps, 0);
    assert snaps[..0] == [];
    HeldButtonsActOnce(s, snaps[..i]);
    RepeatedReadingIsFixpoint(Next(s, snaps[0]), snaps[i]);
  }

  /** The readings of one button over a sequence of ticks. */
  function Presses(snaps: seq<Snapshot>, b: Button): seq<bool> {
    seq(|snaps|, i requires 0 <= i < |snaps| => Pressed(snaps[i].buttons, b))
  }

  /** The number of rising edges in a sequence of readings of one button
      whose reading before the first was `prev`. */
  function Edges(prev: bool, ps: seq<bool>): nat
    decreases |ps|
  {
    if ps == [] then 0
    else
      var n := |ps| - 1;
      var before := if n == 0 then prev else ps[n - 1];
      Edges(prev, ps[..n]) + (if ps[n] && !before then 1 else 0)
  }

  /** The number of ticks of a run in which button `b`'s branch fires. */
  function Firings(s: State, snaps: seq<Snapshot>, b: Button): nat
    decreases |snaps|
  {
    if snaps == [] then 0
    else
      var n := |snaps| - 1;
      Firings(s, snaps[..n], b) + (if Rising(Run(s, snaps[..n]), snaps[n], b) then 1 else 0)
  }

  /** A button's branch fires exactly as often as the button's readings have
      rising edges: the memory compares each tick with the one before. */
  lemma {:induction false} FiringsAreEdges(s: State, snaps: seq<Snapshot>, b: Button)
    ensures Firings(s, snaps, b) == Edges(Pressed(s.last, b), Presses(snaps, b))
    decreases |snaps|
  {
    if snaps != [] {
      var n := |snaps| - 1;
      FiringsAreEdges(s, snaps[..n], b);
      assert Presses(snaps[..n], b) == Presses(snaps, b)[..n];
      RunLastButtons(s, snaps[..n]);
    }
  }

  /** A reading held true has at most one rising edge: one if it was
      released before, none if it was already held. */
  lemma {:induction false} HeldEdges(prev: bool, ps: seq<bool>)
    requires |ps| >= 1
    requires forall i :: 0 <= i < |ps| ==> ps[i]
    ensures Edges(prev, ps) == if prev then 0 else 1
    decreases |ps|
  {
    var n := |ps| - 1;
    if n == 0 {
      assert ps[..0] == [];
    } else {
      HeldEdges(prev, ps[..n]);
    }
  }

  /** A button held across N ticks fires once, not N times (and not at all
      when it was already held before the first of them). */
  lemma HeldButtonFiresOnce(s: State, snaps: seq<Snapshot>, b: Button)
    requires |snaps| >= 1
    requires forall i :: 0 <= i < |snaps| ==> Pressed(snaps[i].buttons, b)
    ensures Firings(s, snaps, b) == if Pressed(s.last, b) then 0 else 1
  {
    FiringsAreEdges(s, snaps, b);
    HeldEdges(Pressed(s.last, b), Presses(snaps, b));
  }

  /** After a run a piston is flipped from where it started exactly when its
      button fired an odd number of times. */
  lemma {:induction false} PistonParity(s: State, snaps: seq<Snapshot>, p: Piston)
    ensures Extended(Run(s, snaps), p) ==
            (Extended(s, p) != (Firings(s, snaps, PistonButton(p)) % 2 == 1))
    decreases |snaps|
  {
    if snaps != [] {
      var n := |snaps| - 1;
      PistonParity(s, snaps[..n], p);
      PistonTick(Run(s, snaps[..n]), snaps[n], p);
    }
  }

  /** Holding a piston's button from released across any number of ticks
      flips the piston once, whatever the other buttons do. */
  lemma HeldPistonFlipsOnce(s: State, snaps: seq<Snapshot>, p: Piston)
    requires |snaps| >= 1
    requires !Pressed(s.last, PistonButton(p))
    requires forall i :: 0 <= i < |snaps| ==> Pressed(snaps[i].buttons, PistonButton(p))
    ensures Extended(Run(s, snaps), p) == !Extended(s, p)
  {
    HeldButtonFiresOnce(s, snaps, PistonButton(p));
    PistonParity(s, snaps, p);
  }

  /** The level a pneumatic output holds after a sequence of commands: the
      last value written, or `init` if nothing was written. */
  function OutputLevel(init: bool, cs: seq<Commands>, p: Piston): bool
    decreases |cs|
  {
    if cs == [] then init
    else
      match Write(cs[|cs| - 1], p)
      case Some(v) => v
      case None => OutputLevel(init, cs[..|cs| - 1], p)
  }

  /** Although a piston is written only on its rising edges, the output
      always holds the piston's current state. */
  lemma {:induction false} OutputMirrorsPiston(s: State, snaps: seq<Snapshot>, p: Piston)
    ensures OutputLevel(Extended(s, p), Trace(s, snaps), p) == Extended(Run(s, snaps), p)
    decreases |snaps|
  {
    if snaps != [] {
      var n := |snaps| - 1;
      OutputMirrorsPiston(s, snaps[..n], p);
      var cs := Trace(s, snaps);
      assert cs[..n] == Trace(s, snaps[..n]);
      PistonTick(Run(s, snaps[..n]), snaps[n], p);
    }
  }

  /** Button `b` rises at tick `i` of a sequence of readings that starts
      with memory `s.last`. */
  predicate EdgeAt(s: State, snaps: seq<Snapshot>, i: nat, b: Button)
    requires i < |snaps|
  {
    Pressed(snaps[i].buttons, b) && !Pressed(if i == 0 then s.last else snaps[i - 1].buttons, b)
  }

  /** The branch of `b` fires at tick `i` of a run exactly when `b` rises
      there. */
  lemma RisingIsEdgeAt(s: State, snaps: seq<Snapshot>, i: nat, b: Button)
    requires i < |snaps|
    ensures Rising(Run(s, snaps[..i]), snaps[i], b) == EdgeAt(s, snaps, i, b)
  {
    RunLastButtons(s, snaps[..i]);
  }

  /** Ticks without an R1 or R2 edge leave the intake as it was. */
  lemma {:induction false} QuietIntake(s: State, snaps: seq<Snapshot>, j: nat, k: nat)
    requires j <= k <= |snaps|
    requires forall i :: j <= i < k ==> !EdgeAt(s, snaps, i, R1) && !EdgeAt(s, snaps, i, R2)
    ensures Run(s, snaps[..k]).intake == Run(s, snaps[..j]).intake
    decreases k - j
  {
    if j < k {
      QuietIntake(s, snaps, j, k - 1);
      RunStep(s, snaps, k - 1);
      RisingIsEdgeAt(s, snaps, k - 1, R1);
      RisingIsEdgeAt(s, snaps, k - 1, R2);
    }
  }

  /** The later edge wins: an R1 edge, then ticks without intake edges, then
      an R2 edge leave the intake running forward. */
  lemma LaterForwardEdgeWins(s: State, snaps: seq<Snapshot>)
    requires Inv(s) && |snaps| >= 2
    requires EdgeAt(s, snaps, 0, R1) && !EdgeAt(s, snaps, 0, R2)
    requires forall i :: 0 < i < |snaps| - 1 ==> !EdgeAt(s, snaps, i, R1) && !EdgeAt(s, snaps, i, R2)
    requires EdgeAt(s, snaps, |snaps| - 1, R2)
    ensures ModeOf(Run(s, snaps).intake) == Forward
  {
    var n := |snaps| - 1;
    RunStep(s, snaps, 0);
    assert snaps[..0] == [];
    RisingIsEdgeAt(s, snaps, 0, R1);
    RisingIsEdgeAt(s, snaps, 0, R2);
    QuietIntake(s, snaps, 1, n);
    RunPreservesInv(s, snaps[..n]);
    RunStep(s, snaps, n);
    assert snaps[..n + 1] == snaps;
    RisingIsEdgeAt(s, snaps, n, R1);
    RisingIsEdgeAt(s, snaps, n, R2);
  }

  /** Two R2 edges with no R1 edge and no other R2 edge between them take an
      idle intake forward and then off again: its power goes 0, 127, 0. */
  lemma ForwardEdgeTwice(s: State, snaps: seq<Snapshot>)
    requires Inv(s) && ModeOf(s.intake) == Off && |snaps| >= 2
    requires EdgeAt(s, snaps, 0, R2) && !EdgeAt(s, snaps, 0, R1)
    requires forall i :: 0 < i < |snaps| - 1 ==> !EdgeAt(s, snaps, i, R1) && !EdgeAt(s, snaps, i, R2)
    requires EdgeAt(s, snaps, |snaps| - 1, R2) && !EdgeAt(s, snaps, |snaps| - 1, R1)
    ensures ModeOf(Run(s, snaps[..1]).intake) == Forward && Power(Run(s, snaps[..1]).intake) == 127
    ensures ModeOf(Run(s, snaps[..|snaps| - 1]).intake) == Forward
    ensures ModeOf(Run(s, snaps).intake) == Off && Power(Run(s, snaps).intake) == 0
  {
    var n := |snaps| - 1;
    RunStep(s, snaps, 0);
    assert snaps[..0] == [];
    RisingIsEdgeAt(s, snaps, 0, R1);
    RisingIsEdgeAt(s, snaps, 0, R2);
    QuietIntake(s, snaps, 1, n);
    RunPreservesInv(s, snaps[..n]);
    RunStep(s, snaps, n);
    assert snaps[..n + 1] == snaps;
    RisingIsEdgeAt(s, snaps, n, R1);
    RisingIsEdgeAt(s, snaps, n, R2);
  }

  /** Symmetrically, an R2 edge followed later by an R1 edge (without R2
      rising in that same tick) leaves the intake running in reverse. */
  lemma LaterReverseEdgeWins(s: State, snaps: seq<Snapshot>)
    requires Inv(s) && |snaps| >= 2
    requires EdgeAt(s, snaps, 0, R2) && !EdgeAt(s, snaps, 0, R1)
    requires forall i :: 0 < i < |snaps| - 1 ==> !EdgeAt(s, snaps, i, R1) && !EdgeAt(s, snaps, i, R2)
    requires EdgeAt(s, snaps, |snaps| - 1, R1) && !EdgeAt(s, snaps, |snaps| - 1, R2)
    ensures ModeOf(Run(s, snaps).intake) == Reverse
  {
    var n := |snaps| - 1;
    RunStep(s, snaps, 0);
    assert snaps[..0] == [];
    RisingIsEdgeAt(s, snaps, 0, R1);
    RisingIsEdgeAt(s, snaps, 0, R2);
    QuietIntake(s, snaps, 1, n);
    RunPreservesInv(s, snaps[..n]);
    RunStep(s, snaps, n);
    assert snaps[..n + 1] == snaps;
    RisingIsEdgeAt(s, snaps, n, R1);
    RisingIsEdgeAt(s, snaps, n, R2);
  }
}
