/** The operator-control loop itself: the blocks of the loop body, each
    updating its flags branch by branch as the source does, one pass of the
    body (`Step`), and the loop that runs it over a finite sequence of
    readings. */
module OpControl {
  import opened Toggle
  import opened Teleop

  /** The intake block: the R1 edge toggles reverse (clearing forward),
      then the R2 edge toggles forward (clearing reverse). */
  method IntakeBlock(p: Pair, r1Last: bool, r2Last: bool, r1: bool, r2: bool) returns (q: Pair)
    ensures q == IntakeStep(p, r1 && !r1Last, r2 && !r2Last)
    ensures Exclusive(p) ==> Exclusive(q)
  {
    var fwd, rev := p.fwd, p.rev;
    if r1 && !r1Last {
      rev := !rev;
      if rev { fwd := false; }
    }
    if r2 && !r2Last {
      fwd := !fwd;
      if fwd { rev := false; }
    }
    q := Pair(fwd, rev);
  }

  /** The outake block: the L1 edge toggles forward first, then the L2 edge
      toggles reverse. */
  method OutakeBlock(p: Pair, l1Last: bool, l2Last: bool, l1: bool, l2: bool) returns (q: Pair)
    ensures q == OutakeStep(p, l1 && !l1Last, l2 && !l2Last)
    ensures Exclusive(p) ==> Exclusive(q)
  {
    var fwd, rev := p.fwd, p.rev;
    if l1 && !l1Last {
      fwd := !fwd;
      if fwd { rev := false; }
    }
    if l2 && !l2Last {
      rev := !rev;
      if rev { fwd := false; }
    }
    q := Pair(fwd, rev);
  }

  /** A piston block (descore on A, scoop on B): on a rising edge the piston
      flips and its new value is written to the output; on any other tick
      the piston keeps its value and nothing is written. */
  method PistonBlock(extended: bool, last: bool, current: bool) returns (next: bool, write: Option<bool>)
    ensures next == (if current && !last then !extended else extended)
    ensures write == if current && !last then Some(next) else None
  {
    next, write := extended, None;
    if current && !last {
      next := !next;
      write := Some(next);
    }
  }

  /** The "Actuate Motors" and "LCD Feedback" blocks: each toggle pair
      becomes a signed power (forward first, then reverse, else 0), both
      intake motors get the intake's power, the sticks go to the drive
      motors, and the four labels are chosen from the flags. */
  method Actuate(t: State, leftRaw: int, rightRaw: int, descoreWrite: Option<bool>, scoopWrite: Option<bool>)
    returns (cmd: Commands)
    ensures cmd == Emit(t, leftRaw, rightRaw, descoreWrite, scoopWrite)
  {
    var intakePower := 0;
    if t.intake.fwd {
      intakePower := 127;
    } else if t.intake.rev {
      intakePower := -127;
    }
    var outakePower := 0;
    if t.outake.fwd {
      outakePower := 127;
    } else if t.outake.rev {
      outakePower := -127;
    }

    var intakeLabel := if t.intake.fwd then "FWD" else if t.intake.rev then "REV" else "OFF";
    var outakeLabel := if t.outake.fwd then "FWD" else if t.outake.rev then "REV" else "OFF";
    var descoreLabel := if t.descore then "OUT" else "IN";
    var scoopLabel := if t.scoop then "OUT" else "IN";

    cmd := Commands(leftRaw, leftRaw, leftRaw, rightRaw, rightRaw, rightRaw,
                    intakePower, intakePower, outakePower,
                    descoreWrite, scoopWrite,
                    intakeLabel, outakeLabel, descoreLabel, scoopLabel);
  }

  /** The loop body on the flags of state `s`: drive pass-through, the
      intake and outake blocks, the two piston blocks, then the derived
      powers and the labels; the six button memories all take this tick's
      reading.  Returns the new flags and the tick's commands. */
  method Step(s: State, snap: Snapshot) returns (t: State, cmd: Commands)
    ensures t == Next(s, snap)
    ensures cmd == Output(s, snap)
    ensures Inv(s) ==> Inv(t)
  {
    var bs := snap.buttons;
    var intake := IntakeBlock(s.intake, s.last.r1, s.last.r2, bs.r1, bs.r2);
    var outake := OutakeBlock(s.outake, s.last.l1, s.last.l2, bs.l1, bs.l2);
    var descore, descoreWrite := PistonBlock(s.descore, s.last.a, bs.a);
    var scoop, scoopWrite := PistonBlock(s.scoop, s.last.b, bs.b);
    TickByParts(s, snap, intake, outake, descore, scoop, descoreWrite, scoopWrite);
    t := State(intake, outake, descore, scoop, bs);
    cmd := Actuate(t, snap.leftY, snap.rightY, descoreWrite, scoopWrite);
  }

  /** `opcontrol` over a finite sequence of readings: the twelve flags
      start false, then each reading runs one pass of the loop body on them.
      The commands are those of the tick function at every step; the flags
      left at the end are those of the run, and never have both directions
      of a pair set. */
  method Opcontrol(snaps: seq<Snapshot>) returns (cmds: seq<Commands>, flags: State)
    ensures cmds == Trace(Initial, snaps)
    ensures flags == Run(Initial, snaps)
    ensures Inv(flags)
  {
    flags := State(Pair(false, false), Pair(false, false), false, false,
                       Buttons(false, false, false, false, false, false));
    cmds := [];
    var i := 0;
    while i < |snaps|
      invariant 0 <= i <= |snaps|
      invariant flags == Run(Initial, snaps[..i])
      invariant Inv(flags)
      invariant cmds == Trace(Initial, snaps[..i])
    {
      var cmd;
      flags, cmd := Step(flags, snaps[i]);
      RunStep(Initial, snaps, i);
      assert snaps[..i + 1][..i] == snaps[..i];
      cmds := cmds + [cmd];
      i := i + 1;
    }
    assert snaps[..|snaps|] == snaps;
  }
}
