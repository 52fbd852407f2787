/** Concrete operator sessions run through the loop from its initial state,
    with the commands they produce tick by tick. */
module Scenarios {
  import opened Toggle
  import opened Teleop
  import OpControl

  /** A reading with the sticks centred and only button `b` pressed. */
  function Tap(b: Button): Snapshot {
    Snapshot(0, 0, Buttons(b == R1, b == R2, b == L1, b == L2, b == A, b == B))
  }

  /** A reading with the sticks centred and nothing pressed. */
  const Idle: Snapshot := Snapshot(0, 0, NonePressed)

  /** Two R2 presses with a release between them: the intake goes forward and
      then off again; its power goes 127, 127, 0. */
  lemma DoubleTapForward()
    ensures var cs := Trace(Initial, [Tap(R2), Idle, Tap(R2)]);
      cs[0].bottomIntake == 127 && cs[1].bottomIntake == 127 && cs[2].bottomIntake == 0 &&
      cs[0].intakeLabel == "FWD" && cs[1].intakeLabel == "FWD" && cs[2].intakeLabel == "OFF"
  {
    var snaps := [Tap(R2), Idle, Tap(R2)];
    assert snaps[..0] == [] && snaps[..1] == [Tap(R2)] && snaps[..2] == [Tap(R2), Idle];
    TraceAt(Initial, snaps, 0);
    TraceAt(Initial, snaps, 1);
    TraceAt(Initial, snaps, 2);
  }

  /** R1, release, R2: reverse, then the later edge takes it forward. */
  lemma ReverseThenForward()
    ensures var cs := Trace(Initial, [Tap(R1), Idle, Tap(R2)]);
      cs[0].topIntake == -127 && cs[1].topIntake == -127 && cs[2].topIntake == 127 &&
      cs[0].intakeLabel == "REV" && cs[2].intakeLabel == "FWD"
  {
    var snaps := [Tap(R1), Idle, Tap(R2)];
    assert snaps[..0] == [] && snaps[..1] == [Tap(R1)] && snaps[..2] == [Tap(R1), Idle];
    TraceAt(Initial, snaps, 0);
    TraceAt(Initial, snaps, 2);
  }

  /** All four motor buttons pressed in the very first tick: the intake ends
      forward, the outake ends reverse; the sticks go straight through. */
  lemma AllMotorButtonsAtOnce()
    ensures var c := Trace(Initial, [Snapshot(100, -55, Buttons(true, true, true, true, false, false))])[0];
      c.bottomIntake == 127 && c.outake == -127 &&
      c.leftTop == 100 && c.leftBottomTop == 100 && c.rightBottom == -55 &&
      c.descore == None && c.scoop == None
  {
    var snaps := [Snapshot(100, -55, Buttons(true, true, true, true, false, false))];
    assert snaps[..0] == [];
    TraceAt(Initial, snaps, 0);
  }

  /** A held for two ticks, released, pressed again: the descore output is
      written twice, first extended and then retracted. */
  lemma DescoreTaps()
    ensures var cs := Trace(Initial, [Tap(A), Tap(A), Idle, Tap(A)]);
      cs[0].descore == Some(true) && cs[1].descore == None &&
      cs[2].descore == None && cs[3].descore == Some(false) &&
      cs[1].descoreLabel == "OUT" && cs[3].descoreLabel == "IN"
  {
    var snaps := [Tap(A), Tap(A), Idle, Tap(A)];
    assert snaps[..0] == [] && snaps[..1] == [Tap(A)] && snaps[..2] == [Tap(A), Tap(A)];
    assert snaps[..3] == [Tap(A), Tap(A), Idle];
    TraceAt(Initial, snaps, 0);
    TraceAt(Initial, snaps, 1);
    TraceAt(Initial, snaps, 2);
    TraceAt(Initial, snaps, 3);
  }

  /** The imperative loop run over the double-tap session produces the same
      intake powers. */
  method DoubleTapThroughLoop() returns (powers: seq<int>)
    ensures powers == [127, 127, 0]
  {
    var cmds, _ := OpControl.Opcontrol([Tap(R2), Idle, Tap(R2)]);
    DoubleTapForward();
    powers := [cmds[0].bottomIntake, cmds[1].bottomIntake, cmds[2].bottomIntake];
  }
}
