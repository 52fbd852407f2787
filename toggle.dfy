/** The per-actuator logic of the operator-control loop: the forward/reverse
    toggle pair kept for the intake and for the outake, the signed power
    derived from a pair, and the status labels written to the LCD.

    A motorised actuator is kept as two booleans (`Pair`); they are read
    as one of three modes (`Mode`).  `ModeOf` is the abstraction from
    the first to the second, and the lemmas here show that the flag-level
    branches of the source implement the three-state toggles. */
module Toggle {

  /** The two flags the loop keeps per motorised actuator
      (`intakeToggleForward`/`intakeToggleReverse`,
      `outakeToggleForward`/`outakeToggleReverse`). */
  datatype Pair = Pair(fwd: bool, rev: bool)

  /** The state a motorised actuator is meant to be in. */
  datatype Mode = Off | Forward | Reverse

  /** Both flags cleared: how every pair starts. */
  const Stopped: Pair := Pair(false, false)

  /** Forward and reverse are never both set. */
  predicate Exclusive(p: Pair) {
    !(p.fwd && p.rev)
  }

  /** The mode a pair stands for, read as the source reads it: forward is
      tested first, then reverse. */
  function ModeOf(p: Pair): Mode {
    if p.fwd then Forward else if p.rev then Reverse else Off
  }

  /** The three-state toggles: a forward toggle turns a
      forward actuator off and anything else forward; likewise for reverse. */
  function ToggleForward(m: Mode): Mode {
    if m == Forward then Off else Forward
  }

  function ToggleReverse(m: Mode): Mode {
    if m == Reverse then Off else Reverse
  }

  /** Signed power per mode: forward +127, reverse -127, off 0. */
  function ModePower(m: Mode): int {
    match m
    case Forward => 127
    case Reverse => -127
    case Off => 0
  }

  /** Status text per mode. */
  function ModeLabel(m: Mode): string {
    match m
    case Forward => "FWD"
    case Reverse => "REV"
    case Off => "OFF"
  }

  /** The body of a rising-edge branch on a forward button: the forward flag
      flips, and if it is now set the reverse flag is cleared.  Whatever the
      pair was, the result is exclusive. */
  function FlipForward(p: Pair): (r: Pair)
    ensures Exclusive(r)
    ensures r.fwd == !p.fwd
  {
    var fwd := !p.fwd;
    Pair(fwd, if fwd then false else p.rev)
  }

  /** The body of a rising-edge branch on a reverse button, symmetric to
      `FlipForward`. */
  function FlipReverse(p: Pair): (r: Pair)
    ensures Exclusive(r)
    ensures r.rev == !p.rev
  {
    var rev := !p.rev;
    Pair(if rev then false else p.fwd, rev)
  }

  /** On exclusive pairs the flag flips are the three-state toggles. */
  lemma FlipsAreToggles(p: Pair)
    requires Exclusive(p)
    ensures ModeOf(FlipForward(p)) == ToggleForward(ModeOf(p))
    ensures ModeOf(FlipReverse(p)) == ToggleReverse(ModeOf(p))
  {
  }

  /** One tick of the intake pair: the R1 (reverse) edge is handled first,
      then the R2 (forward) edge.  On exclusive pairs this is the reverse
      toggle followed by the forward toggle on modes. */
  function IntakeStep(p: Pair, reverseEdge: bool, forwardEdge: bool): (r: Pair)
    ensures Exclusive(p) ==> Exclusive(r)
    ensures !reverseEdge && !forwardEdge ==> r == p
  {
    var p1 := if reverseEdge then FlipReverse(p) else p;
    if forwardEdge then FlipForward(p1) else p1
  }

  /** On modes, an intake tick is the reverse toggle (on an R1 edge)
      followed by the forward toggle (on an R2 edge). */
  lemma IntakeStepModes(p: Pair, reverseEdge: bool, forwardEdge: bool)
    requires Exclusive(p)
    ensures var m := if reverseEdge then ToggleReverse(ModeOf(p)) else ModeOf(p);
      ModeOf(IntakeStep(p, reverseEdge, forwardEdge)) == if forwardEdge then ToggleForward(m) else m
  {
    if reverseEdge {
      FlipsAreToggles(p);
      FlipsAreToggles(FlipReverse(p));
    } else {
      FlipsAreToggles(p);
    }
  }

  /** One tick of the outake pair: here the L1 (forward) edge is handled
      first, then the L2 (reverse) edge -- the opposite order to the intake. */
  function OutakeStep(p: Pair, forwardEdge: bool, reverseEdge: bool): (r: Pair)
    ensures Exclusive(p) ==> Exclusive(r)
    ensures !forwardEdge && !reverseEdge ==> r == p
  {
    var p1 := if forwardEdge then FlipForward(p) else p;
    if reverseEdge then FlipReverse(p1) else p1
  }

  /** On modes, an outake tick is the forward toggle (on an L1 edge)
      followed by the reverse toggle (on an L2 edge). */
  lemma OutakeStepModes(p: Pair, forwardEdge: bool, reverseEdge: bool)
    requires Exclusive(p)
    ensures var m := if forwardEdge then ToggleForward(ModeOf(p)) else ModeOf(p);
      ModeOf(OutakeStep(p, forwardEdge, reverseEdge)) == if reverseEdge then ToggleReverse(m) else m
  {
    if forwardEdge {
      FlipsAreToggles(p);
      FlipsAreToggles(FlipForward(p));
    } else {
      FlipsAreToggles(p);
    }
  }

  /** The power commanded for a pair: 127 if forward is set, else -127 if
      reverse is set, else 0. */
  function Power(p: Pair): int {
    if p.fwd then 127 else if p.rev then -127 else 0
  }

  /** The LCD label of a motorised actuator. */
  function MotorLabel(p: Pair): string {
    if p.fwd then "FWD" else if p.rev then "REV" else "OFF"
  }

  /** The LCD label of a piston. */
  function PistonLabel(extended: bool): string {
    if extended then "OUT" else "IN"
  }

  /** The power commanded is one of the three levels, the one the mode of
      the flags calls for. */
  lemma PowerOfMode(p: Pair)
    ensures Power(p) in {-127, 0, 127}
    ensures Power(p) == ModePower(ModeOf(p))
  {
  }

  /** The motor label is one of "FWD", "REV" and "OFF", the one naming the
      mode of the flags; the piston label is "OUT" exactly when extended,
      "IN" otherwise. */
  lemma LabelsOfState(p: Pair, extended: bool)
    ensures MotorLabel(p) in {"FWD", "REV", "OFF"}
    ensures MotorLabel(p) == ModeLabel(ModeOf(p))
    ensures PistonLabel(extended) in {"OUT", "IN"}
    ensures PistonLabel(extended) == "OUT" <==> extended
  {
  }

  /** The label shown and the power commanded always agree. */
  lemma LabelMatchesPower(p: Pair)
    ensures MotorLabel(p) == "FWD" <==> Power(p) == 127
    ensures MotorLabel(p) == "REV" <==> Power(p) == -127
    ensures MotorLabel(p) == "OFF" <==> Power(p) == 0
  {
  }

  /** When both buttons of a pair rise in the same tick, the one handled
      second wins: the intake ends forward, the outake ends reverse. */
  lemma SimultaneousEdges(p: Pair)
    requires Exclusive(p)
    ensures ModeOf(IntakeStep(p, true, true)) == Forward
    ensures ModeOf(OutakeStep(p, true, true)) == Reverse
  {
  }
}
