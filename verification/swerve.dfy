/** One swerve module: the "decapitation" resolver that turns a desired wheel
    orientation into a target at most 90 degrees from the current angle, up to
    whole turns (inverting the drive direction when the target is folded by
    180 degrees), the drive speed command that honours that inversion, the
    tare setter, and the traction odometry bookkeeping.

    The angle the rotation motor currently reports and the traction path length
    are hardware readings; here they are plain inputs. */
module Swerve {
  import opened Angles
  import Rotation

  datatype SwerveModule = SwerveModule(
    decapitated: real,
    tractionDeltaPathLength: real,
    tractionPreviousPathLength: real,
    rotation: Rotation.RotationControl)

  /** The state a freshly constructed module starts in. */
  const Initial := SwerveModule(1.0, 0.0, 0.0, Rotation.Initial)

  /** The decapitation flag is a sign and the rotation controller's remembered
      direction is a sign. */
  predicate Valid(m: SwerveModule) {
    (m.decapitated == 1.0 || m.decapitated == -1.0) && Rotation.DirectionValid(m.rotation)
  }

  lemma InitialValid()
    ensures Valid(Initial)
    ensures Rotation.GetTareAngle(Initial.rotation) == 0.0
  {}

  // ---------------------------------------------------------------------------
  // Decapitation

  /** The first two loops of `decapitateAngle`: move the target by whole turns
      into (-180, 180]. */
  method WrapTarget(target: real) returns (endAngle: real)
    ensures -180.0 < endAngle <= 180.0
    ensures Congruent(endAngle, target)
    ensures endAngle == Wrap(target)
  {
    endAngle := target;
    CongruentByTurns(endAngle, target, 0);
    ghost var turns := 0;
    while endAngle <= -180.0
      invariant endAngle == target + 360.0 * turns as real
      decreases (-180.0 - endAngle).Floor
    {
      endAngle := endAngle + 360.0;
      turns := turns + 1;
    }
    while endAngle > 180.0
      invariant endAngle > -180.0
      invariant endAngle == target + 360.0 * turns as real
      decreases (endAngle - 180.0).Floor
    {
      endAngle := endAngle - 360.0;
      turns := turns - 1;
    }
    CongruentByTurns(endAngle, target, turns);
    WrapUnique(endAngle, target);
  }

  /** The next two loops of `decapitateAngle`: move a working copy of the
      current angle by whole turns until it lies within half a turn of the
      (already wrapped) target. The gap left is, in magnitude, the shortest
      rotation from the current angle to the target. */
  method AlignEncoder(endAngle: real, current: real) returns (encoderPosition: real)
    ensures -180.0 <= endAngle - encoderPosition <= 180.0
    ensures Congruent(encoderPosition, current)
    ensures Abs(endAngle - encoderPosition) == Abs(Wrap(endAngle - current))
  {
    encoderPosition := current;
    ghost var turns := 0;
    while endAngle - encoderPosition > 180.0
      invariant encoderPosition == current + 360.0 * turns as real
      decreases (endAngle - encoderPosition - 180.0).Floor
    {
      encoderPosition := encoderPosition + 360.0;
      turns := turns + 1;
    }
    while endAngle - encoderPosition < -180.0
      invariant endAngle - encoderPosition <= 180.0
      invariant encoderPosition == current + 360.0 * turns as real
      decreases (encoderPosition - endAngle - 180.0).Floor
    {
      encoderPosition := encoderPosition - 360.0;
      turns := turns - 1;
    }
    CongruentByTurns(encoderPosition, current, turns);
    CongruentByTurns(endAngle, endAngle, 0);
    GapIsShortestRotation(endAngle, encoderPosition, endAngle, current);
  }

  /** Two angles within half a turn of each other are separated by the
      shortest rotation between any angles congruent to them. */
  lemma GapIsShortestRotation(a: real, b: real, a1: real, b1: real)
    requires -180.0 <= a - b <= 180.0
    requires Congruent(a, a1) && Congruent(b, b1)
    ensures Abs(a - b) == Abs(Wrap(a1 - b1))
  {
    CongruentDifference(a, a1, b, b1);
    if a - b == -180.0 {
      var k := TurnsOfCongruent(a - b, a1 - b1);
      CongruentByTurns(180.0, a1 - b1, k + 1);
      WrapUnique(180.0, a1 - b1);
    } else {
      WrapUnique(a - b, a1 - b1);
    }
  }

  /** What `decapitateAngle` decides: the angle sent to the rotation motor and
      the sign by which drive speeds are then multiplied. */
  datatype Resolution = Resolution(command: real, decapitated: real)

  /** Closed-form reference for `decapitateAngle`. The command names the
      desired orientation, or the opposite one when the drive is inverted, and
      the drive is inverted only when the desired orientation is more than a
      quarter turn away from the current angle. */
  function Resolve(current: real, target: real): (r: Resolution)
    ensures r.decapitated == 1.0 || r.decapitated == -1.0
    ensures r.decapitated == -1.0 <==> Abs(Wrap(target - current)) > 90.0
    ensures r.decapitated == 1.0 ==> Congruent(r.command, target)
    ensures r.decapitated == -1.0 ==> Congruent(r.command, target + 180.0)
    ensures -180.0 < r.command <= 360.0
  {
    var endAngle := Wrap(target);
    if Abs(Wrap(target - current)) > 90.0 then
      CongruentShift(endAngle, target, 180.0);
      Resolution(endAngle + 180.0, -1.0)
    else
      Resolution(endAngle, 1.0)
  }

  /** Up to whole turns, the resolved command is never more than a quarter
      turn from the current angle: it is congruent to `current + d` for some
      `d` with |d| <= 90. */
  lemma ResolveWithinQuarterTurn(current: real, target: real)
    ensures Abs(Wrap(Resolve(current, target).command - current)) <= 90.0
  {
    if Abs(Wrap(target - current)) > 90.0 {
      FoldedWithinQuarterTurn(current, target);
    } else {
      UnfoldedWithinQuarterTurn(current, target);
    }
  }

  lemma UnfoldedWithinQuarterTurn(current: real, target: real)
    requires Abs(Wrap(target - current)) <= 90.0
    ensures Abs(Wrap(Wrap(target) - current)) <= 90.0
  {
    CongruentByTurns(current, current, 0);
    CongruentDifference(Wrap(target), target, current, current);
    WrapOfCongruent(Wrap(target) - current, target - current);
  }

  lemma FoldedWithinQuarterTurn(current: real, target: real)
    requires Abs(Wrap(target - current)) > 90.0
    ensures Abs(Wrap(Wrap(target) + 180.0 - current)) <= 90.0
  {
    var w := Wrap(target - current);
    var x := Wrap(target) + 180.0 - current;
    var k := TurnsOfCongruent(Wrap(target), target);
    var j := TurnsOfCongruent(w, target - current);
    // x == w + 180 + 360 * (k - j)
    if w > 0.0 {
      CongruentByTurns(w - 180.0, x, j - k - 1);
      CongruentSymmetric(w - 180.0, x);
      WrapUnique(w - 180.0, x);
    } else {
      CongruentByTurns(w + 180.0, x, j - k);
      CongruentSymmetric(w + 180.0, x);
      WrapUnique(w + 180.0, x);
    }
  }

  /** `decapitateAngle`: the loop implementation computes exactly the
      reference resolution, records its sign in the module and changes
      nothing else. */
  method DecapitateAngle(m: SwerveModule, current: real, target: real)
    returns (command: real, next: SwerveModule)
    ensures command == Resolve(current, target).command
    ensures next.decapitated == Resolve(current, target).decapitated
    ensures next == m.(decapitated := next.decapitated)
    ensures Valid(m) ==> Valid(next)
  {
    var endAngle := WrapTarget(target);
    var encoderPosition := AlignEncoder(endAngle, current);
    if Abs(endAngle - encoderPosition) > 90.0 {
      next := m.(decapitated := -1.0);
    } else {
      next := m.(decapitated := 1.0);
    }
    command := if next.decapitated == -1.0 then endAngle + 180.0 else endAngle;
    CongruentByTurns(current, current, 0);
    CongruentDifference(endAngle, target, current, current);
    WrapOfCongruent(endAngle - current, target - current);
  }

  /** `swivelTo`: the angle sent to the rotation motor is the one
      `decapitateAngle` resolves, so up to whole turns it is within a quarter
      turn of the current angle. */
  method SwivelTo(m: SwerveModule, current: real, target: real)
    returns (angleCommand: real, next: SwerveModule)
    ensures angleCommand == Resolve(current, target).command
    ensures next == m.(decapitated := Resolve(current, target).decapitated)
    ensures Abs(Wrap(angleCommand - current)) <= 90.0
  {
    angleCommand, next := DecapitateAngle(m, current, target);
    ResolveWithinQuarterTurn(current, target);
  }

  function GetDecapitated(m: SwerveModule): (r: real)
    ensures Valid(m) ==> r == 1.0 || r == -1.0
  {
    m.decapitated
  }

  // ---------------------------------------------------------------------------
  // Drive speed

  /** `set`: the speed forwarded to the traction motor keeps the commanded
      magnitude and is reversed exactly when the module is decapitated. */
  function Set(m: SwerveModule, speed: real): (r: real)
    ensures Valid(m) ==> Abs(r) == Abs(speed)
    ensures Valid(m) && speed != 0.0 ==> (r == speed <==> m.decapitated == 1.0)
  {
    speed * m.decapitated
  }

  /** A wheel pointing at angle a and driven at speed s moves the module the
      same way as one pointing at a1 and driven at s1. */
  ghost predicate SameMotion(a: real, s: real, a1: real, s1: real) {
    (Congruent(a, a1) && s == s1) || (Congruent(a, a1 + 180.0) && s == -s1)
  }

  /** Resolving a target and then driving at any speed moves the module as if
      the wheel had been pointed straight at the target and driven at that
      speed: the folding by 180 degrees and the speed inversion cancel. */
  lemma DecapitationPreservesMotion(m: SwerveModule, current: real, target: real, speed: real)
    ensures var r := Resolve(current, target);
      SameMotion(r.command, Set(m.(decapitated := r.decapitated), speed), target, speed)
  {}

  /** The resolver's behaviour on sample inputs: from 0, a target of 45 needs
      no inversion; a target of exactly 90 does not invert either; a target of
      170 is folded to 350 (the un-normalised form of -10) with the drive
      reversed. */
  lemma ResolveExamples()
    ensures Resolve(0.0, 45.0) == Resolution(45.0, 1.0)
    ensures Resolve(0.0, 90.0) == Resolution(90.0, 1.0)
    ensures Resolve(0.0, 170.0) == Resolution(350.0, -1.0)
  {
    WrapOfCanonical(45.0);
    WrapOfCanonical(90.0);
    WrapOfCanonical(170.0);
  }

  // ---------------------------------------------------------------------------
  // Tare

  /** `setTareAngle(tare, relativeReference)`: replace the controller's tare,
      or add to it when the reference is relative. */
  function SetTareAngle(m: SwerveModule, tare: real, relativeReference: bool): (r: SwerveModule)
    ensures !relativeReference ==> Rotation.GetTareAngle(r.rotation) == tare
    ensures relativeReference ==>
      Rotation.GetTareAngle(r.rotation) - Rotation.GetTareAngle(m.rotation) == tare
    ensures r == m.(rotation := r.rotation)
    ensures r.rotation.lastLegalDirection == m.rotation.lastLegalDirection
  {
    var angle := if relativeReference then tare + Rotation.GetTareAngle(m.rotation) else tare;
    m.(rotation := Rotation.SetTareAngle(m.rotation, angle))
  }

  /** `setTareAngle(tare)`: the single-argument form replaces the tare. */
  function SetTareAngleAbsolute(m: SwerveModule, tare: real): (r: SwerveModule)
    ensures Rotation.GetTareAngle(r.rotation) == tare
    ensures r == m.(rotation := r.rotation)
    ensures r.rotation.lastLegalDirection == m.rotation.lastLegalDirection
  {
    SetTareAngle(m, tare, false)
  }

  /** Relative tare settings accumulate: setting 10 and then adding 5 leaves
      15, two relative settings are one relative setting of their sum, and an
      absolute setting forgets everything set before it. */
  lemma TareAccumulates(m: SwerveModule, a: real, b: real)
    ensures Rotation.GetTareAngle(SetTareAngle(SetTareAngleAbsolute(m, a), b, true).rotation) == a + b
    ensures SetTareAngle(SetTareAngle(m, a, true), b, true) == SetTareAngle(m, a + b, true)
    ensures SetTareAngleAbsolute(SetTareAngle(m, a, true), b) == SetTareAngleAbsolute(m, b)
  {}

  // ---------------------------------------------------------------------------
  // Traction odometry

  /** `checkTractionEncoder`: given the traction path length now read, record
      how far the wheel moved since the previous reading and remember the new
      reading. */
  function CheckTractionEncoder(m: SwerveModule, currentPathLength: real): (r: SwerveModule)
    ensures m.tractionPreviousPathLength + DeltaDistance(r) == currentPathLength
    ensures r.tractionPreviousPathLength == currentPathLength
    ensures r.decapitated == m.decapitated && r.rotation == m.rotation
  {
    m.(tractionDeltaPathLength := currentPathLength - m.tractionPreviousPathLength,
       tractionPreviousPathLength := currentPathLength)
  }

  /** `deltaDistance`: the delta recorded by the last `checkTractionEncoder`;
      reading it changes nothing. */
  function DeltaDistance(m: SwerveModule): (r: real)
    ensures m.(tractionDeltaPathLength := r) == m
  {
    m.tractionDeltaPathLength
  }

  /** The module after one `checkTractionEncoder` per reading, in order. */
  function CheckAll(m: SwerveModule, readings: seq<real>): SwerveModule
    decreases |readings|
  {
    if readings == [] then m
    else CheckAll(CheckTractionEncoder(m, readings[0]), readings[1..])
  }

  /** The sum of the deltas `deltaDistance` reports over those cycles. */
  function TotalDelta(m: SwerveModule, readings: seq<real>): real
    decreases |readings|
  {
    if readings == [] then 0.0
    else
      var next := CheckTractionEncoder(m, readings[0]);
      DeltaDistance(next) + TotalDelta(next, readings[1..])
  }

  /** The per-cycle deltas add up, with nothing lost or counted twice, to the
      distance between the reading remembered at the start and the last
      reading; the last reading is what the module remembers at the end. */
  lemma {:induction false} OdometryTelescopes(m: SwerveModule, readings: seq<real>)
    requires readings != []
    ensures TotalDelta(m, readings) == readings[|readings| - 1] - m.tractionPreviousPathLength
    ensures CheckAll(m, readings).tractionPreviousPathLength == readings[|readings| - 1]
    decreases |readings|
  {
    var next := CheckTractionEncoder(m, readings[0]);
    if |readings| > 1 {
      OdometryTelescopes(next, readings[1..]);
      assert readings[1..][|readings[1..]| - 1] == readings[|readings| - 1];
    }
  }
}
