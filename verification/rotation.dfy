/** The rotation-motor controller of one swerve module: a stored tare angle and
    the continuity guard `pathTo`, which remembers the direction of the last
    path computed from a canonical ("legal") current angle.

    The angle normaliser the guard relies on (`legalize` and `legalPath`) is not
    part of this model; both are parameters, and nothing proved here depends on
    how they are defined. */
module Rotation {
  import opened Angles

  datatype RotationControl = RotationControl(tareAngle: real, lastLegalDirection: real)

  /** The state a freshly constructed controller starts in. */
  const Initial := RotationControl(0.0, 1.0)

  /** The remembered direction is a sign value. */
  predicate DirectionValid(rc: RotationControl) {
    rc.lastLegalDirection == -1.0 || rc.lastLegalDirection == 0.0 || rc.lastLegalDirection == 1.0
  }

  /** Sign of x as -1, 0 or 1 (signed zero and NaN are not modelled). */
  function Signum(x: real): (r: real)
    ensures r == -1.0 || r == 0.0 || r == 1.0
    ensures r * x == Abs(x)
    ensures r == 0.0 <==> x == 0.0
  {
    if x > 0.0 then 1.0 else if x < 0.0 then -1.0 else 0.0
  }

  /** |magnitude| carrying the sign of `sign`; a zero sign counts as positive. */
  function CopySign(magnitude: real, sign: real): (r: real)
    ensures Abs(r) == Abs(magnitude)
    ensures sign >= 0.0 ==> r >= 0.0
    ensures sign < 0.0 ==> r <= 0.0
  {
    if sign >= 0.0 then Abs(magnitude) else -Abs(magnitude)
  }

  function SetTareAngle(rc: RotationControl, inputAngle: real): (r: RotationControl)
    ensures GetTareAngle(r) == inputAngle
    ensures r.lastLegalDirection == rc.lastLegalDirection
  {
    rc.(tareAngle := inputAngle)
  }

  /** The tare last set: writing it back leaves the controller as it is. */
  function GetTareAngle(rc: RotationControl): (r: real)
    ensures rc.(tareAngle := r) == rc
  {
    rc.tareAngle
  }

  /** Setting the tare is the only way to change it, and reading it back
      returns the value last set; setting it to its current value changes
      nothing. */
  lemma TareGetSet(rc: RotationControl, x: real, y: real)
    ensures GetTareAngle(Initial) == 0.0
    ensures GetTareAngle(SetTareAngle(SetTareAngle(rc, x), y)) == y
    ensures SetTareAngle(rc, GetTareAngle(rc)) == rc
  {}

  datatype PathStep = PathStep(path: real, control: RotationControl)

  /** `pathTo` as written: a path from a canonical current angle is returned
      unchanged and its sign remembered; otherwise the path is moved by a full
      turn unless its sign is the opposite of the remembered direction. */
  function PathTo(rc: RotationControl, current: real, target: real,
                  legalize: real -> real, legalPath: (real, real) -> real): (r: PathStep)
    ensures var p := legalPath(current, target);
      current == legalize(current) ==>
        r.path == p && r.control == rc.(lastLegalDirection := Signum(p))
    ensures var p := legalPath(current, target);
      current != legalize(current) ==>
        r.control == rc &&
        (Signum(p) == -rc.lastLegalDirection ==> r.path == p) &&
        (Signum(p) != -rc.lastLegalDirection && p >= 0.0 ==> r.path == p - 360.0) &&
        (Signum(p) != -rc.lastLegalDirection && p < 0.0 ==> r.path == p + 360.0)
    ensures Congruent(r.path, legalPath(current, target))
    ensures DirectionValid(rc) ==> DirectionValid(r.control)
  {
    var p := legalPath(current, target);
    if current == legalize(current) then
      CongruentByTurns(p, p, 0);
      PathStep(p, rc.(lastLegalDirection := Signum(p)))
    else if Signum(p) != -rc.lastLegalDirection then
      CongruentByTurns(p - CopySign(360.0, p), p, if p >= 0.0 then -1 else 1);
      PathStep(p - CopySign(360.0, p), rc)
    else
      CongruentByTurns(p, p, 0);
      PathStep(p, rc)
  }

  /** The path moved by one full turn toward zero; a zero path stays put. */
  function Unwind(p: real): (r: real)
    ensures p > 0.0 ==> r == p - 360.0
    ensures p < 0.0 ==> r == p + 360.0
    ensures p == 0.0 ==> r == 0.0
    ensures Congruent(r, p)
  {
    CongruentByTurns(p - 360.0 * Signum(p), p, if p > 0.0 then -1 else if p < 0.0 then 1 else 0);
    p - 360.0 * Signum(p)
  }

  /** `pathTo` with the full turn taken as `360 * signum(path)` instead of
      `copySign(360, path)`: the same guard, except that a zero path is never
      moved. */
  function PathToZeroSafe(rc: RotationControl, current: real, target: real,
                          legalize: real -> real, legalPath: (real, real) -> real): (r: PathStep)
    ensures var p := legalPath(current, target);
      current == legalize(current) ==>
        r.path == p && r.control == rc.(lastLegalDirection := Signum(p))
    ensures var p := legalPath(current, target);
      current != legalize(current) ==>
        r.control == rc &&
        (Signum(p) == -rc.lastLegalDirection ==> r.path == p) &&
        (Signum(p) != -rc.lastLegalDirection && p > 0.0 ==> r.path == p - 360.0) &&
        (Signum(p) != -rc.lastLegalDirection && p < 0.0 ==> r.path == p + 360.0)
    ensures legalPath(current, target) == 0.0 ==> r.path == 0.0
    ensures Congruent(r.path, legalPath(current, target))
    ensures DirectionValid(rc) ==> DirectionValid(r.control)
  {
    var p := legalPath(current, target);
    if current == legalize(current) then
      CongruentByTurns(p, p, 0);
      PathStep(p, rc.(lastLegalDirection := Signum(p)))
    else if Signum(p) != -rc.lastLegalDirection then
      PathStep(Unwind(p), rc)
    else
      CongruentByTurns(p, p, 0);
      PathStep(p, rc)
  }

  /** Apart from a zero path, the zero-safe guard computes exactly what
      `pathTo` computes. */
  lemma PathToZeroSafeAgrees(rc: RotationControl, current: real, target: real,
                             legalize: real -> real, legalPath: (real, real) -> real)
    requires legalPath(current, target) != 0.0
    ensures PathToZeroSafe(rc, current, target, legalize, legalPath)
         == PathTo(rc, current, target, legalize, legalPath)
  {}

  /** As written, a zero path (the wheel is already at the target) from a
      non-canonical angle is turned into a full negative turn whenever a
      direction has been remembered. */
  lemma PathToTurnsZeroPath(rc: RotationControl, current: real, target: real,
                            legalize: real -> real, legalPath: (real, real) -> real)
    requires current != legalize(current)
    requires rc.lastLegalDirection == 1.0 || rc.lastLegalDirection == -1.0
    requires legalPath(current, target) == 0.0
    ensures PathTo(rc, current, target, legalize, legalPath).path == -360.0
  {}

  /** The guard with the comparison reversed (`==`): from a non-canonical
      angle, a path whose sign is minus the remembered direction is moved by a
      full turn, and any other path, a zero path included, is kept. Set beside
      `PathToReversesLastDirection`, it shows that this one comparison decides
      whether the remembered direction is reversed or kept. */
  function PathToContinuous(rc: RotationControl, current: real, target: real,
                            legalize: real -> real, legalPath: (real, real) -> real): (r: PathStep)
    ensures var p := legalPath(current, target);
      current == legalize(current) ==>
        r.path == p && r.control == rc.(lastLegalDirection := Signum(p))
    ensures var p := legalPath(current, target);
      current != legalize(current) ==>
        r.control == rc &&
        (Signum(p) != -rc.lastLegalDirection ==> r.path == p) &&
        (Signum(p) == -rc.lastLegalDirection && p > 0.0 ==> r.path == p - 360.0) &&
        (Signum(p) == -rc.lastLegalDirection && p < 0.0 ==> r.path == p + 360.0)
    ensures legalPath(current, target) == 0.0 ==> r.path == 0.0
    ensures Congruent(r.path, legalPath(current, target))
    ensures DirectionValid(rc) ==> DirectionValid(r.control)
  {
    var p := legalPath(current, target);
    if current == legalize(current) then
      CongruentByTurns(p, p, 0);
      PathStep(p, rc.(lastLegalDirection := Signum(p)))
    else if Signum(p) == -rc.lastLegalDirection then
      PathStep(Unwind(p), rc)
    else
      CongruentByTurns(p, p, 0);
      PathStep(p, rc)
  }

  /** Whatever winding the guard picks, the destination is the one the
      shortest path reaches: if `legalPath` leads from current to target, so
      does the guarded path. */
  lemma PathToKeepsDestination(rc: RotationControl, current: real, target: real,
                               legalize: real -> real, legalPath: (real, real) -> real)
    requires Congruent(current + legalPath(current, target), target)
    ensures Congruent(current + PathTo(rc, current, target, legalize, legalPath).path, target)
  {
    var p := legalPath(current, target);
    var r := PathTo(rc, current, target, legalize, legalPath).path;
    var k := TurnsOfCongruent(r, p);
    var j := TurnsOfCongruent(current + p, target);
    CongruentByTurns(current + r, target, k + j);
  }

  /** As written, whenever the current angle is not canonical and the path is
      a genuine rotation shorter than a full turn, the returned path runs
      AGAINST the remembered direction. */
  lemma PathToReversesLastDirection(rc: RotationControl, current: real, target: real,
                                    legalize: real -> real, legalPath: (real, real) -> real)
    requires current != legalize(current)
    requires rc.lastLegalDirection == 1.0 || rc.lastLegalDirection == -1.0
    requires 0.0 < Abs(legalPath(current, target)) < 360.0
    ensures Signum(PathTo(rc, current, target, legalize, legalPath).path) == -rc.lastLegalDirection
  {
    var p := legalPath(current, target);
    if Signum(p) != -rc.lastLegalDirection {
      assert Signum(p) == rc.lastLegalDirection;
    }
  }

  /** A concrete instance: with the canonical range (-180, 180], a current
      angle of 190 and a previous rotation in the positive direction, the
      10-degree step to 200 is turned into a 350-degree rotation the other
      way, and a zero path into a full negative turn. */
  lemma PathToReversalExample()
    ensures var rc := RotationControl(0.0, 1.0);
      PathTo(rc, 190.0, 200.0, Wrap, (c: real, t: real) => Wrap(t - c)).path == -350.0 &&
      PathTo(rc, 190.0, 190.0, Wrap, (c: real, t: real) => Wrap(t - c)).path == -360.0
  {
    WrapOfCanonical(10.0);
    WrapOfCanonical(0.0);
    CongruentByTurns(-170.0, 190.0, -1);
    WrapUnique(-170.0, 190.0);
  }

  /** With the comparison reversed, the remembered direction is kept in the
      same situation. */
  lemma PathToContinuousKeepsDirection(rc: RotationControl, current: real, target: real,
                                       legalize: real -> real, legalPath: (real, real) -> real)
    requires current != legalize(current)
    requires rc.lastLegalDirection == 1.0 || rc.lastLegalDirection == -1.0
    requires 0.0 < Abs(legalPath(current, target)) < 360.0
    ensures Signum(PathToContinuous(rc, current, target, legalize, legalPath).path) == rc.lastLegalDirection
  {
    var p := legalPath(current, target);
    if Signum(p) != -rc.lastLegalDirection {
      assert Signum(p) == rc.lastLegalDirection;
    }
  }
}
