# Swerve module steering logic, in Dafny

This project models the steering decisions of one swerve module on a holonomic
drive. Angles are exact `real` degrees.

- `Angles` (angles.dfy): congruence modulo a full turn, `Congruent`. It also
  has a closed-form canonical angle in (-180, 180], `Wrap`.
- `Swerve` (swerve.dfy) covers `SwerveModule`.
  - The "decapitation" resolver `decapitateAngle` (`WrapTarget`, `AlignEncoder`,
    `DecapitateAngle`) is written with its four loops. It is proved equal to a
    closed-form reference `Resolve`. `ResolveWithinQuarterTurn` proves the quarter-turn bound.
  - `swivelTo` and `set` consume the resolver.
  - Also covered: `getDecapitated`, both `setTareAngle` overloads,
    `checkTractionEncoder` and `deltaDistance`.
- `Rotation` (rotation.dfy) covers `RotationControl`: the tare angle and the
  continuity guard `pathTo`.

Each module's state is an immutable record, and each operation returns the new
record. The angle the rotation motor reports and the traction path length are
plain inputs. The angle normaliser `Compass` is not part of this model. Its
`legalize` and `legalPath` are function parameters of `PathTo`, and no property
proved about `PathTo` depends on how they are defined.

Facts about the code that the model keeps:

- `getCurrentAngle` does not apply the stored tare. The tare is only stored and
  read back; the resolver sees the raw reading.
- `decapitateAngle` returns `endAngle + 180` without wrapping it again. So a
  target of 170 from 0 gives 350, and commands lie in (-180, 360].
- After the alignment loops the gap between target and working encoder angle
  lies in [-180, 180], closed at both ends.
- The quarter-turn bound holds up to whole turns. The reading may itself be
  wound (for instance 350 while the command is 0), so the physical rotation is
  at most 90 degrees only if the motor goes to the nearest congruent position.
- `pathTo` moves the path by a full turn when `signum(path) != -lastLegalDirection`.
  From a non-canonical angle, when the remembered direction is +1 or -1, this
  makes every non-zero path shorter than a turn run against the remembered
  direction. In that case it also turns a zero path into -360 (see Findings).
  A remembered direction of 0 (stored after a zero legal path) leaves a zero
  path at 0. `PathToContinuous` is the same guard with the comparison reversed
  (`==`). Set beside `PathToReversesLastDirection`, it shows that this one
  comparison decides whether the remembered direction is reversed or kept.

## Model

| member | source | states |
|---|---|---|
| Angles.Wrap | src/main/java/frc/robot/SwerveModule.java:113-118 | the canonical angle lies in (-180, 180] and names the same orientation as its input |
| Angles.WrapIdempotent | src/main/java/frc/robot/SwerveModule.java:113-118 | wrapping an already wrapped angle changes nothing |
| Swerve.WrapTarget | src/main/java/frc/robot/SwerveModule.java:113-118 | the two wrap loops terminate for every real target; the result lies in (-180, 180], differs from the target by whole turns, and is the unique such angle |
| Swerve.AlignEncoder | src/main/java/frc/robot/SwerveModule.java:120-126 | the alignment loops terminate; the working encoder angle differs from the reading by whole turns; the remaining gap lies in [-180, 180]; its magnitude is the shortest rotation from the reading to the target |
| Swerve.Resolve | src/main/java/frc/robot/SwerveModule.java:128-134 | the decapitation sign is +1 or -1. It is -1 exactly when the shortest rotation to the target exceeds 90 degrees, so exactly 90 does not invert. The command names the target, or the opposite orientation when inverted. It lies in (-180, 360] |
| Swerve.ResolveWithinQuarterTurn | src/main/java/frc/robot/SwerveModule.java:106-134 | up to whole turns, the resolved command is never more than 90 degrees from the current angle: it is congruent to current + d with abs(d) <= 90 |
| Swerve.DecapitateAngle | src/main/java/frc/robot/SwerveModule.java:111-135 | the loop implementation returns the reference command and stores the reference sign; no other field of the module changes; validity is preserved |
| Swerve.SwivelTo | src/main/java/frc/robot/SwerveModule.java:63-65 | the angle sent to the rotation motor is exactly the resolver's command, so up to whole turns it is within 90 degrees of the current angle |
| Swerve.GetDecapitated | src/main/java/frc/robot/SwerveModule.java:169-171 | in a valid module the reported flag is +1 or -1 |
| Swerve.InitialValid | src/main/java/frc/robot/SwerveModule.java:14-16 | a new module starts valid (flag +1, remembered direction +1) with tare 0 |
| Swerve.Set | src/main/java/frc/robot/SwerveModule.java:75-82 | the forwarded speed has the commanded magnitude; a non-zero speed is reversed exactly when the module is decapitated |
| Swerve.DecapitationPreservesMotion | src/main/java/frc/robot/SwerveModule.java:75-82 | after resolving a target, the resolver's command with the forwarded speed moves the module like the target angle with the commanded speed |
| Swerve.ResolveExamples | src/main/java/frc/robot/SwerveModule.java:128-134 | from 0: target 45 gives (45, +1); target 90 gives (90, +1); target 170 gives (350, -1) |
| Swerve.SetTareAngle | src/main/java/frc/robot/SwerveModule.java:44-53 | an absolute setting replaces the tare; a relative one adds to it; nothing else in the module changes |
| Swerve.SetTareAngleAbsolute | src/main/java/frc/robot/SwerveModule.java:36-42 | the single-argument form replaces the tare and changes nothing else |
| Swerve.TareAccumulates | src/main/java/frc/robot/SwerveModule.java:49-53 | setting a and then adding b leaves a + b; two relative settings equal one relative setting of their sum; an absolute setting discards earlier relative ones |
| Swerve.DeltaDistance | src/main/java/frc/robot/SwerveModule.java:147-149 | returns the delta the last `checkTractionEncoder` recorded (pinned by CheckTractionEncoder's first clause) and changes nothing |
| Swerve.CheckTractionEncoder | src/main/java/frc/robot/SwerveModule.java:84-88 | the delta is the new reading minus the previous one; the new reading becomes the previous one; steering state is untouched |
| Swerve.OdometryTelescopes | src/main/java/frc/robot/SwerveModule.java:84-88 | over any run of readings, the reported deltas sum exactly to the last reading minus the first remembered one, and the last reading is remembered |
| Rotation.Signum | src/main/java/frc/robot/RotationControl.java:78 | the sign is -1, 0 or 1; it is 0 only for 0; multiplying by it gives the magnitude |
| Rotation.CopySign | src/main/java/frc/robot/RotationControl.java:79 | the result has the magnitude's size and is non-negative for a non-negative sign argument, non-positive otherwise |
| Rotation.SetTareAngle | src/main/java/frc/robot/RotationControl.java:28-30 | the tare reads back as the value set; the remembered direction is unchanged |
| Rotation.GetTareAngle | src/main/java/frc/robot/RotationControl.java:35-37 | returns the stored tare: writing the value read back leaves the controller unchanged |
| Rotation.TareGetSet | src/main/java/frc/robot/RotationControl.java:9-37 | the tare starts at 0; reading returns the last value set; setting the current value changes nothing |
| Rotation.PathTo | src/main/java/frc/robot/RotationControl.java:75-82 | from a canonical current angle the shortest path is returned and its sign remembered. Otherwise nothing is remembered; the path is kept when its sign is minus the remembered direction, else moved by -360 (path >= 0) or +360 (path < 0). The result is always congruent to the shortest path. The remembered direction stays in {-1, 0, 1} |
| Rotation.PathToKeepsDestination | src/main/java/frc/robot/RotationControl.java:77-81 | when the shortest path leads from current to target, so does the guarded path: only the winding changes |
| Rotation.PathToReversesLastDirection | src/main/java/frc/robot/RotationControl.java:78-79 | as written, from a non-canonical angle any non-zero path shorter than a turn comes out opposite to the remembered direction |
| Rotation.PathToReversalExample | src/main/java/frc/robot/RotationControl.java:75-81 | with canonical range (-180, 180], remembered direction +1 and current 190: target 200 yields -350, and target 190 yields -360 |
| Rotation.PathToTurnsZeroPath | src/main/java/frc/robot/RotationControl.java:79 | as written, from a non-canonical angle with a remembered direction of +1 or -1, a zero path is returned as -360 |
| Rotation.PathToZeroSafe | src/main/java/frc/robot/RotationControl.java:75-82 | corrected guard: the comparison as written, but the full turn is 360 times the path's sign, so a zero path is never moved; same bookkeeping; the result stays congruent to the shortest path |
| Rotation.PathToZeroSafeAgrees | src/main/java/frc/robot/RotationControl.java:79 | for every non-zero path the corrected guard returns exactly what `pathTo` returns, state included |
| Rotation.PathToContinuous | src/main/java/frc/robot/RotationControl.java:75-82 | the guard with the comparison reversed (`==`): same legal-case behaviour and bookkeeping; from a non-canonical angle the path is moved by a full turn only when its sign is minus the remembered direction; a zero path is never moved; the result stays congruent to the shortest path |
| Rotation.PathToContinuousKeepsDirection | src/main/java/frc/robot/RotationControl.java:79 | with the comparison reversed, from a non-canonical angle any non-zero path shorter than a turn keeps the remembered direction |

## Left out

- Hardware wrappers: `Motor`, `MotorFactory`, `TractionControl`, the analog encoder and dashboard calls. This includes `SetAngle`, `getCurrentAngle`, `getEncoderVoltage`, `resetEncoder`, `resetEncoderValue`, `completeLoopUpdate`, the integrated-sensor reads, `getRPM`, `tractionSpeed`, `getAngle`, the motor getters and `isThere`. They carry no decision logic; the current angle and the traction path length are inputs instead.
- `tractionPathLength` always returns 0 in the code. The model takes the reading as a parameter of `CheckTractionEncoder`.
- `convertToField` and `convertToRobot` only call `Compass.validate`, which is not part of this model. `swivelWith` is `swivelTo` applied to `convertToRobot`, so it is covered only through Swerve.SwivelTo.
- `deltaXDistance` and `deltaYDistance` use floating-point sine and cosine and read the global gyro heading.
- `init`, `setParentLogger`, the constructors' wiring and the unused `tareAngle` field of `SwerveModule` do nothing observable.
- `Compass.legalize` and `Compass.legalPath` are not part of this model. They are parameters of `PathTo`.
- IEEE-754 behaviour is not modelled: rounding, NaN, infinities and signed zero. Termination of the wrap and alignment loops is proved over exact reals only. In doubles, once the magnitude reaches 2^62, adding or subtracting 360 no longer changes the value, so those loops never end. In particular, Java's `copySign(360, -0.0)` is -360, but here a zero path counts as non-negative.
- `SetAngle`'s positioning is not modelled: whether the motor goes to the commanded angle itself or to the nearest congruent position is decided in `Motor`, which is not part of this model. So Swerve.ResolveWithinQuarterTurn and Swerve.SwivelTo bound the rotation only up to whole turns.
- Swerve.Set: its guarantees assume a valid module (flag +1 or -1). Every module the operations produce is valid.

## Findings

| source | as written | input that shows it | evidently intended | confidence | as-written member | corrected member |
|---|---|---|---|---|---|---|
| src/main/java/frc/robot/RotationControl.java:79 | the full turn subtracted is `copySign(360, path)`, which is 360 for a zero path; so from a non-canonical angle, with a remembered direction of +1 or -1, a wheel already at its target is commanded a full negative turn | remembered direction +1, current 190 (canonical range (-180, 180]), target 190: the zero path becomes -360 | a zero path needs no rotation and is left at 0; the full turn only changes the winding of a real rotation | medium, not executed | Rotation.PathToTurnsZeroPath | Rotation.PathToZeroSafe |
