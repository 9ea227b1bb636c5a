# Swerve drive inverse kinematics, in Dafny

This project models the drive code of an FRC swerve library. A swerve robot has
four wheel modules: front left, front right, rear left and rear right. Each module
can be steered to any heading and driven at any speed. A joystick input has three
parts. The first two are a strafe vector (x, y), the direction the robot should
translate. The third is a steering value, how fast it should turn clockwise. The
drive class turns that input into one (direction, speed) command per module.

The steps are these:

- The deadband. Its formula is the same in all three classes. A value whose
  absolute value is below the deadband becomes 0. The rest of [-1, 1] is
  stretched linearly back to full scale. The steering input always goes
  through this formula. How the strafe input is treated depends on the class
  (see below).
- A front-right steering vector is built from the deadbanded steering input,
  the track-to-wheelbase ratio and a steer factor.
- Each wheel's vector is the strafe vector plus that steering vector, mirrored to
  the wheel's corner.
- Each wheel's speed is its vector's magnitude.
- If the fastest wheel exceeds the output cap, all four speeds are divided by the
  fastest and multiplied by the cap. This keeps their proportions.
- Each wheel is pointed along its vector's heading.

The repository has three variants of this drive class.

- **`SubsystemDrive`** is the command-based subsystem. It has independently settable
  drive and steer factors. The strafe input is first scaled by the drive factor.
  The scaled vector is then zeroed exactly when the deadband maps its magnitude
  to 0. Otherwise it is kept as it is, with no stretching. A wheel whose own
  vector is zero keeps the direction it reports ("heading preservation").
- **`LibraryDrive`** is built on the library drive base class. Its drive and steer
  factors are tied to half the output cap. It treats the strafe input as
  `SubsystemDrive` does: scaled first, then kept whole or zeroed. Its heading
  preservation tests the front-left vector for all four wheels. That is a bug;
  see Findings.
- **`LegacyDrive`** is the older drive. It puts each strafe axis through the
  deadband formula on its own, stretching included, and then scales the result
  by its move factor. It has no heading preservation. It also reports the
  distance travelled from the modules' drive encoders.

`AutonDrive` is the autonomous command. It strafes a given distance in a given
direction and steers to hold the gyro heading it had when it was made.

The shared parts live in separate modules:

- `Numeric`: real arithmetic facts.
- `Vectors`: the vector type.
- `Deadband`: the input deadband.
- `Kinematics`: wheel vectors, the output cap and the direction policies.
- `Wheels`: the modules as the drive sees them.

Square roots and trigonometry are not modelled by formulas. The vector magnitude,
the heading of a vector and "rotate a vector by degrees" are a `VectorMath`
parameter. The magnitude comes with the properties every drive relies on:

- it is never negative;
- it is zero only for the zero vector;
- it is unchanged by mirroring a vector across either axis;
- it is the absolute value on each axis.

Wheel modules, the gyro and the scheduler are outside the model. The calls the
drive makes on a module are recorded in the module's call log. The readings a
module or the gyro give are inputs.

## Model

| member | source | states |
|---|---|---|
| Deadband.AccountForDeadband | swervelib/src/main/java/frc/team1711/swerve/subsystems/SwerveDrive.java:290-294 | inputs strictly inside the band become 0; for a deadband in [0, 1), the result is 0 exactly when the input is within the band, and positive (negative) exactly when the input is above (below) it |
| Deadband.DeadbandOfRestore | swervelib/src/main/java/frc/team1711/swerve/subsystems/SwerveDrive.java:290-294 | the stretch is onto: every value is the deadbanded image of its restored input |
| Deadband.RestoreOfDeadband | swervelib/src/main/java/frc/team1711/swerve/subsystems/SwerveDrive.java:290-294 | outside the band the stretch is invertible: restoring its output gives the input back |
| Deadband.RestoreBounds | swervelib/src/main/java/frc/team1711/swerve/subsystems/SwerveDrive.java:290-294 | a positive (negative) value is restored to an input above (below) the band, and a value of at most 1 to an input of at most 1 |
| Deadband.DeadbandFixpoints | swervelib/src/main/java/frc/team1711/swerve/subsystems/SwerveDrive.java:290-294 | full forward, full reverse and 0 are left where they are |
| Deadband.DeadbandOdd | swervelib/src/main/java/frc/team1711/swerve/subsystems/SwerveDrive.java:290-294 | negating the input negates the output |
| Deadband.DeadbandMonotone | swervelib/src/main/java/frc/team1711/swerve/subsystems/SwerveDrive.java:290-294 | the deadband never reverses the order of two inputs |
| Deadband.DeadbandRange | swervelib/src/main/java/frc/team1711/swerve/subsystems/SwerveDrive.java:290-294 | [-1, 1] maps into [-1, 1], and [deadband, 1] into [0, 1] |
| Deadband.DeadbandOnto | swervelib/src/main/java/frc/team1711/swerve/subsystems/SwerveDrive.java:290-294 | every value in [0, 1] is reached from an input in [deadband, 1] |
| Kinematics.DeadbandedStrafe | swervelib/src/main/java/frc/team1711/swerve/subsystems/SwerveDrive.java:135-136 | the strafe vector is kept whole or zeroed, and it is zeroed exactly when its magnitude is within the deadband |
| Kinematics.SteeringVectorFR | swervelib/src/main/java/frc/team1711/swerve/subsystems/SwerveDrive.java:140 | the front-right steering vector is zero exactly when the steering or the steer factor is 0. Its sideways part is the ratio times its backward part. With a positive steer factor, clockwise steering pushes the front-right wheel backwards, and also to the right when the ratio is positive |
| Kinematics.WheelVectors | swervelib/src/main/java/frc/team1711/swerve/subsystems/SwerveDrive.java:139-159 | with no steering, all four wheel vectors equal the strafe vector |
| Kinematics.WheelVectorsMirror | swervelib/src/main/java/frc/team1711/swerve/subsystems/SwerveDrive.java:156-159 | each wheel vector is the strafe vector plus the front-right steering vector: as is for front right, negated for rear left, mirrored front to back for front left and mirrored left to right for rear right |
| Kinematics.WheelVectorsMean | swervelib/src/main/java/frc/team1711/swerve/subsystems/SwerveDrive.java:156-159 | the four steering parts cancel: the four wheel vectors sum to four times the strafe vector |
| Kinematics.PureRotation | swervelib/src/main/java/frc/team1711/swerve/subsystems/SwerveDrive.java:139-159 | with no strafe, the left wheels' vectors mirror the right ones front to back, and all four have one magnitude |
| Kinematics.Speeds | swervelib/src/main/java/frc/team1711/swerve/subsystems/SwerveDrive.java:162-166 | wheel speeds are never negative, and a speed is 0 exactly when that wheel's vector is zero |
| Kinematics.Max4 | swervelib/src/main/java/frc/team1711/swerve/subsystems/SwerveDrive.java:173 | the maximum bounds all four speeds and is one of them |
| Kinematics.CapAll | swervelib/src/main/java/frc/team1711/swerve/subsystems/SwerveDrive.java:175-185 | dividing by the fastest speed and multiplying by the cap scales every speed by cap/fastest |
| Kinematics.Normalize | swervelib/src/main/java/frc/team1711/swerve/subsystems/SwerveDrive.java:173-185 | speeds under the cap are unchanged; over it, every speed is scaled by one factor. Proportions and ties are kept, every speed lies in [0, cap] and never grows, the fastest lands on min(fastest, cap), and with a nonzero cap exactly the still wheels stay still |
| Kinematics.PerWheelDirections | swervelib/src/main/java/frc/team1711/swerve/subsystems/SwerveDrive.java:188-191 | a wheel whose own vector is zero keeps its reported direction; every other wheel takes its vector's heading |
| Kinematics.FrontLeftGatedDirections | swervelib/src/main/java/frc/team1711/swerve/drive/SwerveDrive.java:140-143 | if the front-left vector is zero, every wheel keeps its reported direction; otherwise every wheel takes its own vector's heading |
| Kinematics.VectorDirections | swerve/SwerveDrive.java:139-142 | every wheel takes its own vector's heading |
| Kinematics.CapCommands | swervelib/src/main/java/frc/team1711/swerve/subsystems/SwerveDrive.java:162-197 | the commands carry the chosen directions, and their speeds are the vector magnitudes under the output cap |
| Kinematics.EqualVectorsEqualSpeeds | swervelib/src/main/java/frc/team1711/swerve/subsystems/SwerveDrive.java:162-185 | four equal wheel vectors get four equal speeds after the cap |
| Kinematics.RotationEqualSpeeds | swervelib/src/main/java/frc/team1711/swerve/subsystems/SwerveDrive.java:139-185 | with no strafe, all four wheels get one common speed after the cap |
| Kinematics.ZeroVectorsStill | swervelib/src/main/java/frc/team1711/swerve/subsystems/SwerveDrive.java:162-185 | four zero vectors give four zero speeds |
| Wheels.SteerAllWithinRange | swervelib/src/main/java/frc/team1711/swerve/subsystems/SwerveDrive.java:228-235 | every wheel is told to steer to the direction at speed 0, and the answer is true exactly when all four wheels' range checks pass |
| SubsystemDrive.Create | swervelib/src/main/java/frc/team1711/swerve/subsystems/SwerveDrive.java:31-122 | a new drive has steer factor 0.3, drive factor 0.5, cap 1 and deadband 0.06 (a valid deadband) |
| SubsystemDrive.CreateSquare | swervelib/src/main/java/frc/team1711/swerve/subsystems/SwerveDrive.java:87-94 | the square-chassis constructor is the general one with ratio 1 |
| SubsystemDrive.RawStrafe | swervelib/src/main/java/frc/team1711/swerve/subsystems/SwerveDrive.java:135 | the scaled strafe is zero exactly when the drive factor is 0 or both inputs are 0, and with a positive drive factor each axis keeps its input's sign |
| SubsystemDrive.Base | swervelib/src/main/java/frc/team1711/swerve/subsystems/SwerveDrive.java:135-136 | the strafe vector is either zero or the scaled strafe unchanged, and for a valid deadband it is zero exactly when the scaled strafe's magnitude is within the deadband |
| SubsystemDrive.InputVectors | swervelib/src/main/java/frc/team1711/swerve/subsystems/SwerveDrive.java:132-159 | with steering inside the deadband, all four wheel vectors are the deadbanded strafe vector |
| SubsystemDrive.InputDrive | swervelib/src/main/java/frc/team1711/swerve/subsystems/SwerveDrive.java:132-199 | the commands have capped speeds and per-wheel heading preservation; with a non-negative cap every speed is in [0, cap]; each wheel gets one steerAndDrive call carrying its command |
| SubsystemDrive.HeadingPreservation | swervelib/src/main/java/frc/team1711/swerve/subsystems/SwerveDrive.java:188-197 | each wheel's direction is its reported direction if its own vector is zero, and its vector's heading otherwise |
| SubsystemDrive.StraightDrive | swervelib/src/main/java/frc/team1711/swerve/subsystems/SwerveDrive.java:132-197 | with no steering after the deadband, all four speeds are equal; with some strafe left, all four commands are identical |
| SubsystemDrive.SpinInPlace | swervelib/src/main/java/frc/team1711/swerve/subsystems/SwerveDrive.java:132-197 | with no strafe after the deadband, all four speeds are equal |
| SubsystemDrive.IdleHoldsHeading | swervelib/src/main/java/frc/team1711/swerve/subsystems/SwerveDrive.java:132-197 | inputs within the deadband give speed 0 and keep every wheel at its reported direction |
| SubsystemDrive.ForwardAtHalfSpeed | swervelib/src/main/java/frc/team1711/swerve/subsystems/SwerveDrive.java:31-199 | on a fresh square drive with no deadband, full forward stick sends every wheel along (0, 0.5) at speed 0.5 |
| SubsystemDrive.SteerAndDriveAll | swervelib/src/main/java/frc/team1711/swerve/subsystems/SwerveDrive.java:211-216 | every wheel gets the same steerAndDrive call, and nothing else changes |
| SubsystemDrive.SteerAllWithinRange | swervelib/src/main/java/frc/team1711/swerve/subsystems/SwerveDrive.java:228-235 | every wheel is steered at speed 0, and the answer is true exactly when every wheel's range check passes |
| SubsystemDrive.Stop | swervelib/src/main/java/frc/team1711/swerve/subsystems/SwerveDrive.java:240-245 | every wheel gets a stop call, and nothing else changes |
| SubsystemDrive.SetMaxOutput | swervelib/src/main/java/frc/team1711/swerve/subsystems/SwerveDrive.java:251-253 | sets the cap and nothing else |
| SubsystemDrive.SetDeadband | swervelib/src/main/java/frc/team1711/swerve/subsystems/SwerveDrive.java:261-263 | sets the deadband and nothing else |
| SubsystemDrive.SetSteerRelativeSpeed | swervelib/src/main/java/frc/team1711/swerve/subsystems/SwerveDrive.java:271-273 | sets the steer factor and nothing else |
| SubsystemDrive.SetDriveRelativeSpeed | swervelib/src/main/java/frc/team1711/swerve/subsystems/SwerveDrive.java:281-283 | sets the drive factor and nothing else |
| SubsystemDrive.RatioFixed | swervelib/src/main/java/frc/team1711/swerve/subsystems/SwerveDrive.java:56-76 | no sequence of public calls changes the track-to-wheelbase ratio |
| LibraryDrive.Create | swervelib/src/main/java/frc/team1711/swerve/drive/SwerveDrive.java:58-74 | a new drive has its drive and steer factors tied to half the cap |
| LibraryDrive.CreateSquare | swervelib/src/main/java/frc/team1711/swerve/drive/SwerveDrive.java:39-46 | the square-chassis constructor has ratio 1 and the same coupling |
| LibraryDrive.SetMaxOutput | swervelib/src/main/java/frc/team1711/swerve/drive/SwerveDrive.java:218-222 | sets the cap, re-ties both factors to half of it, and changes nothing else |
| LibraryDrive.RawStrafe | swervelib/src/main/java/frc/team1711/swerve/drive/SwerveDrive.java:87 | the scaled strafe is zero exactly when the drive factor is 0 or both inputs are 0, and with a positive drive factor each axis keeps its input's sign |
| LibraryDrive.Base | swervelib/src/main/java/frc/team1711/swerve/drive/SwerveDrive.java:87-88 | the strafe vector is either zero or the scaled strafe unchanged, and for a valid deadband it is zero exactly when the scaled strafe's magnitude is within the deadband |
| LibraryDrive.InputVectors | swervelib/src/main/java/frc/team1711/swerve/drive/SwerveDrive.java:84-111 | with steering inside the deadband, all four wheel vectors are the deadbanded strafe vector |
| LibraryDrive.InputDrive | swervelib/src/main/java/frc/team1711/swerve/drive/SwerveDrive.java:84-152 | as written: capped speeds, directions gated on the front-left vector, speeds in [0, cap] for a non-negative cap, one steerAndDrive call per wheel |
| LibraryDrive.GatedHeading | swervelib/src/main/java/frc/team1711/swerve/drive/SwerveDrive.java:140-149 | a zero front-left vector holds every wheel at its reported direction; otherwise each wheel takes its own vector's heading |
| LibraryDrive.FrontLeftGateFreezesMovingWheel | swervelib/src/main/java/frc/team1711/swerve/drive/SwerveDrive.java:140-143 | for one concrete input, the front-right wheel is driven at a positive speed while held at its old direction |
| LibraryDrive.InputDrivePerWheel | swervelib/src/main/java/frc/team1711/swerve/drive/SwerveDrive.java:84-152 | corrected: the same speeds, with each wheel's direction gated on its own vector |
| LibraryDrive.PerWheelHeading | swervelib/src/main/java/frc/team1711/swerve/drive/SwerveDrive.java:140-143 | corrected: a wheel keeps its reported direction exactly when its own vector is zero |
| LibraryDrive.SteerAndDriveAll | swervelib/src/main/java/frc/team1711/swerve/drive/SwerveDrive.java:164-171 | every wheel gets the same steerAndDrive call, and nothing else changes |
| LibraryDrive.SteerAllWithinRange | swervelib/src/main/java/frc/team1711/swerve/drive/SwerveDrive.java:183-197 | every wheel is steered at speed 0, and the answer is true exactly when every wheel's range check passes |
| LibraryDrive.StopMotor | swervelib/src/main/java/frc/team1711/swerve/drive/SwerveDrive.java:203-210 | every wheel gets a stop call, and nothing else changes |
| LibraryDrive.SetDeadband | swervelib/src/main/java/frc/team1711/swerve/drive/SwerveDrive.java:224-228 | sets the deadband that accountForDeadband reads, and nothing else |
| LibraryDrive.CouplingInvariant | swervelib/src/main/java/frc/team1711/swerve/drive/SwerveDrive.java:218-222 | once coupled, the drive and steer factors stay at half the cap through any sequence of public calls |
| LibraryDrive.RatioFixed | swervelib/src/main/java/frc/team1711/swerve/drive/SwerveDrive.java:28 | no sequence of public calls changes the track-to-wheelbase ratio |
| LegacyDrive.Create | swerve/SwerveDrive.java:55-71 | a new drive has its move and turn factors tied to half the cap |
| LegacyDrive.CreateSquare | swerve/SwerveDrive.java:36-43 | the square-chassis constructor has ratio 1 and the same coupling |
| LegacyDrive.SetMaxOutput | swerve/SwerveDrive.java:188-192 | sets the cap, re-ties both factors to half of it, and changes nothing else |
| LegacyDrive.SetDeadband | swerve/SwerveDrive.java:194-198 | sets the deadband that accountForDeadband reads, and nothing else |
| LegacyDrive.Base | swerve/SwerveDrive.java:84-89 | an axis strictly inside the band is dropped whatever the other axis does; with a valid deadband and a positive move factor, each component is positive (negative) exactly when its input is above (below) the band |
| LegacyDrive.AxisSnapping | swerve/SwerveDrive.java:84-89 | a small sideways input with a forward input beyond the band drives straight forward |
| LegacyDrive.InputVectors | swerve/SwerveDrive.java:81-110 | with rotation inside the deadband, all four wheel vectors are the strafe vector |
| LegacyDrive.DriveInputs | swerve/SwerveDrive.java:81-143 | capped speeds, each wheel at its own vector's heading, speeds in [0, cap] for a non-negative cap, one setSpeedAndRotation call per wheel |
| LegacyDrive.OwnHeading | swerve/SwerveDrive.java:139-142 | every wheel's direction is its own vector's heading |
| LegacyDrive.IdleTurnsToZeroHeading | swerve/SwerveDrive.java:81-142 | inputs strictly inside the deadband give speed 0, and every wheel turns to the zero vector's heading |
| LegacyDrive.DistanceTraveled | swerve/SwerveDrive.java:164-169 | the distance is non-negative; it is 0 exactly when every module reads 0; every module's absolute reading is at most four times it; and some module's absolute reading is at least it |
| LegacyDrive.SetDistanceReference | swerve/SwerveDrive.java:149-154 | every module's encoder is reset, the distance travelled becomes 0, and nothing else changes |
| LegacyDrive.CallsKeepDistance | swerve/SwerveDrive.java:139-192 | every public call other than setDistanceReference leaves the distance travelled unchanged |
| LegacyDrive.StopMotor | swerve/SwerveDrive.java:175-180 | every wheel gets a stop call, and nothing else changes |
| LegacyDrive.CouplingInvariant | swerve/SwerveDrive.java:188-192 | once coupled, the move and turn factors stay at half the cap through any sequence of public calls |
| AutonDrive.Construct | swervelib/src/main/java/frc/team1711/swerve/commands/AutonDrive.java:41-51 | the gyro angle is read once, at construction, and the command starts unfinished with no call made |
| AutonDrive.Initialize | swervelib/src/main/java/frc/team1711/swerve/commands/AutonDrive.java:54-57 | the drive is stopped and then its distance reference is set; nothing else changes |
| AutonDrive.Turns | swervelib/src/main/java/frc/team1711/swerve/commands/AutonDrive.java:71-72 | the number of whole turns that brings an error into [-180, 180) |
| AutonDrive.Wrapped | swervelib/src/main/java/frc/team1711/swerve/commands/AutonDrive.java:71-72 | the wrapped error lies in [-180, 180) |
| AutonDrive.WrappedUnique | swervelib/src/main/java/frc/team1711/swerve/commands/AutonDrive.java:71-72 | the wrapped error is the only angle in [-180, 180) that differs from the error by whole turns |
| AutonDrive.WrapAngle | swervelib/src/main/java/frc/team1711/swerve/commands/AutonDrive.java:70-72 | the two loops end with the error in [-180, 180), equal to the closed form |
| AutonDrive.Correction | swervelib/src/main/java/frc/team1711/swerve/commands/AutonDrive.java:73 | the correction lies in [-1, 1], equals the scaled wrapped error when that is in bounds, and has the wrapped error's sign |
| AutonDrive.CorrectionTurn | swervelib/src/main/java/frc/team1711/swerve/commands/AutonDrive.java:69-74 | getCorrectionTurn with its loops equals the closed-form correction of (initial angle - current angle) |
| AutonDrive.DriveVector | swervelib/src/main/java/frc/team1711/swerve/commands/AutonDrive.java:62 | the strafe is the unit vector for the direction at speed 1. It is zero exactly when the speed is 0 or the turned unit vector is zero. For a positive speed each component has the turned unit vector's sign |
| AutonDrive.Execute | swervelib/src/main/java/frc/team1711/swerve/commands/AutonDrive.java:60-67 | short of the distance: exactly one inputDrive call is added, with the direction's strafe vector and the correction as steering. Otherwise `finished` is latched and no call is made. Nothing else changes |
| AutonDrive.End | swervelib/src/main/java/frc/team1711/swerve/commands/AutonDrive.java:77-79 | the drive is stopped, interrupted or not, and nothing else changes |
| AutonDrive.IsFinished | swervelib/src/main/java/frc/team1711/swerve/commands/AutonDrive.java:82-84 | reports the latched flag |
| AutonDrive.FinishedLatches | swervelib/src/main/java/frc/team1711/swerve/commands/AutonDrive.java:60-67 | once finished, the command stays finished under any sequence of scheduler events |
| AutonDrive.CallsOnlyGrow | swervelib/src/main/java/frc/team1711/swerve/commands/AutonDrive.java:54-79 | calls sent to the drive are never taken back: the log only grows |
| AutonDrive.SteeringStaysBounded | swervelib/src/main/java/frc/team1711/swerve/commands/AutonDrive.java:60-74 | if every steering value sent so far is in [-1, 1], that stays true under any events |
| AutonDrive.FreshCommandSteersWithinBounds | swervelib/src/main/java/frc/team1711/swerve/commands/AutonDrive.java:41-74 | a freshly made command only ever sends steering values in [-1, 1] |

## Left out

- Floating point is not modelled: reals stand in for `double`. NaN, infinities and rounding are out, so the cap's divide-then-multiply is exact here.
- A deadband of exactly 1 divides by zero for inputs outside the band. The operations that apply the deadband require that this does not happen (`Deadband.Defined`).
- A negative output cap with all four wheels still would compute 0/0 in the cap. The drive operations require that this does not happen.
- Square root and trigonometry (the vector class) are the `VectorMath` parameter. Only the magnitude properties listed above are assumed of it. The headings are opaque values.
- The WPILib drive base class is not part of this model. Its output-cap and deadband fields and their defaults are constructor parameters of `LibraryDrive` and `LegacyDrive`. Its `setDeadband` is the plain field update `SetDeadband`. The motor-safety `feed()` calls are not modelled.
- The swerve module class is not part of this model. Its motors, encoders and range check (`checkWithin180Range`) are outside the model. The range check is a parameter of `SteerAllWithinRange`. A module's reported direction and its encoder reading are values the environment sets between calls.
- The subsystem's defaults are public static fields a client could reassign before construction. `SubsystemDrive.Create` uses their declared values.
- `AutoSwerveDrive` is not part of this model. The gyro angle and the distance travelled are inputs to each `AutonDrive.Execute` tick.
- `AutonDrive.Execute` uses the closed-form `Correction`. The loop form `CorrectionTurn` is proved equal to it.
- Scheduler concurrency and timing are not modelled. A command's life is the event sequence given to `AutonDrive.Run`.
- `inputDrive`/`drive` are represented in each variant's `Run` by the commands they issued. Their contracts are on the methods themselves.
- `getDescription` returns a fixed string and is not modelled.
- Kinematics.WheelVectors: its ensures covers only the no-steering case. The corner-by-corner mirroring is stated separately, in `Kinematics.WheelVectorsMirror` and `Kinematics.WheelVectorsMean`.

## Notes on the code

- Lines 286 and 292 of swervelib/src/main/java/frc/team1711/swerve/subsystems/SwerveDrive.java describe the deadband mapping backwards: [deadband, 1] is mapped to [0, 1], not the reverse. The model follows the code. `Deadband.DeadbandOnto` and `Deadband.DeadbandRange` state the mapping as it is.
- `getCorrectionTurn` wraps the heading error into [-180, 180): an error of exactly 180 becomes -180. A description of the command as wrapping into (-180, 180] would keep 180 instead. The model follows the loops as written.
- Each `execute` tick either drives or latches `finished`, never both: the distance is compared before any call is made. A description of the command as driving and then checking the distance on the same tick does not match the code. The model follows the code.

## Findings

| source | as written | input that shows it | evidently intended | confidence | as-written member | corrected member |
|---|---|---|---|---|---|---|
| swervelib/src/main/java/frc/team1711/swerve/drive/SwerveDrive.java:140-143 | the front-right, rear-left and rear-right directions all test the front-left vector's magnitude | square drive, cap 1, deadband 0, strafe (-1, -1), steering 1: the front-left vector is (0, 0) while the front-right vector is (0, -1), so the front-right wheel drives at a positive speed but is not turned to its vector's heading | each wheel tests its own vector, as the subsystem drive does | not executed | LibraryDrive.FrontLeftGateFreezesMovingWheel | LibraryDrive.InputDrivePerWheel |
