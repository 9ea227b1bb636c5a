/** The command-based swerve subsystem: the variant with independently
    settable drive and steer sensitivities, the deadband applied to the
    strafe vector's magnitude, and heading preservation decided wheel by
    wheel. */
module SubsystemDrive {
  import opened Numeric
  import opened Vectors
  import opened Deadband
  import opened Kinematics
  import opened Wheels

  const SteerRelativeSpeedDefault: real := 0.3
  const DriveRelativeSpeedDefault: real := 0.5
  const DeadbandDefault: real := 0.06
  const MaxOutputDefault: real := 1.0

  datatype Drive = Drive(
    wheels: Quad<Wheel>,
    steerRelativeSpeed: real,
    driveRelativeSpeed: real,
    maxOutput: real,
    deadband: real,
    widthToHeightRatio: real)

  /** The constructor taking the track-to-wheelbase ratio: every tunable
      starts at its default. */
  function Create(wheels: Quad<Wheel>, widthToHeightRatio: real): (r: Drive)
    ensures r.wheels == wheels && r.widthToHeightRatio == widthToHeightRatio
    ensures r.steerRelativeSpeed == 0.3 && r.driveRelativeSpeed == 0.5
    ensures r.maxOutput == 1.0 && r.deadband == 0.06
    ensures ValidDeadband(r.deadband)
  {
    Drive(wheels, SteerRelativeSpeedDefault, DriveRelativeSpeedDefault,
          MaxOutputDefault, DeadbandDefault, widthToHeightRatio)
  }

  /** The constructor for a square chassis: ratio 1. */
  function CreateSquare(wheels: Quad<Wheel>): (r: Drive)
    ensures r == Create(wheels, 1.0)
    ensures r.widthToHeightRatio == 1.0
  {
    Create(wheels, 1.0)
  }

  /** The strafe input scaled by the drive sensitivity, before the deadband. */
  function RawStrafe(d: Drive, strafeX: real, strafeY: real): (r: Vec)
    ensures r == Zero <==> d.driveRelativeSpeed == 0.0 || (strafeX == 0.0 && strafeY == 0.0)
    ensures 0.0 < d.driveRelativeSpeed ==>
      && (0.0 < r.x <==> 0.0 < strafeX) && (r.x < 0.0 <==> strafeX < 0.0)
      && (0.0 < r.y <==> 0.0 < strafeY) && (r.y < 0.0 <==> strafeY < 0.0)
  {
    MulZero(strafeX, d.driveRelativeSpeed);
    MulZero(strafeY, d.driveRelativeSpeed);
    assert 0.0 < d.driveRelativeSpeed ==>
        && (0.0 < strafeX * d.driveRelativeSpeed <==> 0.0 < strafeX) && (strafeX * d.driveRelativeSpeed < 0.0 <==> strafeX < 0.0)
        && (0.0 < strafeY * d.driveRelativeSpeed <==> 0.0 < strafeY) && (strafeY * d.driveRelativeSpeed < 0.0 <==> strafeY < 0.0) by {
      if 0.0 < d.driveRelativeSpeed {
        SignKept(strafeX, d.driveRelativeSpeed);
        SignKept(strafeY, d.driveRelativeSpeed);
      }
    }
    Vec(strafeX * d.driveRelativeSpeed, strafeY * d.driveRelativeSpeed)
  }

  ghost predicate InputDefined(d: Drive, strafeX: real, strafeY: real, steering: real, mag: Vec -> real)
  {
    IsMagnitude(mag)
    && Defined(mag(RawStrafe(d, strafeX, strafeY)), d.deadband)
    && Defined(steering, d.deadband)
  }

  /** The strafe vector `inputDrive` works with: the scaled strafe input,
      kept whole or zeroed as a whole, and zeroed exactly when the deadband
      maps its magnitude to 0. It is never stretched back to full scale. */
  function Base(d: Drive, strafeX: real, strafeY: real, mag: Vec -> real): (r: Vec)
    requires IsMagnitude(mag) && Defined(mag(RawStrafe(d, strafeX, strafeY)), d.deadband)
    ensures r == Zero || r == RawStrafe(d, strafeX, strafeY)
    ensures ValidDeadband(d.deadband) ==> (r == Zero <==> mag(RawStrafe(d, strafeX, strafeY)) <= d.deadband)
  {
    DeadbandedStrafe(RawStrafe(d, strafeX, strafeY), d.deadband, mag)
  }

  /** The four wheel vectors `inputDrive` builds. */
  function InputVectors(d: Drive, strafeX: real, strafeY: real, steering: real, mag: Vec -> real): (r: Quad<Vec>)
    requires InputDefined(d, strafeX, strafeY, steering, mag)
    ensures AccountForDeadband(steering, d.deadband) == 0.0 ==>
      var b := Base(d, strafeX, strafeY, mag); r == Quad(b, b, b, b)
  {
    WheelVectors(Base(d, strafeX, strafeY, mag), AccountForDeadband(steering, d.deadband),
                 d.widthToHeightRatio, d.steerRelativeSpeed)
  }

  /** What `inputDrive` tells the wheels: each wheel's speed is its vector's
      magnitude under the output cap, and each wheel turns to its vector's
      heading unless its vector has no magnitude, in which case it keeps
      the direction it reports. */
  ghost predicate Commanded(d: Drive, strafeX: real, strafeY: real, steering: real, vm: VectorMath, commands: Quad<Command>)
    requires ValidMath(vm) && InputDefined(d, strafeX, strafeY, steering, vm.magnitude)
  {
    var vectors := InputVectors(d, strafeX, strafeY, steering, vm.magnitude);
    && SpeedCap(SpeedsOf(commands), Speeds(vectors, vm.magnitude), d.maxOutput)
    && DirectionsOf(commands) == PerWheelDirections(vectors, ReportedDirections(d.wheels), vm)
  }

  /** `inputDrive`: the drive value afterwards and the four commands issued,
      one `steerAndDrive` call per wheel. */
  method InputDrive(d: Drive, strafeX: real, strafeY: real, steering: real, vm: VectorMath)
      returns (r: Drive, commands: Quad<Command>)
    requires ValidMath(vm) && InputDefined(d, strafeX, strafeY, steering, vm.magnitude)
    requires 0.0 <= d.maxOutput
          || 0.0 < Max4(Speeds(InputVectors(d, strafeX, strafeY, steering, vm.magnitude), vm.magnitude))
    ensures Commanded(d, strafeX, strafeY, steering, vm, commands)
    ensures 0.0 <= d.maxOutput ==> forall p :: 0.0 <= At(commands, p).speed <= d.maxOutput
    ensures r == d.(wheels := IssueEach(d.wheels, SteerAndDriveCalls(commands)))
  {
    var vectors := InputVectors(d, strafeX, strafeY, steering, vm.magnitude);
    commands := CapCommands(vectors, PerWheelDirections(vectors, ReportedDirections(d.wheels), vm),
                            vm.magnitude, d.maxOutput);
    r := d.(wheels := IssueEach(d.wheels, SteerAndDriveCalls(commands)));
  }

  /** Heading preservation, wheel by wheel: a wheel whose own vector is zero
      is sent back to the direction it reports, every other wheel to its
      vector's heading, whatever the other wheels do. */
  lemma HeadingPreservation(d: Drive, strafeX: real, strafeY: real, steering: real, vm: VectorMath,
                            commands: Quad<Command>, p: Position)
    requires ValidMath(vm) && InputDefined(d, strafeX, strafeY, steering, vm.magnitude)
    requires Commanded(d, strafeX, strafeY, steering, vm, commands)
    ensures var v := At(InputVectors(d, strafeX, strafeY, steering, vm.magnitude), p);
      At(commands, p).direction == (if v == Zero then At(d.wheels, p).direction else vm.rotationDegrees(v))
  {
    var vectors := InputVectors(d, strafeX, strafeY, steering, vm.magnitude);
    assert At(commands, p).direction == At(DirectionsOf(commands), p);
  }

  /** With no steering left after the deadband, all four wheels get the same
      command: the strafe vector's heading (or, with no strafe either, each
      its own reported direction) and one common speed. */
  lemma StraightDrive(d: Drive, strafeX: real, strafeY: real, steering: real, vm: VectorMath,
                      commands: Quad<Command>)
    requires ValidMath(vm) && InputDefined(d, strafeX, strafeY, steering, vm.magnitude)
    requires Commanded(d, strafeX, strafeY, steering, vm, commands)
    requires AccountForDeadband(steering, d.deadband) == 0.0
    ensures commands.fl.speed == commands.fr.speed == commands.rl.speed == commands.rr.speed
    ensures Base(d, strafeX, strafeY, vm.magnitude) != Zero ==> commands.fl == commands.fr == commands.rl == commands.rr
  {
    var vectors := InputVectors(d, strafeX, strafeY, steering, vm.magnitude);
    EqualVectorsEqualSpeeds(vectors, SpeedsOf(commands), vm.magnitude, d.maxOutput);
    assert SpeedsOf(commands).fl == At(SpeedsOf(commands), FrontLeft);
    assert SpeedsOf(commands).fr == At(SpeedsOf(commands), FrontRight);
    assert SpeedsOf(commands).rl == At(SpeedsOf(commands), RearLeft);
    assert SpeedsOf(commands).rr == At(SpeedsOf(commands), RearRight);
    var directions := DirectionsOf(commands);
    assert directions.fl == At(directions, FrontLeft) && directions.fr == At(directions, FrontRight);
    assert directions.rl == At(directions, RearLeft) && directions.rr == At(directions, RearRight);
  }

  /** With no strafe left after the deadband, the robot spins in place: all
      four wheels get one common speed. */
  lemma SpinInPlace(d: Drive, strafeX: real, strafeY: real, steering: real, vm: VectorMath,
                    commands: Quad<Command>)
    requires ValidMath(vm) && InputDefined(d, strafeX, strafeY, steering, vm.magnitude)
    requires Commanded(d, strafeX, strafeY, steering, vm, commands)
    requires Base(d, strafeX, strafeY, vm.magnitude) == Zero
    ensures commands.fl.speed == commands.fr.speed == commands.rl.speed == commands.rr.speed
  {
    var vectors := InputVectors(d, strafeX, strafeY, steering, vm.magnitude);
    assert vectors == WheelVectors(Zero, AccountForDeadband(steering, d.deadband), d.widthToHeightRatio, d.steerRelativeSpeed);
    RotationEqualSpeeds(AccountForDeadband(steering, d.deadband), d.widthToHeightRatio, d.steerRelativeSpeed,
                        vm.magnitude, SpeedsOf(commands), d.maxOutput);
  }

  /** Inputs inside the deadband leave the robot still, with every wheel held
      at the direction it reports. */
  lemma IdleHoldsHeading(d: Drive, strafeX: real, strafeY: real, steering: real, vm: VectorMath,
                         commands: Quad<Command>)
    requires ValidMath(vm) && InputDefined(d, strafeX, strafeY, steering, vm.magnitude)
    requires 0.0 <= d.maxOutput
    requires Commanded(d, strafeX, strafeY, steering, vm, commands)
    requires ValidDeadband(d.deadband)
    requires vm.magnitude(RawStrafe(d, strafeX, strafeY)) <= d.deadband && Abs(steering) <= d.deadband
    ensures forall p :: At(commands, p) == Command(At(d.wheels, p).direction, 0.0)
  {
    var vectors := InputVectors(d, strafeX, strafeY, steering, vm.magnitude);
    assert vectors == Quad(Zero, Zero, Zero, Zero);
    ZeroVectorsStill(vectors, SpeedsOf(commands), vm.magnitude, d.maxOutput);
    forall p
      ensures At(commands, p) == Command(At(d.wheels, p).direction, 0.0)
    {
      assert At(SpeedsOf(commands), p) == 0.0;
      assert At(DirectionsOf(commands), p) == At(d.wheels, p).direction;
    }
  }

  /** `steerAndDriveAll`: the same `steerAndDrive` call on every wheel. */
  function SteerAndDriveAll(d: Drive, direction: real, speed: real): (r: Drive)
    ensures forall p :: At(r.wheels, p).calls == At(d.wheels, p).calls + [SteerAndDrive(direction, speed)]
    ensures r.(wheels := d.wheels) == d
  {
    d.(wheels := IssueAll(d.wheels, SteerAndDrive(direction, speed)))
  }

  /** `steerAllWithinRange`: points every wheel at `direction` with speed 0,
      then reports whether every wheel's own range check passes. */
  function SteerAllWithinRange(d: Drive, direction: real, marginOfError: real,
                               withinRange: (Wheel, real, real) -> bool): (r: (Drive, bool))
    ensures forall p :: At(r.0.wheels, p).calls == At(d.wheels, p).calls + [SteerAndDrive(direction, 0.0)]
    ensures r.0.(wheels := d.wheels) == d
    ensures r.1 <==> forall p :: withinRange(At(r.0.wheels, p), direction, marginOfError)
  {
    var s := Wheels.SteerAllWithinRange(d.wheels, direction, marginOfError, withinRange);
    (d.(wheels := s.0), s.1)
  }

  /** `stop`: every wheel is told to stop. */
  function Stop(d: Drive): (r: Drive)
    ensures forall p :: At(r.wheels, p).calls == At(d.wheels, p).calls + [WheelCall.Stop]
    ensures r.(wheels := d.wheels) == d
  {
    d.(wheels := IssueAll(d.wheels, WheelCall.Stop))
  }

  function SetMaxOutput(d: Drive, maxOutput: real): (r: Drive)
    ensures r.maxOutput == maxOutput && r.(maxOutput := d.maxOutput) == d
  {
    d.(maxOutput := maxOutput)
  }

  function SetDeadband(d: Drive, deadband: real): (r: Drive)
    ensures r.deadband == deadband && r.(deadband := d.deadband) == d
  {
    d.(deadband := deadband)
  }

  function SetSteerRelativeSpeed(d: Drive, steerRelativeSpeed: real): (r: Drive)
    ensures r.steerRelativeSpeed == steerRelativeSpeed && r.(steerRelativeSpeed := d.steerRelativeSpeed) == d
  {
    d.(steerRelativeSpeed := steerRelativeSpeed)
  }

  function SetDriveRelativeSpeed(d: Drive, driveRelativeSpeed: real): (r: Drive)
    ensures r.driveRelativeSpeed == driveRelativeSpeed && r.(driveRelativeSpeed := d.driveRelativeSpeed) == d
  {
    d.(driveRelativeSpeed := driveRelativeSpeed)
  }

  /** The public calls a client can make, with `inputDrive` represented by
      the commands it issued. */
  datatype Op =
    | InputDriveIssued(commands: Quad<Command>)
    | SteerAndDriveAllOp(direction: real, speed: real)
    | SteerAllWithinRangeOp(direction: real, marginOfError: real, withinRange: (Wheel, real, real) -> bool)
    | StopOp
    | SetMaxOutputOp(maxOutput: real)
    | SetDeadbandOp(deadband: real)
    | SetSteerRelativeSpeedOp(speed: real)
    | SetDriveRelativeSpeedOp(speed: real)

  function Apply(d: Drive, op: Op): Drive
  {
    match op
    case InputDriveIssued(commands) => d.(wheels := IssueEach(d.wheels, SteerAndDriveCalls(commands)))
    case SteerAndDriveAllOp(direction, speed) => SteerAndDriveAll(d, direction, speed)
    case SteerAllWithinRangeOp(direction, margin, withinRange) => SteerAllWithinRange(d, direction, margin, withinRange).0
    case StopOp => Stop(d)
    case SetMaxOutputOp(m) => SetMaxOutput(d, m)
    case SetDeadbandOp(b) => SetDeadband(d, b)
    case SetSteerRelativeSpeedOp(s) => SetSteerRelativeSpeed(d, s)
    case SetDriveRelativeSpeedOp(s) => SetDriveRelativeSpeed(d, s)
  }

  function Run(d: Drive, ops: seq<Op>): Drive
    decreases |ops|
  {
    if ops == [] then d else Run(Apply(d, ops[0]), ops[1..])
  }

  /** The track-to-wheelbase ratio is fixed at construction: no sequence of
      calls changes it. */
  lemma {:induction false} RatioFixed(d: Drive, ops: seq<Op>)
    ensures Run(d, ops).widthToHeightRatio == d.widthToHeightRatio
    decreases |ops|
  {
    if ops != [] {
      RatioFixed(Apply(d, ops[0]), ops[1..]);
    }
  }

  /** Driving straight ahead at full stick on a fresh square drive with no
      deadband: every wheel points along the strafe vector at half speed. */
  lemma ForwardAtHalfSpeed(wheels: Quad<Wheel>, vm: VectorMath, commands: Quad<Command>)
    requires ValidMath(vm)
    requires var d := SetDeadband(CreateSquare(wheels), 0.0);
      InputDefined(d, 0.0, 1.0, 0.0, vm.magnitude) && Commanded(d, 0.0, 1.0, 0.0, vm, commands)
    ensures forall p :: At(commands, p) == Command(vm.rotationDegrees(Vec(0.0, 0.5)), 0.5)
  {
    var d := SetDeadband(CreateSquare(wheels), 0.0);
    var mag := vm.magnitude;
    assert RawStrafe(d, 0.0, 1.0) == Vec(0.0, 0.5);
    assert mag(Vec(0.0, 0.5)) == 0.5;
    assert Base(d, 0.0, 1.0, mag) == Vec(0.0, 0.5);
    var vectors := InputVectors(d, 0.0, 1.0, 0.0, mag);
    assert vectors == Quad(Vec(0.0, 0.5), Vec(0.0, 0.5), Vec(0.0, 0.5), Vec(0.0, 0.5));
    var speeds := Speeds(vectors, mag);
    assert speeds == Quad(0.5, 0.5, 0.5, 0.5);
    assert Max4(speeds) == 0.5;
    forall p
      ensures At(commands, p) == Command(vm.rotationDegrees(Vec(0.0, 0.5)), 0.5)
    {
      assert At(SpeedsOf(commands), p) == 0.5;
      assert At(DirectionsOf(commands), p) == vm.rotationDegrees(Vec(0.0, 0.5));
    }
  }
}
