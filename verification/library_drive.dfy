/** The swerve drive built on the library drive base class: the drive and
    steer factors are both tied to half the output cap, the deadband is
    applied to the strafe vector's magnitude, and whether the wheels keep
    their directions is decided by the front-left wheel alone. The output
    cap and the deadband are fields of the base class, whose defaults are
    not visible, so they are parameters of the constructors here. */
module LibraryDrive {
  import opened Numeric
  import opened Vectors
  import opened Deadband
  import opened Kinematics
  import opened Wheels

  datatype Drive = Drive(
    wheels: Quad<Wheel>,
    steerSpeed: real,
    driveSpeed: real,
    maxOutput: real,
    deadband: real,
    widthToHeightRatio: real)

  /** The drive and steer factors are half the output cap. */
  predicate Coupled(d: Drive)
  {
    d.driveSpeed == 0.5 * d.maxOutput && d.steerSpeed == 0.5 * d.maxOutput
  }

  /** The constructor taking the track-to-wheelbase ratio, with the base
      class's output cap and deadband as given. */
  function Create(wheels: Quad<Wheel>, widthToHeightRatio: real, maxOutput: real, deadband: real): (r: Drive)
    ensures Coupled(r)
    ensures r.wheels == wheels && r.widthToHeightRatio == widthToHeightRatio
    ensures r.maxOutput == maxOutput && r.deadband == deadband
  {
    Drive(wheels, 0.5 * maxOutput, 0.5 * maxOutput, maxOutput, deadband, widthToHeightRatio)
  }

  /** The constructor for a square chassis: ratio 1. */
  function CreateSquare(wheels: Quad<Wheel>, maxOutput: real, deadband: real): (r: Drive)
    ensures Coupled(r) && r.widthToHeightRatio == 1.0
    ensures r.wheels == wheels && r.maxOutput == maxOutput && r.deadband == deadband
  {
    Create(wheels, 1.0, maxOutput, deadband)
  }

  /** `setMaxOutput`: a new cap, and the drive and steer factors follow it. */
  function SetMaxOutput(d: Drive, maxOutput: real): (r: Drive)
    ensures Coupled(r) && r.maxOutput == maxOutput
    ensures r.(maxOutput := d.maxOutput, driveSpeed := d.driveSpeed, steerSpeed := d.steerSpeed) == d
  {
    d.(maxOutput := maxOutput, driveSpeed := 0.5 * maxOutput, steerSpeed := 0.5 * maxOutput)
  }

  /** The base class's `setDeadband`, a plain field update. */
  function SetDeadband(d: Drive, deadband: real): (r: Drive)
    ensures r.deadband == deadband && r.(deadband := d.deadband) == d
  {
    d.(deadband := deadband)
  }

  /** The strafe input scaled by the drive factor, before the deadband. */
  function RawStrafe(d: Drive, strafeX: real, strafeY: real): (r: Vec)
    ensures r == Zero <==> d.driveSpeed == 0.0 || (strafeX == 0.0 && strafeY == 0.0)
    ensures 0.0 < d.driveSpeed ==>
      && (0.0 < r.x <==> 0.0 < strafeX) && (r.x < 0.0 <==> strafeX < 0.0)
      && (0.0 < r.y <==> 0.0 < strafeY) && (r.y < 0.0 <==> strafeY < 0.0)
  {
    MulZero(strafeX, d.driveSpeed);
    MulZero(strafeY, d.driveSpeed);
    assert 0.0 < d.driveSpeed ==>
        && (0.0 < strafeX * d.driveSpeed <==> 0.0 < strafeX) && (strafeX * d.driveSpeed < 0.0 <==> strafeX < 0.0)
        && (0.0 < strafeY * d.driveSpeed <==> 0.0 < strafeY) && (strafeY * d.driveSpeed < 0.0 <==> strafeY < 0.0) by {
      if 0.0 < d.driveSpeed {
        SignKept(strafeX, d.driveSpeed);
        SignKept(strafeY, d.driveSpeed);
      }
    }
    Vec(strafeX * d.driveSpeed, strafeY * d.driveSpeed)
  }

  ghost predicate InputDefined(d: Drive, strafeX: real, strafeY: real, steering: real, mag: Vec -> real)
  {
    IsMagnitude(mag)
    && Defined(mag(RawStrafe(d, strafeX, strafeY)), d.deadband)
    && Defined(steering, d.deadband)
  }

  /** The strafe vector `inputDrive` works with: the scaled strafe input,
      kept whole or zeroed as a whole, and zeroed exactly when the deadband
      maps its magnitude to 0. It is never stretched back to full scale. */
  function Base(d: Drive, strafeX: real, strafeY: real, mag: Vec -> real): (r: Vec)
    requires IsMagnitude(mag) && Defined(mag(RawStrafe(d, strafeX, strafeY)), d.deadband)
    ensures r == Zero || r == RawStrafe(d, strafeX, strafeY)
    ensures ValidDeadband(d.deadband) ==> (r == Zero <==> mag(RawStrafe(d, strafeX, strafeY)) <= d.deadband)
  {
    DeadbandedStrafe(RawStrafe(d, strafeX, strafeY), d.deadband, mag)
  }

  /** The four wheel vectors `inputDrive` builds. */
  function InputVectors(d: Drive, strafeX: real, strafeY: real, steering: real, mag: Vec -> real): (r: Quad<Vec>)
    requires InputDefined(d, strafeX, strafeY, steering, mag)
    ensures AccountForDeadband(steering, d.deadband) == 0.0 ==>
      var b := Base(d, strafeX, strafeY, mag); r == Quad(b, b, b, b)
  {
    WheelVectors(Base(d, strafeX, strafeY, mag), AccountForDeadband(steering, d.deadband),
                 d.widthToHeightRatio, d.steerSpeed)
  }

  /** The commands `inputDrive` issues, as written: the speeds are the wheel
      vectors' magnitudes under the output cap, and the directions are
      gated on the front-left vector alone. */
  ghost predicate Commanded(d: Drive, strafeX: real, strafeY: real, steering: real, vm: VectorMath, commands: Quad<Command>)
    requires ValidMath(vm) && InputDefined(d, strafeX, strafeY, steering, vm.magnitude)
  {
    var vectors := InputVectors(d, strafeX, strafeY, steering, vm.magnitude);
    && SpeedCap(SpeedsOf(commands), Speeds(vectors, vm.magnitude), d.maxOutput)
    && DirectionsOf(commands) == FrontLeftGatedDirections(vectors, ReportedDirections(d.wheels), vm)
  }

  /** The same speeds, with each wheel's direction decided by its own vector. */
  ghost predicate CommandedPerWheel(d: Drive, strafeX: real, strafeY: real, steering: real, vm: VectorMath,
                                    commands: Quad<Command>)
    requires ValidMath(vm) && InputDefined(d, strafeX, strafeY, steering, vm.magnitude)
  {
    var vectors := InputVectors(d, strafeX, strafeY, steering, vm.magnitude);
    && SpeedCap(SpeedsOf(commands), Speeds(vectors, vm.magnitude), d.maxOutput)
    && DirectionsOf(commands) == PerWheelDirections(vectors, ReportedDirections(d.wheels), vm)
  }

  /** `inputDrive` as written: the drive value afterwards and the four
      commands issued, one `steerAndDrive` call per wheel. */
  method InputDrive(d: Drive, strafeX: real, strafeY: real, steering: real, vm: VectorMath)
      returns (r: Drive, commands: Quad<Command>)
    requires ValidMath(vm) && InputDefined(d, strafeX, strafeY, steering, vm.magnitude)
    requires 0.0 <= d.maxOutput
          || 0.0 < Max4(Speeds(InputVectors(d, strafeX, strafeY, steering, vm.magnitude), vm.magnitude))
    ensures Commanded(d, strafeX, strafeY, steering, vm, commands)
    ensures 0.0 <= d.maxOutput ==> forall p :: 0.0 <= At(commands, p).speed <= d.maxOutput
    ensures r == d.(wheels := IssueEach(d.wheels, SteerAndDriveCalls(commands)))
  {
    var vectors := InputVectors(d, strafeX, strafeY, steering, vm.magnitude);
    commands := CapCommands(vectors, FrontLeftGatedDirections(vectors, ReportedDirections(d.wheels), vm),
                            vm.magnitude, d.maxOutput);
    r := d.(wheels := IssueEach(d.wheels, SteerAndDriveCalls(commands)));
  }

  /** `inputDrive` with the gate corrected to look at each wheel's own vector,
      as the subsystem drive does. */
  method InputDrivePerWheel(d: Drive, strafeX: real, strafeY: real, steering: real, vm: VectorMath)
      returns (r: Drive, commands: Quad<Command>)
    requires ValidMath(vm) && InputDefined(d, strafeX, strafeY, steering, vm.magnitude)
    requires 0.0 <= d.maxOutput
          || 0.0 < Max4(Speeds(InputVectors(d, strafeX, strafeY, steering, vm.magnitude), vm.magnitude))
    ensures CommandedPerWheel(d, strafeX, strafeY, steering, vm, commands)
    ensures 0.0 <= d.maxOutput ==> forall p :: 0.0 <= At(commands, p).speed <= d.maxOutput
    ensures r == d.(wheels := IssueEach(d.wheels, SteerAndDriveCalls(commands)))
  {
    var vectors := InputVectors(d, strafeX, strafeY, steering, vm.magnitude);
    commands := CapCommands(vectors, PerWheelDirections(vectors, ReportedDirections(d.wheels), vm),
                            vm.magnitude, d.maxOutput);
    r := d.(wheels := IssueEach(d.wheels, SteerAndDriveCalls(commands)));
  }

  /** As written, the front-left vector decides for all four wheels: with it
      zero, every wheel is sent back to the direction it reports; otherwise
      every wheel turns to its own vector's heading. */
  lemma GatedHeading(d: Drive, strafeX: real, strafeY: real, steering: real, vm: VectorMath,
                     commands: Quad<Command>, p: Position)
    requires ValidMath(vm) && InputDefined(d, strafeX, strafeY, steering, vm.magnitude)
    requires Commanded(d, strafeX, strafeY, steering, vm, commands)
    ensures var vectors := InputVectors(d, strafeX, strafeY, steering, vm.magnitude);
      At(commands, p).direction
      == (if vectors.fl == Zero then At(d.wheels, p).direction else vm.rotationDegrees(At(vectors, p)))
  {
    assert At(commands, p).direction == At(DirectionsOf(commands), p);
  }

  /** The front-left gate freezes a moving wheel: on a square drive with cap
      1 and no deadband, full stick back-left with full clockwise steering
      zeroes the front-left vector only, and the front-right wheel is driven
      at a positive speed while held at whatever direction it last reported. */
  lemma FrontLeftGateFreezesMovingWheel(wheels: Quad<Wheel>, vm: VectorMath, commands: Quad<Command>)
    requires ValidMath(vm)
    requires var d := CreateSquare(wheels, 1.0, 0.0);
      InputDefined(d, -1.0, -1.0, 1.0, vm.magnitude) && Commanded(d, -1.0, -1.0, 1.0, vm, commands)
    ensures var vectors := InputVectors(CreateSquare(wheels, 1.0, 0.0), -1.0, -1.0, 1.0, vm.magnitude);
      vectors.fl == Zero && vectors.fr == Vec(0.0, -1.0)
    ensures commands.fr.direction == wheels.fr.direction
    ensures 0.0 < commands.fr.speed
  {
    var d := CreateSquare(wheels, 1.0, 0.0);
    var mag := vm.magnitude;
    assert RawStrafe(d, -1.0, -1.0) == Vec(-0.5, -0.5);
    assert Base(d, -1.0, -1.0, mag) == Vec(-0.5, -0.5);
    DeadbandFixpoints(0.0);
    var vectors := InputVectors(d, -1.0, -1.0, 1.0, mag);
    assert vectors.fl == Zero && vectors.fr == Vec(0.0, -1.0);
    var speeds := Speeds(vectors, mag);
    assert At(speeds, FrontRight) != 0.0;
    assert At(SpeedsOf(commands), FrontRight) != 0.0;
    assert 0.0 <= At(SpeedsOf(commands), FrontRight);
  }

  /** With the corrected gate, heading preservation is wheel by wheel. */
  lemma PerWheelHeading(d: Drive, strafeX: real, strafeY: real, steering: real, vm: VectorMath,
                        commands: Quad<Command>, p: Position)
    requires ValidMath(vm) && InputDefined(d, strafeX, strafeY, steering, vm.magnitude)
    requires CommandedPerWheel(d, strafeX, strafeY, steering, vm, commands)
    ensures var v := At(InputVectors(d, strafeX, strafeY, steering, vm.magnitude), p);
      At(commands, p).direction == (if v == Zero then At(d.wheels, p).direction else vm.rotationDegrees(v))
  {
    assert At(commands, p).direction == At(DirectionsOf(commands), p);
  }

  /** `steerAndDriveAll`: the same `steerAndDrive` call on every wheel. */
  function SteerAndDriveAll(d: Drive, direction: real, speed: real): (r: Drive)
    ensures forall p :: At(r.wheels, p).calls == At(d.wheels, p).calls + [SteerAndDrive(direction, speed)]
    ensures r.(wheels := d.wheels) == d
  {
    d.(wheels := IssueAll(d.wheels, SteerAndDrive(direction, speed)))
  }

  /** `steerAllWithinRange`: points every wheel at `direction` with speed 0,
      then reports whether every wheel's own range check passes. */
  function SteerAllWithinRange(d: Drive, direction: real, marginOfError: real,
                               withinRange: (Wheel, real, real) -> bool): (r: (Drive, bool))
    ensures forall p :: At(r.0.wheels, p).calls == At(d.wheels, p).calls + [SteerAndDrive(direction, 0.0)]
    ensures r.0.(wheels := d.wheels) == d
    ensures r.1 <==> forall p :: withinRange(At(r.0.wheels, p), direction, marginOfError)
  {
    var s := Wheels.SteerAllWithinRange(d.wheels, direction, marginOfError, withinRange);
    (d.(wheels := s.0), s.1)
  }

  /** `stopMotor`: every wheel is told to stop. */
  function StopMotor(d: Drive): (r: Drive)
    ensures forall p :: At(r.wheels, p).calls == At(d.wheels, p).calls + [WheelCall.Stop]
    ensures r.(wheels := d.wheels) == d
  {
    d.(wheels := IssueAll(d.wheels, WheelCall.Stop))
  }

  /** The public calls a client can make, with `inputDrive` represented by
      the commands it issued. */
  datatype Op =
    | InputDriveIssued(commands: Quad<Command>)
    | SteerAndDriveAllOp(direction: real, speed: real)
    | SteerAllWithinRangeOp(direction: real, marginOfError: real, withinRange: (Wheel, real, real) -> bool)
    | StopMotorOp
    | SetMaxOutputOp(maxOutput: real)
    | SetDeadbandOp(deadband: real)

  function Apply(d: Drive, op: Op): Drive
  {
    match op
    case InputDriveIssued(commands) => d.(wheels := IssueEach(d.wheels, SteerAndDriveCalls(commands)))
    case SteerAndDriveAllOp(direction, speed) => SteerAndDriveAll(d, direction, speed)
    case SteerAllWithinRangeOp(direction, margin, withinRange) => SteerAllWithinRange(d, direction, margin, withinRange).0
    case StopMotorOp => StopMotor(d)
    case SetMaxOutputOp(m) => SetMaxOutput(d, m)
    case SetDeadbandOp(b) => SetDeadband(d, b)
  }

  function Run(d: Drive, ops: seq<Op>): Drive
    decreases |ops|
  {
    if ops == [] then d else Run(Apply(d, ops[0]), ops[1..])
  }

  /** The drive and steer factors stay tied to the output cap through any
      sequence of calls, as the constructor sets them up. */
  lemma {:induction false} CouplingInvariant(d: Drive, ops: seq<Op>)
    requires Coupled(d)
    ensures Coupled(Run(d, ops))
    decreases |ops|
  {
    if ops != [] {
      CouplingInvariant(Apply(d, ops[0]), ops[1..]);
    }
  }

  /** The track-to-wheelbase ratio is fixed at construction. */
  lemma {:induction false} RatioFixed(d: Drive, ops: seq<Op>)
    ensures Run(d, ops).widthToHeightRatio == d.widthToHeightRatio
    decreases |ops|
  {
    if ops != [] {
      RatioFixed(Apply(d, ops[0]), ops[1..]);
    }
  }
}
