/** The earlier swerve drive: the deadband is applied to each input axis on
    its own, the move and turn factors are tied to half the output cap, every
    wheel always turns to its own vector's heading, and the drive reports the
    distance travelled from its modules' drive encoders. */
module LegacyDrive {
  import opened Numeric
  import opened Vectors
  import opened Deadband
  import opened Kinematics
  import opened Wheels

  datatype Drive = Drive(
    wheels: Quad<Wheel>,
    turnSpeed: real,
    directMoveSpeed: real,
    maxOutput: real,
    deadband: real,
    widthToHeightRatio: real)

  /** The move and turn factors are half the output cap. */
  predicate Coupled(d: Drive)
  {
    d.directMoveSpeed == 0.5 * d.maxOutput && d.turnSpeed == 0.5 * d.maxOutput
  }

  /** The constructor taking the track-to-wheelbase ratio, with the base
      class's output cap and deadband as given. */
  function Create(wheels: Quad<Wheel>, widthToHeightRatio: real, maxOutput: real, deadband: real): (r: Drive)
    ensures Coupled(r)
    ensures r.wheels == wheels && r.widthToHeightRatio == widthToHeightRatio
    ensures r.maxOutput == maxOutput && r.deadband == deadband
  {
    Drive(wheels, 0.5 * maxOutput, 0.5 * maxOutput, maxOutput, deadband, widthToHeightRatio)
  }

  /** The constructor for a square chassis: ratio 1. */
  function CreateSquare(wheels: Quad<Wheel>, maxOutput: real, deadband: real): (r: Drive)
    ensures Coupled(r) && r.widthToHeightRatio == 1.0
    ensures r.wheels == wheels && r.maxOutput == maxOutput && r.deadband == deadband
  {
    Create(wheels, 1.0, maxOutput, deadband)
  }

  /** `setMaxOutput`: a new cap, and the move and turn factors follow it. */
  function SetMaxOutput(d: Drive, maxOutput: real): (r: Drive)
    ensures Coupled(r) && r.maxOutput == maxOutput
    ensures r.(maxOutput := d.maxOutput, directMoveSpeed := d.directMoveSpeed, turnSpeed := d.turnSpeed) == d
  {
    d.(maxOutput := maxOutput, directMoveSpeed := 0.5 * maxOutput, turnSpeed := 0.5 * maxOutput)
  }

  /** The base class's `setDeadband`, a plain field update. */
  function SetDeadband(d: Drive, deadband: real): (r: Drive)
    ensures r.deadband == deadband && r.(deadband := d.deadband) == d
  {
    d.(deadband := deadband)
  }

  ghost predicate InputDefined(d: Drive, moveX: real, moveY: real, rotate: real)
  {
    Defined(moveX, d.deadband) && Defined(moveY, d.deadband) && Defined(rotate, d.deadband)
  }

  /** The strafe vector `drive` builds: each axis goes through the deadband on
      its own, so an axis inside the band is dropped whatever the other does,
      and an axis outside it keeps its sign. */
  function Base(d: Drive, moveX: real, moveY: real): (r: Vec)
    requires Defined(moveX, d.deadband) && Defined(moveY, d.deadband)
    ensures Abs(moveX) < d.deadband ==> r.x == 0.0
    ensures Abs(moveY) < d.deadband ==> r.y == 0.0
    ensures ValidDeadband(d.deadband) && 0.0 < d.directMoveSpeed ==>
      && (0.0 < r.x <==> d.deadband < moveX) && (r.x < 0.0 <==> moveX < -d.deadband)
      && (0.0 < r.y <==> d.deadband < moveY) && (r.y < 0.0 <==> moveY < -d.deadband)
  {
    var x := AccountForDeadband(moveX, d.deadband);
    var y := AccountForDeadband(moveY, d.deadband);
    assert 0.0 < d.directMoveSpeed ==>
        && (0.0 < x * d.directMoveSpeed <==> 0.0 < x) && (x * d.directMoveSpeed < 0.0 <==> x < 0.0)
        && (0.0 < y * d.directMoveSpeed <==> 0.0 < y) && (y * d.directMoveSpeed < 0.0 <==> y < 0.0) by {
      if 0.0 < d.directMoveSpeed {
        SignKept(x, d.directMoveSpeed);
        SignKept(y, d.directMoveSpeed);
      }
    }
    Vec(x * d.directMoveSpeed, y * d.directMoveSpeed)
  }

  /** The four wheel vectors `drive` builds. */
  function InputVectors(d: Drive, moveX: real, moveY: real, rotate: real): (r: Quad<Vec>)
    requires InputDefined(d, moveX, moveY, rotate)
    ensures AccountForDeadband(rotate, d.deadband) == 0.0 ==>
      var b := Base(d, moveX, moveY); r == Quad(b, b, b, b)
  {
    WheelVectors(Base(d, moveX, moveY), AccountForDeadband(rotate, d.deadband),
                 d.widthToHeightRatio, d.turnSpeed)
  }

  /** What `drive` tells the wheels: each wheel's speed is its vector's
      magnitude under the output cap, and its direction is its vector's
      heading, even for a vector with no magnitude. */
  ghost predicate Commanded(d: Drive, moveX: real, moveY: real, rotate: real, vm: VectorMath, commands: Quad<Command>)
    requires ValidMath(vm) && InputDefined(d, moveX, moveY, rotate)
  {
    var vectors := InputVectors(d, moveX, moveY, rotate);
    && SpeedCap(SpeedsOf(commands), Speeds(vectors, vm.magnitude), d.maxOutput)
    && DirectionsOf(commands) == VectorDirections(vectors, vm)
  }

  /** `drive`: the drive value afterwards and the four commands issued, one
      `setSpeedAndRotation` call per wheel. */
  method DriveInputs(d: Drive, moveX: real, moveY: real, rotate: real, vm: VectorMath)
      returns (r: Drive, commands: Quad<Command>)
    requires ValidMath(vm) && InputDefined(d, moveX, moveY, rotate)
    requires 0.0 <= d.maxOutput || 0.0 < Max4(Speeds(InputVectors(d, moveX, moveY, rotate), vm.magnitude))
    ensures Commanded(d, moveX, moveY, rotate, vm, commands)
    ensures 0.0 <= d.maxOutput ==> forall p :: 0.0 <= At(commands, p).speed <= d.maxOutput
    ensures r == d.(wheels := IssueEach(d.wheels, SetSpeedAndRotationCalls(commands)))
  {
    var vectors := InputVectors(d, moveX, moveY, rotate);
    commands := CapCommands(vectors, VectorDirections(vectors, vm), vm.magnitude, d.maxOutput);
    r := d.(wheels := IssueEach(d.wheels, SetSpeedAndRotationCalls(commands)));
  }

  /** Every wheel turns to its own vector's heading: there is no heading
      preservation. */
  lemma OwnHeading(d: Drive, moveX: real, moveY: real, rotate: real, vm: VectorMath,
                   commands: Quad<Command>, p: Position)
    requires ValidMath(vm) && InputDefined(d, moveX, moveY, rotate)
    requires Commanded(d, moveX, moveY, rotate, vm, commands)
    ensures At(commands, p).direction == vm.rotationDegrees(At(InputVectors(d, moveX, moveY, rotate), p))
  {
    assert At(commands, p).direction == At(DirectionsOf(commands), p);
  }

  /** Inputs inside the deadband stop the wheels and turn all of them to the
      heading of the zero vector, rather than leaving them where they are. */
  lemma IdleTurnsToZeroHeading(d: Drive, moveX: real, moveY: real, rotate: real, vm: VectorMath,
                               commands: Quad<Command>)
    requires ValidMath(vm) && InputDefined(d, moveX, moveY, rotate)
    requires 0.0 <= d.maxOutput
    requires Commanded(d, moveX, moveY, rotate, vm, commands)
    requires Abs(moveX) < d.deadband && Abs(moveY) < d.deadband && Abs(rotate) < d.deadband
    ensures forall p :: At(commands, p) == Command(vm.rotationDegrees(Zero), 0.0)
  {
    var vectors := InputVectors(d, moveX, moveY, rotate);
    assert vectors == Quad(Zero, Zero, Zero, Zero);
    ZeroVectorsStill(vectors, SpeedsOf(commands), vm.magnitude, d.maxOutput);
    forall p
      ensures At(commands, p) == Command(vm.rotationDegrees(Zero), 0.0)
    {
      assert At(SpeedsOf(commands), p) == 0.0;
      assert At(DirectionsOf(commands), p) == vm.rotationDegrees(Zero);
    }
  }

  /** An axis inside the band is dropped on its own: a mostly-forward stick
      with a small sideways part drives straight forward, where the
      magnitude deadband of the other drives would keep the sideways part. */
  lemma AxisSnapping(d: Drive, moveX: real, moveY: real)
    requires ValidDeadband(d.deadband) && 0.0 < d.directMoveSpeed
    requires Abs(moveX) < d.deadband < moveY
    ensures Base(d, moveX, moveY).x == 0.0 && 0.0 < Base(d, moveX, moveY).y
  {
  }

  /** `getDistanceTraveled`: the mean of the four modules' absolute distances
      since the last reference. It is never negative, it is 0 exactly when
      every module reads 0, and it lies between a quarter of each module's
      reading and the largest reading. */
  function DistanceTraveled(wheels: Quad<Wheel>): (r: real)
    ensures 0.0 <= r
    ensures r == 0.0 <==> forall p :: At(wheels, p).directionalDifference == 0.0
    ensures forall p :: Abs(At(wheels, p).directionalDifference) <= 4.0 * r
    ensures exists p :: r <= Abs(At(wheels, p).directionalDifference)
  {
    var a := Abs(wheels.fl.directionalDifference);
    var b := Abs(wheels.fr.directionalDifference);
    var c := Abs(wheels.rl.directionalDifference);
    var e := Abs(wheels.rr.directionalDifference);
    MeanOfFour(a, b, c, e);
    assert At(wheels, FrontLeft).directionalDifference == wheels.fl.directionalDifference;
    assert At(wheels, FrontRight).directionalDifference == wheels.fr.directionalDifference;
    assert At(wheels, RearLeft).directionalDifference == wheels.rl.directionalDifference;
    assert At(wheels, RearRight).directionalDifference == wheels.rr.directionalDifference;
    (a + b + c + e) / 4.0
  }

  /** The mean of four non-negative values. */
  lemma MeanOfFour(a: real, b: real, c: real, e: real)
    requires 0.0 <= a && 0.0 <= b && 0.0 <= c && 0.0 <= e
    ensures var m := (a + b + c + e) / 4.0;
      && 0.0 <= m
      && (m == 0.0 <==> a == 0.0 && b == 0.0 && c == 0.0 && e == 0.0)
      && a <= 4.0 * m && b <= 4.0 * m && c <= 4.0 * m && e <= 4.0 * m
      && (m <= a || m <= b || m <= c || m <= e)
  {
  }

  /** `setDistanceReference`: every module's drive encoder is reset, so the
      distance travelled starts again from 0. */
  function SetDistanceReference(d: Drive): (r: Drive)
    ensures forall p :: At(r.wheels, p).calls == At(d.wheels, p).calls + [ResetDirectionalEncoder]
    ensures DistanceTraveled(r.wheels) == 0.0
    ensures r.(wheels := d.wheels) == d
  {
    d.(wheels := IssueAll(d.wheels, ResetDirectionalEncoder))
  }

  /** `stopMotor`: every wheel is told to stop. */
  function StopMotor(d: Drive): (r: Drive)
    ensures forall p :: At(r.wheels, p).calls == At(d.wheels, p).calls + [WheelCall.Stop]
    ensures r.(wheels := d.wheels) == d
  {
    d.(wheels := IssueAll(d.wheels, WheelCall.Stop))
  }

  /** The public calls a client can make, with `drive` represented by the
      commands it issued. */
  datatype Op =
    | DriveIssued(commands: Quad<Command>)
    | SetDistanceReferenceOp
    | StopMotorOp
    | SetMaxOutputOp(maxOutput: real)
    | SetDeadbandOp(deadband: real)

  function Apply(d: Drive, op: Op): Drive
  {
    match op
    case DriveIssued(commands) => d.(wheels := IssueEach(d.wheels, SetSpeedAndRotationCalls(commands)))
    case SetDistanceReferenceOp => SetDistanceReference(d)
    case StopMotorOp => StopMotor(d)
    case SetMaxOutputOp(m) => SetMaxOutput(d, m)
    case SetDeadbandOp(b) => SetDeadband(d, b)
  }

  function Run(d: Drive, ops: seq<Op>): Drive
    decreases |ops|
  {
    if ops == [] then d else Run(Apply(d, ops[0]), ops[1..])
  }

  /** Only `setDistanceReference` changes what the modules report: the
      other calls leave the distance travelled as it was. */
  lemma CallsKeepDistance(d: Drive, op: Op)
    requires op != SetDistanceReferenceOp
    ensures DistanceTraveled(Apply(d, op).wheels) == DistanceTraveled(d.wheels)
  {
    var w := Apply(d, op).wheels;
    assert forall p :: At(w, p).directionalDifference == At(d.wheels, p).directionalDifference;
    assert w.fl.directionalDifference == At(w, FrontLeft).directionalDifference;
    assert w.fr.directionalDifference == At(w, FrontRight).directionalDifference;
    assert w.rl.directionalDifference == At(w, RearLeft).directionalDifference;
    assert w.rr.directionalDifference == At(w, RearRight).directionalDifference;
  }

  /** The move and turn factors stay tied to the output cap through any
      sequence of calls, as the constructor sets them up. */
  lemma {:induction false} CouplingInvariant(d: Drive, ops: seq<Op>)
    requires Coupled(d)
    ensures Coupled(Run(d, ops))
    decreases |ops|
  {
    if ops != [] {
      CouplingInvariant(Apply(d, ops[0]), ops[1..]);
    }
  }
}
