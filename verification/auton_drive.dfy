/** The autonomous command that strafes the drive a given distance in a
    given direction without turning: every tick it either drives on, with a
    steering correction that turns the robot back to the heading it had when
    the command was made, or latches that it has finished. The drive it runs
    on and the gyro are not part of this model: the calls the command makes
    on the drive are recorded, and the gyro angle and the distance travelled
    are given to each tick. */
module AutonDrive {
  import opened Numeric
  import opened Vectors

  /** How strongly a heading error, in degrees, is steered against. */
  const CorrectionTurnScalar: real := 0.08

  /** The calls the command makes on the drive. */
  datatype DriveCall =
    | Stop
    | SetDistanceReference
    | InputDrive(strafeX: real, strafeY: real, steering: real)

  datatype Auton = Auton(
    initialGyroAngle: real,
    direction: real,
    distance: real,
    speed: real,
    finished: bool,
    calls: seq<DriveCall>)

  /** The constructor: the gyro angle is read here, once, and the command
      starts unfinished, with no call made on the drive. */
  function Construct(gyroAngle: real, direction: real, distance: real, speed: real): (r: Auton)
    ensures !r.finished && r.calls == []
    ensures r.initialGyroAngle == gyroAngle
    ensures r.direction == direction && r.distance == distance && r.speed == speed
  {
    Auton(gyroAngle, direction, distance, speed, false, [])
  }

  /** `initialize`: stops the drive, then makes the current encoder readings
      the reference the distance travelled is measured from. The heading to
      hold stays the one read at construction. */
  function Initialize(a: Auton): (r: Auton)
    ensures r.calls == a.calls + [Stop, SetDistanceReference]
    ensures r.(calls := a.calls) == a
  {
    a.(calls := a.calls + [Stop, SetDistanceReference])
  }

  /** The number of whole turns to take off a heading error to bring it
      into [-180, 180). */
  function Turns(error: real): (k: int)
    ensures 360.0 * k as real <= error + 180.0 < 360.0 * k as real + 360.0
  {
    ((error + 180.0) / 360.0).Floor
  }

  /** The heading error brought into [-180, 180) by whole turns. */
  function Wrapped(error: real): (r: real)
    ensures -180.0 <= r < 180.0
  {
    error - 360.0 * Turns(error) as real
  }

  /** Two angles in [-180, 180) that differ by whole turns are equal. */
  lemma WrapUnique(a: real, b: real, k: int)
    requires -180.0 <= a < 180.0 && -180.0 <= b < 180.0
    requires a - b == 360.0 * k as real
    ensures a == b
  {
    assert k == 0;
  }

  /** `Wrapped` is the one angle in [-180, 180) that differs from the error
      by whole turns. */
  lemma WrappedUnique(error: real, k: int)
    requires -180.0 <= error - 360.0 * k as real < 180.0
    ensures Wrapped(error) == error - 360.0 * k as real
  {
    WrapUnique(Wrapped(error), error - 360.0 * k as real, k - Turns(error));
  }

  /** The two loops of `getCorrectionTurn`: take whole turns off while the
      error is 180 or more, then add whole turns while it is below -180. The
      result is the closed form `Wrapped`. */
  method WrapAngle(error: real) returns (r: real)
    ensures -180.0 <= r < 180.0
    ensures r == Wrapped(error)
  {
    r := error;
    ghost var k: int := 0;
    while r >= 180.0
      invariant r == error - 360.0 * k as real
      invariant error < 180.0 ==> r == error
      decreases (r - 180.0).Floor
    {
      r := r - 360.0;
      k := k + 1;
    }
    while r < -180.0
      invariant r < 180.0
      invariant r == error - 360.0 * k as real
      decreases (-180.0 - r).Floor
    {
      r := r + 360.0;
      k := k - 1;
    }
    WrappedUnique(error, k);
  }

  /** The steering correction for a heading error: the wrapped error times
      the scalar, clamped to [-1, 1]. It steers the same way as the error,
      and it is exactly the scaled error whenever that is within bounds. */
  function Correction(error: real): (r: real)
    ensures -1.0 <= r <= 1.0
    ensures -1.0 <= Wrapped(error) * CorrectionTurnScalar <= 1.0 ==> r == Wrapped(error) * CorrectionTurnScalar
    ensures 0.0 < r <==> 0.0 < Wrapped(error)
    ensures r < 0.0 <==> Wrapped(error) < 0.0
  {
    Max(Min(Wrapped(error) * CorrectionTurnScalar, 1.0), -1.0)
  }

  /** `getCorrectionTurn` as the source computes it, loops and all: the
      initial gyro angle minus the current one, wrapped, scaled and clamped. */
  method CorrectionTurn(a: Auton, gyroAngle: real) returns (r: real)
    ensures r == Correction(a.initialGyroAngle - gyroAngle)
    ensures -1.0 <= r <= 1.0
  {
    var turn := WrapAngle(a.initialGyroAngle - gyroAngle);
    r := Max(Min(turn * CorrectionTurnScalar, 1.0), -1.0);
  }

  /** The strafe vector for the command's direction and speed: the unit
      vector turned to `direction`, stretched by `speed`. It points along
      that heading for a positive speed, is that heading's unit vector at
      speed 1, and vanishes exactly when the speed is 0 (or the turned unit
      vector is degenerate). */
  function DriveVector(a: Auton, vm: VectorMath): (r: Vec)
    ensures var u := vm.toRotationDegrees(Vec(1.0, 0.0), a.direction);
      && (a.speed == 1.0 ==> r == u)
      && (r == Zero <==> a.speed == 0.0 || u == Zero)
      && (0.0 < a.speed ==>
           && (0.0 < r.x <==> 0.0 < u.x) && (r.x < 0.0 <==> u.x < 0.0)
           && (0.0 < r.y <==> 0.0 < u.y) && (r.y < 0.0 <==> u.y < 0.0))
  {
    var u := vm.toRotationDegrees(Vec(1.0, 0.0), a.direction);
    assert u.x * a.speed == 0.0 && u.y * a.speed == 0.0 <==> a.speed == 0.0 || u == Zero by {
      MulZero(u.x, a.speed);
      MulZero(u.y, a.speed);
    }
    assert 0.0 < a.speed ==>
        && (0.0 < u.x * a.speed <==> 0.0 < u.x) && (u.x * a.speed < 0.0 <==> u.x < 0.0)
        && (0.0 < u.y * a.speed <==> 0.0 < u.y) && (u.y * a.speed < 0.0 <==> u.y < 0.0) by {
      if 0.0 < a.speed {
        SignKept(u.x, a.speed);
        SignKept(u.y, a.speed);
      }
    }
    Vec(u.x * a.speed, u.y * a.speed)
  }

  /** `execute`, one tick: while the distance travelled is short of the
      target it drives along the command's direction with the heading
      correction and leaves `finished` alone; once it is reached it latches
      `finished` and makes no call on the drive. */
  function Execute(a: Auton, distanceTraveled: real, gyroAngle: real, vm: VectorMath): (r: Auton)
    ensures distanceTraveled < a.distance ==>
      && r.finished == a.finished
      && |r.calls| == |a.calls| + 1 && r.calls[..|a.calls|] == a.calls
      && var call := r.calls[|a.calls|];
         && call.InputDrive?
         && call.strafeX == DriveVector(a, vm).x && call.strafeY == DriveVector(a, vm).y
         && call.steering == Correction(a.initialGyroAngle - gyroAngle)
    ensures a.distance <= distanceTraveled ==> r.finished && r.calls == a.calls
    ensures r.(finished := a.finished, calls := a.calls) == a
  {
    if distanceTraveled < a.distance then
      var v := DriveVector(a, vm);
      a.(calls := a.calls + [InputDrive(v.x, v.y, Correction(a.initialGyroAngle - gyroAngle))])
    else
      a.(finished := true)
  }

  /** `end`: stops the drive, interrupted or not. */
  function End(a: Auton, interrupted: bool): (r: Auton)
    ensures r.calls == a.calls + [Stop]
    ensures r.(calls := a.calls) == a
  {
    a.(calls := a.calls + [Stop])
  }

  /** `isFinished` */
  function IsFinished(a: Auton): (r: bool)
    ensures r == a.finished
  {
    a.finished
  }

  /** What the scheduler can do with the command. */
  datatype Event =
    | InitializeEvent
    | ExecuteEvent(distanceTraveled: real, gyroAngle: real)
    | EndEvent(interrupted: bool)

  function Step(a: Auton, e: Event, vm: VectorMath): Auton
  {
    match e
    case InitializeEvent => Initialize(a)
    case ExecuteEvent(traveled, gyro) => Execute(a, traveled, gyro, vm)
    case EndEvent(interrupted) => End(a, interrupted)
  }

  function Run(a: Auton, events: seq<Event>, vm: VectorMath): Auton
    decreases |events|
  {
    if events == [] then a else Run(Step(a, events[0], vm), events[1..], vm)
  }

  /** Once finished, the command stays finished. */
  lemma {:induction false} FinishedLatches(a: Auton, events: seq<Event>, vm: VectorMath)
    requires a.finished
    ensures Run(a, events, vm).finished
    decreases |events|
  {
    if events != [] {
      FinishedLatches(Step(a, events[0], vm), events[1..], vm);
    }
  }

  /** The command only ever adds calls to the drive: what it has sent stays sent. */
  lemma {:induction false} CallsOnlyGrow(a: Auton, events: seq<Event>, vm: VectorMath)
    ensures var r := Run(a, events, vm);
      |a.calls| <= |r.calls| && r.calls[..|a.calls|] == a.calls
    decreases |events|
  {
    if events != [] {
      var s := Step(a, events[0], vm);
      assert |a.calls| <= |s.calls| && s.calls[..|a.calls|] == a.calls;
      CallsOnlyGrow(s, events[1..], vm);
    }
  }

  /** Every steering value the command sends to the drive is in [-1, 1]. */
  ghost predicate SteeringBounded(calls: seq<DriveCall>)
  {
    forall i :: 0 <= i < |calls| && calls[i].InputDrive? ==> -1.0 <= calls[i].steering <= 1.0
  }

  lemma {:induction false} SteeringStaysBounded(a: Auton, events: seq<Event>, vm: VectorMath)
    requires SteeringBounded(a.calls)
    ensures SteeringBounded(Run(a, events, vm).calls)
    decreases |events|
  {
    if events != [] {
      var s := Step(a, events[0], vm);
      assert SteeringBounded(s.calls);
      SteeringStaysBounded(s, events[1..], vm);
    }
  }

  /** A freshly made command sends only steering values in [-1, 1], however
      the scheduler drives it. */
  lemma FreshCommandSteersWithinBounds(gyroAngle: real, direction: real, distance: real, speed: real,
                                       events: seq<Event>, vm: VectorMath)
    ensures SteeringBounded(Run(Construct(gyroAngle, direction, distance, speed), events, vm).calls)
  {
    SteeringStaysBounded(Construct(gyroAngle, direction, distance, speed), events, vm);
  }
}
