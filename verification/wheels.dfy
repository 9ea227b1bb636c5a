/** The swerve modules as the drive classes see them. A module's motors,
    encoders and range check belong to the module class, which is not part of
    this model: a `Wheel` is what the drive code can read from a module (the
    direction it reports and, for the legacy modules, the signed distance its
    drive encoder has counted since the last reset) together with the log of
    the calls the drive code has made on it. Reading the sensors does not
    change them; the motors move them between calls, outside the model. */
module Wheels {
  import opened Kinematics

  datatype WheelCall =
    | SteerAndDrive(direction: real, speed: real)
    | SetSpeedAndRotation(direction: real, speed: real)
    | Stop
    | ResetDirectionalEncoder

  datatype Wheel = Wheel(direction: real, directionalDifference: real, calls: seq<WheelCall>)

  /** Makes one call on a wheel. Only a reset of the drive encoder changes
      what the wheel reports: the distance since the reset is then 0. */
  function Issue(w: Wheel, call: WheelCall): (r: Wheel)
    ensures r.calls == w.calls + [call]
    ensures r.direction == w.direction
    ensures r.directionalDifference == (if call == ResetDirectionalEncoder then 0.0 else w.directionalDifference)
  {
    var w' := w.(calls := w.calls + [call]);
    if call == ResetDirectionalEncoder then w'.(directionalDifference := 0.0) else w'
  }

  /** The same call on all four wheels. */
  function IssueAll(wheels: Quad<Wheel>, call: WheelCall): (r: Quad<Wheel>)
    ensures forall p :: At(r, p) == Issue(At(wheels, p), call)
  {
    Quad(Issue(wheels.fl, call), Issue(wheels.fr, call), Issue(wheels.rl, call), Issue(wheels.rr, call))
  }

  /** One call per wheel. */
  function IssueEach(wheels: Quad<Wheel>, calls: Quad<WheelCall>): (r: Quad<Wheel>)
    ensures forall p :: At(r, p) == Issue(At(wheels, p), At(calls, p))
  {
    Quad(
      Issue(wheels.fl, calls.fl),
      Issue(wheels.fr, calls.fr),
      Issue(wheels.rl, calls.rl),
      Issue(wheels.rr, calls.rr))
  }

  /** What `getDirection` returns on each wheel. */
  function ReportedDirections(wheels: Quad<Wheel>): (r: Quad<real>)
    ensures forall p :: At(r, p) == At(wheels, p).direction
  {
    Quad(wheels.fl.direction, wheels.fr.direction, wheels.rl.direction, wheels.rr.direction)
  }

  /** `steerAndDrive` calls carrying the given commands. */
  function SteerAndDriveCalls(commands: Quad<Command>): (r: Quad<WheelCall>)
    ensures forall p :: At(r, p) == SteerAndDrive(At(commands, p).direction, At(commands, p).speed)
  {
    Quad(
      SteerAndDrive(commands.fl.direction, commands.fl.speed),
      SteerAndDrive(commands.fr.direction, commands.fr.speed),
      SteerAndDrive(commands.rl.direction, commands.rl.speed),
      SteerAndDrive(commands.rr.direction, commands.rr.speed))
  }

  /** `setSpeedAndRotation` calls carrying the given commands. */
  function SetSpeedAndRotationCalls(commands: Quad<Command>): (r: Quad<WheelCall>)
    ensures forall p :: At(r, p) == SetSpeedAndRotation(At(commands, p).direction, At(commands, p).speed)
  {
    Quad(
      SetSpeedAndRotation(commands.fl.direction, commands.fl.speed),
      SetSpeedAndRotation(commands.fr.direction, commands.fr.speed),
      SetSpeedAndRotation(commands.rl.direction, commands.rl.speed),
      SetSpeedAndRotation(commands.rr.direction, commands.rr.speed))
  }

  /** Points every wheel at `direction` with speed 0, then asks each wheel's
      own range check, which is the module's and so a parameter here: true
      exactly when all four checks pass. */
  function SteerAllWithinRange(wheels: Quad<Wheel>, direction: real, marginOfError: real,
                               withinRange: (Wheel, real, real) -> bool): (r: (Quad<Wheel>, bool))
    ensures forall p :: At(r.0, p) == Issue(At(wheels, p), SteerAndDrive(direction, 0.0))
    ensures r.1 <==> forall p :: withinRange(At(r.0, p), direction, marginOfError)
  {
    var steered := IssueAll(wheels, SteerAndDrive(direction, 0.0));
    var ok := withinRange(steered.fl, direction, marginOfError)
        && withinRange(steered.fr, direction, marginOfError)
        && withinRange(steered.rl, direction, marginOfError)
        && withinRange(steered.rr, direction, marginOfError);
    assert ok <==> forall p :: withinRange(At(steered, p), direction, marginOfError) by {
      assert steered.fl == At(steered, FrontLeft) && steered.fr == At(steered, FrontRight);
      assert steered.rl == At(steered, RearLeft) && steered.rr == At(steered, RearRight);
    }
    (steered, ok)
  }
}
