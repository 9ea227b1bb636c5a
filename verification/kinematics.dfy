/** The inverse kinematics shared by the three drive classes: the per-wheel
    vectors built from a strafe vector and the front-right steering vector,
    the proportional speed cap, and the three policies the classes use to
    pick each wheel's direction. */
module Kinematics {
  import opened Numeric
  import opened Vectors
  import opened Deadband

  datatype Position = FrontLeft | FrontRight | RearLeft | RearRight

  /** One value per wheel. */
  datatype Quad<T> = Quad(fl: T, fr: T, rl: T, rr: T)

  function At<T>(q: Quad<T>, p: Position): T
  {
    match p
    case FrontLeft => q.fl
    case FrontRight => q.fr
    case RearLeft => q.rl
    case RearRight => q.rr
  }

  /** What one wheel is told to do: steer to `direction` degrees and drive at `speed`. */
  datatype Command = Command(direction: real, speed: real)

  /** The deadband applied to a strafe vector as a whole: the vector survives
      unchanged or is zeroed, and it is zeroed exactly when the deadband maps
      its magnitude to 0. */
  function DeadbandedStrafe(raw: Vec, deadband: real, mag: Vec -> real): (r: Vec)
    requires IsMagnitude(mag) && Defined(mag(raw), deadband)
    ensures r == Zero <==> AccountForDeadband(mag(raw), deadband) == 0.0 || raw == Zero
    ensures r != Zero ==> r == raw
    ensures ValidDeadband(deadband) ==> (r == Zero <==> mag(raw) <= deadband)
  {
    if AccountForDeadband(mag(raw), deadband) == 0.0 then Zero else raw
  }

  /** The steering contribution of the front-right wheel for a clockwise
      steering input: rightwards in proportion to the track/wheelbase ratio,
      and backwards. */
  function SteeringVectorFR(steering: real, widthToHeightRatio: real, steerSpeed: real): (r: Vec)
    ensures r == Zero <==> steering == 0.0 || steerSpeed == 0.0
    ensures r.x == -widthToHeightRatio * r.y
    ensures 0.0 < steerSpeed ==> (r.y < 0.0 <==> 0.0 < steering) && (0.0 < r.y <==> steering < 0.0)
    ensures 0.0 < steerSpeed && 0.0 < widthToHeightRatio ==>
      (0.0 < r.x <==> 0.0 < steering) && (r.x < 0.0 <==> steering < 0.0)
  {
    var forwards := steering * steerSpeed;
    var rightwards := steering * widthToHeightRatio;
    assert steering * widthToHeightRatio * steerSpeed == rightwards * steerSpeed;
    assert rightwards * steerSpeed == -widthToHeightRatio * -forwards;
    assert forwards == 0.0 <==> steering == 0.0 || steerSpeed == 0.0 by {
      MulZero(steering, steerSpeed);
    }
    assert 0.0 < steerSpeed ==> (0.0 < forwards <==> 0.0 < steering) && (forwards < 0.0 <==> steering < 0.0) by {
      if 0.0 < steerSpeed {
        SignKept(steering, steerSpeed);
      }
    }
    assert 0.0 < steerSpeed && 0.0 < widthToHeightRatio ==>
        (0.0 < rightwards * steerSpeed <==> 0.0 < steering)
        && (rightwards * steerSpeed < 0.0 <==> steering < 0.0) by {
      if 0.0 < steerSpeed && 0.0 < widthToHeightRatio {
        SignKept(steering, widthToHeightRatio);
        SignKept(rightwards, steerSpeed);
      }
    }
    Vec(rightwards * steerSpeed, -forwards)
  }

  /** The four wheel vectors for a strafe vector and a steering input: each
      is the strafe vector plus the front-right steering vector turned to
      that wheel's corner (`WheelVectorsMirror`). The components are written
      out so that the vector helpers only enter a proof that asks for them. */
  function WheelVectors(base: Vec, steering: real, widthToHeightRatio: real, steerSpeed: real): (r: Quad<Vec>)
    ensures steering == 0.0 ==> r == Quad(base, base, base, base)
  {
    var sx := steering * widthToHeightRatio * steerSpeed;
    var sy := -steering * steerSpeed;
    assert steering == 0.0 ==> sx == 0.0 && sy == 0.0 && base == Vec(base.x, base.y);
    Quad(
      Vec(base.x + sx, base.y - sy),
      Vec(base.x + sx, base.y + sy),
      Vec(base.x - sx, base.y - sy),
      Vec(base.x - sx, base.y + sy))
  }

  /** The steering vector turned to each corner: as is for front right,
      mirrored left-right for rear right, negated for rear left and mirrored
      front-back for front left. */
  lemma WheelVectorsMirror(base: Vec, steering: real, widthToHeightRatio: real, steerSpeed: real)
    ensures var s := SteeringVectorFR(steering, widthToHeightRatio, steerSpeed);
      WheelVectors(base, steering, widthToHeightRatio, steerSpeed)
      == Quad(Add(base, ReflectAcrossX(s)), Add(base, s), Add(base, Scale(s, -1.0)), Add(base, ReflectAcrossY(s)))
  {
  }

  /** The four steering parts cancel, so the wheels' mean is the strafe. */
  lemma WheelVectorsMean(base: Vec, steering: real, widthToHeightRatio: real, steerSpeed: real)
    ensures var r := WheelVectors(base, steering, widthToHeightRatio, steerSpeed);
      Add(Add(r.fl, r.fr), Add(r.rl, r.rr)) == Scale(base, 4.0)
  {
  }

  lemma NegateIsDoubleReflection(v: Vec)
    ensures Scale(v, -1.0) == ReflectAcrossX(ReflectAcrossY(v))
  {
  }

  /** With no strafe, the four wheels point along the four mirror images of
      the front-right steering vector, so they all get the same speed, and
      the left wheels mirror the right ones front to back. */
  lemma PureRotation(steering: real, widthToHeightRatio: real, steerSpeed: real, mag: Vec -> real)
    requires IsMagnitude(mag)
    ensures var r := WheelVectors(Zero, steering, widthToHeightRatio, steerSpeed);
      && r.fl == ReflectAcrossX(r.fr)
      && r.rl == ReflectAcrossX(r.rr)
      && mag(r.fl) == mag(r.fr) == mag(r.rl) == mag(r.rr)
  {
    var s := SteeringVectorFR(steering, widthToHeightRatio, steerSpeed);
    var r := WheelVectors(Zero, steering, widthToHeightRatio, steerSpeed);
    assert r == Quad(ReflectAcrossX(s), s, Scale(s, -1.0), ReflectAcrossY(s));
    NegateIsDoubleReflection(s);
    MagnitudeNegate(mag, s);
  }

  /** The wheel speeds before the cap: each wheel's vector magnitude. */
  function Speeds(vectors: Quad<Vec>, mag: Vec -> real): (r: Quad<real>)
    requires IsMagnitude(mag)
    ensures NonNegative(r)
    ensures forall p :: At(r, p) == 0.0 <==> At(vectors, p) == Zero
  {
    Quad(mag(vectors.fl), mag(vectors.fr), mag(vectors.rl), mag(vectors.rr))
  }

  predicate NonNegative(q: Quad<real>)
  {
    forall p :: 0.0 <= At(q, p)
  }

  /** The largest of the four values, grouped as the source does. */
  function Max4(q: Quad<real>): (m: real)
    ensures forall p :: At(q, p) <= m
    ensures exists p :: At(q, p) == m
  {
    var m := Max(Max(q.fl, q.fr), Max(q.rl, q.rr));
    assert At(q, FrontLeft) == m || At(q, FrontRight) == m || At(q, RearLeft) == m || At(q, RearRight) == m;
    m
  }

  /** Every value of `r` is `c / m` times the matching value of `speeds`,
      stated without the division. */
  ghost predicate ScaledBy(r: Quad<real>, speeds: Quad<real>, m: real, c: real)
  {
    forall p :: At(r, p) * m == c * At(speeds, p)
  }

  /** `r` and `speeds` have the same pairwise ratios. */
  ghost predicate Proportional(r: Quad<real>, speeds: Quad<real>)
  {
    forall p, w :: At(r, p) * At(speeds, w) == At(r, w) * At(speeds, p)
  }

  /** Wheels given equal speeds in `speeds` get equal speeds in `r`. */
  ghost predicate KeepsTies(r: Quad<real>, speeds: Quad<real>)
  {
    forall p, w :: At(speeds, p) == At(speeds, w) ==> At(r, p) == At(r, w)
  }

  /** Every value of `r` lies in [0, c] and is at most its value in `speeds`. */
  ghost predicate WithinCap(r: Quad<real>, speeds: Quad<real>, c: real)
  {
    forall p :: 0.0 <= At(r, p) <= c && At(r, p) <= At(speeds, p)
  }

  /** Exactly the wheels standing still in `speeds` stand still in `r`. */
  ghost predicate SameZeros(r: Quad<real>, speeds: Quad<real>)
  {
    forall p :: At(r, p) == 0.0 <==> At(speeds, p) == 0.0
  }

  /** One capped speed `x`, computed as `s / m * c`. */
  lemma CappedSpeed(x: real, s: real, m: real, c: real)
    requires 0.0 < m && x == s / m * c
    ensures x * m == c * s
  {
    DivFacts(s, m);
  }

  lemma CappedSpeedBounds(x: real, s: real, m: real, c: real)
    requires 0.0 <= s <= m && 0.0 <= c < m
    requires x * m == c * s
    ensures 0.0 <= x <= c && x <= s
  {
    if x < 0.0 {
      MulNegative(x, m);
    }
    if c < x {
      MulStrict(c, x, m);
      MulMonotone(s, m, c);
    }
    if s < x {
      MulStrict(s, x, m);
      MulMonotone(c, m, s);
    }
  }

  lemma CappedSpeedZero(x: real, s: real, m: real, c: real)
    requires 0.0 < m && c != 0.0
    requires x * m == c * s
    ensures x == 0.0 <==> s == 0.0
  {
  }

  lemma CappedSpeedTie(xp: real, xw: real, sp: real, sw: real, m: real, c: real)
    requires 0.0 < m && sp == sw
    requires xp * m == c * sp && xw * m == c * sw
    ensures xp == xw
  {
    MulCancel(xp, xw, m);
  }

  lemma CappedSpeedTop(x: real, s: real, m: real, c: real)
    requires 0.0 < m && s == m && x * m == c * s
    ensures x == c
  {
    MulCancel(x, c, m);
  }

  lemma CommonScaleRatio(xp: real, xw: real, sp: real, sw: real, m: real, c: real)
    requires 0.0 < m
    requires xp * m == c * sp && xw * m == c * sw
    ensures xp * sw == xw * sp
  {
    assert xp * sw * m == c * sp * sw;
    assert xw * sp * m == c * sw * sp;
    MulCancel(xp * sw, xw * sp, m);
  }

  /** `s / m * c` for each of the four speeds: the division by the fastest
      speed and the multiplication by the cap, in the source's order. */
  method CapAll(speeds: Quad<real>, m: real, c: real) returns (r: Quad<real>)
    requires 0.0 < m
    ensures ScaledBy(r, speeds, m, c)
  {
    r := Quad(speeds.fl / m * c, speeds.fr / m * c, speeds.rl / m * c, speeds.rr / m * c);
    CappedSpeed(r.fl, speeds.fl, m, c);
    CappedSpeed(r.fr, speeds.fr, m, c);
    CappedSpeed(r.rl, speeds.rl, m, c);
    CappedSpeed(r.rr, speeds.rr, m, c);
    forall p
      ensures At(r, p) * m == c * At(speeds, p)
    {
      match p
      case FrontLeft =>
      case FrontRight =>
      case RearLeft =>
      case RearRight =>
    }
  }

  lemma ScaledProportional(r: Quad<real>, speeds: Quad<real>, m: real, c: real)
    requires 0.0 < m && ScaledBy(r, speeds, m, c)
    ensures Proportional(r, speeds)
  {
    forall p, w
      ensures At(r, p) * At(speeds, w) == At(r, w) * At(speeds, p)
    {
      CommonScaleRatio(At(r, p), At(r, w), At(speeds, p), At(speeds, w), m, c);
    }
  }

  lemma ScaledKeepsTies(r: Quad<real>, speeds: Quad<real>, m: real, c: real)
    requires 0.0 < m && ScaledBy(r, speeds, m, c)
    ensures KeepsTies(r, speeds)
  {
    forall p, w | At(speeds, p) == At(speeds, w)
      ensures At(r, p) == At(r, w)
    {
      CappedSpeedTie(At(r, p), At(r, w), At(speeds, p), At(speeds, w), m, c);
    }
  }

  lemma ScaledWithinCap(r: Quad<real>, speeds: Quad<real>, c: real)
    requires NonNegative(speeds) && 0.0 <= c < Max4(speeds)
    requires ScaledBy(r, speeds, Max4(speeds), c)
    ensures WithinCap(r, speeds, c)
  {
    forall p
      ensures 0.0 <= At(r, p) <= c && At(r, p) <= At(speeds, p)
    {
      CappedSpeedBounds(At(r, p), At(speeds, p), Max4(speeds), c);
    }
  }

  lemma TopWheelCapped(r: Quad<real>, speeds: Quad<real>, c: real, hit: Position)
    requires 0.0 < Max4(speeds) && At(speeds, hit) == Max4(speeds)
    requires ScaledBy(r, speeds, Max4(speeds), c)
    ensures At(r, hit) == c
  {
    CappedSpeedTop(At(r, hit), At(speeds, hit), Max4(speeds), c);
  }

  lemma Max4Attained(q: Quad<real>, c: real, hit: Position)
    requires forall p :: At(q, p) <= c
    requires At(q, hit) == c
    ensures Max4(q) == c
  {
  }

  lemma ScaledReachesCap(r: Quad<real>, speeds: Quad<real>, c: real)
    requires 0.0 < Max4(speeds)
    requires ScaledBy(r, speeds, Max4(speeds), c) && WithinCap(r, speeds, c)
    ensures Max4(r) == c
  {
    var hit :| At(speeds, hit) == Max4(speeds);
    TopWheelCapped(r, speeds, c, hit);
    Max4Attained(r, c, hit);
  }

  lemma ScaledSameZeros(r: Quad<real>, speeds: Quad<real>, m: real, c: real)
    requires 0.0 < m && c != 0.0 && ScaledBy(r, speeds, m, c)
    ensures SameZeros(r, speeds)
  {
    forall p
      ensures At(r, p) == 0.0 <==> At(speeds, p) == 0.0
    {
      CappedSpeedZero(At(r, p), At(speeds, p), m, c);
    }
  }

  lemma UncappedFacts(speeds: Quad<real>, c: real)
    requires Max4(speeds) <= c
    ensures Proportional(speeds, speeds) && KeepsTies(speeds, speeds) && SameZeros(speeds, speeds)
    ensures NonNegative(speeds) ==> WithinCap(speeds, speeds, c)
  {
  }

  /** The output cap. When the fastest wheel would exceed `maxOutput`, every
      speed is divided by the fastest speed and multiplied by `maxOutput`, so
      all four shrink by one common factor and the fastest lands exactly on
      the cap; otherwise nothing changes. A negative cap with all four wheels
      still would divide zero by zero, which the precondition excludes. */
  method Normalize(speeds: Quad<real>, maxOutput: real) returns (r: Quad<real>)
    requires NonNegative(speeds)
    requires 0.0 <= maxOutput || 0.0 < Max4(speeds)
    ensures Max4(speeds) <= maxOutput ==> r == speeds
    ensures maxOutput < Max4(speeds) ==> ScaledBy(r, speeds, Max4(speeds), maxOutput)
    ensures Proportional(r, speeds) && KeepsTies(r, speeds)
    ensures 0.0 <= maxOutput ==> WithinCap(r, speeds, maxOutput)
    ensures 0.0 <= maxOutput ==> Max4(r) == Min(Max4(speeds), maxOutput)
    ensures maxOutput != 0.0 ==> SameZeros(r, speeds)
  {
    if Max4(speeds) <= maxOutput {
      r := speeds;
      UncappedFacts(speeds, maxOutput);
    } else {
      r := CapAll(speeds, Max4(speeds), maxOutput);
      ScaledProportional(r, speeds, Max4(speeds), maxOutput);
      ScaledKeepsTies(r, speeds, Max4(speeds), maxOutput);
      if 0.0 <= maxOutput {
        ScaledWithinCap(r, speeds, maxOutput);
        ScaledReachesCap(r, speeds, maxOutput);
      }
      if maxOutput != 0.0 {
        ScaledSameZeros(r, speeds, Max4(speeds), maxOutput);
      }
    }
  }

  /** Heading preservation, per wheel: a wheel whose own vector has no
      magnitude keeps the direction it last reported; every other wheel turns
      to its vector's heading. */
  function PerWheelDirections(vectors: Quad<Vec>, previous: Quad<real>, vm: VectorMath): (r: Quad<real>)
    requires ValidMath(vm)
    ensures forall p :: At(vectors, p) == Zero ==> At(r, p) == At(previous, p)
    ensures forall p :: At(vectors, p) != Zero ==> At(r, p) == vm.rotationDegrees(At(vectors, p))
  {
    Quad(
      if vm.magnitude(vectors.fl) > 0.0 then vm.rotationDegrees(vectors.fl) else previous.fl,
      if vm.magnitude(vectors.fr) > 0.0 then vm.rotationDegrees(vectors.fr) else previous.fr,
      if vm.magnitude(vectors.rl) > 0.0 then vm.rotationDegrees(vectors.rl) else previous.rl,
      if vm.magnitude(vectors.rr) > 0.0 then vm.rotationDegrees(vectors.rr) else previous.rr)
  }

  /** Heading preservation gated on the front-left wheel alone: when the
      front-left vector has no magnitude every wheel keeps its reported
      direction, whatever its own vector; otherwise every wheel turns to its
      own vector's heading. */
  function FrontLeftGatedDirections(vectors: Quad<Vec>, previous: Quad<real>, vm: VectorMath): (r: Quad<real>)
    requires ValidMath(vm)
    ensures vectors.fl == Zero ==> r == previous
    ensures vectors.fl != Zero ==> forall p :: At(r, p) == vm.rotationDegrees(At(vectors, p))
  {
    Quad(
      if vm.magnitude(vectors.fl) > 0.0 then vm.rotationDegrees(vectors.fl) else previous.fl,
      if vm.magnitude(vectors.fl) > 0.0 then vm.rotationDegrees(vectors.fr) else previous.fr,
      if vm.magnitude(vectors.fl) > 0.0 then vm.rotationDegrees(vectors.rl) else previous.rl,
      if vm.magnitude(vectors.fl) > 0.0 then vm.rotationDegrees(vectors.rr) else previous.rr)
  }

  /** No heading preservation: each wheel turns to its own vector's heading,
      whatever that heading is for a vector with no magnitude. */
  function VectorDirections(vectors: Quad<Vec>, vm: VectorMath): (r: Quad<real>)
    ensures forall p :: At(r, p) == vm.rotationDegrees(At(vectors, p))
  {
    Quad(
      vm.rotationDegrees(vectors.fl),
      vm.rotationDegrees(vectors.fr),
      vm.rotationDegrees(vectors.rl),
      vm.rotationDegrees(vectors.rr))
  }

  /** Pairs each wheel's direction with its speed. */
  function Commands(directions: Quad<real>, speeds: Quad<real>): (r: Quad<Command>)
    ensures DirectionsOf(r) == directions && SpeedsOf(r) == speeds
  {
    Quad(
      Command(directions.fl, speeds.fl),
      Command(directions.fr, speeds.fr),
      Command(directions.rl, speeds.rl),
      Command(directions.rr, speeds.rr))
  }

  function DirectionsOf(commands: Quad<Command>): (r: Quad<real>)
    ensures forall p :: At(r, p) == At(commands, p).direction
  {
    Quad(commands.fl.direction, commands.fr.direction, commands.rl.direction, commands.rr.direction)
  }

  function SpeedsOf(commands: Quad<Command>): (r: Quad<real>)
    ensures forall p :: At(r, p) == At(commands, p).speed
  {
    Quad(commands.fl.speed, commands.fr.speed, commands.rl.speed, commands.rr.speed)
  }

  /** What the output cap guarantees about the speeds `r` it makes of `speeds`. */
  ghost predicate SpeedCap(r: Quad<real>, speeds: Quad<real>, maxOutput: real)
  {
    && (Max4(speeds) <= maxOutput ==> r == speeds)
    && (maxOutput < Max4(speeds) ==> ScaledBy(r, speeds, Max4(speeds), maxOutput))
    && Proportional(r, speeds) && KeepsTies(r, speeds)
    && (0.0 <= maxOutput ==> WithinCap(r, speeds, maxOutput) && Max4(r) == Min(Max4(speeds), maxOutput))
    && (maxOutput != 0.0 ==> SameZeros(r, speeds))
  }

  /** The speed half of the kinematics, shared by the three drive classes: the
      wheel speeds are the magnitudes of the wheel vectors, put through the
      output cap, and each is paired with the direction the class chose. */
  method CapCommands(vectors: Quad<Vec>, directions: Quad<real>, mag: Vec -> real, maxOutput: real)
      returns (commands: Quad<Command>)
    requires IsMagnitude(mag)
    requires 0.0 <= maxOutput || 0.0 < Max4(Speeds(vectors, mag))
    ensures DirectionsOf(commands) == directions
    ensures SpeedCap(SpeedsOf(commands), Speeds(vectors, mag), maxOutput)
  {
    var speeds := Normalize(Speeds(vectors, mag), maxOutput);
    commands := Commands(directions, speeds);
  }

  /** Four equal wheel vectors give four equal speeds after the cap. */
  lemma EqualVectorsEqualSpeeds(vectors: Quad<Vec>, r: Quad<real>, mag: Vec -> real, maxOutput: real)
    requires IsMagnitude(mag)
    requires vectors.fl == vectors.fr == vectors.rl == vectors.rr
    requires SpeedCap(r, Speeds(vectors, mag), maxOutput)
    ensures r.fl == r.fr == r.rl == r.rr
  {
    var speeds := Speeds(vectors, mag);
    assert At(speeds, FrontLeft) == At(speeds, FrontRight) == At(speeds, RearLeft) == At(speeds, RearRight);
    assert At(r, FrontLeft) == At(r, FrontRight) == At(r, RearLeft) == At(r, RearRight);
  }

  /** Four wheel vectors of one magnitude give four equal speeds after the cap. */
  lemma EqualMagnitudesEqualSpeeds(vectors: Quad<Vec>, r: Quad<real>, mag: Vec -> real, maxOutput: real)
    requires IsMagnitude(mag)
    requires mag(vectors.fl) == mag(vectors.fr) == mag(vectors.rl) == mag(vectors.rr)
    requires SpeedCap(r, Speeds(vectors, mag), maxOutput)
    ensures r.fl == r.fr == r.rl == r.rr
  {
    var speeds := Speeds(vectors, mag);
    assert At(speeds, FrontLeft) == At(speeds, FrontRight) == At(speeds, RearLeft) == At(speeds, RearRight);
    assert At(r, FrontLeft) == At(r, FrontRight) == At(r, RearLeft) == At(r, RearRight);
  }

  /** With no strafe, the four wheels get one common speed after the cap. */
  lemma RotationEqualSpeeds(steering: real, widthToHeightRatio: real, steerSpeed: real,
                            mag: Vec -> real, r: Quad<real>, maxOutput: real)
    requires IsMagnitude(mag)
    requires SpeedCap(r, Speeds(WheelVectors(Zero, steering, widthToHeightRatio, steerSpeed), mag), maxOutput)
    ensures r.fl == r.fr == r.rl == r.rr
  {
    PureRotation(steering, widthToHeightRatio, steerSpeed, mag);
    EqualMagnitudesEqualSpeeds(WheelVectors(Zero, steering, widthToHeightRatio, steerSpeed), r, mag, maxOutput);
  }

  /** Four zero wheel vectors give four zero speeds: nothing to cap. */
  lemma ZeroVectorsStill(vectors: Quad<Vec>, r: Quad<real>, mag: Vec -> real, maxOutput: real)
    requires IsMagnitude(mag)
    requires vectors == Quad(Zero, Zero, Zero, Zero)
    requires 0.0 <= maxOutput || 0.0 < Max4(Speeds(vectors, mag))
    requires SpeedCap(r, Speeds(vectors, mag), maxOutput)
    ensures r == Quad(0.0, 0.0, 0.0, 0.0)
  {
    var speeds := Speeds(vectors, mag);
    assert At(speeds, FrontLeft) == 0.0 && At(speeds, FrontRight) == 0.0;
    assert At(speeds, RearLeft) == 0.0 && At(speeds, RearRight) == 0.0;
    assert speeds == Quad(0.0, 0.0, 0.0, 0.0);
    Max4Attained(speeds, 0.0, FrontLeft);
  }
}
