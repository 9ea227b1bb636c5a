/** The two-dimensional vector value type the kinematics are written in: +y is
    forwards and +x is to the right of the robot. The square root behind a
    vector's magnitude and the trigonometry behind its heading are not modelled
    by formula; they are handed to the kinematics as a `VectorMath` value, and
    a magnitude is only required to have the properties of the Euclidean
    length that the kinematics rely on (`IsMagnitude`). */
module Vectors {
  import opened Numeric

  datatype Vec = Vec(x: real, y: real)

  const Zero: Vec := Vec(0.0, 0.0)

  function Add(a: Vec, b: Vec): Vec
  {
    Vec(a.x + b.x, a.y + b.y)
  }

  function Scale(v: Vec, k: real): Vec
  {
    Vec(v.x * k, v.y * k)
  }

  /** Negates the y component: mirrors a vector between the front and the rear. */
  function ReflectAcrossX(v: Vec): Vec
  {
    Vec(v.x, -v.y)
  }

  /** Negates the x component: mirrors a vector between the left and the right. */
  function ReflectAcrossY(v: Vec): Vec
  {
    Vec(-v.x, v.y)
  }

  /** The properties of the Euclidean length `sqrt(x*x + y*y)` that the drive
      code depends on: it is non-negative, it vanishes exactly on the zero
      vector, it does not see mirroring across either axis, and a vector along
      an axis is as long as its one non-zero component. */
  ghost predicate IsMagnitude(mag: Vec -> real)
  {
    && (forall v :: 0.0 <= mag(v))
    && (forall v :: mag(v) == 0.0 <==> v == Zero)
    && (forall v {:trigger mag(ReflectAcrossX(v))} :: mag(ReflectAcrossX(v)) == mag(v))
    && (forall v {:trigger mag(ReflectAcrossY(v))} :: mag(ReflectAcrossY(v)) == mag(v))
    && (forall x :: mag(Vec(x, 0.0)) == Abs(x))
    && (forall y :: mag(Vec(0.0, y)) == Abs(y))
  }

  /** The vector operations the drive code calls but whose numerics are not
      modelled: `getMagnitude`, `getRotationDegrees` (0 is forwards, clockwise
      positive) and `toRotationDegrees` (turn a vector to a given heading). */
  datatype VectorMath = VectorMath(
    magnitude: Vec -> real,
    rotationDegrees: Vec -> real,
    toRotationDegrees: (Vec, real) -> Vec)

  ghost predicate ValidMath(vm: VectorMath)
  {
    IsMagnitude(vm.magnitude)
  }

  /** Negating a vector is mirroring it across both axes, so it keeps the magnitude. */
  lemma MagnitudeNegate(mag: Vec -> real, v: Vec)
    requires IsMagnitude(mag)
    ensures mag(Scale(v, -1.0)) == mag(v)
  {
    var w := ReflectAcrossY(v);
    assert Scale(v, -1.0) == ReflectAcrossX(w);
    assert mag(ReflectAcrossX(w)) == mag(w);
    assert mag(w) == mag(v);
  }
}
