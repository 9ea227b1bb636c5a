/** The input deadband the three drive classes compute with the same
    formula: an input whose absolute value is below the deadband becomes 0,
    and the rest of [-1, 1] is stretched linearly so that the deadband edge
    maps to 0 and the ends of the range stay where they are. */
module Deadband {
  import opened Numeric

  /** The source divides by `1 - deadband` only when the input is outside the
      band, so a deadband of exactly 1 is harmless for inputs inside it. */
  ghost predicate Defined(value: real, deadband: real)
  {
    Abs(value) < deadband || deadband != 1.0
  }

  /** A deadband the drive code can be configured with sensibly. */
  predicate ValidDeadband(deadband: real)
  {
    0.0 <= deadband < 1.0
  }

  /** The width `1 - deadband` of the live part of [0, 1], by which the
      input outside the band is stretched back to full scale. */
  function Span(deadband: real): real
  {
    1.0 - deadband
  }

  function AccountForDeadband(value: real, deadband: real): (r: real)
    requires Defined(value, deadband)
    ensures Abs(value) < deadband ==> r == 0.0
    ensures ValidDeadband(deadband) ==> (r == 0.0 <==> Abs(value) <= deadband)
    ensures ValidDeadband(deadband) ==> (0.0 < r <==> deadband < value)
    ensures ValidDeadband(deadband) ==> (r < 0.0 <==> value < -deadband)
  {
    if Abs(value) < deadband then 0.0
    else
      var shifted := value + (if value > 0.0 then -deadband else deadband);
      assert ValidDeadband(deadband) ==>
          (0.0 < shifted / Span(deadband) <==> 0.0 < shifted)
          && (shifted / Span(deadband) < 0.0 <==> shifted < 0.0) by {
        if ValidDeadband(deadband) {
          DivFacts(shifted, Span(deadband));
        }
      }
      shifted / Span(deadband)
  }

  /** Undoes the stretch: the input outside the band that the deadband maps to `t`
      (0 for 0). */
  function RestoreDeadband(t: real, deadband: real): real
  {
    if t > 0.0 then t * Span(deadband) + deadband
    else if t < 0.0 then t * Span(deadband) - deadband
    else 0.0
  }

  /** A positive (negative) value is restored to an input above (below) the band,
      and a value of at most 1 to an input of at most 1. */
  lemma RestoreBounds(t: real, deadband: real)
    requires ValidDeadband(deadband)
    ensures t > 0.0 ==> RestoreDeadband(t, deadband) > deadband
    ensures t < 0.0 ==> RestoreDeadband(t, deadband) < -deadband
    ensures t <= 1.0 ==> RestoreDeadband(t, deadband) <= 1.0
  {
    if t > 0.0 {
      RestorePositive(t, deadband);
    } else if t < 0.0 {
      MulNegative(t, Span(deadband));
    }
  }

  lemma RestorePositive(t: real, deadband: real)
    requires ValidDeadband(deadband)
    requires 0.0 < t
    ensures deadband < t * Span(deadband) + deadband
    ensures t <= 1.0 ==> t * Span(deadband) + deadband <= 1.0
  {
    MulPositive(t, Span(deadband));
    if t <= 1.0 {
      MulAtMost(t, Span(deadband));
    }
  }

  /** Every output value is reached: the deadband followed by its inverse is the identity. */
  lemma DeadbandOfRestore(t: real, deadband: real)
    requires ValidDeadband(deadband)
    ensures AccountForDeadband(RestoreDeadband(t, deadband), deadband) == t
  {
    RestoreBounds(t, deadband);
    if t > 0.0 {
      DivUnique(t * Span(deadband) + deadband - deadband, Span(deadband), t);
    } else if t < 0.0 {
      DivUnique(t * Span(deadband) - deadband + deadband, Span(deadband), t);
    }
  }

  /** Outside the band the stretch is invertible: restoring its output gives the input back. */
  lemma RestoreOfDeadband(v: real, deadband: real)
    requires ValidDeadband(deadband)
    requires Abs(v) > deadband
    ensures RestoreDeadband(AccountForDeadband(v, deadband), deadband) == v
  {
    if v > 0.0 {
      DivFacts(v - deadband, Span(deadband));
    } else {
      DivFacts(v + deadband, Span(deadband));
    }
  }

  /** The full-scale inputs are fixpoints, and so is 0. */
  lemma DeadbandFixpoints(deadband: real)
    requires ValidDeadband(deadband)
    ensures AccountForDeadband(1.0, deadband) == 1.0
    ensures AccountForDeadband(-1.0, deadband) == -1.0
    ensures AccountForDeadband(0.0, deadband) == 0.0
  {
    DivUnique(1.0 - deadband, Span(deadband), 1.0);
    DivUnique(-1.0 + deadband, Span(deadband), -1.0);
  }

  /** The deadband is odd: it treats forwards and backwards input alike. */
  lemma DeadbandOdd(v: real, deadband: real)
    requires ValidDeadband(deadband)
    ensures AccountForDeadband(-v, deadband) == -AccountForDeadband(v, deadband)
  {
    if deadband <= Abs(v) && v != 0.0 {
      var n := if v > 0.0 then v - deadband else v + deadband;
      DivFacts(n, Span(deadband));
      DivUnique(-n, Span(deadband), -(n / Span(deadband)));
    }
  }

  /** The deadband never reverses the order of two inputs. */
  lemma DeadbandMonotone(a: real, b: real, deadband: real)
    requires ValidDeadband(deadband)
    requires a <= b
    ensures AccountForDeadband(a, deadband) <= AccountForDeadband(b, deadband)
  {
    if deadband <= Abs(a) && deadband <= Abs(b) {
      if 0.0 < a {
        DivMonotone(a - deadband, b - deadband, Span(deadband));
      } else if b <= 0.0 {
        DivMonotone(a + deadband, b + deadband, Span(deadband));
      }
    }
  }

  /** [-1, 1] is mapped into [-1, 1], and [deadband, 1] into [0, 1]. */
  lemma DeadbandRange(v: real, deadband: real)
    requires ValidDeadband(deadband)
    requires -1.0 <= v <= 1.0
    ensures -1.0 <= AccountForDeadband(v, deadband) <= 1.0
    ensures deadband <= v ==> 0.0 <= AccountForDeadband(v, deadband)
  {
    DeadbandFixpoints(deadband);
    DeadbandMonotone(v, 1.0, deadband);
    DeadbandMonotone(-1.0, v, deadband);
  }

  /** Each value in [0, 1] is the deadbanded image of an input in [deadband, 1]:
      0 is the image of the band edge, the rest the image of its restored input. */
  lemma DeadbandOnto(t: real, deadband: real)
    requires ValidDeadband(deadband)
    requires 0.0 <= t <= 1.0
    ensures exists v :: deadband <= v <= 1.0 && AccountForDeadband(v, deadband) == t
  {
    if t == 0.0 {
      assert AccountForDeadband(deadband, deadband) == t;
    } else {
      DeadbandOfRestore(t, deadband);
      RestoreBounds(t, deadband);
    }
  }
}
