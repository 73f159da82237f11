/** Products of reals, one step at a time: the results are named so that callers
    never ask the solver about the sign of a square. */
module RealProducts {
  /** A product under a name, for statements used where its value does not matter. */
  ghost function Mul(x: real, y: real): real { x * y }

  lemma MulNegate(x: real, y: real)
    ensures Mul(-x, y) == -Mul(x, y)
  {
  }

  lemma MulZero(x: real)
    ensures Mul(0.0, x) == 0.0 && Mul(x, 0.0) == 0.0
  {
  }

  lemma MulSum(a: real, b: real, c: real, d: real, e: real, k: real)
    ensures Mul(k, a + 2.0 * b + 3.0 * c + 4.0 * d + 5.0 * e)
         == Mul(k, a) + 2.0 * Mul(k, b) + 3.0 * Mul(k, c) + 4.0 * Mul(k, d) + 5.0 * Mul(k, e)
    ensures Mul(a + 2.0 * b + 3.0 * c + 4.0 * d + 5.0 * e, k)
         == Mul(a, k) + 2.0 * Mul(b, k) + 3.0 * Mul(c, k) + 4.0 * Mul(d, k) + 5.0 * Mul(e, k)
  {
  }

  lemma MulAdd(a: real, b: real, c: real, d: real, k: real)
    ensures Mul(k, a + b + c + d) == Mul(k, a) + Mul(k, b) + Mul(k, c) + Mul(k, d)
  {
  }

  lemma MulScaled(a: real, b: real, c: real, d: real, k: real)
    ensures Mul(k, 2.0 * a) == 2.0 * Mul(k, a) && Mul(k, 6.0 * b) == 6.0 * Mul(k, b)
    ensures Mul(k, 12.0 * c) == 12.0 * Mul(k, c) && Mul(k, 20.0 * d) == 20.0 * Mul(k, d)
  {
  }

  lemma MulScaled3(a: real, b: real, c: real, k: real)
    ensures Mul(k, 3.0 * a) == 3.0 * Mul(k, a) && Mul(k, 4.0 * b) == 4.0 * Mul(k, b) && Mul(k, 5.0 * c) == 5.0 * Mul(k, c)
  {
  }

  lemma PositiveProduct(x: real, y: real, z: real)
    requires x > 0.0 && y > 0.0 && z == x * y
    ensures z > 0.0
  {
  }

  lemma NonNegativeProduct(x: real, y: real, z: real)
    requires x >= 0.0 && y >= 0.0 && z == x * y
    ensures z >= 0.0
  {
  }

  lemma NonNegativeSquare(x: real, z: real)
    requires z == x * x
    ensures z >= 0.0
  {
    if x >= 0.0 {
      NonNegativeProduct(x, x, z);
    } else {
      NonNegativeProduct(-x, -x, z);
    }
  }

  lemma NonZeroProduct(x: real, y: real, z: real)
    requires x != 0.0 && y != 0.0 && z == x * y
    ensures z != 0.0
  {
  }

  lemma NonZeroPowers(T: real, T2: real, T3: real, T4: real, T5: real)
    requires T != 0.0
    requires T2 == T * T && T3 == T2 * T && T4 == T3 * T && T5 == T4 * T
    ensures T2 != 0.0 && T3 != 0.0 && T4 != 0.0 && T5 != 0.0
  {
    NonZeroProduct(T, T, T2);
    NonZeroProduct(T2, T, T3);
    NonZeroProduct(T3, T, T4);
    NonZeroProduct(T4, T, T5);
  }

  lemma Cleared(x: real, y: real)
    requires y != 0.0
    ensures x / y * y == x
  {
  }

  lemma Cancel(x: real, y: real, z: real)
    requires z != 0.0 && x * z == y * z
    ensures x == y
  {
    assert (x - y) * z == 0.0;
    if x - y != 0.0 {
      NonZeroProduct(x - y, z, (x - y) * z);
    }
  }

  lemma HalfCleared(x: real, y: real)
    requires y != 0.0
    ensures x / (2.0 * y) * y == x / 2.0
  {
    Cleared(x, 2.0 * y);
  }

  lemma Times(x: real, y: real, k: real)
    requires x == y
    ensures x * k == y * k
  {
  }

  lemma OrderedProducts(x: real, y: real, k: real)
    requires x <= y && 0.0 <= k
    ensures x * k <= y * k
  {
    NonNegativeProduct(y - x, k, (y - x) * k);
    assert (y - x) * k == y * k - x * k;
  }
}

/** The two polynomial joint trajectories.  `double` is modelled by `real`. */
module TrajectoryTypes {
  import opened RealProducts

  datatype Cubic = Cubic(a0: real, a1: real, a2: real, a3: real) {

    function Position(t: real): real
    {
      a0 + a1 * t + a2 * t * t + a3 * t * t * t
    }

    function Velocity(t: real): real
    {
      a1 + 2.0 * a2 * t + 3.0 * a3 * t * t
    }
  }

  datatype Quintic = Quintic(a0: real, a1: real, a2: real, a3: real, a4: real, a5: real) {

    function Position(t: real): real
    {
      var t2 := t * t;
      var t3 := t2 * t;
      var t4 := t3 * t;
      var t5 := t4 * t;
      a0 + a1 * t + a2 * t2 + a3 * t3 + a4 * t4 + a5 * t5
    }

    function Velocity(t: real): real
    {
      var t2 := t * t;
      var t3 := t2 * t;
      var t4 := t3 * t;
      a1 + 2.0 * a2 * t + 3.0 * a3 * t2 + 4.0 * a4 * t3 + 5.0 * a5 * t4
    }

    /** The program evaluates no acceleration; its constructor takes one for both ends. */
    function Acceleration(t: real): real
    {
      var t2 := t * t;
      var t3 := t2 * t;
      2.0 * a2 + 6.0 * a3 * t + 12.0 * a4 * t2 + 20.0 * a5 * t3
    }
  }

  function MakeCubic(q0: real, qf: real, T: real, qd0: real := 0.0, qdf: real := 0.0): Cubic
    requires T != 0.0
  {
    NonZeroPowers(T, T * T, T * T * T, T * T * T * T, T * T * T * T * T);
    Cubic(q0, qd0,
          3.0 * (qf - q0) / (T * T) - 2.0 * qd0 / T - qdf / T,
          -2.0 * (qf - q0) / (T * T * T) + (qd0 + qdf) / (T * T))
  }

  function MakeQuintic(q0: real, qf: real, T: real,
                       qd0: real := 0.0, qdf: real := 0.0,
                       qdd0: real := 0.0, qddf: real := 0.0): Quintic
    requires T != 0.0
  {
    var T2 := T * T;
    var T3 := T2 * T;
    var T4 := T3 * T;
    var T5 := T4 * T;
    NonZeroPowers(T, T2, T3, T4, T5);
    var dq := qf - q0;
    Quintic(q0, qd0, qdd0 / 2.0,
            (20.0 * dq - (8.0 * qdf + 12.0 * qd0) * T - (3.0 * qdd0 - qddf) * T2) / (2.0 * T3),
            (30.0 * q0 - 30.0 * qf + (14.0 * qdf + 16.0 * qd0) * T + (3.0 * qdd0 - 2.0 * qddf) * T2) / (2.0 * T4),
            (12.0 * dq - (6.0 * qdf + 6.0 * qd0) * T - (qdd0 - qddf) * T2) / (2.0 * T5))
  }

  // ---------- Boundary conditions ----------

  ghost predicate CubicMeets(c: Cubic, q0: real, qf: real, T: real, qd0: real, qdf: real)
  {
    && c.Position(0.0) == q0
    && c.Velocity(0.0) == qd0
    && c.Position(T) == qf
    && c.Velocity(T) == qdf
  }

  ghost predicate QuinticMeets(p: Quintic, q0: real, qf: real, T: real,
                               qd0: real, qdf: real, qdd0: real, qddf: real)
  {
    && p.Position(0.0) == q0
    && p.Velocity(0.0) == qd0
    && p.Acceleration(0.0) == qdd0
    && p.Position(T) == qf
    && p.Velocity(T) == qdf
    && p.Acceleration(T) == qddf
  }

  // ---------- Terms ----------

  // The terms a t^k, under names: the lemmas below combine them linearly.
  ghost function Term1(a: real, t: real): real { a * t }
  ghost function Term2(a: real, t: real): real { a * (t * t) }
  ghost function Term3(a: real, t: real): real { a * (t * t * t) }
  ghost function Term4(a: real, t: real): real { a * (t * t * t * t) }
  ghost function Term5(a: real, t: real): real { a * (t * t * t * t * t) }

  lemma QuinticPositionTerms(p: Quintic, t: real)
    ensures p.Position(t)
         == p.a0 + Term1(p.a1, t) + Term2(p.a2, t) + Term3(p.a3, t) + Term4(p.a4, t) + Term5(p.a5, t)
  {
  }

  lemma QuinticVelocityTerms(p: Quintic, t: real)
    ensures Term1(p.Velocity(t), t)
         == Term1(p.a1, t) + 2.0 * Term2(p.a2, t) + 3.0 * Term3(p.a3, t) + 4.0 * Term4(p.a4, t) + 5.0 * Term5(p.a5, t)
  {
  }

  lemma QuinticAccelerationTerms(p: Quintic, t: real)
    ensures Term2(p.Acceleration(t), t)
         == 2.0 * Term2(p.a2, t) + 6.0 * Term3(p.a3, t) + 12.0 * Term4(p.a4, t) + 20.0 * Term5(p.a5, t)
  {
  }

  lemma CubicPositionTerms(c: Cubic, t: real)
    ensures c.Position(t) == c.a0 + Term1(c.a1, t) + Term2(c.a2, t) + Term3(c.a3, t)
  {
  }

  lemma CubicVelocityTerms(c: Cubic, t: real)
    ensures Term1(c.Velocity(t), t) == Term1(c.a1, t) + 2.0 * Term2(c.a2, t) + 3.0 * Term3(c.a3, t)
  {
  }

  // ---------- The constructed coefficients, divisions cleared ----------

  ghost function Power2(t: real): real { t * t }
  ghost function Power3(t: real): real { t * t * t }
  ghost function Power4(t: real): real { t * t * t * t }
  ghost function Power5(t: real): real { t * t * t * t * t }

  lemma PowersNonZero(t: real)
    requires t != 0.0
    ensures Power2(t) != 0.0 && Power3(t) != 0.0 && Power4(t) != 0.0 && Power5(t) != 0.0
  {
    NonZeroPowers(t, t * t, t * t * t, t * t * t * t, t * t * t * t * t);
  }

  lemma TermsArePowers(a: real, t: real)
    ensures Term2(a, t) == a * Power2(t)
    ensures Term3(a, t) == a * Power3(t)
    ensures Term4(a, t) == a * Power4(t)
    ensures Term5(a, t) == a * Power5(t)
  {
  }

  lemma Term1Sums(a: real, b: real, t: real)
    ensures 2.0 * a * t == 2.0 * Term1(a, t)
    ensures b * t == Term1(b, t)
    ensures (a + b) * t == Term1(a, t) + Term1(b, t)
  {
  }

  lemma TermsCancel(a: real, b: real, t: real)
    requires t != 0.0
    ensures Term1(a, t) == Term1(b, t) ==> a == b
    ensures Term2(a, t) == Term2(b, t) ==> a == b
    ensures Term3(a, t) == Term3(b, t) ==> a == b
    ensures Term4(a, t) == Term4(b, t) ==> a == b
    ensures Term5(a, t) == Term5(b, t) ==> a == b
  {
    Term1Sums(a, a, t);
    Term1Sums(b, b, t);
    hide *;
    PowersNonZero(t);
    TermsArePowers(a, t);
    TermsArePowers(b, t);
    if Term1(a, t) == Term1(b, t) { Cancel(a, b, t); }
    if Term2(a, t) == Term2(b, t) { Cancel(a, b, Power2(t)); }
    if Term3(a, t) == Term3(b, t) { Cancel(a, b, Power3(t)); }
    if Term4(a, t) == Term4(b, t) { Cancel(a, b, Power4(t)); }
    if Term5(a, t) == Term5(b, t) { Cancel(a, b, Power5(t)); }
  }

  /** The numerators of a3, a4 and a5. */
  ghost function Numerator3(q0: real, qf: real, T: real, qd0: real, qdf: real, qdd0: real, qddf: real): real
  {
    20.0 * (qf - q0) - (8.0 * qdf + 12.0 * qd0) * T - (3.0 * qdd0 - qddf) * (T * T)
  }

  ghost function Numerator4(q0: real, qf: real, T: real, qd0: real, qdf: real, qdd0: real, qddf: real): real
  {
    30.0 * q0 - 30.0 * qf + (14.0 * qdf + 16.0 * qd0) * T + (3.0 * qdd0 - 2.0 * qddf) * (T * T)
  }

  ghost function Numerator5(q0: real, qf: real, T: real, qd0: real, qdf: real, qdd0: real, qddf: real): real
  {
    12.0 * (qf - q0) - (6.0 * qdf + 6.0 * qd0) * T - (qdd0 - qddf) * (T * T)
  }

  lemma NumeratorTerms(q0: real, qf: real, T: real, qd0: real, qdf: real, qdd0: real, qddf: real)
    ensures Numerator3(q0, qf, T, qd0, qdf, qdd0, qddf)
         == 20.0 * (qf - q0) - 8.0 * Term1(qdf, T) - 12.0 * Term1(qd0, T) - 3.0 * Term2(qdd0, T) + Term2(qddf, T)
    ensures Numerator4(q0, qf, T, qd0, qdf, qdd0, qddf)
         == 30.0 * (q0 - qf) + 14.0 * Term1(qdf, T) + 16.0 * Term1(qd0, T) + 3.0 * Term2(qdd0, T) - 2.0 * Term2(qddf, T)
    ensures Numerator5(q0, qf, T, qd0, qdf, qdd0, qddf)
         == 12.0 * (qf - q0) - 6.0 * Term1(qdf, T) - 6.0 * Term1(qd0, T) - Term2(qdd0, T) + Term2(qddf, T)
  {
  }

  lemma QuinticQuotients(q0: real, qf: real, T: real, qd0: real, qdf: real, qdd0: real, qddf: real)
    requires T != 0.0 && Power3(T) != 0.0 && Power4(T) != 0.0 && Power5(T) != 0.0
    ensures var p := MakeQuintic(q0, qf, T, qd0, qdf, qdd0, qddf);
            && p.a3 == Numerator3(q0, qf, T, qd0, qdf, qdd0, qddf) / (2.0 * Power3(T))
            && p.a4 == Numerator4(q0, qf, T, qd0, qdf, qdd0, qddf) / (2.0 * Power4(T))
            && p.a5 == Numerator5(q0, qf, T, qd0, qdf, qdd0, qddf) / (2.0 * Power5(T))
  {
  }

  lemma QuinticCleared(q0: real, qf: real, T: real, qd0: real, qdf: real, qdd0: real, qddf: real)
    requires T != 0.0
    ensures var p := MakeQuintic(q0, qf, T, qd0, qdf, qdd0, qddf);
            && 2.0 * Term3(p.a3, T)
               == 20.0 * (qf - q0) - 8.0 * Term1(qdf, T) - 12.0 * Term1(qd0, T) - 3.0 * Term2(qdd0, T) + Term2(qddf, T)
            && 2.0 * Term4(p.a4, T)
               == 30.0 * (q0 - qf) + 14.0 * Term1(qdf, T) + 16.0 * Term1(qd0, T) + 3.0 * Term2(qdd0, T) - 2.0 * Term2(qddf, T)
            && 2.0 * Term5(p.a5, T)
               == 12.0 * (qf - q0) - 6.0 * Term1(qdf, T) - 6.0 * Term1(qd0, T) - Term2(qdd0, T) + Term2(qddf, T)
  {
    hide *;
    var p := MakeQuintic(q0, qf, T, qd0, qdf, qdd0, qddf);
    PowersNonZero(T);
    QuinticQuotients(q0, qf, T, qd0, qdf, qdd0, qddf);
    NumeratorTerms(q0, qf, T, qd0, qdf, qdd0, qddf);
    TermsArePowers(p.a3, T);
    TermsArePowers(p.a4, T);
    TermsArePowers(p.a5, T);
    HalfCleared(Numerator3(q0, qf, T, qd0, qdf, qdd0, qddf), Power3(T));
    HalfCleared(Numerator4(q0, qf, T, qd0, qdf, qdd0, qddf), Power4(T));
    HalfCleared(Numerator5(q0, qf, T, qd0, qdf, qdd0, qddf), Power5(T));
  }

  lemma CubicQuotients(q0: real, qf: real, T: real, qd0: real, qdf: real)
    requires T != 0.0 && Power2(T) != 0.0 && Power3(T) != 0.0
    ensures var c := MakeCubic(q0, qf, T, qd0, qdf);
            && c.a2 == 3.0 * (qf - q0) / Power2(T) - 2.0 * qd0 / T - qdf / T
            && c.a3 == -2.0 * (qf - q0) / Power3(T) + (qd0 + qdf) / Power2(T)
  {
  }

  lemma DifferenceCleared(x: real, y: real, z: real, T: real, T2: real, a: real)
    requires T != 0.0 && T2 != 0.0 && T2 == T * T
    requires a == x / T2 - y / T - z / T
    ensures a * T2 == x - y * T - z * T
  {
    var A, B, C := x / T2, y / T, z / T;
    Cleared(x, T2);
    Cleared(y, T);
    Cleared(z, T);
    assert B * T2 == B * T * T;
    assert C * T2 == C * T * T;
  }

  lemma SumCleared(x: real, y: real, T: real, T2: real, T3: real, a: real)
    requires T2 != 0.0 && T3 != 0.0 && T3 == T2 * T
    requires a == x / T3 + y / T2
    ensures a * T3 == x + y * T
  {
    var A, B := x / T3, y / T2;
    Cleared(x, T3);
    Cleared(y, T2);
    assert B * T3 == B * T2 * T;
  }

  lemma PowersStep(t: real)
    ensures Power2(t) == t * t && Power3(t) == Power2(t) * t
  {
  }

  lemma Term2Double(a: real, b: real, t: real)
    requires 2.0 * a == b
    ensures 2.0 * Term2(a, t) == Term2(b, t)
  {
  }

  lemma CubicCleared(q0: real, qf: real, T: real, qd0: real, qdf: real)
    requires T != 0.0
    ensures var c := MakeCubic(q0, qf, T, qd0, qdf);
            && Term2(c.a2, T) == 3.0 * (qf - q0) - 2.0 * Term1(qd0, T) - Term1(qdf, T)
            && Term3(c.a3, T) == -2.0 * (qf - q0) + Term1(qd0, T) + Term1(qdf, T)
  {
    var c := MakeCubic(q0, qf, T, qd0, qdf);
    hide *;
    Term1Sums(qd0, qdf, T);
    PowersNonZero(T);
    PowersStep(T);
    CubicQuotients(q0, qf, T, qd0, qdf);
    TermsArePowers(c.a2, T);
    TermsArePowers(c.a3, T);
    DifferenceCleared(3.0 * (qf - q0), 2.0 * qd0, qdf, T, Power2(T), c.a2);
    SumCleared(-2.0 * (qf - q0), qd0 + qdf, T, Power2(T), Power3(T), c.a3);
  }

  // ---------- Interpolation ----------

  lemma CubicMeetsEnd(q0: real, qf: real, T: real, qd0: real, qdf: real)
    requires T != 0.0
    ensures var c := MakeCubic(q0, qf, T, qd0, qdf);
            c.Position(T) == qf && c.Velocity(T) == qdf
  {
    var c := MakeCubic(q0, qf, T, qd0, qdf);
    assert c.a0 == q0 && c.a1 == qd0;
    hide *;
    CubicCleared(q0, qf, T, qd0, qdf);
    CubicPositionTerms(c, T);
    CubicVelocityTerms(c, T);
    TermsCancel(c.Velocity(T), qdf, T);
  }

  lemma QuinticMeetsEnd(q0: real, qf: real, T: real, qd0: real, qdf: real, qdd0: real, qddf: real)
    requires T != 0.0
    ensures var p := MakeQuintic(q0, qf, T, qd0, qdf, qdd0, qddf);
            p.Position(T) == qf && p.Velocity(T) == qdf && p.Acceleration(T) == qddf
  {
    var p := MakeQuintic(q0, qf, T, qd0, qdf, qdd0, qddf);
    assert p.a0 == q0 && p.a1 == qd0 && 2.0 * p.a2 == qdd0;
    hide *;
    Term2Double(p.a2, qdd0, T);
    QuinticCleared(q0, qf, T, qd0, qdf, qdd0, qddf);
    QuinticPositionTerms(p, T);
    QuinticVelocityTerms(p, T);
    QuinticAccelerationTerms(p, T);
    TermsCancel(p.Velocity(T), qdf, T);
    TermsCancel(p.Acceleration(T), qddf, T);
  }

  /** Two quintics that agree at 0 and have the same three values at T are the same. */
  lemma QuinticDetermined(p: Quintic, m: Quintic, T: real)
    requires T != 0.0
    requires p.a0 == m.a0 && p.a1 == m.a1 && p.a2 == m.a2
    requires p.Position(T) == m.Position(T) && p.Velocity(T) == m.Velocity(T) && p.Acceleration(T) == m.Acceleration(T)
    ensures p == m
  {
    hide *;
    QuinticPositionTerms(p, T);
    QuinticVelocityTerms(p, T);
    QuinticAccelerationTerms(p, T);
    QuinticPositionTerms(m, T);
    QuinticVelocityTerms(m, T);
    QuinticAccelerationTerms(m, T);
    TermsCancel(p.a3, m.a3, T);
    TermsCancel(p.a4, m.a4, T);
    TermsCancel(p.a5, m.a5, T);
  }

  lemma CubicDetermined(c: Cubic, d: Cubic, T: real)
    requires T != 0.0
    requires c.a0 == d.a0 && c.a1 == d.a1
    requires c.Position(T) == d.Position(T) && c.Velocity(T) == d.Velocity(T)
    ensures c == d
  {
    hide *;
    CubicPositionTerms(c, T);
    CubicVelocityTerms(c, T);
    CubicPositionTerms(d, T);
    CubicVelocityTerms(d, T);
    TermsCancel(c.a2, d.a2, T);
    TermsCancel(c.a3, d.a3, T);
  }

  lemma QuinticAtZero(p: Quintic)
    ensures p.Position(0.0) == p.a0 && p.Velocity(0.0) == p.a1 && p.Acceleration(0.0) == 2.0 * p.a2
  {
  }

  lemma CubicAtZero(c: Cubic)
    ensures c.Position(0.0) == c.a0 && c.Velocity(0.0) == c.a1
  {
  }

  /** A cubic meets the four end conditions if and only if it is the constructed one. */
  lemma CubicInterpolation(c: Cubic, q0: real, qf: real, T: real, qd0: real, qdf: real)
    requires T != 0.0
    ensures CubicMeets(c, q0, qf, T, qd0, qdf) <==> c == MakeCubic(q0, qf, T, qd0, qdf)
  {
    var d := MakeCubic(q0, qf, T, qd0, qdf);
    assert d.a0 == q0 && d.a1 == qd0;
    hide MakeCubic, Cubic.Position, Cubic.Velocity;
    CubicAtZero(c);
    CubicAtZero(d);
    CubicMeetsEnd(q0, qf, T, qd0, qdf);
    if CubicMeets(c, q0, qf, T, qd0, qdf) {
      CubicDetermined(c, d, T);
    }
  }

  /** A quintic meets the six end conditions if and only if it is the constructed one. */
  lemma QuinticInterpolation(p: Quintic, q0: real, qf: real, T: real,
                             qd0: real, qdf: real, qdd0: real, qddf: real)
    requires T != 0.0
    ensures QuinticMeets(p, q0, qf, T, qd0, qdf, qdd0, qddf)
       <==> p == MakeQuintic(q0, qf, T, qd0, qdf, qdd0, qddf)
  {
    var m := MakeQuintic(q0, qf, T, qd0, qdf, qdd0, qddf);
    assert m.a0 == q0 && m.a1 == qd0 && 2.0 * m.a2 == qdd0;
    hide MakeQuintic, Quintic.Position, Quintic.Velocity, Quintic.Acceleration;
    QuinticAtZero(p);
    QuinticAtZero(m);
    QuinticMeetsEnd(q0, qf, T, qd0, qdf, qdd0, qddf);
    if QuinticMeets(p, q0, qf, T, qd0, qdf, qdd0, qddf) {
      QuinticDetermined(p, m, T);
    }
  }

  // ---------- Velocity and acceleration are derivatives ----------

  // Remainders of the tangents at a: polynomials, so bounded on every bounded interval.
  ghost function Bend3(c: real, a: real, b: real): real { c * (b + 2.0 * a) }

  ghost function Bend4(c: real, a: real, b: real): real { c * (b * b + 2.0 * (a * b) + 3.0 * (a * a)) }

  ghost function Bend5(c: real, a: real, b: real): real
  {
    c * (b * b * b + 2.0 * (a * b * b) + 3.0 * (a * a * b) + 4.0 * (a * a * a))
  }

  ghost function CubicPositionBend(c: Cubic, a: real, b: real): real
  {
    c.a2 + Bend3(c.a3, a, b)
  }

  ghost function QuinticPositionBend(p: Quintic, a: real, b: real): real
  {
    p.a2 + Bend3(p.a3, a, b) + Bend4(p.a4, a, b) + Bend5(p.a5, a, b)
  }

  ghost function QuinticVelocityBend(p: Quintic, a: real, b: real): real
  {
    3.0 * p.a3 + 4.0 * Bend3(p.a4, a, b) + 5.0 * Bend4(p.a5, a, b)
  }

  // The tangent of each term.

  lemma Tangent1(c: real, a: real, b: real)
    ensures Term1(c, b) == Term1(c, a) + Mul(b - a, c)
  {
  }

  lemma Tangent2(c: real, a: real, b: real)
    ensures Term2(c, b) == Term2(c, a) + 2.0 * Mul(b - a, Term1(c, a)) + Mul((b - a) * (b - a), c)
  {
  }

  lemma Tangent3(c: real, a: real, b: real)
    ensures Term3(c, b) == Term3(c, a) + 3.0 * Mul(b - a, Term2(c, a)) + Mul((b - a) * (b - a), Bend3(c, a, b))
  {
  }

  lemma Tangent4(c: real, a: real, b: real)
    ensures Term4(c, b) == Term4(c, a) + 4.0 * Mul(b - a, Term3(c, a)) + Mul((b - a) * (b - a), Bend4(c, a, b))
  {
  }

  lemma Tangent5(c: real, a: real, b: real)
    ensures Term5(c, b) == Term5(c, a) + 5.0 * Mul(b - a, Term4(c, a)) + Mul((b - a) * (b - a), Bend5(c, a, b))
  {
  }

  lemma CubicVelocityIs(c: Cubic, t: real)
    ensures c.Velocity(t) == c.a1 + 2.0 * Term1(c.a2, t) + 3.0 * Term2(c.a3, t)
  {
  }

  lemma QuinticVelocityIs(p: Quintic, t: real)
    ensures p.Velocity(t)
         == p.a1 + 2.0 * Term1(p.a2, t) + 3.0 * Term2(p.a3, t) + 4.0 * Term3(p.a4, t) + 5.0 * Term4(p.a5, t)
  {
  }

  lemma QuinticAccelerationIs(p: Quintic, t: real)
    ensures p.Acceleration(t) == 2.0 * p.a2 + 6.0 * Term1(p.a3, t) + 12.0 * Term2(p.a4, t) + 20.0 * Term3(p.a5, t)
  {
  }

  lemma QuinticBendIs(p: Quintic, a: real, b: real)
    ensures QuinticPositionBend(p, a, b) == p.a2 + Bend3(p.a3, a, b) + Bend4(p.a4, a, b) + Bend5(p.a5, a, b)
    ensures QuinticVelocityBend(p, a, b) == 3.0 * p.a3 + 4.0 * Bend3(p.a4, a, b) + 5.0 * Bend4(p.a5, a, b)
  {
    hide Bend3, Bend4, Bend5;
  }

  lemma CubicBendIs(c: Cubic, a: real, b: real)
    ensures CubicPositionBend(c, a, b) == c.a2 + Bend3(c.a3, a, b)
  {
    hide Bend3;
  }

  /** For any coefficients, velocity is the derivative of position. */
  lemma CubicVelocityIsDerivative(c: Cubic, a: real, b: real)
    ensures c.Position(b)
         == c.Position(a) + Mul(b - a, c.Velocity(a)) + Mul((b - a) * (b - a), CubicPositionBend(c, a, b))
  {
    hide *;
    CubicPositionTerms(c, a);
    CubicPositionTerms(c, b);
    CubicVelocityIs(c, a);
    CubicBendIs(c, a, b);
    Tangent1(c.a1, a, b);
    Tangent2(c.a2, a, b);
    Tangent3(c.a3, a, b);
    MulSum(c.a1, Term1(c.a2, a), Term2(c.a3, a), 0.0, 0.0, b - a);
    MulAdd(c.a2, Bend3(c.a3, a, b), 0.0, 0.0, (b - a) * (b - a));
    MulZero(b - a);
    MulZero((b - a) * (b - a));
  }

  lemma QuinticVelocityIsDerivative(p: Quintic, a: real, b: real)
    ensures p.Position(b)
         == p.Position(a) + Mul(b - a, p.Velocity(a)) + Mul((b - a) * (b - a), QuinticPositionBend(p, a, b))
  {
    hide *;
    QuinticPositionTerms(p, a);
    QuinticPositionTerms(p, b);
    QuinticVelocityIs(p, a);
    QuinticBendIs(p, a, b);
    Tangent1(p.a1, a, b);
    Tangent2(p.a2, a, b);
    Tangent3(p.a3, a, b);
    Tangent4(p.a4, a, b);
    Tangent5(p.a5, a, b);
    MulSum(p.a1, Term1(p.a2, a), Term2(p.a3, a), Term3(p.a4, a), Term4(p.a5, a), b - a);
    MulAdd(p.a2, Bend3(p.a3, a, b), Bend4(p.a4, a, b), Bend5(p.a5, a, b), (b - a) * (b - a));
  }

  /** And acceleration that of velocity. */
  lemma QuinticAccelerationIsDerivative(p: Quintic, a: real, b: real)
    ensures p.Velocity(b)
         == p.Velocity(a) + Mul(b - a, p.Acceleration(a)) + Mul((b - a) * (b - a), QuinticVelocityBend(p, a, b))
  {
    hide *;
    QuinticVelocityIs(p, a);
    QuinticVelocityIs(p, b);
    QuinticAccelerationIs(p, a);
    QuinticBendIs(p, a, b);
    Tangent1(p.a2, a, b);
    Tangent2(p.a3, a, b);
    Tangent3(p.a4, a, b);
    Tangent4(p.a5, a, b);
    MulAdd(2.0 * p.a2, 6.0 * Term1(p.a3, a), 12.0 * Term2(p.a4, a), 20.0 * Term3(p.a5, a), b - a);
    MulScaled(p.a2, Term1(p.a3, a), Term2(p.a4, a), Term3(p.a5, a), b - a);
    MulAdd(3.0 * p.a3, 4.0 * Bend3(p.a4, a, b), 5.0 * Bend4(p.a5, a, b), 0.0, (b - a) * (b - a));
    MulScaled3(p.a3, Bend3(p.a4, a, b), Bend4(p.a5, a, b), (b - a) * (b - a));
    MulZero((b - a) * (b - a));
  }
}
