/** Time reversal of the quintic, and agreement with the earlier headers. */
module TrajectoryLaws {
  import opened RealProducts
  import opened TrajectoryTypes
  import opened Shapes
  import opened RestToRest

  // ---------- Time reversal ----------

  ghost function Poly(c0: real, c1: real, c2: real, c3: real, c4: real, c5: real, t: real): real
  {
    c0 + c1 * t + c2 * (t * t) + c3 * (t * t * t) + c4 * (t * t * t * t) + c5 * (t * t * t * t * t)
  }

  lemma QuinticAsPoly(p: Quintic, t: real)
    ensures p.Position(t) == Poly(p.a0, p.a1, p.a2, p.a3, p.a4, p.a5, t)
  {
  }

  lemma QuinticVelocityAsPoly(p: Quintic, t: real)
    ensures p.Velocity(t) == Poly(p.a1, 2.0 * p.a2, 3.0 * p.a3, 4.0 * p.a4, 5.0 * p.a5, 0.0, t)
  {
  }

  lemma QuinticAccelerationAsPoly(p: Quintic, t: real)
    ensures p.Acceleration(t) == Poly(2.0 * p.a2, 6.0 * p.a3, 12.0 * p.a4, 20.0 * p.a5, 0.0, 0.0, t)
  {
  }

  // The coefficients of t in the polynomial at T - t.
  ghost function Back0(c0: real, c1: real, c2: real, c3: real, c4: real, c5: real, T: real): real
  {
    c0 + c1 * T + c2 * (T * T) + c3 * (T * T * T) + c4 * (T * T * T * T) + c5 * (T * T * T * T * T)
  }

  ghost function Back1(c1: real, c2: real, c3: real, c4: real, c5: real, T: real): real
  {
    -(c1 + 2.0 * c2 * T + 3.0 * c3 * (T * T) + 4.0 * c4 * (T * T * T) + 5.0 * c5 * (T * T * T * T))
  }

  ghost function Back2(c2: real, c3: real, c4: real, c5: real, T: real): real
  {
    c2 + 3.0 * c3 * T + 6.0 * c4 * (T * T) + 10.0 * c5 * (T * T * T)
  }

  ghost function Back3(c3: real, c4: real, c5: real, T: real): real
  {
    -(c3 + 4.0 * c4 * T + 10.0 * c5 * (T * T))
  }

  ghost function Back4(c4: real, c5: real, T: real): real { c4 + 5.0 * c5 * T }

  /** The coefficients of `p` played backwards from T. */
  ghost function Reversed(p: Quintic, T: real): Quintic
  {
    Quintic(Back0(p.a0, p.a1, p.a2, p.a3, p.a4, p.a5, T), Back1(p.a1, p.a2, p.a3, p.a4, p.a5, T),
            Back2(p.a2, p.a3, p.a4, p.a5, T), Back3(p.a3, p.a4, p.a5, T), Back4(p.a4, p.a5, T), -p.a5)
  }

  lemma PolyBack(c0: real, c1: real, c2: real, c3: real, c4: real, c5: real, T: real, t: real)
    ensures Poly(Back0(c0, c1, c2, c3, c4, c5, T), Back1(c1, c2, c3, c4, c5, T), Back2(c2, c3, c4, c5, T),
                 Back3(c3, c4, c5, T), Back4(c4, c5, T), -c5, t)
         == Poly(c0, c1, c2, c3, c4, c5, T - t)
  {
  }

  /** Shifting commutes with differentiating, up to sign. */
  lemma BackDerivative(c1: real, c2: real, c3: real, c4: real, c5: real, T: real)
    ensures Back1(c1, c2, c3, c4, c5, T) == -Back0(c1, 2.0 * c2, 3.0 * c3, 4.0 * c4, 5.0 * c5, 0.0, T)
    ensures 2.0 * Back2(c2, c3, c4, c5, T) == -Back1(2.0 * c2, 3.0 * c3, 4.0 * c4, 5.0 * c5, 0.0, T)
    ensures 3.0 * Back3(c3, c4, c5, T) == -Back2(3.0 * c3, 4.0 * c4, 5.0 * c5, 0.0, T)
    ensures 4.0 * Back4(c4, c5, T) == -Back3(4.0 * c4, 5.0 * c5, 0.0, T)
    ensures 5.0 * c5 == Back4(5.0 * c5, 0.0, T)
  {
  }

  lemma PolyNegate(c0: real, c1: real, c2: real, c3: real, c4: real, c5: real, t: real)
    ensures Poly(-c0, -c1, -c2, -c3, -c4, -c5, t) == -Poly(c0, c1, c2, c3, c4, c5, t)
  {
  }

  lemma ReversedPosition(p: Quintic, T: real, t: real)
    ensures Reversed(p, T).Position(t) == p.Position(T - t)
  {
    hide Poly, Quintic.Position, Back0, Back1, Back2, Back3, Back4;
    QuinticAsPoly(p, T - t);
    QuinticAsPoly(Reversed(p, T), t);
    PolyBack(p.a0, p.a1, p.a2, p.a3, p.a4, p.a5, T, t);
  }

  lemma ReversedVelocity(p: Quintic, T: real, t: real)
    ensures Reversed(p, T).Velocity(t) == -p.Velocity(T - t)
  {
    hide Poly, Quintic.Velocity, Back0, Back1, Back2, Back3, Back4;
    var r := Reversed(p, T);
    QuinticVelocityAsPoly(p, T - t);
    QuinticVelocityAsPoly(r, t);
    var d1, d2, d3, d4 := 2.0 * p.a2, 3.0 * p.a3, 4.0 * p.a4, 5.0 * p.a5;
    PolyBack(p.a1, d1, d2, d3, d4, 0.0, T, t);
    BackDerivative(p.a1, p.a2, p.a3, p.a4, p.a5, T);
    var e0, e1, e2, e3, e4 := Back0(p.a1, d1, d2, d3, d4, 0.0, T), Back1(d1, d2, d3, d4, 0.0, T),
                              Back2(d2, d3, d4, 0.0, T), Back3(d3, d4, 0.0, T), Back4(d4, 0.0, T);
    PolyNegate(e0, e1, e2, e3, e4, 0.0, t);
    assert r.a1 == -e0 && 2.0 * r.a2 == -e1 && 3.0 * r.a3 == -e2 && 4.0 * r.a4 == -e3 && 5.0 * r.a5 == -e4;
  }

  lemma BackZero(T: real)
    ensures Back4(0.0, 0.0, T) == 0.0
  {
  }

  lemma ReversedAcceleration(p: Quintic, T: real, t: real)
    ensures Reversed(p, T).Acceleration(t) == p.Acceleration(T - t)
  {
    hide Poly, Quintic.Acceleration, Back0, Back1, Back2, Back3, Back4;
    var r := Reversed(p, T);
    QuinticAccelerationAsPoly(p, T - t);
    QuinticAccelerationAsPoly(r, t);
    var d1, d2, d3, d4 := 2.0 * p.a2, 3.0 * p.a3, 4.0 * p.a4, 5.0 * p.a5;
    var g1, g2, g3 := 6.0 * p.a3, 12.0 * p.a4, 20.0 * p.a5;
    PolyBack(d1, g1, g2, g3, 0.0, 0.0, T, t);
    BackDerivative(p.a1, p.a2, p.a3, p.a4, p.a5, T);
    BackDerivative(d1, d2, d3, d4, 0.0, T);
    assert 2.0 * d2 == g1 && 3.0 * d3 == g2 && 4.0 * d4 == g3;
    assert 2.0 * r.a2 == Back0(d1, g1, g2, g3, 0.0, 0.0, T);
    assert 6.0 * r.a3 == Back1(g1, g2, g3, 0.0, 0.0, T);
    assert 12.0 * r.a4 == Back2(g2, g3, 0.0, 0.0, T);
    assert 20.0 * r.a5 == Back3(g3, 0.0, 0.0, T);
    BackZero(T);
  }

  lemma ReversedMeets(p: Quintic, T: real, t: real, s: real)
    requires s == T - t
    ensures Reversed(p, T).Position(t) == p.Position(s)
    ensures Reversed(p, T).Velocity(t) == -p.Velocity(s)
    ensures Reversed(p, T).Acceleration(t) == p.Acceleration(s)
  {
    hide Reversed, Quintic.Position, Quintic.Velocity, Quintic.Acceleration;
    ReversedPosition(p, T, t);
    ReversedVelocity(p, T, t);
    ReversedAcceleration(p, T, t);
  }

  /** Playing a quintic backwards is the quintic between the exchanged ends. */
  lemma TimeReversal(q0: real, qf: real, T: real, qd0: real, qdf: real, qdd0: real, qddf: real, t: real)
    requires T != 0.0
    ensures var p := MakeQuintic(q0, qf, T, qd0, qdf, qdd0, qddf);
            var r := MakeQuintic(qf, q0, T, -qdf, -qd0, qddf, qdd0);
            && p.Position(T - t) == r.Position(t)
            && p.Velocity(T - t) == -r.Velocity(t)
            && p.Acceleration(T - t) == r.Acceleration(t)
  {
    hide MakeQuintic, Reversed, Quintic.Position, Quintic.Velocity, Quintic.Acceleration;
    var p := MakeQuintic(q0, qf, T, qd0, qdf, qdd0, qddf);
    QuinticInterpolation(p, q0, qf, T, qd0, qdf, qdd0, qddf);
    ReversedMeets(p, T, 0.0, T);
    ReversedMeets(p, T, T, 0.0);
    ReversedMeets(p, T, t, T - t);
    QuinticInterpolation(Reversed(p, T), qf, q0, T, -qdf, -qd0, qddf, qdd0);
  }

  // ---------- The earlier headers ----------

  function EarlierQuintic(q0: real, qf: real, T: real, qd0: real, qdf: real, qdd0: real, qddf: real): Quintic
    requires T != 0.0
  {
    NonZeroPowers(T, T * T, T * T * T, T * T * T * T, T * T * T * T * T);
    Quintic(q0, qd0, qdd0 / 2.0,
            (20.0 * qf - 20.0 * q0 - (8.0 * qdf + 12.0 * qd0) * T - (3.0 * qdd0 - qddf) * T * T) / (2.0 * T * T * T),
            (30.0 * q0 - 30.0 * qf + (14.0 * qdf + 16.0 * qd0) * T + (3.0 * qdd0 - 2.0 * qddf) * T * T) / (2.0 * T * T * T * T),
            (12.0 * qf - 12.0 * q0 - (6.0 * qdf + 6.0 * qd0) * T - (qdd0 - qddf) * T * T) / (2.0 * T * T * T * T * T))
  }

  function EarlierPosition(p: Quintic, t: real): real
  {
    p.a0 + p.a1 * t + p.a2 * t * t + p.a3 * t * t * t + p.a4 * t * t * t * t + p.a5 * t * t * t * t * t
  }

  function EarlierVelocity(p: Quintic, t: real): real
  {
    p.a1 + 2.0 * p.a2 * t + 3.0 * p.a3 * t * t + 4.0 * p.a4 * t * t * t + 5.0 * p.a5 * t * t * t * t
  }

  lemma EarlierEvaluation(p: Quintic, t: real)
    ensures EarlierPosition(p, t) == p.Position(t) && EarlierVelocity(p, t) == p.Velocity(t)
  {
  }

  lemma EarlierQuotients(q0: real, qf: real, T: real, qd0: real, qdf: real, qdd0: real, qddf: real)
    requires T != 0.0 && Power3(T) != 0.0 && Power4(T) != 0.0 && Power5(T) != 0.0
    ensures var p := EarlierQuintic(q0, qf, T, qd0, qdf, qdd0, qddf);
            && p.a0 == q0 && p.a1 == qd0 && p.a2 == qdd0 / 2.0
            && p.a3 == Numerator3(q0, qf, T, qd0, qdf, qdd0, qddf) / (2.0 * Power3(T))
            && p.a4 == Numerator4(q0, qf, T, qd0, qdf, qdd0, qddf) / (2.0 * Power4(T))
            && p.a5 == Numerator5(q0, qf, T, qd0, qdf, qdd0, qddf) / (2.0 * Power5(T))
  {
  }

  /** The present quintic has the coefficients and values of the earlier one. */
  lemma AgreesWithEarlier(q0: real, qf: real, T: real, qd0: real, qdf: real, qdd0: real, qddf: real, t: real)
    requires T != 0.0
    ensures var p := MakeQuintic(q0, qf, T, qd0, qdf, qdd0, qddf);
            && p == EarlierQuintic(q0, qf, T, qd0, qdf, qdd0, qddf)
            && p.Position(t) == EarlierPosition(p, t) && p.Velocity(t) == EarlierVelocity(p, t)
  {
    var p := MakeQuintic(q0, qf, T, qd0, qdf, qdd0, qddf);
    assert p.a0 == q0 && p.a1 == qd0 && p.a2 == qdd0 / 2.0;
    hide *;
    PowersNonZero(T);
    QuinticQuotients(q0, qf, T, qd0, qdf, qdd0, qddf);
    EarlierQuotients(q0, qf, T, qd0, qdf, qdd0, qddf);
    EarlierEvaluation(p, t);
  }

  /** The earlier generator clamped time from above only. */
  function EarlierPositionAt(k: Kind, q0: real, qf: real, T: real, t: real): real
    requires T != 0.0
  {
    MakeTraj(k, q0, qf, T).Position(if t < T then t else T)
  }

  function EarlierVelocityAt(k: Kind, q0: real, qf: real, T: real, t: real): real
    requires T != 0.0
  {
    MakeTraj(k, q0, qf, T).Velocity(if t < T then t else T)
  }

  lemma ShapeBeforeStart(k: Kind, u: real)
    requires u < 0.0
    ensures Shape(k, u) != 0.0
  {
    var v := -u;
    PositiveProduct(v, v, v * v);
    match k {
      case CubicKind =>
        PositiveProduct(v * v, 3.0 + 2.0 * v, v * v * (3.0 + 2.0 * v));
        assert Shape(k, u) == v * v * (3.0 + 2.0 * v);
      case QuinticKind =>
        PositiveProduct(v * v, v, v * v * v);
        var g := 10.0 + 15.0 * v + 6.0 * (v * v);
        PositiveProduct(v * v * v, g, v * v * v * g);
        assert Shape(k, u) == -(v * v * v * g);
    }
  }

  lemma RateBeforeStart(k: Kind, u: real)
    requires u < 0.0
    ensures Rate(k, u) != 0.0
  {
    var v, w := -u, 1.0 - u;
    var p := v * w;
    PositiveProduct(v, w, p);
    match k {
      case CubicKind =>
        assert Rate(k, u) == -6.0 * p;
      case QuinticKind =>
        PositiveProduct(p, p, p * p);
        assert Rate(k, u) == 30.0 * (p * p);
    }
  }

  lemma QuotientSign(t: real, T: real)
    requires T > 0.0 && t < 0.0
    ensures t / T < 0.0
  {
    Cleared(t, T);
    if t / T >= 0.0 {
      NonNegativeProduct(t / T, T, t);
    }
  }

  lemma BeforeStart(k: Kind, q0: real, qf: real, T: real, t: real)
    requires T > 0.0 && t < 0.0
    ensures MakeTraj(k, q0, qf, T).Position(t) == q0 <==> q0 == qf
    ensures MakeTraj(k, q0, qf, T).Velocity(t) == 0.0 <==> q0 == qf
  {
    hide *;
    var u := t / T;
    Cleared(t, T);
    TrajAsShape(k, q0, qf, T, u, t);
    QuotientSign(t, T);
    ShapeBeforeStart(k, u);
    RateBeforeStart(k, u);
    MulFactorZero(qf - q0, Shape(k, u));
    MulFactorZero(qf - q0, Rate(k, u));
    MulFactorZero(MakeTraj(k, q0, qf, T).Velocity(t), T);
  }

  lemma ClampAgreesForward(k: Kind, q0: real, qf: real, T: real, t: real)
    requires T > 0.0
    ensures EarlierPositionAt(k, q0, qf, T, t) == PositionAt(k, q0, qf, T, t) <==> t >= 0.0 || q0 == qf
    ensures EarlierVelocityAt(k, q0, qf, T, t) == VelocityAt(k, q0, qf, T, t) <==> t >= 0.0 || q0 == qf
  {
    hide MakeTraj, Traj.Position, Traj.Velocity, PositionAt, VelocityAt;
    if t < 0.0 {
      RestsOutside(k, q0, qf, T, t);
      BeforeStart(k, q0, qf, T, t);
    } else {
      AtUnfolded(k, q0, qf, T, t);
    }
  }

  /** Before the duration the earlier generator evaluates the polynomial itself, also at negative times. */
  lemma EarlierExtrapolates(k: Kind, q0: real, qf: real, T: real, t: real)
    requires T != 0.0 && t < T
    ensures EarlierPositionAt(k, q0, qf, T, t) == q0 + Mul(qf - q0, Shape(k, t / T))
    ensures Mul(EarlierVelocityAt(k, q0, qf, T, t), T) == Mul(qf - q0, Rate(k, t / T))
  {
    Cleared(t, T);
    TrajAsShape(k, q0, qf, T, t / T, t);
    hide MakeTraj, Traj.Position, Traj.Velocity, Shape, Rate, Mul;
  }

  // Negative durations: the earlier generator extrapolates beyond the end.

  lemma ShapePastEnd(k: Kind, u: real)
    requires u >= 1.0
    ensures Shape(k, u) == 0.0 <==> k == CubicKind && u == 1.5
  {
    PositiveProduct(u, u, u * u);
    match k {
      case CubicKind =>
        var g := 3.0 - 2.0 * u;
        assert Shape(k, u) == u * u * g;
        if g != 0.0 {
          NonZeroProduct(u * u, g, u * u * g);
        }
      case QuinticKind =>
        PositiveProduct(u * u, u, u * u * u);
        var w := u - 1.25;
        var g := 6.0 * (w * w) + 0.625;
        NonNegativeSquare(w, w * w);
        PositiveProduct(u * u * u, g, u * u * u * g);
        assert g == 10.0 - 15.0 * u + 6.0 * (u * u);
        assert Shape(k, u) == u * u * u * g;
    }
  }

  lemma RatePastEnd(k: Kind, u: real)
    requires u >= 1.0
    ensures Rate(k, u) == 0.0 <==> u == 1.0
  {
    var p := u * (1.0 - u);
    if u > 1.0 {
      PositiveProduct(u, u - 1.0, u * (u - 1.0));
      NonZeroProduct(p, p, p * p);
    }
    match k {
      case CubicKind =>
        assert Rate(k, u) == 6.0 * p;
      case QuinticKind =>
        assert Rate(k, u) == 30.0 * (p * p);
    }
  }

  lemma QuotientPastEnd(t: real, T: real)
    requires T < 0.0 && t <= T
    ensures t / T >= 1.0
    ensures t / T == 1.0 <==> t == T
    ensures t / T == 1.5 <==> t == 1.5 * T
  {
    var u := t / T;
    Cleared(t, T);
    if u < 1.0 {
      PositiveProduct(1.0 - u, -T, (1.0 - u) * -T);
    }
    if t == T { Cancel(u, 1.0, T); }
    if t == 1.5 * T { Cancel(u, 1.5, T); }
  }

  lemma MulZeroIff(x: real, y: real)
    ensures Mul(x, y) == 0.0 <==> x == 0.0 || y == 0.0
  {
    hide *;
    MulZero(x);
    if y != 0.0 {
      MulFactorZero(x, y);
    }
  }

  lemma PastEndValues(k: Kind, q0: real, qf: real, T: real, t: real)
    requires T < 0.0 && t <= T
    ensures MakeTraj(k, q0, qf, T).Position(t) == q0 <==> q0 == qf || (k == CubicKind && t == 1.5 * T)
    ensures MakeTraj(k, q0, qf, T).Velocity(t) == 0.0 <==> q0 == qf || t == T
  {
    hide *;
    var u := t / T;
    Cleared(t, T);
    TrajAsShape(k, q0, qf, T, u, t);
    QuotientPastEnd(t, T);
    ShapePastEnd(k, u);
    RatePastEnd(k, u);
    MulZeroIff(qf - q0, Shape(k, u));
    MulZeroIff(qf - q0, Rate(k, u));
    MulZeroIff(MakeTraj(k, q0, qf, T).Velocity(t), T);
  }

  lemma ClampAgreesBackward(k: Kind, q0: real, qf: real, T: real, t: real)
    requires T < 0.0
    ensures EarlierPositionAt(k, q0, qf, T, t) == PositionAt(k, q0, qf, T, t)
       <==> t >= 0.0 || q0 == qf || (k == CubicKind && t == 1.5 * T)
    ensures EarlierVelocityAt(k, q0, qf, T, t) == VelocityAt(k, q0, qf, T, t) <==> t >= T || q0 == qf
  {
    hide MakeTraj, Traj.Position, Traj.Velocity, PositionAt, VelocityAt;
    JumpsWhenNegative(k, q0, qf, T, t);
    AtEnd(k, q0, qf, T, 1.0, T);
    if t < T {
      PastEndValues(k, q0, qf, T, t);
    }
  }

  /** When one-sided clamping gives the same position as clamping from both sides. */
  ghost predicate SamePositions(k: Kind, T: real, t: real)
  {
    t >= 0.0 || (T < 0.0 && k == CubicKind && t == 1.5 * T)
  }

  ghost predicate SameVelocities(T: real, t: real)
  {
    t >= 0.0 || (T < 0.0 && t >= T)
  }

  /** One-sided clamping gives the same values if and only if there is nothing to travel or the
      time is not negative; with a negative duration also the velocities from the duration on
      agree, and the positions at the one point where the cubic passes home again. */
  lemma EarlierClampAgrees(k: Kind, q0: real, qf: real, T: real, t: real)
    requires T != 0.0
    ensures EarlierPositionAt(k, q0, qf, T, t) == PositionAt(k, q0, qf, T, t) <==> q0 == qf || SamePositions(k, T, t)
    ensures EarlierVelocityAt(k, q0, qf, T, t) == VelocityAt(k, q0, qf, T, t) <==> q0 == qf || SameVelocities(T, t)
  {
    hide EarlierPositionAt, EarlierVelocityAt, PositionAt, VelocityAt;
    if T > 0.0 {
      ClampAgreesForward(k, q0, qf, T, t);
    } else {
      ClampAgreesBackward(k, q0, qf, T, t);
    }
  }
}
