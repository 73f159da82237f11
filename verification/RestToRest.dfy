/** Motions that start and end at rest, evaluated with time clamped to [0, T]. */
module RestToRest {
  import opened RealProducts
  import opened TrajectoryTypes
  import opened Shapes

  datatype Traj = CubicTraj(cubic: Cubic) | QuinticTraj(quintic: Quintic) {

    function Position(t: real): real
    {
      match this
      case CubicTraj(c) => c.Position(t)
      case QuinticTraj(p) => p.Position(t)
    }

    function Velocity(t: real): real
    {
      match this
      case CubicTraj(c) => c.Velocity(t)
      case QuinticTraj(p) => p.Velocity(t)
    }
  }

  function MakeTraj(k: Kind, q0: real, qf: real, T: real): Traj
    requires T != 0.0
  {
    match k
    case CubicKind => CubicTraj(MakeCubic(q0, qf, T))
    case QuinticKind => QuinticTraj(MakeQuintic(q0, qf, T))
  }

  function Clamp(v: real, lo: real, hi: real): real
  {
    if v < lo then lo else if v > hi then hi else v
  }

  /** Position and velocity at any time, as the generator reports them. */
  function PositionAt(k: Kind, q0: real, qf: real, T: real, t: real): real
    requires T != 0.0
  {
    MakeTraj(k, q0, qf, T).Position(Clamp(t, 0.0, T))
  }

  function VelocityAt(k: Kind, q0: real, qf: real, T: real, t: real): real
    requires T != 0.0
  {
    MakeTraj(k, q0, qf, T).Velocity(Clamp(t, 0.0, T))
  }

  // ---------- Scaling to the unit shapes ----------

  lemma TermsAtScaledTime(a: real, u: real, T: real)
    ensures Term1(a, u * T) == Mul(Term1(a, T), u)
    ensures Term2(a, u * T) == Mul(Term2(a, T), Power2(u))
    ensures Term3(a, u * T) == Mul(Term3(a, T), Power3(u))
    ensures Term4(a, u * T) == Mul(Term4(a, T), Power4(u))
    ensures Term5(a, u * T) == Mul(Term5(a, T), Power5(u))
  {
  }

  lemma Term0(t: real)
    ensures Term1(0.0, t) == 0.0 && Term2(0.0, t) == 0.0
  {
  }

  lemma QuinticShapePowers(dq: real, u: real)
    ensures Mul(10.0 * dq, Power3(u)) + Mul(-15.0 * dq, Power4(u)) + Mul(6.0 * dq, Power5(u)) == Mul(dq, QuinticShape(u))
    ensures 3.0 * Mul(10.0 * dq, Power2(u)) + 4.0 * Mul(-15.0 * dq, Power3(u)) + 5.0 * Mul(6.0 * dq, Power4(u)) == Mul(dq, QuinticRate(u))
  {
  }

  lemma CubicShapePowers(dq: real, u: real)
    ensures Mul(3.0 * dq, Power2(u)) + Mul(-2.0 * dq, Power3(u)) == Mul(dq, CubicShape(u))
    ensures 2.0 * Mul(3.0 * dq, u) + 3.0 * Mul(-2.0 * dq, Power2(u)) == Mul(dq, CubicRate(u))
  {
  }

  /** The scaled coefficients of a rest-to-rest quintic are 10, -15 and 6 times the travel. */
  lemma QuinticRestCoefficients(q0: real, qf: real, T: real)
    requires T != 0.0
    ensures var p := MakeQuintic(q0, qf, T);
            && p.a0 == q0 && p.a1 == 0.0 && p.a2 == 0.0
            && Term3(p.a3, T) == 10.0 * (qf - q0)
            && Term4(p.a4, T) == -15.0 * (qf - q0)
            && Term5(p.a5, T) == 6.0 * (qf - q0)
  {
    var p := MakeQuintic(q0, qf, T);
    assert p.a0 == q0 && p.a1 == 0.0 && p.a2 == 0.0;
    hide *;
    QuinticCleared(q0, qf, T, 0.0, 0.0, 0.0, 0.0);
    Term0(T);
  }

  lemma CubicRestCoefficients(q0: real, qf: real, T: real)
    requires T != 0.0
    ensures var c := MakeCubic(q0, qf, T);
            && c.a0 == q0 && c.a1 == 0.0
            && Term2(c.a2, T) == 3.0 * (qf - q0)
            && Term3(c.a3, T) == -2.0 * (qf - q0)
  {
    var c := MakeCubic(q0, qf, T);
    assert c.a0 == q0 && c.a1 == 0.0;
    hide *;
    CubicCleared(q0, qf, T, 0.0, 0.0);
    Term0(T);
  }

  lemma QuinticAsShape(q0: real, qf: real, T: real, u: real)
    requires T != 0.0
    ensures MakeQuintic(q0, qf, T).Position(u * T) == q0 + Mul(qf - q0, QuinticShape(u))
  {
    hide *;
    var p := MakeQuintic(q0, qf, T);
    QuinticRestCoefficients(q0, qf, T);
    QuinticPositionTerms(p, u * T);
    Term0(u * T);
    TermsAtScaledTime(p.a3, u, T);
    TermsAtScaledTime(p.a4, u, T);
    TermsAtScaledTime(p.a5, u, T);
    QuinticShapePowers(qf - q0, u);
  }

  lemma CubicAsShape(q0: real, qf: real, T: real, u: real)
    requires T != 0.0
    ensures MakeCubic(q0, qf, T).Position(u * T) == q0 + Mul(qf - q0, CubicShape(u))
  {
    hide *;
    var c := MakeCubic(q0, qf, T);
    CubicRestCoefficients(q0, qf, T);
    CubicPositionTerms(c, u * T);
    Term0(u * T);
    TermsAtScaledTime(c.a2, u, T);
    TermsAtScaledTime(c.a3, u, T);
    CubicShapePowers(qf - q0, u);
  }

  // The velocity at u T, times T, in terms of the scaled coefficients.

  lemma TermUp1(a: real, T: real, x: real)
    ensures Mul(a, T) == Term1(a, T)
    ensures Mul(Mul(Term1(a, T), x), T) == Mul(Term2(a, T), x)
  {
  }

  lemma TermUp2(a: real, T: real, x: real)
    ensures Mul(Mul(Term2(a, T), x), T) == Mul(Term3(a, T), x)
  {
  }

  lemma TermUp3(a: real, T: real, x: real)
    ensures Mul(Mul(Term3(a, T), x), T) == Mul(Term4(a, T), x)
  {
  }

  lemma TermUp4(a: real, T: real, x: real)
    ensures Mul(Mul(Term4(a, T), x), T) == Mul(Term5(a, T), x)
  {
  }

  lemma QuinticVelocityScaled(p: Quintic, u: real, T: real)
    ensures Mul(p.Velocity(u * T), T)
         == Term1(p.a1, T) + 2.0 * Mul(Term2(p.a2, T), u) + 3.0 * Mul(Term3(p.a3, T), Power2(u))
            + 4.0 * Mul(Term4(p.a4, T), Power3(u)) + 5.0 * Mul(Term5(p.a5, T), Power4(u))
  {
    hide *;
    var t := u * T;
    QuinticVelocityIs(p, t);
    TermsAtScaledTime(p.a2, u, T);
    TermsAtScaledTime(p.a3, u, T);
    TermsAtScaledTime(p.a4, u, T);
    TermsAtScaledTime(p.a5, u, T);
    MulSum(p.a1, Term1(p.a2, t), Term2(p.a3, t), Term3(p.a4, t), Term4(p.a5, t), T);
    TermUp1(p.a1, T, u);
    TermUp1(p.a2, T, u);
    TermUp2(p.a3, T, Power2(u));
    TermUp3(p.a4, T, Power3(u));
    TermUp4(p.a5, T, Power4(u));
  }

  lemma CubicVelocityScaled(c: Cubic, u: real, T: real)
    ensures Mul(c.Velocity(u * T), T)
         == Term1(c.a1, T) + 2.0 * Mul(Term2(c.a2, T), u) + 3.0 * Mul(Term3(c.a3, T), Power2(u))
  {
    hide *;
    var t := u * T;
    CubicVelocityIs(c, t);
    TermsAtScaledTime(c.a2, u, T);
    TermsAtScaledTime(c.a3, u, T);
    MulSum(c.a1, Term1(c.a2, t), Term2(c.a3, t), 0.0, 0.0, T);
    MulZero(T);
    TermUp1(c.a1, T, u);
    TermUp1(c.a2, T, u);
    TermUp2(c.a3, T, Power2(u));
  }

  lemma QuinticAsRate(q0: real, qf: real, T: real, u: real)
    requires T != 0.0
    ensures Mul(MakeQuintic(q0, qf, T).Velocity(u * T), T) == Mul(qf - q0, QuinticRate(u))
  {
    hide *;
    var p := MakeQuintic(q0, qf, T);
    QuinticRestCoefficients(q0, qf, T);
    QuinticVelocityScaled(p, u, T);
    Term0(T);
    MulZero(u);
    QuinticShapePowers(qf - q0, u);
  }

  lemma CubicAsRate(q0: real, qf: real, T: real, u: real)
    requires T != 0.0
    ensures Mul(MakeCubic(q0, qf, T).Velocity(u * T), T) == Mul(qf - q0, CubicRate(u))
  {
    hide *;
    var c := MakeCubic(q0, qf, T);
    CubicRestCoefficients(q0, qf, T);
    CubicVelocityScaled(c, u, T);
    Term0(T);
    CubicShapePowers(qf - q0, u);
  }

  lemma TrajAsShape(k: Kind, q0: real, qf: real, T: real, u: real, t: real)
    requires T != 0.0 && t == u * T
    ensures MakeTraj(k, q0, qf, T).Position(t) == q0 + Mul(qf - q0, Shape(k, u))
    ensures Mul(MakeTraj(k, q0, qf, T).Velocity(t), T) == Mul(qf - q0, Rate(k, u))
  {
    hide MakeCubic, MakeQuintic, Quintic.Position, Quintic.Velocity, Cubic.Position, Cubic.Velocity, Mul,
         CubicShape, CubicRate, QuinticShape, QuinticRate;
    match k {
      case CubicKind =>
        CubicAsShape(q0, qf, T, u);
        CubicAsRate(q0, qf, T, u);
      case QuinticKind =>
        QuinticAsShape(q0, qf, T, u);
        QuinticAsRate(q0, qf, T, u);
    }
  }

  /** Clamping time to [0, T] is clamping t / T to [0, 1]. */
  lemma ClampScaled(t: real, T: real)
    requires T > 0.0
    ensures Clamp(t, 0.0, T) == Clamp01(t / T) * T
  {
    var u := t / T;
    Cleared(t, T);
    if u < 0.0 {
      PositiveProduct(-u, T, -u * T);
    } else if u > 1.0 {
      PositiveProduct(u - 1.0, T, (u - 1.0) * T);
    } else {
      NonNegativeProduct(u, T, u * T);
      NonNegativeProduct(1.0 - u, T, (1.0 - u) * T);
    }
  }

  lemma AtUnfolded(k: Kind, q0: real, qf: real, T: real, t: real)
    requires T != 0.0
    ensures PositionAt(k, q0, qf, T, t) == MakeTraj(k, q0, qf, T).Position(Clamp(t, 0.0, T))
    ensures VelocityAt(k, q0, qf, T, t) == MakeTraj(k, q0, qf, T).Velocity(Clamp(t, 0.0, T))
  {
    hide MakeTraj, Traj.Position, Traj.Velocity, Clamp;
  }

  lemma ProfileUnfolded(k: Kind, u: real)
    ensures Profile(k, u) == Shape(k, Clamp01(u)) && ProfileRate(k, u) == Rate(k, Clamp01(u))
  {
    hide Shape, Rate, Clamp01;
  }

  /** At every time the generator follows the unit profile. */
  lemma AtAsProfile(k: Kind, q0: real, qf: real, T: real, t: real)
    requires T > 0.0
    ensures PositionAt(k, q0, qf, T, t) == q0 + Mul(qf - q0, Profile(k, t / T))
    ensures Mul(VelocityAt(k, q0, qf, T, t), T) == Mul(qf - q0, ProfileRate(k, t / T))
  {
    hide *;
    AtUnfolded(k, q0, qf, T, t);
    ProfileUnfolded(k, t / T);
    ClampScaled(t, T);
    TrajAsShape(k, q0, qf, T, Clamp01(t / T), Clamp(t, 0.0, T));
  }

  lemma ProfileWithin(k: Kind, t: real, T: real, u: real)
    requires 0.0 <= t <= T && T > 0.0 && u == t / T
    ensures Profile(k, u) == Shape(k, u) && ProfileRate(k, u) == Rate(k, u)
  {
    Cleared(t, T);
    hide Shape, Rate;
    if u < 0.0 {
      PositiveProduct(-u, T, -u * T);
    }
    if u > 1.0 {
      PositiveProduct(u - 1.0, T, (u - 1.0) * T);
    }
  }

  /** During the motion the quintic reports the polynomial 10 u^3 - 15 u^4 + 6 u^5 of u = t / T,
      scaled by the travel, and as velocity its derivative. */
  lemma QuinticFormula(q0: real, qf: real, T: real, t: real, u: real)
    requires 0.0 <= t <= T && T > 0.0 && u == t / T
    ensures PositionAt(QuinticKind, q0, qf, T, t)
         == q0 + Mul(qf - q0, 10.0 * (u * u * u) - 15.0 * (u * u * u * u) + 6.0 * (u * u * u * u * u))
    ensures Mul(VelocityAt(QuinticKind, q0, qf, T, t), T)
         == Mul(qf - q0, 30.0 * (u * u) - 60.0 * (u * u * u) + 30.0 * (u * u * u * u))
  {
    assert Shape(QuinticKind, u) == 10.0 * (u * u * u) - 15.0 * (u * u * u * u) + 6.0 * (u * u * u * u * u);
    assert Rate(QuinticKind, u) == 30.0 * (u * u) - 60.0 * (u * u * u) + 30.0 * (u * u * u * u);
    hide *;
    AtAsProfile(QuinticKind, q0, qf, T, t);
    ProfileWithin(QuinticKind, t, T, u);
  }

  // ---------- Rest at both ends ----------

  lemma ProfileOutside(k: Kind, u: real)
    ensures u <= 0.0 ==> Profile(k, u) == 0.0 && ProfileRate(k, u) == 0.0
    ensures u >= 1.0 ==> Profile(k, u) == 1.0 && ProfileRate(k, u) == 0.0
  {
    Ends(k);
    hide Shape, Rate;
  }

  lemma QuotientOrder(t: real, T: real)
    requires T > 0.0
    ensures t <= 0.0 <==> t / T <= 0.0
    ensures t >= T <==> t / T >= 1.0
  {
    var u := t / T;
    Cleared(t, T);
    if u > 0.0 { PositiveProduct(u, T, t); }
    if u <= 0.0 { NonNegativeProduct(-u, T, -t); }
    if u >= 1.0 { NonNegativeProduct(u - 1.0, T, t - T); }
    if u < 1.0 { PositiveProduct(1.0 - u, T, T - t); }
  }

  lemma MulOne(x: real)
    ensures Mul(x, 1.0) == x
  {
  }

  lemma MulFactorZero(x: real, y: real)
    requires y != 0.0
    ensures Mul(x, y) == 0.0 <==> x == 0.0
  {
    if x != 0.0 {
      NonZeroProduct(x, y, x * y);
    }
  }

  /** Up to 0 the joint rests at home, from T on at the goal. */
  lemma RestsOutside(k: Kind, q0: real, qf: real, T: real, t: real)
    requires T > 0.0
    ensures t <= 0.0 ==> PositionAt(k, q0, qf, T, t) == q0 && VelocityAt(k, q0, qf, T, t) == 0.0
    ensures t >= T ==> PositionAt(k, q0, qf, T, t) == qf && VelocityAt(k, q0, qf, T, t) == 0.0
  {
    hide *;
    AtAsProfile(k, q0, qf, T, t);
    QuotientOrder(t, T);
    ProfileOutside(k, t / T);
    MulZero(qf - q0);
    MulOne(qf - q0);
    MulFactorZero(VelocityAt(k, q0, qf, T, t), T);
  }

  // ---------- Monotone approach ----------

  lemma MulBetweenPositive(d: real, a: real, b: real)
    requires 0.0 <= d && 0.0 <= a <= b <= 1.0
    ensures 0.0 <= Mul(d, a) <= Mul(d, b) <= d
  {
    NonNegativeProduct(d, a, d * a);
    NonNegativeProduct(d, b - a, d * (b - a));
    NonNegativeProduct(d, 1.0 - b, d * (1.0 - b));
    assert d * (b - a) == d * b - d * a;
    assert d * (1.0 - b) == d - d * b;
  }

  lemma MulBetween(d: real, a: real, b: real)
    requires 0.0 <= a <= b <= 1.0
    ensures d >= 0.0 ==> 0.0 <= Mul(d, a) <= Mul(d, b) <= d
    ensures d <= 0.0 ==> 0.0 >= Mul(d, a) >= Mul(d, b) >= d
  {
    if d >= 0.0 {
      MulBetweenPositive(d, a, b);
    }
    if d <= 0.0 {
      MulBetweenPositive(-d, a, b);
      MulNegate(d, a);
      MulNegate(d, b);
    }
  }

  lemma QuotientMonotone(s: real, t: real, T: real)
    requires T > 0.0 && s <= t
    ensures s / T <= t / T
    ensures s < t ==> s / T < t / T
  {
    Cleared(s, T);
    Cleared(t, T);
    var a, b := s / T, t / T;
    if a > b {
      PositiveProduct(a - b, T, s - t);
    }
    if a == b {
      Times(a, b, T);
    }
  }

  lemma MovesForward(k: Kind, q0: real, qf: real, T: real, s: real, t: real)
    requires T > 0.0 && s <= t
    ensures q0 <= qf ==> q0 <= PositionAt(k, q0, qf, T, s) <= PositionAt(k, q0, qf, T, t) <= qf
    ensures q0 >= qf ==> q0 >= PositionAt(k, q0, qf, T, s) >= PositionAt(k, q0, qf, T, t) >= qf
  {
    hide *;
    AtAsProfile(k, q0, qf, T, s);
    AtAsProfile(k, q0, qf, T, t);
    QuotientMonotone(s, t, T);
    ProfileBounds(k, s / T, t / T);
    MulBetween(qf - q0, Profile(k, s / T), Profile(k, t / T));
  }

  lemma AtEnd(k: Kind, q0: real, qf: real, T: real, u: real, t: real)
    requires T != 0.0 && ((u == 0.0 && t == 0.0) || (u == 1.0 && t == T))
    ensures MakeTraj(k, q0, qf, T).Position(t) == if u == 0.0 then q0 else qf
    ensures MakeTraj(k, q0, qf, T).Velocity(t) == 0.0
  {
    assert t == u * T;
    hide *;
    TrajAsShape(k, q0, qf, T, u, t);
    Ends(k);
    MulZero(qf - q0);
    MulOne(qf - q0);
    MulFactorZero(MakeTraj(k, q0, qf, T).Velocity(t), T);
  }

  /** With a negative duration the joint jumps from home to goal at time 0. */
  lemma JumpsWhenNegative(k: Kind, q0: real, qf: real, T: real, t: real)
    requires T < 0.0
    ensures PositionAt(k, q0, qf, T, t) == if t < 0.0 then q0 else qf
    ensures VelocityAt(k, q0, qf, T, t) == 0.0
  {
    assert Clamp(t, 0.0, T) == if t < 0.0 then 0.0 else T;
    hide *;
    AtUnfolded(k, q0, qf, T, t);
    AtEnd(k, q0, qf, T, 0.0, 0.0);
    AtEnd(k, q0, qf, T, 1.0, T);
  }

  /** The joint moves from home to goal without ever turning back or overshooting. */
  lemma MovesMonotonically(k: Kind, q0: real, qf: real, T: real, s: real, t: real)
    requires T != 0.0 && s <= t
    ensures q0 <= qf ==> q0 <= PositionAt(k, q0, qf, T, s) <= PositionAt(k, q0, qf, T, t) <= qf
    ensures q0 >= qf ==> q0 >= PositionAt(k, q0, qf, T, s) >= PositionAt(k, q0, qf, T, t) >= qf
  {
    hide *;
    if T > 0.0 {
      MovesForward(k, q0, qf, T, s, t);
    } else {
      JumpsWhenNegative(k, q0, qf, T, s);
      JumpsWhenNegative(k, q0, qf, T, t);
    }
  }

  lemma MulStrict(d: real, a: real, b: real)
    requires a < b
    ensures d > 0.0 ==> Mul(d, a) < Mul(d, b)
    ensures d < 0.0 ==> Mul(d, a) > Mul(d, b)
  {
    if d > 0.0 {
      PositiveProduct(d, b - a, d * (b - a));
      assert d * (b - a) == d * b - d * a;
    } else if d < 0.0 {
      PositiveProduct(-d, b - a, -d * (b - a));
      assert -d * (b - a) == d * a - d * b;
    }
  }

  lemma ProfileStrict(k: Kind, a: real, b: real)
    requires 0.0 <= a < b <= 1.0
    ensures Profile(k, a) < Profile(k, b)
  {
    StrictlyIncreasing(k, a, b);
    hide Shape;
  }

  /** During the motion it never stands still. */
  lemma MovesStrictly(k: Kind, q0: real, qf: real, T: real, s: real, t: real)
    requires 0.0 <= s < t <= T
    ensures q0 < qf ==> PositionAt(k, q0, qf, T, s) < PositionAt(k, q0, qf, T, t)
    ensures q0 > qf ==> PositionAt(k, q0, qf, T, s) > PositionAt(k, q0, qf, T, t)
  {
    hide *;
    AtAsProfile(k, q0, qf, T, s);
    AtAsProfile(k, q0, qf, T, t);
    QuotientMonotone(s, t, T);
    QuotientMonotone(0.0, s, T);
    QuotientMonotone(t, T, T);
    QuotientOrder(0.0, T);
    QuotientOrder(T, T);
    assert T / T == 1.0 && 0.0 / T == 0.0;
    ProfileStrict(k, s / T, t / T);
    MulStrict(qf - q0, Profile(k, s / T), Profile(k, t / T));
  }

  /** The goal is reached at T and not before. */
  lemma ArrivesAtT(k: Kind, q0: real, qf: real, T: real, t: real)
    requires T != 0.0
    ensures PositionAt(k, q0, qf, T, t) == qf <==> q0 == qf || (t >= 0.0 && t >= T)
    ensures t >= 0.0 && t >= T ==> VelocityAt(k, q0, qf, T, t) == 0.0
  {
    hide *;
    if T < 0.0 {
      JumpsWhenNegative(k, q0, qf, T, t);
    } else {
      MovesForward(k, q0, qf, T, t, t);
      RestsOutside(k, q0, qf, T, t);
      RestsOutside(k, q0, qf, T, T);
      if 0.0 <= t < T {
        MovesStrictly(k, q0, qf, T, t, T);
      }
    }
  }

  // ---------- Speed ----------

  ghost function AbsDiff(x: real, y: real): real { if x < y then y - x else x - y }

  /** The largest speed of the motion. */
  ghost function MaxSpeed(k: Kind, q0: real, qf: real, T: real): real
    requires T != 0.0
  {
    Peak(k) * AbsDiff(q0, qf) / T
  }

  lemma SpeedScale(d: real, e: real, p: real, T: real, x: real, y: real, m: real, s: real, t: real)
    requires T > 0.0 && d >= 0.0 && 0.0 <= e <= p * (y - x)
    requires m == p * d / T && s == x * T && t == y * T
    ensures Mul(d, e) <= Mul(m, t - s)
  {
    Cleared(p * d, T);
    NonNegativeProduct(d, p * (y - x) - e, d * (p * (y - x) - e));
    assert d * (p * (y - x) - e) == p * d * (y - x) - d * e;
    assert m * (t - s) == m * T * (y - x);
    Times(m * T, p * d, y - x);
  }

  lemma MulDifference(d: real, a: real, b: real)
    requires a <= b
    ensures AbsDiff(Mul(d, a), Mul(d, b)) == Mul(AbsDiff(0.0, d), b - a)
  {
    if d >= 0.0 {
      NonNegativeProduct(d, b - a, d * (b - a));
      assert d * (b - a) == d * b - d * a;
    } else {
      NonNegativeProduct(-d, b - a, -d * (b - a));
      assert -d * (b - a) == d * a - d * b;
    }
  }

  lemma AbsDiffShift(q: real, x: real, y: real)
    ensures AbsDiff(q + x, q + y) == AbsDiff(x, y) == AbsDiff(0.0, y - x) && AbsDiff(x, y) >= 0.0
  {
  }

  lemma MaxSpeedIs(k: Kind, q0: real, qf: real, T: real)
    requires T != 0.0
    ensures MaxSpeed(k, q0, qf, T) == Peak(k) * AbsDiff(q0, qf) / T
  {
  }

  lemma SpeedLimitedMul(k: Kind, q0: real, qf: real, T: real, s: real, t: real)
    requires T > 0.0 && s <= t
    ensures AbsDiff(PositionAt(k, q0, qf, T, s), PositionAt(k, q0, qf, T, t)) <= Mul(MaxSpeed(k, q0, qf, T), t - s)
  {
    hide *;
    AtAsProfile(k, q0, qf, T, s);
    AtAsProfile(k, q0, qf, T, t);
    QuotientMonotone(s, t, T);
    var x, y := s / T, t / T;
    var a, b, d, e := Profile(k, x), Profile(k, y), qf - q0, AbsDiff(q0, qf);
    ProfileBounds(k, x, y);
    AbsDiffShift(q0, Mul(d, a), Mul(d, b));
    AbsDiffShift(0.0, q0, qf);
    MulDifference(d, a, b);
    MaxSpeedIs(k, q0, qf, T);
    Cleared(s, T);
    Cleared(t, T);
    SpeedScale(e, b - a, Peak(k), T, x, y, MaxSpeed(k, q0, qf, T), s, t);
  }

  /** Between any two times the joint moves at most the largest speed times their distance. */
  lemma SpeedLimited(k: Kind, q0: real, qf: real, T: real, s: real, t: real)
    requires T > 0.0 && s <= t
    ensures AbsDiff(PositionAt(k, q0, qf, T, s), PositionAt(k, q0, qf, T, t)) <= MaxSpeed(k, q0, qf, T) * (t - s)
  {
    SpeedLimitedMul(k, q0, qf, T, s, t);
    hide PositionAt, MaxSpeed, AbsDiff;
  }

  lemma SpeedLimitedFor(k: Kind, q0: real, qf: real, T: real, s: real, t: real, dt: real)
    requires T > 0.0 && s <= t && dt == t - s
    ensures AbsDiff(PositionAt(k, q0, qf, T, s), PositionAt(k, q0, qf, T, t)) <= Mul(MaxSpeed(k, q0, qf, T), dt)
  {
    hide *;
    SpeedLimitedMul(k, q0, qf, T, s, t);
  }

  lemma QuotientBound(v: real, w: real, T: real)
    requires T > 0.0
    ensures v * T <= w <==> v <= w / T
    ensures v * T == w <==> v == w / T
  {
    var m := w / T;
    Cleared(w, T);
    assert (v - m) * T == v * T - m * T;
    if v * T <= w && v > m {
      PositiveProduct(v - m, T, (v - m) * T);
    }
    if v <= m {
      OrderedProducts(v, m, T);
    }
    if v * T == w {
      Cancel(v, m, T);
    }
    if v == m {
      Times(v, m, T);
    }
  }

  lemma ProductBetween(d: real, r: real, p: real, w: real)
    requires d >= 0.0 && 0.0 <= r <= p && w == p * d
    ensures 0.0 <= Mul(d, r) <= w
    ensures d > 0.0 ==> (Mul(d, r) == w <==> r == p)
  {
    NonNegativeProduct(d, r, d * r);
    NonNegativeProduct(d, p - r, d * (p - r));
    assert d * (p - r) == w - d * r;
    if d > 0.0 && r < p {
      PositiveProduct(d, p - r, d * (p - r));
    }
  }

  lemma NonNegativeFactor(v: real, T: real)
    requires T > 0.0 && 0.0 <= Mul(v, T)
    ensures v >= 0.0
  {
    if v < 0.0 {
      PositiveProduct(-v, T, -v * T);
    }
  }

  lemma MaxSpeedUp(k: Kind, q0: real, qf: real, T: real, w: real)
    requires T != 0.0 && q0 <= qf && w == Peak(k) * (qf - q0)
    ensures MaxSpeed(k, q0, qf, T) == w / T
  {
    hide Peak;
  }

  lemma VelocityUp(k: Kind, q0: real, qf: real, T: real, v: real, r: real)
    requires T > 0.0 && q0 <= qf && Mul(v, T) == Mul(qf - q0, r) && 0.0 <= r <= Peak(k)
    ensures 0.0 <= v <= MaxSpeed(k, q0, qf, T)
    ensures q0 < qf ==> (v == MaxSpeed(k, q0, qf, T) <==> r == Peak(k))
  {
    assert Mul(v, T) == v * T;
    hide *;
    var w := Peak(k) * (qf - q0);
    MaxSpeedUp(k, q0, qf, T, w);
    ProductBetween(qf - q0, r, Peak(k), w);
    QuotientBound(v, w, T);
    NonNegativeFactor(v, T);
  }

  lemma HalfTime(t: real, T: real)
    requires T > 0.0
    ensures t / T == 0.5 <==> t == 0.5 * T
  {
    Cleared(t, T);
    var u := t / T;
    if u == 0.5 { Times(u, 0.5, T); }
    if t == 0.5 * T { Cancel(u, 0.5, T); }
  }

  lemma ProfileRatePeak(k: Kind, u: real)
    ensures 0.0 <= ProfileRate(k, u) <= Peak(k)
    ensures ProfileRate(k, u) == Peak(k) <==> u == 0.5
  {
    RateBounds(k, Clamp01(u));
    Ends(k);
    hide Rate, Shape;
  }

  lemma MaxSpeedSymmetric(k: Kind, q0: real, qf: real, T: real)
    requires T != 0.0
    ensures MaxSpeed(k, q0, qf, T) == MaxSpeed(k, qf, q0, T)
  {
  }

  /** The reported velocity points to the goal, its size is at most `MaxSpeed`, and it has
      that size exactly half-way. */
  lemma VelocityLimited(k: Kind, q0: real, qf: real, T: real, t: real)
    requires T > 0.0
    ensures q0 <= qf ==> 0.0 <= VelocityAt(k, q0, qf, T, t) <= MaxSpeed(k, q0, qf, T)
    ensures q0 >= qf ==> 0.0 >= VelocityAt(k, q0, qf, T, t) >= -MaxSpeed(k, q0, qf, T)
    ensures q0 != qf ==> (AbsDiff(0.0, VelocityAt(k, q0, qf, T, t)) == MaxSpeed(k, q0, qf, T) <==> t == 0.5 * T)
  {
    hide PositionAt, VelocityAt, Profile, ProfileRate, Peak, Mul, MaxSpeed;
    AtAsProfile(k, q0, qf, T, t);
    ProfileRatePeak(k, t / T);
    HalfTime(t, T);
    var v, r := VelocityAt(k, q0, qf, T, t), ProfileRate(k, t / T);
    if q0 <= qf {
      VelocityUp(k, q0, qf, T, v, r);
    }
    if q0 >= qf {
      MulNegate(qf - q0, r);
      MulNegate(v, T);
      assert -(qf - q0) == q0 - qf;
      VelocityUp(k, qf, q0, T, -v, r);
      MaxSpeedSymmetric(k, q0, qf, T);
    }
  }

  // ---------- Continuous differentiability ----------

  /** Bound on the tangent's error per squared time step. */
  ghost function ErrorRate(q0: real, qf: real, T: real): real
    requires T != 0.0
  {
    3.0 * AbsDiff(q0, qf) / T / T
  }

  lemma MulDefect(d: real, a: real, b: real, c: real, e: real)
    requires e == a - b - c
    ensures Mul(d, e) == Mul(d, a) - Mul(d, b) - Mul(d, c)
  {
  }

  lemma MulSwap(d: real, x: real, r: real, v: real, T: real, h: real)
    requires Mul(v, T) == Mul(d, r) && h == x * T
    ensures Mul(d, Mul(x, r)) == h * v
  {
    assert Mul(d, Mul(x, r)) == x * (d * r);
    assert x * (v * T) == x * T * v;
  }

  lemma ScaledUp(d: real, e: real, r: real)
    requires d >= 0.0 && Within(e, r)
    ensures Within(Mul(d, e), Mul(d, r))
  {
    NonNegativeProduct(d, r - e, d * (r - e));
    NonNegativeProduct(d, r + e, d * (r + e));
    assert d * (r - e) == d * r - d * e && d * (r + e) == d * r + d * e;
  }

  lemma MulFlip(h: real, x: real)
    ensures Mul(h, x) == Mul(-h, -x)
  {
  }

  lemma WithinScaled(d: real, e: real, r: real)
    requires Within(e, r)
    ensures Within(Mul(d, e), Mul(AbsDiff(0.0, d), r))
  {
    MulFlip(d, e);
    hide Mul;
    if d >= 0.0 {
      ScaledUp(d, e, r);
    } else {
      ScaledUp(-d, -e, r);
    }
  }

  lemma SquareScale(d: real, x: real, h: real, T: real, c: real)
    requires T > 0.0 && h == x * T && c == 3.0 * d / T / T
    ensures Mul(d, 3.0 * Sq(x)) == c * Sq(h)
  {
    Cleared(3.0 * d, T);
    Cleared(3.0 * d / T, T);
    var e := 3.0 * d / T;
    assert c * Sq(h) == (c * T) * T * (x * x);
    assert (c * T) * T * (x * x) == e * T * (x * x) by { Times(c * T, e, T * (x * x)); }
    assert e * T * (x * x) == 3.0 * d * (x * x) by { Times(e * T, 3.0 * d, x * x); }
  }

  lemma ErrorScale(q0: real, qf: real, T: real, x: real, h: real)
    requires T > 0.0 && h == x * T
    ensures Mul(AbsDiff(0.0, qf - q0), 3.0 * Sq(x)) == ErrorRate(q0, qf, T) * Sq(h)
  {
    assert AbsDiff(0.0, qf - q0) == AbsDiff(q0, qf);
    SquareScale(AbsDiff(q0, qf), x, h, T, ErrorRate(q0, qf, T));
  }

  lemma QuotientStep(t: real, h: real, T: real, s: real)
    requires T != 0.0 && s == t + h
    ensures (s / T - t / T) * T == h
  {
    Cleared(t, T);
    Cleared(s, T);
  }

  lemma DefectUnfolded(k: Kind, a: real, b: real)
    ensures Defect(k, a, b) == Profile(k, b) - Profile(k, a) - Mul(b - a, ProfileRate(k, a))
  {
    hide Profile, ProfileRate, Mul;
  }

  /** At every time, the seams at 0 and T included, the reported velocity is the derivative
      of the reported position, with an error at most quadratic in the time step h. */
  lemma VelocityIsDerivative(k: Kind, q0: real, qf: real, T: real, t: real, h: real, s: real)
    requires T > 0.0 && s == t + h
    ensures Within(PositionAt(k, q0, qf, T, s) - PositionAt(k, q0, qf, T, t) - h * VelocityAt(k, q0, qf, T, t),
                   ErrorRate(q0, qf, T) * Sq(h))
  {
    hide PositionAt, VelocityAt, Profile, ProfileRate, Mul, Sq, Defect, ErrorRate, AbsDiff;
    var d, a, b := qf - q0, t / T, s / T;
    var x, r, v, e := b - a, ProfileRate(k, a), VelocityAt(k, q0, qf, T, t), Defect(k, a, b);
    AtAsProfile(k, q0, qf, T, t);
    AtAsProfile(k, q0, qf, T, s);
    QuotientStep(t, h, T, s);
    DefectBound(k, a, b);
    DefectUnfolded(k, a, b);
    MulDefect(d, Profile(k, b), Profile(k, a), Mul(x, r), e);
    MulSwap(d, x, r, v, T, h);
    assert Mul(d, e) == PositionAt(k, q0, qf, T, s) - PositionAt(k, q0, qf, T, t) - h * v;
    WithinScaled(d, e, 3.0 * Sq(x));
    ErrorScale(q0, qf, T, x, h);
  }

  lemma CancelPositive(x: real, y: real, h: real)
    requires h > 0.0 && h * x <= h * y
    ensures x <= y
  {
    assert h * (x - y) == h * x - h * y;
    if x > y {
      PositiveProduct(h, x - y, h * (x - y));
    }
  }

  lemma SumOfTangents(p: real, q: real, v: real, w: real, h: real, c: real)
    requires Within(q - p - h * v, c * Sq(h)) && Within(p - q - -h * w, c * Sq(-h))
    ensures Within(Mul(h, w - v), 2.0 * (c * Sq(h)))
  {
    SqNegate(h);
    assert Mul(h, w - v) == h * w - h * v;
  }

  lemma DivideOut(x: real, h: real, c: real, m: real)
    requires h > 0.0 && Within(Mul(h, x), 2.0 * (c * Sq(h))) && m == 2.0 * c * h
    ensures Within(x, m)
  {
    assert 2.0 * (c * Sq(h)) == h * m;
    CancelPositive(x, m, h);
    assert h * -x == -(h * x) && h * -m == -(h * m);
    CancelPositive(-x, m, h);
  }

  lemma DivideOutSigned(x: real, h: real, c: real, m: real)
    requires h != 0.0 && Within(Mul(h, x), 2.0 * (c * Sq(h))) && m == 2.0 * c * AbsDiff(0.0, h)
    ensures Within(x, m)
  {
    MulFlip(h, x);
    SqNegate(h);
    hide Mul, Sq;
    if h > 0.0 {
      DivideOut(x, h, c, m);
    } else {
      DivideOut(-x, -h, c, m);
    }
  }

  lemma WithinIsAbsDiff(v: real, w: real, m: real)
    requires Within(w - v, m)
    ensures AbsDiff(v, w) <= m
  {
  }

  lemma TwoTangents(p: real, q: real, v: real, w: real, h: real, c: real)
    requires h != 0.0
    requires Within(q - p - h * v, c * Sq(h)) && Within(p - q - -h * w, c * Sq(-h))
    ensures AbsDiff(v, w) <= 2.0 * c * AbsDiff(0.0, h)
  {
    hide Mul, Sq, Within;
    var m := 2.0 * c * AbsDiff(0.0, h);
    SumOfTangents(p, q, v, w, h, c);
    DivideOutSigned(w - v, h, c, m);
    WithinIsAbsDiff(v, w, m);
  }

  /** So the velocity itself is Lipschitz continuous. */
  lemma VelocityIsLipschitz(k: Kind, q0: real, qf: real, T: real, s: real, t: real)
    requires T > 0.0
    ensures AbsDiff(VelocityAt(k, q0, qf, T, s), VelocityAt(k, q0, qf, T, t))
         <= 2.0 * ErrorRate(q0, qf, T) * AbsDiff(s, t)
  {
    hide PositionAt, VelocityAt, ErrorRate, Sq;
    var h, c := t - s, ErrorRate(q0, qf, T);
    VelocityIsDerivative(k, q0, qf, T, s, h, t);
    VelocityIsDerivative(k, q0, qf, T, t, -h, s);
    if h != 0.0 {
      TwoTangents(PositionAt(k, q0, qf, T, s), PositionAt(k, q0, qf, T, t),
                  VelocityAt(k, q0, qf, T, s), VelocityAt(k, q0, qf, T, t), h, c);
      assert AbsDiff(0.0, h) == AbsDiff(s, t);
    }
  }

  // ---------- Symmetry ----------

  lemma QuotientComplement(t: real, T: real)
    requires T != 0.0
    ensures (T - t) / T == 1.0 - t / T
  {
    Cleared(t, T);
    Cleared(T - t, T);
    assert (1.0 - t / T) * T == T - t / T * T;
    Cancel((T - t) / T, 1.0 - t / T, T);
  }

  lemma ProfileReflect(k: Kind, u: real)
    ensures Profile(k, 1.0 - u) == 1.0 - Profile(k, u)
    ensures ProfileRate(k, 1.0 - u) == ProfileRate(k, u)
  {
    hide Shape, Rate;
    Reflect(k, Clamp01(u));
    assert Clamp01(1.0 - u) == 1.0 - Clamp01(u);
  }

  lemma MulComplement(d: real, x: real)
    ensures Mul(d, 1.0 - x) == d - Mul(d, x)
  {
  }

  lemma MulCancel(x: real, y: real, z: real)
    requires z != 0.0 && Mul(x, z) == Mul(y, z)
    ensures x == y
  {
    Cancel(x, y, z);
  }

  /** Seen from its middle the motion is symmetric. */
  lemma Symmetric(k: Kind, q0: real, qf: real, T: real, t: real)
    requires T > 0.0
    ensures PositionAt(k, q0, qf, T, t) + PositionAt(k, q0, qf, T, T - t) == q0 + qf
    ensures VelocityAt(k, q0, qf, T, t) == VelocityAt(k, q0, qf, T, T - t)
  {
    hide *;
    var d, u := qf - q0, t / T;
    AtAsProfile(k, q0, qf, T, t);
    AtAsProfile(k, q0, qf, T, T - t);
    QuotientComplement(t, T);
    ProfileReflect(k, u);
    MulComplement(d, Profile(k, u));
    MulCancel(VelocityAt(k, q0, qf, T, t), VelocityAt(k, q0, qf, T, T - t), T);
  }
}
