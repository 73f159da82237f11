/** The rest-to-rest motions with home, goal and duration scaled to 0, 1 and 1.
    `Shape` is the position at u in [0, 1], `Rate` its derivative and `Curve` the
    derivative of `Rate`. */
module Shapes {
  import opened RealProducts
  import opened TrajectoryTypes

  datatype Kind = CubicKind | QuinticKind

  ghost function CubicShape(u: real): real { 3.0 * (u * u) - 2.0 * (u * u * u) }

  ghost function CubicRate(u: real): real { 6.0 * u - 6.0 * (u * u) }

  ghost function CubicCurve(u: real): real { 6.0 - 12.0 * u }

  ghost function QuinticShape(u: real): real
  {
    10.0 * (u * u * u) - 15.0 * (u * u * u * u) + 6.0 * (u * u * u * u * u)
  }

  ghost function QuinticRate(u: real): real
  {
    30.0 * (u * u) - 60.0 * (u * u * u) + 30.0 * (u * u * u * u)
  }

  ghost function QuinticCurve(u: real): real { 60.0 * u - 180.0 * (u * u) + 120.0 * (u * u * u) }

  ghost function Shape(k: Kind, u: real): real
  {
    match k
    case CubicKind => CubicShape(u)
    case QuinticKind => QuinticShape(u)
  }

  ghost function Rate(k: Kind, u: real): real
  {
    match k
    case CubicKind => CubicRate(u)
    case QuinticKind => QuinticRate(u)
  }

  ghost function Curve(k: Kind, u: real): real
  {
    match k
    case CubicKind => CubicCurve(u)
    case QuinticKind => QuinticCurve(u)
  }

  /** The largest value of `Rate` on [0, 1]. */
  ghost function Peak(k: Kind): real
  {
    match k
    case CubicKind => 1.5
    case QuinticKind => 1.875
  }

  ghost predicate Unit(u: real)
  {
    0.0 <= u <= 1.0
  }

  ghost function Sq(x: real): real
  {
    x * x
  }

  lemma SqNonNegative(x: real)
    ensures Sq(x) >= 0.0
    ensures x != 0.0 ==> Sq(x) > 0.0
  {
    NonNegativeSquare(x, x * x);
    if x != 0.0 {
      NonZeroProduct(x, x, x * x);
    }
  }

  lemma Ends(k: Kind)
    ensures Shape(k, 0.0) == 0.0 && Rate(k, 0.0) == 0.0
    ensures Shape(k, 1.0) == 1.0 && Rate(k, 1.0) == 0.0
    ensures Rate(k, 0.5) == Peak(k)
  {
  }

  lemma Reflect(k: Kind, u: real)
    ensures Shape(k, 1.0 - u) == 1.0 - Shape(k, u)
    ensures Rate(k, 1.0 - u) == Rate(k, u)
  {
    match k {
      case CubicKind =>
      case QuinticKind =>
    }
  }

  // ---------- Strict increase ----------

  /** Six times the mean rate over [a, a + d]. */
  ghost function Mean6(k: Kind, a: real, d: real): real
  {
    match k
    case CubicKind =>
      12.0 * (a * (1.0 - a)) + 12.0 * ((a + d) * (1.0 - (a + d))) + 6.0 * (a * (1.0 - (a + d))) + 6.0 * ((a + d) * (1.0 - a))
    case QuinticKind =>
      5.0 * Sq(6.0 * a * (1.0 - a) + 3.0 * d * (1.0 - 2.0 * a) - 2.0 * d * d)
      + 15.0 * Sq(d * (1.0 - 2.0 * a) - d * d)
      + Sq(Sq(d))
  }

  lemma MeanIsSlope(k: Kind, a: real, d: real)
    ensures 6.0 * (Shape(k, a + d) - Shape(k, a)) == d * Mean6(k, a, d)
  {
    match k {
      case CubicKind =>
      case QuinticKind =>
    }
  }

  lemma MeanPositive(k: Kind, a: real, d: real)
    requires 0.0 <= a && 0.0 < d && a + d <= 1.0
    ensures Mean6(k, a, d) > 0.0
  {
    match k {
      case CubicKind =>
        var b := a + d;
        NonNegativeProduct(a, 1.0 - a, a * (1.0 - a));
        NonNegativeProduct(b, 1.0 - b, b * (1.0 - b));
        NonNegativeProduct(a, 1.0 - b, a * (1.0 - b));
        PositiveProduct(b, 1.0 - a, b * (1.0 - a));
      case QuinticKind =>
        SqNonNegative(6.0 * a * (1.0 - a) + 3.0 * d * (1.0 - 2.0 * a) - 2.0 * d * d);
        SqNonNegative(d * (1.0 - 2.0 * a) - d * d);
        SqNonNegative(d);
        SqNonNegative(Sq(d));
    }
  }

  lemma StrictlyIncreasing(k: Kind, a: real, b: real)
    requires 0.0 <= a < b <= 1.0
    ensures Shape(k, a) < Shape(k, b)
  {
    hide *;
    var d := b - a;
    assert a + d == b;
    MeanIsSlope(k, a, d);
    MeanPositive(k, a, d);
    PositiveProduct(d, Mean6(k, a, d), d * Mean6(k, a, d));
  }

  lemma NonDecreasing(k: Kind, a: real, b: real)
    requires 0.0 <= a <= b <= 1.0
    ensures Shape(k, a) <= Shape(k, b)
  {
    if a < b {
      StrictlyIncreasing(k, a, b);
    }
  }

  lemma ShapeInUnit(k: Kind, u: real)
    requires Unit(u)
    ensures Unit(Shape(k, u))
  {
    Ends(k);
    NonDecreasing(k, 0.0, u);
    NonDecreasing(k, u, 1.0);
  }

  // ---------- Speed bound ----------

  ghost function Oval(x: real, y: real): real { Sq(x) + Sq(y) + Sq(x + y) }

  ghost function Room(x: real, y: real): real { 5.0 - 6.0 * (Sq(x) + Sq(y)) }

  lemma SmallSquare(x: real)
    requires -0.5 <= x <= 0.5
    ensures Sq(x) <= 0.25
  {
    NonNegativeProduct(0.5 - x, 0.5 + x, (0.5 - x) * (0.5 + x));
    assert (0.5 - x) * (0.5 + x) == 0.25 - Sq(x);
  }

  lemma OvalAndRoom(x: real, y: real)
    requires -0.5 <= x <= 0.5 && -0.5 <= y <= 0.5
    ensures Oval(x, y) >= 0.0 && Room(x, y) >= 0.0
  {
    SqNonNegative(x);
    SqNonNegative(y);
    SqNonNegative(x + y);
    SmallSquare(x);
    SmallSquare(y);
  }

  /** The shapes about the half-way point. */
  lemma QuinticCentred(x: real)
    ensures QuinticShape(x + 0.5) == 0.5 + 1.875 * x - 5.0 * (x * x * x) + 6.0 * (x * x * x * x * x)
  {
  }

  lemma CubicCentred(x: real)
    ensures CubicShape(x + 0.5) == 0.5 + 1.5 * x - 2.0 * (x * x * x)
  {
  }

  lemma QuinticSlackFactored(x: real, y: real)
    ensures 5.0 * (y * y + x * y + x * x)
            - 6.0 * (y * y * y * y + y * y * y * x + y * y * x * x + y * x * x * x + x * x * x * x)
         == 0.5 * (Oval(x, y) * Room(x, y)) + 6.0 * Sq(x * y)
  {
  }

  lemma QuinticSlack(x: real, y: real)
    requires -0.5 <= x <= 0.5 && -0.5 <= y <= 0.5
    ensures 0.0 <= 5.0 * (y * y + x * y + x * x)
                   - 6.0 * (y * y * y * y + y * y * y * x + y * y * x * x + y * x * x * x + x * x * x * x)
  {
    OvalAndRoom(x, y);
    SqNonNegative(x * y);
    QuinticSlackFactored(x, y);
    hide Oval, Room, Sq;
    NonNegativeProduct(Oval(x, y), Room(x, y), Oval(x, y) * Room(x, y));
  }

  lemma QuinticGap(x: real, y: real)
    requires -0.5 <= x <= y <= 0.5
    ensures 5.0 * (y * y * y - x * x * x) - 6.0 * (y * y * y * y * y - x * x * x * x * x) >= 0.0
  {
    var s := 5.0 * (y * y + x * y + x * x)
             - 6.0 * (y * y * y * y + y * y * y * x + y * y * x * x + y * x * x * x + x * x * x * x);
    QuinticSlack(x, y);
    var z := (y - x) * s;
    NonNegativeProduct(y - x, s, z);
    assert z == 5.0 * (y * y * y - x * x * x) - 6.0 * (y * y * y * y * y - x * x * x * x * x);
  }

  lemma CubicGap(x: real, y: real)
    requires x <= y
    ensures y * y * y - x * x * x >= 0.0
  {
    SqNonNegative(x);
    SqNonNegative(y);
    SqNonNegative(x + y);
    var s := 0.5 * (x * x + y * y + (x + y) * (x + y));
    var z := (y - x) * s;
    NonNegativeProduct(y - x, s, z);
    assert z == y * y * y - x * x * x;
  }

  lemma SpeedBound(k: Kind, a: real, b: real)
    requires 0.0 <= a <= b <= 1.0
    ensures Shape(k, b) - Shape(k, a) <= Peak(k) * (b - a)
  {
    hide QuinticShape, CubicShape;
    var x, y := a - 0.5, b - 0.5;
    assert x + 0.5 == a && y + 0.5 == b;
    match k {
      case CubicKind =>
        CubicCentred(x);
        CubicCentred(y);
        CubicGap(x, y);
      case QuinticKind =>
        QuinticCentred(x);
        QuinticCentred(y);
        QuinticGap(x, y);
    }
  }

  /** `Rate` lies between 0 and the peak, which it meets only half-way. */
  lemma RateBounds(k: Kind, u: real)
    requires Unit(u)
    ensures 0.0 <= Rate(k, u) <= Peak(k)
    ensures Rate(k, u) == Peak(k) <==> u == 0.5
  {
    var w, z := u * (1.0 - u), Sq(u - 0.5);
    NonNegativeProduct(u, 1.0 - u, w);
    SqNonNegative(u - 0.5);
    SqNonNegative(w);
    assert z == 0.25 - w;
    match k {
      case CubicKind =>
        assert Rate(k, u) == 6.0 * w;
      case QuinticKind =>
        assert Rate(k, u) == 30.0 * Sq(w);
        var g := z * (0.25 + w);
        assert Sq(w) == 0.0625 - g;
        NonNegativeProduct(z, 0.25 + w, g);
        if u != 0.5 {
          PositiveProduct(z, 0.25 + w, g);
        }
    }
  }

  // ---------- Second-order remainder ----------

  lemma CurveReflect(k: Kind, u: real)
    ensures Curve(k, 1.0 - u) == -Curve(k, u)
  {
    match k {
      case CubicKind =>
      case QuinticKind =>
    }
  }

  lemma CurveUpper(k: Kind, u: real)
    requires Unit(u)
    ensures Curve(k, u) <= 6.0
  {
    match k {
      case CubicKind =>
      case QuinticKind =>
        var w := 1.0 - 2.0 * u;
        assert Curve(k, u) == 15.0 * (w * (1.0 - w * w));
        if w >= 0.0 {
          var c := 4.0 / 7.0;
          var z := Sq(w - c) * (w + 2.0 * c);
          SqNonNegative(w - c);
          NonNegativeProduct(Sq(w - c), w + 2.0 * c, z);
          assert 0.4 - w * (1.0 - w * w) == z + (46.0 / 1715.0 - w / 49.0);
        } else {
          NonNegativeProduct(1.0 - w, 1.0 + w, (1.0 - w) * (1.0 + w));
          assert (1.0 - w) * (1.0 + w) == 1.0 - w * w;
          NonNegativeProduct(-w, 1.0 - w * w, -w * (1.0 - w * w));
        }
    }
  }

  lemma CurveBound(k: Kind, u: real)
    requires Unit(u)
    ensures -6.0 <= Curve(k, u) <= 6.0
  {
    CurveUpper(k, u);
    CurveReflect(k, u);
    CurveUpper(k, 1.0 - u);
  }

  ghost predicate Within(x: real, r: real) { -r <= x <= r }

  /** The exact second-order remainders: see `CubicRemainder` and `QuinticRemainder`. */
  ghost function CubicBend(a: real, b: real): real { 3.0 - 2.0 * (b + 2.0 * a) }

  ghost function QuinticBend(a: real, b: real): real
  {
    10.0 * (b + 2.0 * a) - 15.0 * (b * b + 2.0 * (a * b) + 3.0 * (a * a))
    + 6.0 * (b * b * b + 2.0 * (a * b * b) + 3.0 * (a * a * b) + 4.0 * (a * a * a))
  }

  /** The bend is the mean of the curve over [a, b] with weight b - u; this four-point
      rule computes that mean exactly. */
  lemma QuinticBendIsMean(a: real, b: real)
    ensures QuinticBend(a, b)
         == (13.0 * QuinticCurve(a) + 36.0 * QuinticCurve((2.0 * a + b) / 3.0)
             + 9.0 * QuinticCurve((a + 2.0 * b) / 3.0) + 2.0 * QuinticCurve(b)) / 120.0
  {
  }

  lemma QuinticBendBound(a: real, b: real)
    requires Unit(a) && Unit(b)
    ensures -3.0 <= QuinticBend(a, b) <= 3.0
  {
    QuinticBendIsMean(a, b);
    hide QuinticBend, QuinticCurve;
    CurveBound(QuinticKind, a);
    CurveBound(QuinticKind, (2.0 * a + b) / 3.0);
    CurveBound(QuinticKind, (a + 2.0 * b) / 3.0);
    CurveBound(QuinticKind, b);
  }

  // The shapes as trajectories from 0 to 1 in unit time.
  const UNIT_CUBIC := Cubic(0.0, 0.0, 3.0, -2.0)
  const UNIT_QUINTIC := Quintic(0.0, 0.0, 0.0, 10.0, -15.0, 6.0)

  lemma UnitQuintic(u: real)
    ensures UNIT_QUINTIC.Position(u) == QuinticShape(u) && UNIT_QUINTIC.Velocity(u) == QuinticRate(u)
  {
  }

  lemma UnitCubic(u: real)
    ensures UNIT_CUBIC.Position(u) == CubicShape(u) && UNIT_CUBIC.Velocity(u) == CubicRate(u)
  {
  }

  lemma UnitBends(a: real, b: real)
    ensures QuinticPositionBend(UNIT_QUINTIC, a, b) == QuinticBend(a, b)
    ensures CubicPositionBend(UNIT_CUBIC, a, b) == CubicBend(a, b)
  {
  }

  lemma QuinticRemainder(a: real, b: real)
    ensures QuinticShape(b) - QuinticShape(a) - Mul(b - a, QuinticRate(a)) == Mul(Sq(b - a), QuinticBend(a, b))
  {
    assert Sq(b - a) == (b - a) * (b - a);
    hide *;
    UnitQuintic(a);
    UnitQuintic(b);
    UnitBends(a, b);
    QuinticVelocityIsDerivative(UNIT_QUINTIC, a, b);
  }

  lemma CubicRemainder(a: real, b: real)
    ensures CubicShape(b) - CubicShape(a) - Mul(b - a, CubicRate(a)) == Mul(Sq(b - a), CubicBend(a, b))
  {
    assert Sq(b - a) == (b - a) * (b - a);
    hide *;
    UnitCubic(a);
    UnitCubic(b);
    UnitBends(a, b);
    CubicVelocityIsDerivative(UNIT_CUBIC, a, b);
  }

  lemma ScaledBetween(x: real, r: real, k: real, z: real)
    requires x >= 0.0 && -k <= r <= k && z == Mul(x, r)
    ensures -(k * x) <= z <= k * x
  {
    NonNegativeProduct(x, k - r, x * (k - r));
    NonNegativeProduct(x, k + r, x * (k + r));
    assert x * (k - r) == k * x - x * r;
    assert x * (k + r) == k * x + x * r;
  }

  lemma SecondOrder(k: Kind, a: real, b: real)
    requires Unit(a) && Unit(b)
    ensures Within(Shape(k, b) - Shape(k, a) - Mul(b - a, Rate(k, a)), 3.0 * Sq(b - a))
  {
    SqNonNegative(b - a);
    hide CubicShape, CubicRate, QuinticShape, QuinticRate, QuinticBend, Sq, Mul;
    match k {
      case CubicKind =>
        CubicRemainder(a, b);
        ScaledBetween(Sq(b - a), CubicBend(a, b), 3.0, Mul(Sq(b - a), CubicBend(a, b)));
      case QuinticKind =>
        QuinticRemainder(a, b);
        QuinticBendBound(a, b);
        ScaledBetween(Sq(b - a), QuinticBend(a, b), 3.0, Mul(Sq(b - a), QuinticBend(a, b)));
    }
  }

  /** Towards the end of the motion the rate falls off at least linearly. */
  lemma RateNearEnd(k: Kind, a: real)
    requires Unit(a)
    ensures Rate(k, a) <= 6.0 * (1.0 - a)
  {
    var r := 1.0 - a;
    match k {
      case CubicKind =>
        SqNonNegative(r);
        assert 6.0 * r - Rate(k, a) == 6.0 * Sq(r);
      case QuinticKind =>
        var c := 2.0 / 3.0;
        var z := Sq(a - c) * (a + 1.0 / 3.0);
        SqNonNegative(a - c);
        NonNegativeProduct(Sq(a - c), a + 1.0 / 3.0, z);
        var f := 7.0 / 27.0 + 5.0 * z;
        assert 6.0 * r - Rate(k, a) == 6.0 * (r * f);
        NonNegativeProduct(r, f, r * f);
    }
  }

  // ---------- The motion continued at rest on both sides ----------

  ghost function Clamp01(u: real): real
  {
    if u < 0.0 then 0.0 else if u > 1.0 then 1.0 else u
  }

  ghost function Profile(k: Kind, u: real): real { Shape(k, Clamp01(u)) }

  ghost function ProfileRate(k: Kind, u: real): real { Rate(k, Clamp01(u)) }

  /** What is left at b of the profile's tangent at a. */
  ghost function Defect(k: Kind, a: real, b: real): real
  {
    Profile(k, b) - Profile(k, a) - Mul(b - a, ProfileRate(k, a))
  }

  lemma DefectReflect(k: Kind, a: real, b: real)
    ensures Defect(k, 1.0 - a, 1.0 - b) == -Defect(k, a, b)
  {
    hide Shape, Rate;
    Reflect(k, Clamp01(a));
    Reflect(k, Clamp01(b));
    assert Clamp01(1.0 - a) == 1.0 - Clamp01(a) && Clamp01(1.0 - b) == 1.0 - Clamp01(b);
    hide Clamp01;
    MulNegate(b - a, ProfileRate(k, a));
    assert (1.0 - b) - (1.0 - a) == -(b - a);
    hide Mul;
  }

  lemma SqMonotone(x: real, y: real)
    requires 0.0 <= x <= y
    ensures Sq(x) <= Sq(y)
  {
    NonNegativeProduct(y - x, y + x, (y - x) * (y + x));
    assert (y - x) * (y + x) == Sq(y) - Sq(x);
  }

  lemma SqNegate(x: real)
    ensures Sq(-x) == Sq(x)
  {
  }

  lemma DefectInside(k: Kind, a: real, b: real)
    requires Unit(a) && Unit(b)
    ensures Within(Defect(k, a, b), 3.0 * Sq(b - a))
  {
    hide Shape, Rate, Sq, Mul;
    SecondOrder(k, a, b);
    assert Clamp01(a) == a && Clamp01(b) == b;
  }

  lemma PastEnd(x: real, y: real, r: real, z: real)
    requires 0.0 <= x && 0.0 <= y && z == x + y && 0.0 <= r <= 6.0 * x
    ensures Mul(x, r) <= Mul(z, r) <= Mul(x, r) + 3.0 * Sq(z) - 3.0 * Sq(x)
  {
    NonNegativeProduct(y, r, y * r);
    NonNegativeProduct(y, 6.0 * x - r, y * (6.0 * x - r));
    NonNegativeSquare(y, y * y);
    assert Mul(z, r) == x * r + y * r;
    assert Sq(z) == x * x + 2.0 * (x * y) + y * y;
    assert y * (6.0 * x - r) == 6.0 * (x * y) - y * r;
  }

  /** From inside the motion to beyond its end. */
  lemma DefectPastEnd(k: Kind, a: real, b: real)
    requires Unit(a) && 1.0 < b
    ensures Within(Defect(k, a, b), 3.0 * Sq(b - a))
  {
    Ends(k);
    DefectInside(k, a, 1.0);
    RateBounds(k, a);
    RateNearEnd(k, a);
    hide Shape, Rate, Sq, Mul;
    var x, y, r := 1.0 - a, b - 1.0, Rate(k, a);
    assert Clamp01(a) == a && Clamp01(b) == 1.0 && Clamp01(1.0) == 1.0;
    PastEnd(x, y, r, b - a);
  }

  /** From before the start the tangent is flat. */
  lemma DefectBeforeStart(k: Kind, a: real, b: real)
    requires a < 0.0
    ensures Within(Defect(k, a, b), 3.0 * Sq(b - a))
  {
    Ends(k);
    hide Shape, Rate, Sq;
    SqNonNegative(b - a);
    if b > 0.0 {
      if b <= 1.0 {
        DefectInside(k, 0.0, b);
      } else {
        DefectPastEnd(k, 0.0, b);
      }
      SqMonotone(b, b - a);
      assert b - 0.0 == b;
    }
  }

  /** The profile has the profile rate as derivative everywhere, seams included, with an
      error at most quadratic in the step. */
  lemma DefectBound(k: Kind, a: real, b: real)
    ensures Within(Defect(k, a, b), 3.0 * Sq(b - a))
  {
    hide Defect, Sq;
    SqNegate(b - a);
    assert (1.0 - b) - (1.0 - a) == -(b - a);
    if a < 0.0 {
      DefectBeforeStart(k, a, b);
    } else if a > 1.0 {
      DefectReflect(k, a, b);
      DefectBeforeStart(k, 1.0 - a, 1.0 - b);
    } else if b < 0.0 {
      DefectReflect(k, a, b);
      DefectPastEnd(k, 1.0 - a, 1.0 - b);
    } else if b > 1.0 {
      DefectPastEnd(k, a, b);
    } else {
      DefectInside(k, a, b);
    }
  }

  /** The profile never decreases, stays in [0, 1] and never exceeds the peak rate. */
  lemma ProfileBounds(k: Kind, a: real, b: real)
    requires a <= b
    ensures 0.0 <= Profile(k, a) <= Profile(k, b) <= 1.0
    ensures Profile(k, b) - Profile(k, a) <= Peak(k) * (b - a)
    ensures 0.0 <= ProfileRate(k, a) <= Peak(k)
  {
    var x, y := Clamp01(a), Clamp01(b);
    ShapeInUnit(k, x);
    ShapeInUnit(k, y);
    NonDecreasing(k, x, y);
    SpeedBound(k, x, y);
    RateBounds(k, x);
    hide Shape, Rate;
  }
}
