/** Durations of zero, which the program does not refuse: dividing by them leaves the reals, so
    here `double` is IEEE 754 arithmetic with its special values, exact but for them. */
module ZeroDuration {
  datatype Double = Finite(x: real) | Infinite(positive: bool) | NotANumber

  /** Zeros carry no sign in this model; `negative` is that of a zero divisor. */
  function Over(a: Double, b: Double, negative: bool): Double
  {
    match (a, b)
    case (Finite(x), Finite(y)) =>
      if y != 0.0 then Finite(x / y) else if x == 0.0 then NotANumber else Infinite((x > 0.0) != negative)
    case (Infinite(p), Finite(y)) => Infinite(p == if y == 0.0 then !negative else y > 0.0)
    case (Finite(_), Infinite(_)) => Finite(0.0)
    case _ => NotANumber
  }

  function Times(a: Double, b: Double): Double
  {
    match (a, b)
    case (Finite(x), Finite(y)) => Finite(x * y)
    case (Infinite(p), Finite(y)) => if y == 0.0 then NotANumber else Infinite(p == (y > 0.0))
    case (Finite(x), Infinite(p)) => if x == 0.0 then NotANumber else Infinite(p == (x > 0.0))
    case (Infinite(p), Infinite(q)) => Infinite(p == q)
    case _ => NotANumber
  }

  function Plus(a: Double, b: Double): Double
  {
    match (a, b)
    case (Finite(x), Finite(y)) => Finite(x + y)
    case (Infinite(p), Finite(_)) => a
    case (Finite(_), Infinite(p)) => b
    case (Infinite(p), Infinite(q)) => if p == q then a else NotANumber
    case _ => NotANumber
  }

  function Minus(a: Double, b: Double): Double
  {
    Plus(a, Times(Finite(-1.0), b))
  }

  // ---------- Rest-to-rest trajectories ----------

  datatype Coefficients = Coefficients(a0: Double, a1: Double, a2: Double, a3: Double, a4: Double, a5: Double)

  const ZERO := Finite(0.0)

  function Scaled(r: real, a: Double): Double { Times(Finite(r), a) }

  function Power(t: Double, n: nat): Double
  {
    if n == 0 then Finite(1.0) else if n == 1 then t else Times(Power(t, n - 1), t)
  }

  function MakeCubic(q0: Double, qf: Double, T: Double, negative: bool): Coefficients
  {
    var dq := Minus(qf, q0);
    Coefficients(q0, ZERO,
                 Minus(Minus(Over(Scaled(3.0, dq), Power(T, 2), negative), Over(Scaled(2.0, ZERO), T, negative)), Over(ZERO, T, negative)),
                 Plus(Over(Scaled(-2.0, dq), Power(T, 3), negative), Over(Plus(ZERO, ZERO), Power(T, 2), negative)),
                 ZERO, ZERO)
  }

  /** A numerator of the quintic: a multiple of the travel, and end conditions that are all zero. */
  function Numerator(r: real, dq: Double, T: Double): Double
  {
    Minus(Minus(Scaled(r, dq), Times(ZERO, T)), Times(ZERO, Power(T, 2)))
  }

  function MakeQuintic(q0: Double, qf: Double, T: Double, negative: bool): Coefficients
  {
    var dq := Minus(qf, q0);
    Coefficients(q0, ZERO, ZERO,
                 Over(Numerator(20.0, dq, T), Scaled(2.0, Power(T, 3)), negative),
                 Over(Numerator(-30.0, dq, T), Scaled(2.0, Power(T, 4)), negative),
                 Over(Numerator(12.0, dq, T), Scaled(2.0, Power(T, 5)), negative))
  }

  function Position(c: Coefficients, t: Double): Double
  {
    Plus(Plus(Plus(Plus(Plus(c.a0, Times(c.a1, t)), Times(c.a2, Power(t, 2))),
                   Times(c.a3, Power(t, 3))), Times(c.a4, Power(t, 4))), Times(c.a5, Power(t, 5)))
  }

  function Velocity(c: Coefficients, t: Double): Double
  {
    Plus(Plus(Plus(Plus(c.a1, Times(Scaled(2.0, c.a2), t)), Times(Scaled(3.0, c.a3), Power(t, 2))),
              Times(Scaled(4.0, c.a4), Power(t, 3))), Times(Scaled(5.0, c.a5), Power(t, 4)))
  }

  /** The generator's clamp of a finite time to [0, 0]. */
  function Clamped(t: real): Double
  {
    if t < 0.0 then ZERO else if t > 0.0 then ZERO else Finite(t)
  }

  // ---------- What the generator reports ----------

  lemma ZeroPowers(n: nat)
    requires n > 0
    ensures Power(ZERO, n) == ZERO
  {
    if n == 1 {
    } else {
      ZeroPowers(n - 1);
    }
  }

  lemma UndefinedStays(a: Double)
    ensures Plus(a, NotANumber) == Plus(NotANumber, a) == NotANumber
    ensures Times(a, NotANumber) == Times(NotANumber, a) == NotANumber
  {
  }

  /** Whatever is divided by zero is not a finite number, and times zero not a number at all. */
  lemma QuotientTimesZero(x: real, r: real, negative: bool)
    ensures Times(Over(Finite(x), ZERO, negative), ZERO) == NotANumber
    ensures r > 0.0 ==> Times(Scaled(r, Over(Finite(x), ZERO, negative)), ZERO) == NotANumber
  {
  }

  lemma FiniteKept(a: Double, b: Double)
    requires a.Finite? && b.Finite?
    ensures Plus(a, b).Finite? && Times(a, b).Finite?
  {
  }

  lemma MinusFinite(a: Double, b: Double)
    requires a.Finite? && b.Finite?
    ensures Minus(a, b).Finite?
  {
    FiniteKept(Finite(-1.0), b);
    FiniteKept(a, Times(Finite(-1.0), b));
    hide Plus, Times;
  }

  lemma NumeratorFinite(r: real, dq: Double)
    requires dq.Finite?
    ensures Numerator(r, dq, ZERO).Finite?
  {
    FiniteKept(Finite(r), dq);
    FiniteKept(ZERO, ZERO);
    ZeroPowers(2);
    hide Plus, Times, Power, Minus;
    MinusFinite(Scaled(r, dq), Times(ZERO, ZERO));
    MinusFinite(Minus(Scaled(r, dq), Times(ZERO, ZERO)), Times(ZERO, ZERO));
  }

  lemma QuinticA3(q0: Double, qf: Double, T: Double, negative: bool)
    ensures MakeQuintic(q0, qf, T, negative).a3
         == Over(Numerator(20.0, Minus(qf, q0), T), Scaled(2.0, Power(T, 3)), negative)
  {
    hide Numerator, Minus, Over, Power, Scaled;
  }

  lemma PositionUndefined(c: Coefficients, t: Double)
    requires Times(c.a3, Power(t, 3)) == NotANumber
    ensures Position(c, t) == NotANumber
  {
    var p := Plus(Plus(c.a0, Times(c.a1, t)), Times(c.a2, Power(t, 2)));
    UndefinedStays(p);
    UndefinedStays(Times(c.a4, Power(t, 4)));
    UndefinedStays(Times(c.a5, Power(t, 5)));
    hide Plus, Times, Power;
  }

  lemma VelocityUndefined(c: Coefficients, t: Double)
    requires Times(Scaled(3.0, c.a3), Power(t, 2)) == NotANumber
    ensures Velocity(c, t) == NotANumber
  {
    var p := Plus(c.a1, Times(Scaled(2.0, c.a2), t));
    UndefinedStays(p);
    UndefinedStays(Times(Scaled(4.0, c.a4), Power(t, 3)));
    UndefinedStays(Times(Scaled(5.0, c.a5), Power(t, 4)));
    hide Plus, Times, Power, Scaled;
  }

  /** With a duration of zero, positive or negative, every position and every velocity the
      quintic reports is not a number, at every time and even with nothing to travel. */
  lemma QuinticIsUndefined(q0: real, qf: real, t: real, negative: bool)
    ensures var c := MakeQuintic(Finite(q0), Finite(qf), ZERO, negative);
            Position(c, Clamped(t)) == NotANumber && Velocity(c, Clamped(t)) == NotANumber
  {
    var c := MakeQuintic(Finite(q0), Finite(qf), ZERO, negative);
    var n := Numerator(20.0, Minus(Finite(qf), Finite(q0)), ZERO);
    assert Clamped(t) == ZERO && Scaled(2.0, ZERO) == ZERO;
    hide *;
    MinusFinite(Finite(qf), Finite(q0));
    NumeratorFinite(20.0, Minus(Finite(qf), Finite(q0)));
    ZeroPowers(2);
    ZeroPowers(3);
    QuinticA3(Finite(q0), Finite(qf), ZERO, negative);
    QuotientTimesZero(n.x, 3.0, negative);
    PositionUndefined(c, ZERO);
    VelocityUndefined(c, ZERO);
  }

  /** And the same of the cubic. */
  lemma CubicIsUndefined(q0: real, qf: real, t: real, negative: bool)
    ensures var c := MakeCubic(Finite(q0), Finite(qf), ZERO, negative);
            Position(c, Clamped(t)) == NotANumber && Velocity(c, Clamped(t)) == NotANumber
  {
    var c := MakeCubic(Finite(q0), Finite(qf), ZERO, negative);
    ZeroPowers(2);
    ZeroPowers(3);
    assert Over(ZERO, ZERO, negative) == NotANumber && Plus(ZERO, ZERO) == ZERO;
    UndefinedStays(Over(Scaled(-2.0, Minus(Finite(qf), Finite(q0))), ZERO, negative));
    assert c.a3 == NotANumber;
    UndefinedStays(ZERO);
    UndefinedStays(Finite(3.0));
    assert Clamped(t) == ZERO && Scaled(3.0, c.a3) == NotANumber;
    hide *;
    PositionUndefined(c, ZERO);
    VelocityUndefined(c, ZERO);
  }
}
