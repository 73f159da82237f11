/** Fixed-width integers of the C++ program. */
module MachineIntegers {
  const TWO_31: int := 0x8000_0000
  const TWO_32: int := 0x1_0000_0000
  const TWO_64: int := 0x1_0000_0000_0000_0000

  /** Conversion to uint32_t, uint64_t and int32_t, modulo the width. */
  function ToU32(x: int): nat { x % TWO_32 }

  function ToU64(x: int): nat { x % TWO_64 }

  function ToI32(x: int): int { (x + TWO_31) % TWO_32 - TWO_31 }

  lemma U64Zero()
    ensures ToU64(0) == 0
  {
  }

  lemma U64Next(x: nat)
    ensures ToU64(ToU64(x) + 1) == ToU64(x + 1)
  {
  }

  lemma MultipleAtLeast(m: int, k: int)
    requires m > 0
    ensures k >= 1 ==> m * k >= m
    ensures k <= -1 ==> m * k <= -m
  {
  }

  lemma ModOffset(r: int, q: int, m: int)
    requires m > 0
    ensures (m * q + r) % m == r % m
  {
    var a, b := (m * q + r) / m, r / m;
    assert m * a + (m * q + r) % m == m * q + (m * b + r % m);
    assert m * (a - q - b) == r % m - (m * q + r) % m;
    MultipleAtLeast(m, a - q - b);
  }

  lemma ModSum(x: int, y: int, m: int)
    requires m > 0
    ensures (x % m + y % m) % m == (x + y) % m
  {
    var q, r := x / m + y / m, x % m + y % m;
    assert x + y == m * q + r;
    ModOffset(r, q, m);
  }

  lemma U64Sum(x: int, y: int)
    ensures ToU64(ToU64(x) + ToU64(y)) == ToU64(x + y)
  {
    ModSum(x, y, TWO_64);
  }
}

/** Clock readings, nanosecond stamps and the DDS time they are published as. */
module Timestamps {
  import opened MachineIntegers

  const NS_PER_S: int := 1_000_000_000

  datatype Timespec = Timespec(sec: int, nsec: int) {

    predicate Normalised()
    {
      0 <= nsec < NS_PER_S
    }

    /** The exact number of nanoseconds. */
    ghost function Exact(): int
    {
      sec * NS_PER_S + nsec
    }

    function ToNs(): nat
    {
      ToU64(ToU64(ToU64(sec) * NS_PER_S) + ToU64(nsec))
    }
  }

  /** a - b in seconds. */
  function DiffSeconds(a: Timespec, b: Timespec): real
  {
    (a.sec - b.sec) as real + (a.nsec - b.nsec) as real * 0.000000001
  }

  datatype Stamp = Stamp(sec: int, nanosec: nat) {

    ghost function Seconds(): real
    {
      sec as real + nanosec as real * 0.000000001
    }

    ghost predicate AtMost(other: Stamp)
    {
      sec < other.sec || (sec == other.sec && nanosec <= other.nanosec)
    }
  }

  /** The published form of a nanosecond count. */
  function Split(ns: nat): Stamp
  {
    Stamp(ToI32(ns / NS_PER_S), ToU32(ns % NS_PER_S))
  }

  /** The nanosecond counts whose seconds fit the signed 32-bit field. */
  predicate Publishable(ns: int)
  {
    0 <= ns < TWO_31 * NS_PER_S
  }

  // ---------- Joining ----------

  lemma ToNsIsExactModulo(ts: Timespec)
    ensures ts.ToNs() == ToU64(ts.Exact())
  {
    var s := ts.sec;
    assert ToU64(ToU64(s) * NS_PER_S) == ToU64(s * NS_PER_S) by {
      assert s == TWO_64 * (s / TWO_64) + s % TWO_64;
      ModOffset(ToU64(s) * NS_PER_S, s / TWO_64 * NS_PER_S, TWO_64);
      assert TWO_64 * (s / TWO_64 * NS_PER_S) + ToU64(s) * NS_PER_S == s * NS_PER_S;
    }
    U64Sum(s * NS_PER_S, ts.nsec);
    var y := ts.nsec;
    assert ToU64(ToU64(s * NS_PER_S) + ToU64(y)) == ToU64(s * NS_PER_S + y);
  }

  /** The joined count is exact if and only if it fits 64 bits. */
  lemma ToNsExact(ts: Timespec)
    ensures ts.ToNs() == ts.Exact() <==> 0 <= ts.Exact() < TWO_64
  {
    ToNsIsExactModulo(ts);
  }

  lemma DiffIsExact(a: Timespec, b: Timespec)
    ensures DiffSeconds(a, b) == (a.Exact() - b.Exact()) as real / 1000000000.0
  {
    var s, n := a.sec - b.sec, a.nsec - b.nsec;
    assert a.Exact() - b.Exact() == s * 1_000_000_000 + n;
    assert (s * 1_000_000_000 + n) as real == s as real * 1000000000.0 + n as real;
  }

  // ---------- Splitting ----------

  /** How often joining wraps at 2^64 nanoseconds, and publishing at 2^32 seconds. */
  ghost function JoinWraps(ts: Timespec): int { ts.Exact() / TWO_64 }

  ghost function SplitWraps(ns: nat): nat { (ns / NS_PER_S + TWO_31) / TWO_32 }

  lemma SplitParts(ns: nat)
    ensures Split(ns).nanosec == ns % NS_PER_S < NS_PER_S
    ensures Split(ns).sec == ns / NS_PER_S - TWO_32 * SplitWraps(ns)
    ensures SplitWraps(ns) == 0 <==> Publishable(ns)
  {
    var q := ns / NS_PER_S;
    assert ns == NS_PER_S * q + ns % NS_PER_S;
    assert q + TWO_31 == TWO_32 * SplitWraps(ns) + (q + TWO_31) % TWO_32;
  }

  /** The seconds of a published stamp, for every count. */
  lemma StampSeconds(ns: nat)
    ensures Split(ns).Seconds() == ns as real / 1000000000.0 - (TWO_32 * SplitWraps(ns)) as real
  {
    SplitParts(ns);
    var q, r, w := ns / NS_PER_S, ns % NS_PER_S, TWO_32 * SplitWraps(ns);
    assert ns == 1_000_000_000 * q + r;
    assert ns as real == 1000000000.0 * q as real + r as real;
    assert (q - w) as real == q as real - w as real;
  }

  /** The published stamp denotes the nanosecond count exactly when the seconds fit. */
  lemma SplitSeconds(ns: nat)
    ensures Split(ns).Seconds() == ns as real / 1000000000.0 <==> Publishable(ns)
  {
    StampSeconds(ns);
    SplitParts(ns);
    hide Split, Stamp.Seconds;
  }

  // ---------- Publishing a clock reading ----------

  /** The nanoseconds a clock reading loses on its way to a published stamp. */
  ghost function LostNs(ts: Timespec): int
  {
    TWO_64 * JoinWraps(ts) + TWO_32 * NS_PER_S * SplitWraps(ts.ToNs())
  }

  ghost function Lost(ts: Timespec): real { LostNs(ts) as real / 1000000000.0 }

  lemma JoinLoses(ts: Timespec)
    ensures ts.ToNs() == ts.Exact() - TWO_64 * JoinWraps(ts) < TWO_64
  {
    ToNsIsExactModulo(ts);
    hide Timespec.Exact, Timespec.ToNs;
    assert ts.Exact() == TWO_64 * JoinWraps(ts) + ts.Exact() % TWO_64;
  }

  /** What is published of a clock reading, whatever its size. */
  lemma PublishedSeconds(ts: Timespec)
    ensures Split(ts.ToNs()).Seconds() == ts.Exact() as real / 1000000000.0 - Lost(ts)
  {
    JoinLoses(ts);
    StampSeconds(ts.ToNs());
    hide Timespec.Exact, Timespec.ToNs, Split, Stamp.Seconds, JoinWraps, SplitWraps;
    var n, x, w, s := ts.ToNs(), ts.Exact(), TWO_64 * JoinWraps(ts), TWO_32 * SplitWraps(ts.ToNs());
    assert LostNs(ts) == w + 1_000_000_000 * s;
    assert (w + 1_000_000_000 * s) as real == w as real + 1000000000.0 * s as real;
    assert n as real == x as real - w as real;
  }

  lemma NotPublishable(x: int, j: int)
    requires j == x / TWO_64 && j != 0
    ensures !Publishable(x)
  {
  }

  /** Nothing is lost exactly for the readings that can be published. */
  lemma NothingLost(ts: Timespec)
    ensures LostNs(ts) == 0 <==> Publishable(ts.Exact())
    ensures Lost(ts) == 0.0 <==> Publishable(ts.Exact())
  {
    JoinLoses(ts);
    SplitParts(ts.ToNs());
    hide Timespec.Exact, Timespec.ToNs, Split;
    var j, s := JoinWraps(ts), SplitWraps(ts.ToNs());
    assert s <= 4;
    if j == 0 {
      assert ts.ToNs() == ts.Exact();
    } else {
      NotPublishable(ts.Exact(), j);
    }
  }

  lemma ExactSeconds(ts: Timespec)
    requires ts.Normalised()
    ensures Stamp(ts.sec, ts.nsec).Seconds() == ts.Exact() as real / 1000000000.0
  {
    var s, n := ts.sec, ts.nsec;
    assert (s * 1_000_000_000 + n) as real == s as real * 1000000000.0 + n as real;
  }

  /** Splitting a joined normalised time gives the time back exactly when its seconds fit. */
  lemma JoinSplit(ts: Timespec)
    requires ts.Normalised()
    ensures Split(ts.ToNs()) == Stamp(ts.sec, ts.nsec) <==> 0 <= ts.sec < TWO_31
  {
    PublishedSeconds(ts);
    NothingLost(ts);
    assert Publishable(ts.Exact()) <==> 0 <= ts.sec < TWO_31;
    if Publishable(ts.Exact()) {
      ToNsExact(ts);
      SplitParts(ts.ToNs());
    } else {
      ExactSeconds(ts);
    }
  }

  // ---------- Order ----------

  /** As long as the seconds fit, the published order is the order of the counts. */
  lemma SplitOrder(a: nat, b: nat)
    requires Publishable(a) && Publishable(b)
    ensures a <= b <==> Split(a).AtMost(Split(b))
  {
    SplitParts(a);
    SplitParts(b);
    assert a == NS_PER_S * (a / NS_PER_S) + a % NS_PER_S;
    assert b == NS_PER_S * (b / NS_PER_S) + b % NS_PER_S;
    assert TWO_31 * NS_PER_S < TWO_64;
  }

  /** Beyond that range it is not: one nanosecond later is published as 136 years earlier. */
  lemma OrderBreaks()
    ensures var last := TWO_31 * NS_PER_S - 1;
            Split(last) == Stamp(TWO_31 - 1, 999_999_999) && Split(last + 1) == Stamp(-TWO_31, 0)
  {
  }

  /** So publishing keeps the order of all counts below n exactly as long as n is publishable. */
  lemma OrderKeptBelow(n: nat)
    ensures (forall a: nat, b: nat :: a <= b < n ==> Split(a).AtMost(Split(b))) <==> n <= TWO_31 * NS_PER_S
  {
    hide Split;
    if n <= TWO_31 * NS_PER_S {
      forall a: nat, b: nat | a <= b < n ensures Split(a).AtMost(Split(b)) {
        SplitOrder(a, b);
      }
    } else {
      OrderBreaks();
      var last: nat := TWO_31 * NS_PER_S - 1;
      assert !Split(last).AtMost(Split(last + 1));
    }
  }

  /** The nanoseconds a stamp stands for. */
  ghost function Nanos(s: Stamp): int { s.sec * NS_PER_S + s.nanosec }

  lemma AtMostIsNanos(a: Stamp, b: Stamp)
    requires a.nanosec < NS_PER_S && b.nanosec < NS_PER_S
    ensures a.AtMost(b) <==> Nanos(a) <= Nanos(b)
  {
  }

  lemma SplitNanos(ns: nat)
    ensures Nanos(Split(ns)) == ns - TWO_32 * NS_PER_S * SplitWraps(ns)
    ensures Split(ns).nanosec < NS_PER_S
  {
    SplitParts(ns);
    hide Split, SplitWraps;
    assert ns == NS_PER_S * (ns / NS_PER_S) + ns % NS_PER_S;
  }

  /** Of two counts, however large, the stamps are in order if and only if the later count did
      not wrap more than the time between them makes up for. */
  lemma StampsInOrder(a: nat, b: nat)
    ensures Split(a).AtMost(Split(b)) <==> TWO_32 * NS_PER_S * (SplitWraps(b) - SplitWraps(a)) <= b - a
  {
    SplitNanos(a);
    SplitNanos(b);
    AtMostIsNanos(Split(a), Split(b));
    hide Split, SplitWraps, Nanos, Stamp.AtMost;
  }

  /** Less than 2^32 seconds apart, that is: if and only if both wrapped equally often. */
  lemma NearStampsInOrder(a: nat, b: nat)
    requires a <= b < a + TWO_32 * NS_PER_S
    ensures Split(a).AtMost(Split(b)) <==> SplitWraps(a) == SplitWraps(b)
  {
    StampsInOrder(a, b);
    assert a / NS_PER_S <= b / NS_PER_S;
    assert SplitWraps(a) <= SplitWraps(b);
    hide Split, SplitWraps;
  }

  /** The same of two clock readings, of any size and in any order. */
  lemma ReadingsInOrder(a: Timespec, b: Timespec)
    ensures Split(a.ToNs()).AtMost(Split(b.ToNs())) <==> LostNs(b) - LostNs(a) <= b.Exact() - a.Exact()
  {
    JoinLoses(a);
    JoinLoses(b);
    StampsInOrder(a.ToNs(), b.ToNs());
    hide Split, SplitWraps, JoinWraps, Timespec.ToNs, Timespec.Exact, Stamp.AtMost;
  }

  /** Two readings a nanosecond apart whose stamps are out of order. */
  lemma ReadingsOutOfOrder()
    ensures var a, b := Timespec(TWO_31 - 1, 999_999_999), Timespec(TWO_31, 0);
            b.Exact() == a.Exact() + 1 && !Split(a.ToNs()).AtMost(Split(b.ToNs()))
  {
    var a, b := Timespec(TWO_31 - 1, 999_999_999), Timespec(TWO_31, 0);
    ToNsExact(a);
    ToNsExact(b);
    OrderBreaks();
    hide Split, Timespec.ToNs;
  }
}
