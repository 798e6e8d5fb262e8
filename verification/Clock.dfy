/** The clock: a system time taken once, and how far the steady clock has gone since. */
module Clock {
  const NANOS_PER_SECOND := 1_000_000_000
  const NANOS_PER_MILLI := 1_000_000
  const MILLIS_PER_SECOND := 1_000

  /** Division of C++: towards zero, with a remainder of the dividend's sign. */
  function Quotient(n: int, d: nat): int
    requires d > 0
  {
    if n >= 0 then n / d else -(-n / d)
  }

  function Remainder(n: int, d: nat): int
    requires d > 0
  {
    n - Quotient(n, d) * d
  }

  datatype TimeSpec = TimeSpec(sec: int, nano: int) {
    function Negated(): TimeSpec {
      TimeSpec(-sec, -nano)
    }

    function Plus(that: TimeSpec): TimeSpec {
      var n := nano + that.nano;
      TimeSpec(sec + that.sec + Quotient(n, NANOS_PER_SECOND), Remainder(n, NANOS_PER_SECOND))
    }

    function Minus(that: TimeSpec): TimeSpec {
      Plus(that.Negated())
    }

    function ToNano(): int {
      sec * NANOS_PER_SECOND + nano
    }

    function ToMilli(): int {
      sec * MILLIS_PER_SECOND + Quotient(nano, NANOS_PER_MILLI)
    }
  }

  /** A reading of a system clock. */
  predicate Normal(t: TimeSpec) {
    0 <= t.nano < NANOS_PER_SECOND
  }

  /** The time it is when the steady clock shows `steady`. */
  function Now(system: TimeSpec, base: TimeSpec, steady: TimeSpec): TimeSpec {
    system.Plus(steady.Minus(base))
  }

  class Time {
    var system: TimeSpec
    var steady: TimeSpec

    constructor (system: TimeSpec, steady: TimeSpec)
      ensures this.system == system && this.steady == steady
    {
      this.system, this.steady := system, steady;
    }

    method Reset(system: TimeSpec, steady: TimeSpec)
      modifies this
      ensures this.system == system && this.steady == steady
    {
      this.system, this.steady := system, steady;
    }

    function Here(reading: TimeSpec): TimeSpec
      reads this
    {
      Now(system, steady, reading)
    }

    /** Exactly the system time taken, plus what the steady clock has gone since. */
    method NowInNano(reading: TimeSpec) returns (t: int)
      ensures t == system.ToNano() + (reading.ToNano() - steady.ToNano())
    {
      var duration := reading.Minus(steady);
      NanoIsExact(system, steady, reading);
      t := system.Plus(duration).ToNano();
    }

    /** Within a millisecond of the exact time. */
    method NowInMilli(reading: TimeSpec) returns (t: int)
      requires Normal(system) && Normal(steady) && Normal(reading)
      ensures t == Here(reading).ToMilli()
      ensures -NANOS_PER_MILLI < t * NANOS_PER_MILLI - (system.ToNano() + reading.ToNano() - steady.ToNano())
              < NANOS_PER_MILLI
    {
      NanoIsExact(system, steady, reading);
      MilliIsNear(Here(reading));
      t := system.Plus(reading.Minus(steady)).ToMilli();
    }

    /** Within a second of it. */
    method NowInSec(reading: TimeSpec) returns (t: int)
      requires Normal(system) && Normal(steady) && Normal(reading)
      ensures t == Here(reading).sec
      ensures -NANOS_PER_SECOND < t * NANOS_PER_SECOND - (system.ToNano() + reading.ToNano() - steady.ToNano())
              < NANOS_PER_SECOND
    {
      NanoIsExact(system, steady, reading);
      NowNormal(system, steady, reading);
      t := system.Plus(reading.Minus(steady)).sec;
    }
  }

  lemma PlusIsExact(a: TimeSpec, b: TimeSpec)
    ensures a.Plus(b).ToNano() == a.ToNano() + b.ToNano()
    ensures -NANOS_PER_SECOND < a.Plus(b).nano < NANOS_PER_SECOND
  {
  }

  /** Whatever the readings. */
  lemma NanoIsExact(system: TimeSpec, base: TimeSpec, steady: TimeSpec)
    ensures Now(system, base, steady).ToNano() == system.ToNano() + (steady.ToNano() - base.ToNano())
  {
    PlusIsExact(steady, base.Negated());
    PlusIsExact(system, steady.Minus(base));
  }

  /** The nanoseconds of the time may be negative, and then no second has been carried over. */
  lemma NowNormal(system: TimeSpec, base: TimeSpec, steady: TimeSpec)
    requires Normal(system) && Normal(base) && Normal(steady)
    ensures var n := system.nano + steady.nano - base.nano; var t := Now(system, base, steady);
            && -NANOS_PER_SECOND < n < 2 * NANOS_PER_SECOND
            && t.sec == system.sec + steady.sec - base.sec + (if n >= NANOS_PER_SECOND then 1 else 0)
            && t.nano == n - (if n >= NANOS_PER_SECOND then NANOS_PER_SECOND else 0)
  {
    var d := steady.Minus(base);
    assert d == TimeSpec(steady.sec - base.sec, steady.nano - base.nano);
  }

  /** Milliseconds are rounded down where the nanoseconds are not negative, and up where they are. */
  lemma MilliIsNear(t: TimeSpec)
    ensures t.nano >= 0 ==> t.ToMilli() == t.ToNano() / NANOS_PER_MILLI
    ensures t.nano < 0 ==> t.ToMilli() == -(-t.ToNano() / NANOS_PER_MILLI)
    ensures -NANOS_PER_MILLI < t.ToMilli() * NANOS_PER_MILLI - t.ToNano() < NANOS_PER_MILLI
  {
  }

  /** None of the three units ever goes back, although the direction of rounding changes back and forth. */
  lemma NeverBackwards(system: TimeSpec, base: TimeSpec, before: TimeSpec, after: TimeSpec)
    requires Normal(system) && Normal(base) && Normal(before) && Normal(after)
    requires before.ToNano() <= after.ToNano()
    ensures var s, t := Now(system, base, before), Now(system, base, after);
            s.ToNano() <= t.ToNano() && s.ToMilli() <= t.ToMilli() && s.sec <= t.sec
  {
    NanoIsExact(system, base, before);
    NanoIsExact(system, base, after);
    NowNormal(system, base, before);
    NowNormal(system, base, after);
    MilliMonotone(Now(system, base, before), Now(system, base, after));
  }

  lemma MilliMonotone(s: TimeSpec, t: TimeSpec)
    requires s.ToNano() <= t.ToNano() && s.sec <= t.sec
    requires -NANOS_PER_SECOND < s.nano < NANOS_PER_SECOND && -NANOS_PER_SECOND < t.nano < NANOS_PER_SECOND
    ensures s.ToMilli() <= t.ToMilli()
  {
    MilliIsNear(s);
    MilliIsNear(t);
  }

  /** Rounding does change: half a millisecond before the second, the time is already the full second. */
  lemma RoundsUpBeforeTheSecond()
    ensures var t := Now(TimeSpec(10, 0), TimeSpec(5, 500_000), TimeSpec(6, 0));
            t == TimeSpec(11, -500_000) && t.ToMilli() == 11_000 && t.ToNano() / NANOS_PER_MILLI == 10_999
  {
    hide Now;
    NowNormal(TimeSpec(10, 0), TimeSpec(5, 500_000), TimeSpec(6, 0));
    assert Quotient(-500_000, NANOS_PER_MILLI) == 0;
  }
}
