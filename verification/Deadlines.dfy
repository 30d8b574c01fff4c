/** Deadline arithmetic on (seconds, nanoseconds) pairs, as the scheduler does it.

    A time-out is a number of nanoseconds.  The code adds it to a clock reading with a
    subtracting loop and normalises only when the nanosecond part is strictly above one
    second, so a deadline may carry a nanosecond part of exactly 10^9. */
module Deadlines {

  const ONE_SECOND: int := 1_000_000_000
  const NO_TIMEOUT: int := -1

  datatype Timespec = Timespec(sec: int, nsec: int)

  /** What `clock_gettime` may return. */
  type ClockReading = t: Timespec | 0 <= t.nsec < 1_000_000_000 witness Timespec(0, 0)

  /** The instant a (possibly un-normalised) pair stands for. */
  function Nanos(t: Timespec): (n: int)
    ensures n == t.sec * 1_000_000_000 + t.nsec
  {
    t.sec * ONE_SECOND + t.nsec
  }

  /** The expiry test of the dispatcher: lexicographic, on the raw fields. */
  predicate Expired(now: ClockReading, deadline: Timespec) {
    || now.sec > deadline.sec
    || (now.sec == deadline.sec && now.nsec >= deadline.nsec)
  }

  /** Whole seconds that the subtracting loop moves out of a time-out; it stops at 10^9, not below it. */
  function WholeSeconds(timeOut: nat): (q: nat)
    ensures timeOut == 0 || 0 < timeOut - q * ONE_SECOND <= ONE_SECOND
    ensures timeOut == 0 ==> q == 0
  {
    if timeOut > ONE_SECOND then 1 + WholeSeconds(timeOut - ONE_SECOND) else 0
  }

  /** The deadline for a time-out armed at `now`.  Arming is exact, keeps the nanosecond part within
      [0, 10^9], and the two parts it adds stay below 2^31. */
  function Deadline(now: ClockReading, timeOut: nat): (d: Timespec)
    ensures d.sec * 1_000_000_000 + d.nsec == now.sec * 1_000_000_000 + now.nsec + timeOut
    ensures Nanos(d) == Nanos(now) + timeOut
    ensures 0 <= d.nsec <= 1_000_000_000
    ensures now.nsec + (timeOut - WholeSeconds(timeOut) * ONE_SECOND) < 0x8000_0000
  {
    var q := WholeSeconds(timeOut);
    var nsec := now.nsec + (timeOut - q * ONE_SECOND);
    if nsec > ONE_SECOND then Timespec(now.sec + q + 1, nsec - ONE_SECOND)
    else Timespec(now.sec + q, nsec)
  }

  /** The lexicographic test is the numeric one, even for a nanosecond part of exactly 10^9. */
  lemma ExpiredIsNumeric(now: ClockReading, deadline: Timespec)
    requires 0 <= deadline.nsec <= 1_000_000_000
    ensures Expired(now, deadline) <==> Nanos(now) >= Nanos(deadline)
    ensures Expired(now, deadline) <==>
      now.sec * 1_000_000_000 + now.nsec >= deadline.sec * 1_000_000_000 + deadline.nsec
  {
  }

  /** The range [0, 10^9] is exactly what the lexicographic test needs: outside it some reading is misjudged. */
  lemma ExpiredIsNumericIff(deadline: Timespec)
    ensures (forall now: ClockReading :: Expired(now, deadline) <==> Nanos(now) >= Nanos(deadline))
       <==> 0 <= deadline.nsec <= 1_000_000_000
  {
    if 0 <= deadline.nsec <= ONE_SECOND {
      forall now: ClockReading
        ensures Expired(now, deadline) <==> Nanos(now) >= Nanos(deadline)
      {
        ExpiredIsNumeric(now, deadline);
      }
    } else if deadline.nsec < 0 {
      var now: ClockReading := Timespec(deadline.sec - 1, ONE_SECOND - 1);
      assert Nanos(now) >= Nanos(deadline) && !Expired(now, deadline);
    } else {
      var now: ClockReading := Timespec(deadline.sec + 1, 0);
      assert Expired(now, deadline) && Nanos(now) < Nanos(deadline);
    }
  }

  /** What the two constants of the header are worth, in nanoseconds. */
  lemma HeaderConstants()
    ensures ONE_SECOND == 1_000_000_000 && NO_TIMEOUT == -1
  {
  }
}
