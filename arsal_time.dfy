/**
 * The time abstraction layer of libARSAL: the TIMEVAL_TO_TIMESPEC and
 * TIMESPEC_TO_TIMEVAL conversion macros, and the documented contracts of
 * ARSAL_Time_TimevalEquals and ARSAL_Time_ComputeMsTimeDiff.
 *
 * All fields are mathematical integers; the C field widths are not modelled,
 * and the lemma TimevalToTimespecKeepsNormalized states the range in which the
 * multiplication by 1000 cannot overflow a 32-bit `long`.
 */
module ArsalTime {

  const NanosPerMicro: int := 1000
  const MicrosPerMilli: int := 1000
  const MicrosPerSecond: int := 1_000_000
  const NanosPerSecond: int := 1_000_000_000

  /** `struct timeval`: seconds and microseconds. */
  datatype Timeval = Timeval(sec: int, usec: int)

  /** `struct timespec`: seconds and nanoseconds. */
  datatype Timespec = Timespec(sec: int, nsec: int)

  /** The instant a timeval denotes, in microseconds. */
  function Micros(tv: Timeval): int {
    tv.sec * MicrosPerSecond + tv.usec
  }

  /** The instant a timespec denotes, in nanoseconds. */
  function Nanos(ts: Timespec): int {
    ts.sec * NanosPerSecond + ts.nsec
  }

  predicate NormalizedTimeval(tv: Timeval) {
    0 <= tv.usec < MicrosPerSecond
  }

  predicate NormalizedTimespec(ts: Timespec) {
    0 <= ts.nsec < NanosPerSecond
  }

  /**
   * C's `a / 1000` on integers: the quotient truncated toward zero (Dafny's
   * own `/` is Euclidean, which differs for negative dividends). Both macros
   * and the millisecond difference divide by 1000 only.
   */
  function TruncDiv1000(a: int): (q: int)
    ensures 0 <= a ==> 0 <= q * 1000 <= a < q * 1000 + 1000
    ensures a < 0 ==> q * 1000 - 1000 < a <= q * 1000 <= 0
  {
    if a >= 0 then a / 1000 else -((-a) / 1000)
  }

  /** C's `a % 1000`: the remainder has the sign of the dividend. */
  function TruncRem1000(a: int): (m: int)
    ensures 0 <= a ==> 0 <= m < 1000
    ensures a < 0 ==> -1000 < m <= 0
    ensures a == TruncDiv1000(a) * 1000 + m
  {
    a - TruncDiv1000(a) * 1000
  }

  /** TIMEVAL_TO_TIMESPEC: exact, the timespec denotes the same instant. */
  function TimevalToTimespec(tv: Timeval): (ts: Timespec)
    ensures ts.sec == tv.sec
    ensures Nanos(ts) == Micros(tv) * NanosPerMicro
  {
    Timespec(tv.sec, tv.usec * NanosPerMicro)
  }

  /**
   * TIMESPEC_TO_TIMEVAL: seconds are copied, nanoseconds are divided by 1000
   * with C's truncation, so the microseconds are the whole microseconds of the
   * nanosecond field, rounded toward zero.
   */
  function TimespecToTimeval(ts: Timespec): (tv: Timeval)
    ensures tv.sec == ts.sec
    ensures 0 <= ts.nsec ==> tv.usec * NanosPerMicro <= ts.nsec < tv.usec * NanosPerMicro + NanosPerMicro
    ensures ts.nsec < 0 ==> tv.usec * NanosPerMicro - NanosPerMicro < ts.nsec <= tv.usec * NanosPerMicro
  {
    Timeval(ts.sec, TruncDiv1000(ts.nsec))
  }

  /** timeval -> timespec -> timeval is the identity, for every timeval. */
  lemma TimevalRoundTrip(tv: Timeval)
    ensures TimespecToTimeval(TimevalToTimespec(tv)) == tv
  {
    var n := tv.usec * NanosPerMicro;
    if n >= 0 {
      assert tv.usec >= 0;
      assert n / NanosPerMicro == tv.usec;
    } else {
      assert tv.usec < 0;
      assert (-n) / NanosPerMicro == -tv.usec;
    }
  }

  /**
   * timespec -> timeval -> timespec keeps the seconds and loses the
   * sub-microsecond part: the nanoseconds come back rounded toward zero to a
   * multiple of 1000, off by less than 1000.
   */
  lemma TimespecRoundTripIsLossy(ts: Timespec)
    ensures TimevalToTimespec(TimespecToTimeval(ts)) == Timespec(ts.sec, ts.nsec - TruncRem1000(ts.nsec))
    ensures TimevalToTimespec(TimespecToTimeval(ts)).nsec % NanosPerMicro == 0
    ensures 0 <= ts.nsec ==> ts.nsec - NanosPerMicro < TimevalToTimespec(TimespecToTimeval(ts)).nsec <= ts.nsec
    ensures ts.nsec % NanosPerMicro == 0 <==> TimevalToTimespec(TimespecToTimeval(ts)) == ts
  {
    var q := TruncDiv1000(ts.nsec);
    assert (q * NanosPerMicro) % NanosPerMicro == 0;
    if ts.nsec % NanosPerMicro == 0 {
      if ts.nsec >= 0 {
        assert ts.nsec == (ts.nsec / NanosPerMicro) * NanosPerMicro;
      } else {
        assert (-ts.nsec) % NanosPerMicro == 0;
        assert -ts.nsec == ((-ts.nsec) / NanosPerMicro) * NanosPerMicro;
      }
    }
  }

  /**
   * A normalized timeval converts to a normalized timespec whose nanoseconds
   * fit in a signed 32-bit `long`, so the multiplication in
   * TIMEVAL_TO_TIMESPEC cannot overflow there.
   */
  lemma TimevalToTimespecKeepsNormalized(tv: Timeval)
    requires NormalizedTimeval(tv)
    ensures NormalizedTimespec(TimevalToTimespec(tv))
    ensures -0x8000_0000 <= TimevalToTimespec(tv).nsec < 0x8000_0000
  {
  }

  /** A normalized timespec converts to a normalized timeval. */
  lemma TimespecToTimevalKeepsNormalized(ts: Timespec)
    requires NormalizedTimespec(ts)
    ensures NormalizedTimeval(TimespecToTimeval(ts))
  {
  }

  /**
   * ARSAL_Time_TimevalEquals: 1 when both the seconds and the microseconds
   * are equal, 0 in all other cases.
   */
  function TimevalEquals(t1: Timeval, t2: Timeval): (r: int)
    ensures r == 0 || r == 1
    ensures r == 1 <==> t1.sec == t2.sec && t1.usec == t2.usec
  {
    if t1.sec == t2.sec && t1.usec == t2.usec then 1 else 0
  }

  /** On normalized timevals, TimevalEquals answers 1 exactly for the same instant. */
  lemma TimevalEqualsIsSameInstant(t1: Timeval, t2: Timeval)
    requires NormalizedTimeval(t1) && NormalizedTimeval(t2)
    ensures TimevalEquals(t1, t2) == 1 <==> Micros(t1) == Micros(t2)
  {
  }

  /**
   * ARSAL_Time_ComputeMsTimeDiff: the time from `start` to `end` in whole
   * milliseconds. The header fixes only the unit and the sign convention (a
   * negative result is an error; `end` should not be before `start`); the
   * rounding is this model's choice: the total microsecond difference divided
   * by 1000 with C's truncation toward zero.
   */
  function ComputeMsTimeDiff(start: Timeval, end: Timeval): (ms: int)
    ensures Micros(start) <= Micros(end) ==>
      ms * MicrosPerMilli <= Micros(end) - Micros(start) < ms * MicrosPerMilli + MicrosPerMilli
    ensures Micros(end) < Micros(start) ==>
      ms * MicrosPerMilli - MicrosPerMilli < Micros(end) - Micros(start) <= ms * MicrosPerMilli
  {
    TruncDiv1000(Micros(end) - Micros(start))
  }

  /**
   * The documented sign convention: when `end` is not before `start` the
   * result is non-negative, so a negative result only ever signals that the
   * two arguments were given in the wrong order.
   */
  lemma MsTimeDiffSign(start: Timeval, end: Timeval)
    ensures Micros(start) <= Micros(end) ==> ComputeMsTimeDiff(start, end) >= 0
    ensures ComputeMsTimeDiff(start, end) < 0 ==> Micros(end) < Micros(start)
    ensures ComputeMsTimeDiff(start, end) == 0 <==> -MicrosPerMilli < Micros(end) - Micros(start) < MicrosPerMilli
  {
  }

  /** Swapping the arguments negates the result (truncation is symmetric about zero). */
  lemma MsTimeDiffAntisymmetric(start: Timeval, end: Timeval)
    ensures ComputeMsTimeDiff(end, start) == -ComputeMsTimeDiff(start, end)
  {
    var d := Micros(end) - Micros(start);
    assert Micros(start) - Micros(end) == -d;
    if d < 0 {
      assert -(-d) == d;
    }
  }
}
