/**
  The bookkeeping of one retry episode: first-call-only counters, the time the
  next retry is due, and the end of the episode. Java `long` arithmetic is
  modelled on unbounded integers with the inputs bounded so nothing overflows;
  the clock is a parameter.
*/
module RetryLifeCycle {
  import opened Wrappers

  const LONG_MIN := -0x8000_0000_0000_0000
  const LONG_MAX := 0x7FFF_FFFF_FFFF_FFFF

  predicate IsLong(x: int) {
    LONG_MIN <= x <= LONG_MAX
  }

  /** The number of distinct `long` values. */
  const LONG_RANGE := 0x1_0000_0000_0000_0000

  /**
    Java `long` addition: the one `long` that differs from the exact sum by a
    multiple of 2^64; it is the exact sum whenever that fits.
  */
  function AddLong(a: int, b: int): (r: int)
    requires IsLong(a) && IsLong(b)
    ensures IsLong(r) && (r - (a + b)) % LONG_RANGE == 0
    ensures IsLong(a + b) ==> r == a + b
  {
    if a + b > LONG_MAX then a + b - LONG_RANGE
    else if a + b < LONG_MIN then a + b + LONG_RANGE
    else a + b
  }

  datatype TimeUnit = Nanoseconds | Microseconds | Milliseconds | Seconds | Minutes | Hours | Days

  /** The length of one unit in nanoseconds: the reference the conversion is checked against. */
  function NanosPerUnit(u: TimeUnit): (n: nat)
    ensures n > 0
  {
    match u
    case Nanoseconds => 1
    case Microseconds => 1_000
    case Milliseconds => 1_000_000
    case Seconds => 1_000_000_000
    case Minutes => 60_000_000_000
    case Hours => 3_600_000_000_000
    case Days => 86_400_000_000_000
  }

  /** The conversion of `period` cannot overflow a `long`. */
  predicate NoOverflow(period: int, unit: Option<TimeUnit>) {
    IsLong(period) && (period > 0 && unit.Some? ==> IsLong(period * NanosPerUnit(unit.value) / 1_000_000))
  }

  /**
    The retry period in milliseconds: zero when the period is not positive or
    there is no unit, otherwise the period in the unit, truncated for units
    shorter than a millisecond.
  */
  function PeriodMillis(period: int, unit: Option<TimeUnit>): (r: int)
    requires NoOverflow(period, unit)
    ensures r >= 0 && IsLong(r)
    ensures period <= 0 || unit.None? ==> r == 0
  {
    if period > 0 && unit.Some? then
      match unit.value
      case Nanoseconds => period / 1000 / 1000
      case Microseconds => period / 1000
      case Milliseconds => period
      case Seconds => period * 1000
      case Minutes => period * 60000
      case Hours => period * 3600000
      case Days => period * 24 * 3600000
    else 0
  }

  lemma DivDiv(p: nat)
    ensures p / 1000 / 1000 == p / 1_000_000
  {
    var q := p / 1000;
    var r := p % 1000;
    assert p == 1000 * q + r;
    var q2 := q / 1000;
    var r2 := q % 1000;
    assert q == 1000 * q2 + r2;
    assert p == 1_000_000 * q2 + (1000 * r2 + r);
    assert 0 <= 1000 * r2 + r < 1_000_000;
  }

  lemma MulDiv(p: nat, m: nat)
    ensures p * (m * 1_000_000) / 1_000_000 == p * m
  {
    assert p * (m * 1_000_000) == (p * m) * 1_000_000;
  }

  /** Every unit converts as the period's length in nanoseconds, truncated to whole milliseconds. */
  lemma PeriodMillisIsTruncatedNanos(period: int, u: TimeUnit)
    requires period > 0 && NoOverflow(period, Some(u))
    ensures PeriodMillis(period, Some(u)) == period * NanosPerUnit(u) / 1_000_000
  {
    match u
    case Nanoseconds => DivDiv(period);
    case Microseconds =>
      assert period * 1000 / 1_000_000 == period / 1000 by {
        var q := period / 1000;
        assert period == 1000 * q + period % 1000;
        assert period * 1000 == 1_000_000 * q + 1000 * (period % 1000);
      }
    case Milliseconds => MulDiv(period, 1);
    case Seconds => MulDiv(period, 1000);
    case Minutes => MulDiv(period, 60000);
    case Hours => MulDiv(period, 3600000);
    case Days => MulDiv(period, 86400000);
  }

  /** Sub-millisecond periods round down: the result is the largest whole number of milliseconds not above the period. */
  lemma SubMillisecondTruncates(period: int, u: TimeUnit)
    requires period > 0 && NoOverflow(period, Some(u)) && (u == Nanoseconds || u == Microseconds)
    ensures var r := PeriodMillis(period, Some(u));
      r * 1_000_000 <= period * NanosPerUnit(u) < (r + 1) * 1_000_000
  {
    PeriodMillisIsTruncatedNanos(period, u);
  }

  /** A longer period never converts to fewer milliseconds. */
  lemma PeriodMillisMonotonic(p1: int, p2: int, unit: Option<TimeUnit>)
    requires NoOverflow(p1, unit) && NoOverflow(p2, unit) && p1 <= p2
    ensures PeriodMillis(p1, unit) <= PeriodMillis(p2, unit)
  {
    if p1 > 0 && unit.Some? {
      var n := NanosPerUnit(unit.value);
      PeriodMillisIsTruncatedNanos(p1, unit.value);
      PeriodMillisIsTruncatedNanos(p2, unit.value);
      assert p1 * n <= p2 * n;
      DivMonotonic(p1 * n, p2 * n);
    }
  }

  lemma DivMonotonic(a: nat, b: nat)
    requires a <= b
    ensures a / 1_000_000 <= b / 1_000_000
  {
  }

  /** How `totalRetries` moves on one `startRetry`: it takes the argument only while it is still zero. */
  function KeepFirst(total: int, retryTimes: int): int {
    if total == 0 then retryTimes else total
  }

  /** The first non-zero value of `xs`, or zero. */
  function FirstNonZero(xs: seq<int>): int {
    if |xs| == 0 then 0 else if xs[0] != 0 then xs[0] else FirstNonZero(xs[1..])
  }

  /** `totalRetries` after a series of `startRetry` calls, starting from `total`. */
  function TotalAfter(total: int, calls: seq<int>): int
    decreases |calls|
  {
    if |calls| == 0 then total else TotalAfter(KeepFirst(total, calls[0]), calls[1..])
  }

  /** From a fresh record, `totalRetries` ends at the first non-zero argument ever passed. */
  lemma {:induction false} TotalRetriesRecordsFirst(calls: seq<int>)
    ensures TotalAfter(0, calls) == FirstNonZero(calls)
    decreases |calls|
  {
    if |calls| > 0 && calls[0] == 0 {
      TotalRetriesRecordsFirst(calls[1..]);
    } else if |calls| > 0 {
      TotalAfterFixed(calls[0], calls[1..]);
    }
  }

  /** Once non-zero, `totalRetries` never changes. */
  lemma {:induction false} TotalAfterFixed(total: int, calls: seq<int>)
    requires total != 0
    ensures TotalAfter(total, calls) == total
    decreases |calls|
  {
    if |calls| > 0 {
      TotalAfterFixed(total, calls[1..]);
    }
  }

  /** The record kept for one retry episode. */
  class LifeCycle {
    var totalRetries: int
    var retryTimes: int
    var async: bool
    var startRetryTs: int
    var endRetryTs: int
    var lastRetryTime: int
    var retryPeriod: int
    var timeUnit: Option<TimeUnit>
    var retryOp: Option<string>
    var success: bool

    constructor ()
      ensures totalRetries == 0 && retryTimes == 0 && !async
      ensures startRetryTs == 0 && endRetryTs == 0 && lastRetryTime == 0
      ensures retryPeriod == 0 && timeUnit == None && retryOp == None && !success
    {
      totalRetries, retryTimes, async := 0, 0, false;
      startRetryTs, endRetryTs, lastRetryTime := 0, 0, 0;
      retryPeriod, timeUnit, retryOp, success := 0, None, None, false;
    }

    /**
      One retry starts: the total and the start time are set on the first call
      only (the start time read from `firstClock`), the counter goes up by one,
      and the rest is overwritten, the last retry time read from `now`.
    */
    method StartRetry(retryTimes: int, async: bool, retryPeriod: int, timeUnit: Option<TimeUnit>,
                      retryOp: Option<string>, firstClock: int, now: int)
      modifies this
      ensures totalRetries == KeepFirst(old(totalRetries), retryTimes)
      ensures this.retryTimes == old(this.retryTimes) + 1
      ensures startRetryTs == if old(startRetryTs) == 0 then firstClock else old(startRetryTs)
      ensures this.async == async && lastRetryTime == now
      ensures this.retryPeriod == retryPeriod && this.timeUnit == timeUnit && this.retryOp == retryOp
      ensures endRetryTs == old(endRetryTs) && success == old(success)
    {
      if totalRetries == 0 {
        totalRetries := retryTimes;
      }
      this.retryTimes := this.retryTimes + 1;
      this.async := async;
      if startRetryTs == 0 {
        startRetryTs := firstClock;
      }
      lastRetryTime := now;
      this.retryPeriod := retryPeriod;
      this.timeUnit := timeUnit;
      this.retryOp := retryOp;
    }

    /** The current period in milliseconds. */
    function RetryPeriodMillis(): (r: int)
      reads this
      requires NoOverflow(retryPeriod, timeUnit)
      ensures r >= 0
      ensures retryPeriod > 0 && timeUnit.Some? ==> r == retryPeriod * NanosPerUnit(timeUnit.value) / 1_000_000
    {
      if retryPeriod > 0 && timeUnit.Some? then
        PeriodMillisIsTruncatedNanos(retryPeriod, timeUnit.value);
        PeriodMillis(retryPeriod, timeUnit)
      else PeriodMillis(retryPeriod, timeUnit)
    }

    /**
      When the next retry is due: one period after the last retry, as a `long`.
      It is never before the last retry unless the sum overflows, and then it
      wraps round to before it.
    */
    function NextRetryTimestamp(): (r: int)
      reads this
      requires NoOverflow(retryPeriod, timeUnit) && IsLong(lastRetryTime)
      ensures IsLong(r)
      ensures r < lastRetryTime <==> lastRetryTime + RetryPeriodMillis() > LONG_MAX
      ensures r >= lastRetryTime ==> r == lastRetryTime + RetryPeriodMillis()
      ensures retryPeriod <= 0 || timeUnit.None? ==> r == lastRetryTime
    {
      AddLong(lastRetryTime, RetryPeriodMillis())
    }

    /** The episode ends in success at `now`. */
    method Success(now: int)
      modifies this
      ensures endRetryTs == now && success
      ensures totalRetries == old(totalRetries) && retryTimes == old(retryTimes) && async == old(async)
      ensures startRetryTs == old(startRetryTs) && lastRetryTime == old(lastRetryTime)
      ensures retryPeriod == old(retryPeriod) && timeUnit == old(timeUnit) && retryOp == old(retryOp)
    {
      endRetryTs := now;
      success := true;
    }

    /** The episode ends with the budget used up at `now`; `success` is left as it was. */
    method ExceededRetries(retryTimes: int, now: int)
      modifies this
      ensures endRetryTs == now && success == old(success)
      ensures totalRetries == old(totalRetries) && this.retryTimes == old(this.retryTimes) && async == old(async)
      ensures startRetryTs == old(startRetryTs) && lastRetryTime == old(lastRetryTime)
      ensures retryPeriod == old(retryPeriod) && timeUnit == old(timeUnit) && retryOp == old(retryOp)
    {
      endRetryTs := now;
    }
  }

  /** The largest period in milliseconds, one millisecond after the epoch, wraps to the smallest `long`. */
  lemma NextRetryTimestampWraps(c: LifeCycle)
    requires c.retryPeriod == LONG_MAX && c.timeUnit == Some(Milliseconds) && c.lastRetryTime == 1
    ensures c.NextRetryTimestamp() == LONG_MIN
  {
    MulDiv(LONG_MAX, 1);
  }
}
