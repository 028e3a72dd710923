/** The periodic timer's setting: the interval in milliseconds split into
    seconds and nanoseconds with C's integer division and remainder, and used
    both as the first expiry and as the period. */
module Timer {
  import opened Types

  /** C's `/` on int: the quotient truncated toward zero. */
  function TruncDiv(a: int, b: int): (q: int)
    requires b > 0
    ensures a >= 0 ==> 0 <= q && q * b <= a < q * b + b
    ensures a < 0 ==> q <= 0 && q * b - b < a <= q * b
  {
    var n := if a >= 0 then a else -a;
    assert n == (n / b) * b + n % b && 0 <= n % b < b;
    if a >= 0 then n / b else -(n / b)
  }

  /** C's `%` on int: the remainder takes the sign of the dividend. */
  function TruncRem(a: int, b: int): (m: int)
    requires b > 0
    ensures a >= 0 ==> 0 <= m < b
    ensures a < 0 ==> -b < m <= 0
  {
    var n := if a >= 0 then a else -a;
    assert 0 <= n % b < b;
    if a >= 0 then n % b else -(n % b)
  }

  /** C's division identity: quotient times divisor plus remainder. */
  lemma TruncDivRem(a: int, b: int)
    requires b > 0
    ensures TruncDiv(a, b) * b + TruncRem(a, b) == a
    ensures a >= 0 ==> 0 <= TruncRem(a, b) < b && TruncDiv(a, b) >= 0
  {
  }

  datatype TimeSpec = TimeSpec(sec: int, nsec: int)

  datatype ITimerSpec = ITimerSpec(value: TimeSpec, interval: TimeSpec)

  /** A zero `it_value` disarms a timerfd instead of starting it. */
  predicate Armed(its: ITimerSpec)
  {
    its.value.sec != 0 || its.value.nsec != 0
  }

  /** The `itimerspec` built from `intervalMs`. */
  function IntervalTimer(intervalMs: int32): (its: ITimerSpec)
    ensures its.interval == its.value
    ensures its.value.sec * 1_000_000_000 + its.value.nsec == intervalMs * 1_000_000
    ensures intervalMs > 0 ==> 0 <= its.value.sec && 0 <= its.value.nsec < 1_000_000_000
    ensures intervalMs > 0 ==> Armed(its)
  {
    TruncDivRem(intervalMs, 1000);
    var value := TimeSpec(TruncDiv(intervalMs, 1000), TruncRem(intervalMs, 1000) * 1_000_000);
    ITimerSpec(value, value)
  }

  /** The split reads back as the same number of milliseconds. */
  lemma IntervalTimerRoundTrip(intervalMs: int32)
    requires intervalMs > 0
    ensures var v := IntervalTimer(intervalMs).value;
      v.sec * 1000 + v.nsec / 1_000_000 == intervalMs && v.nsec % 1_000_000 == 0
  {
    var v := IntervalTimer(intervalMs).value;
    TruncDivRem(intervalMs, 1000);
    assert v.nsec == TruncRem(intervalMs, 1000) * 1_000_000;
  }
}
