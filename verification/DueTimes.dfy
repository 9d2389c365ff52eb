/** When a claimed Reminder is due again: the saturating 64-bit arithmetic of
    `nextDueAt`, and the exact answer it computes. */
module DueTimes {
  import opened Basics

  const MAX_DURATION := 0x7FFF_FFFF_FFFF_FFFF
  const MIN_DURATION := -0x8000_0000_0000_0000

  /** `time.Duration`, in nanoseconds. */
  type Duration = d: int | MIN_DURATION <= d <= MAX_DURATION

  /** Two's-complement wrap-around, which is what an overflowing product would suffer. */
  function Wrapped(x: int): (d: Duration)
    ensures MIN_DURATION <= x <= MAX_DURATION ==> d == x
  {
    (x - MIN_DURATION) % 0x1_0000_0000_0000_0000 + MIN_DURATION
  }

  /** `Time.Sub` saturates. */
  function Sub(t: Time, u: Time): Duration {
    if t - u > MAX_DURATION then MAX_DURATION
    else if t - u < MIN_DURATION then MIN_DURATION
    else t - u
  }

  function FutureDueAt(now: Time, period: Duration): Time {
    if now + period > now then now + period else now + 1
  }

  function NextDueAt(dueAt: Time, period: Duration, now: Time): Time {
    if period <= 0 then ZERO_TIME
    else if dueAt > now then dueAt
    else
      var missed := Sub(now, dueAt) / period;
      if missed == MAX_DURATION then FutureDueAt(now, period)
      else if missed + 1 > MAX_DURATION / period then FutureDueAt(now, period)
      else
        var candidate := dueAt + Wrapped(period * (missed + 1));
        if candidate <= now then FutureDueAt(now, period) else candidate
  }

  /** How many periods after `dueAt` the first later tick lies. */
  function Periods(dueAt: Time, period: int, now: Time): nat
    requires period > 0 && dueAt <= now
  {
    (now - dueAt) / period + 1
  }

  lemma DivideBounds(a: nat, b: nat)
    requires b > 0
    ensures b * (a / b) <= a < b * (a / b + 1)
  {
    assert a == b * (a / b) + a % b;
    assert b * (a / b + 1) == b * (a / b) + b;
  }

  lemma ProductMonotone(p: nat, a: int, b: int)
    requires a <= b
    ensures p * a <= p * b
  {
  }

  /** `Periods` really is the least number of periods that passes `now`. */
  lemma PeriodsIsLeast(dueAt: Time, period: nat, now: Time, j: int)
    requires period > 0 && dueAt <= now
    ensures var k := Periods(dueAt, period, now);
      && dueAt + period * k > now
      && dueAt + period * (k - 1) <= now
      && (dueAt + period * j > now ==> k <= j)
  {
    DivideBounds(now - dueAt, period);
    var k := Periods(dueAt, period, now);
    if j <= k - 1 {
      ProductMonotone(period, j, k - 1);
    }
  }

  lemma FitsIffQuotient(period: nat, k: nat)
    requires period > 0
    ensures period * k <= MAX_DURATION <==> k <= MAX_DURATION / period
  {
    DivideBounds(MAX_DURATION, period);
    var q := MAX_DURATION / period;
    if k <= q { ProductMonotone(period, k, q); } else { ProductMonotone(period, q + 1, k); }
  }

  /** The exact answer for a due Reminder: the least tick after `now` when its
      offset fits 64 bits, and one period from now otherwise. The product never
      overflows, and the late fallback of the program is never taken. */
  lemma NextDueAtExact(dueAt: Time, period: Duration, now: Time)
    requires period > 0 && dueAt <= now
    ensures var k := Periods(dueAt, period, now);
      NextDueAt(dueAt, period, now) ==
      if period * k <= MAX_DURATION then dueAt + period * k else now + period
    ensures now < NextDueAt(dueAt, period, now) <= now + period
  {
    var k := Periods(dueAt, period, now);
    PeriodsIsLeast(dueAt, period, now, k);
    FitsIffQuotient(period, k);
    if now - dueAt <= MAX_DURATION {
      assert Sub(now, dueAt) / period == k - 1;
      if k - 1 == MAX_DURATION {
        ProductMonotone(k, 1, period);
      }
    } else {
      ProductMonotone(period, k - 1, k);
    }
    assert period * k == period * (k - 1) + period;
  }

  /** For every period: a Reminder that does not repeat is never due again, one that is not due
      yet stays as it is, and any other is due at the first of its ticks after `now`, if that
      lies within 64 bits of nanoseconds, or else one period from now. */
  lemma NextDueAtIs(dueAt: Time, period: Duration, now: Time)
    ensures period <= 0 ==> NextDueAt(dueAt, period, now) == ZERO_TIME
    ensures period > 0 && dueAt > now ==> NextDueAt(dueAt, period, now) == dueAt
    ensures period > 0 && dueAt <= now ==>
      var next := NextDueAt(dueAt, period, now);
      && now < next <= now + period
      && (next == now + period || exists k: nat :: next == dueAt + period * k)
  {
    if period > 0 && dueAt <= now {
      NextDueAtExact(dueAt, period, now);
      var k := Periods(dueAt, period, now);
      assert period * k <= MAX_DURATION ==> NextDueAt(dueAt, period, now) == dueAt + period * k;
    }
  }
}
