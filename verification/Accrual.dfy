/** Stepped accrual of a direct-payment stream and the amount one settle may pay. */
module Accrual {
  import opened Common

  type Millis = int

  datatype Cadence = Second | Minute | Hourly | Daily
  datatype ArrearsPolicy = CatchUp | SkipMissed

  datatype Agreement = Agreement(
    cadence: Cadence,
    rate: nat,
    effectiveFrom: Millis,
    termEnd: Option<Millis>,
    policy: ArrearsPolicy,
    stopped: bool)

  function PeriodMs(c: Cadence): nat {
    match c
    case Second => 1000
    case Minute => 60000
    case Hourly => 3600000
    case Daily => 86400000
  }

  /** Whole periods since the start, capped at the end of the term, at the agreed rate. */
  function Accrued(a: Agreement, now: Millis): nat {
    var period := PeriodMs(a.cadence);
    var elapsed := (if a.termEnd.Some? then Min(now, a.termEnd.value) else now) - a.effectiveFrom;
    if elapsed < period then 0 else elapsed / period * a.rate
  }

  function Due(a: Agreement, settled: int, now: Millis): nat {
    if a.stopped then 0 else
      var arrears := Accrued(a, now) - settled;
      if arrears <= 0 then 0
      else if a.policy.CatchUp? then arrears
      else Min(arrears, a.rate)
  }

  lemma QuotientMonotone(m: int, n: int, d: nat)
    requires 0 < d && m <= n
    ensures m / d <= n / d
  {
    MultipleIsFar(d, m / d - n / d);
    assert d * (m / d - n / d) == (m - m % d) - (n - n % d);
  }

  lemma ProductMonotone(p: nat, q: nat, r: nat)
    requires p <= q
    ensures p * r <= q * r
  {
    assert q * r == p * r + (q - p) * r;
  }

  lemma AccruedMonotone(a: Agreement, t: Millis, u: Millis)
    requires t <= u
    ensures Accrued(a, t) <= Accrued(a, u)
  {
    var period := PeriodMs(a.cadence);
    var e := (if a.termEnd.Some? then Min(t, a.termEnd.value) else t) - a.effectiveFrom;
    var f := (if a.termEnd.Some? then Min(u, a.termEnd.value) else u) - a.effectiveFrom;
    if period <= e {
      QuotientMonotone(e, f, period);
      ProductMonotone(e / period, f / period, a.rate);
    }
  }

  // ----- what the accrual is -----

  /** A minute is sixty seconds, an hour sixty minutes, a day twenty-four hours. */
  lemma PeriodsNest()
    ensures PeriodMs(Second) == 1000
    ensures PeriodMs(Minute) == 60 * PeriodMs(Second)
    ensures PeriodMs(Hourly) == 60 * PeriodMs(Minute)
    ensures PeriodMs(Daily) == 24 * PeriodMs(Hourly)
  {
  }

  /** From the end of the term on nothing more accrues. */
  lemma AccruedStopsAtTermEnd(a: Agreement, now: Millis)
    requires a.termEnd.Some? && now >= a.termEnd.value
    ensures Accrued(a, now) == Accrued(a, a.termEnd.value)
  {
  }

  /** The instant up to which a stream accrues. */
  predicate AccruesUntil(a: Agreement, now: Millis, stop: Millis) {
    stop <= now && (a.termEnd.Some? ==> stop <= a.termEnd.value) && (stop == now || a.termEnd == Some(stop))
  }

  /** After k whole periods, and before the next is over, k rates have accrued; before the first is over, nothing. */
  lemma AccruedCountsPeriods(a: Agreement, now: Millis, stop: Millis, k: nat)
    requires AccruesUntil(a, now, stop)
    ensures a.effectiveFrom + k * PeriodMs(a.cadence) <= stop < a.effectiveFrom + (k + 1) * PeriodMs(a.cadence) ==>
              Accrued(a, now) == k * a.rate
    ensures stop < a.effectiveFrom + PeriodMs(a.cadence) ==> Accrued(a, now) == 0
  {
    var period := PeriodMs(a.cadence);
    var elapsed := stop - a.effectiveFrom;
    assert (k + 1) * period == k * period + period;
    if k * period <= elapsed < (k + 1) * period {
      QuotientIs(period, k, elapsed - k * period);
      if k > 0 {
        ProductMonotone(1, k, period);
      }
    }
  }

  /** Where one settle that lands at once brings the total: all that accrued, or one rate further, but never back. */
  function Target(a: Agreement, settled: int, now: Millis): int {
    Max(settled, if a.policy.CatchUp? then Accrued(a, now) else Min(Accrued(a, now), settled + a.rate))
  }

  /** A running stream is due exactly what brings its total there. */
  lemma DueReachesTarget(a: Agreement, settled: int, now: Millis)
    requires !a.stopped
    ensures settled + Due(a, settled, now) == Target(a, settled, now)
  {
  }

  // ----- paying whatever is due, each payment landing at once -----

  function SettleAll(a: Agreement, settled: int, times: seq<Millis>): int {
    if |times| == 0 then settled
    else
      var before := SettleAll(a, settled, times[..|times| - 1]);
      before + Due(a, before, times[|times| - 1])
  }

  ghost predicate NonDecreasing(times: seq<Millis>) {
    forall i, j :: 0 <= i <= j < |times| ==> times[i] <= times[j]
  }

  /** Catch-up payments telescope: however often settle runs, they total the accrual at its last run. */
  lemma {:induction false} CatchUpTelescopes(a: Agreement, settled: int, times: seq<Millis>)
    requires a.policy.CatchUp? && !a.stopped && |times| > 0 && NonDecreasing(times)
    requires settled <= Accrued(a, times[0])
    ensures SettleAll(a, settled, times) == Accrued(a, times[|times| - 1])
  {
    var n := |times| - 1;
    if n > 0 {
      CatchUpTelescopes(a, settled, times[..n]);
      AccruedMonotone(a, times[n - 1], times[n]);
    } else {
      assert times[..0] == [];
    }
  }

  /**
   * Skip-missed caps a payment but lets no window lapse: n settles at or after t pay n periods,
   * or everything accrued by t.
   */
  lemma {:induction false} SkipMissedNeverLapses(a: Agreement, settled: int, times: seq<Millis>, t: Millis)
    requires a.policy.SkipMissed? && !a.stopped
    requires forall i :: 0 <= i < |times| ==> t <= times[i]
    ensures SettleAll(a, settled, times) >= Min(Accrued(a, t), settled + |times| * a.rate)
  {
    if |times| > 0 {
      var n := |times| - 1;
      SkipMissedNeverLapses(a, settled, times[..n], t);
      AccruedMonotone(a, t, times[n]);
      assert (n + 1) * a.rate == n * a.rate + a.rate;
    }
  }

  /** A stopped stream is never due, and no policy ever pays past the accrual. */
  lemma DueWithinAccrual(a: Agreement, settled: int, now: Millis)
    ensures Due(a, settled, now) > 0 ==> !a.stopped && settled + Due(a, settled, now) <= Accrued(a, now)
  {
  }
}
