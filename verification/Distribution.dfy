/** Preparing the funding of a distribution, and what has accrued by the deadline it is given. */
module Distribution {
  import opened Common

  type Millis = int

  /** Amounts in units of 1e-10. */
  datatype Plan = Plan(
    start: Millis,
    end: Option<Millis>,
    periodSeconds: nat,
    perPeriod: nat,
    instrument: string,
    totalFunded: nat,
    totalSettled: nat,
    funded: bool
  ) {
    /** What creating a distribution checks. */
    predicate Valid() {
      periodSeconds > 0 && perPeriod > 0
    }

    function PeriodMillis(): nat {
      periodSeconds * 1000
    }
  }

  datatype Asked = Asked(gross: nat, requestedAt: Millis, deadline: Millis, iteration: Option<seq<(string, nat)>>)

  datatype Outcome =
    | Prepared(commitment: nat)
    | AlreadyFunded
    | NotOnePeriod
    | DeadlineNotAfterRequest
    | WrongInstruments
    | NotWholePeriods
    | NoPeriods
    | ExceedsSchedule
    | DeadlineBeforeRunway

  /** Whole periods between start and at, capped at the end, times the amount of one. */
  function AccruedGross(p: Plan, at: Millis): nat
    requires p.Valid()
  {
    var effective := if p.end.Some? then Min(at, p.end.value) else at;
    p.perPeriod * Max(0, (effective - p.start) / p.PeriodMillis())
  }

  function Ceil(n: nat, d: nat): nat
    requires d > 0
  {
    (n + d - 1) / d
  }

  lemma FloorReaches(x: int, d: nat, k: int)
    requires d > 0
    ensures x / d >= k <==> x >= k * d
  {
    var q := x / d;
    assert d * (q - k) == q * d - k * d;
    MultipleIsFar(d, q - k);
  }

  lemma CeilWithin(n: nat, d: nat, k: int)
    requires d > 0
    ensures Ceil(n, d) <= k <==> n <= k * d
  {
    FloorReaches(n + d - 1, d, k + 1);
    assert (k + 1) * d == k * d + d;
  }

  /** A total is accrued by an instant exactly when the whole periods that cover it are over and within the schedule. */
  lemma AccruedReachesIff(p: Plan, at: Millis, total: nat)
    requires p.Valid() && total > 0
    ensures var due := p.start + Ceil(total, p.perPeriod) * p.PeriodMillis();
            AccruedGross(p, at) >= total <==> at >= due && (p.end.Some? ==> p.end.value >= due)
  {
    var effective := if p.end.Some? then Min(at, p.end.value) else at;
    var k := Ceil(total, p.perPeriod);
    var periods := (effective - p.start) / p.PeriodMillis();
    FloorReaches(effective - p.start, p.PeriodMillis(), k);
    CeilWithin(total, p.perPeriod, Max(0, periods));
    CeilWithin(total, p.perPeriod, 0);
    assert p.perPeriod * Max(0, periods) == Max(0, periods) * p.perPeriod;
  }

  /** The schedule's total covers what is funded exactly when the end is not before the last funded period is due. */
  lemma ScheduleCoversIff(p: Plan, total: nat)
    requires p.Valid() && p.end.Some? && total > 0
    ensures total <= p.perPeriod * ((p.end.value - p.start) / p.PeriodMillis())
            <==> p.end.value >= p.start + Ceil(total, p.perPeriod) * p.PeriodMillis()
  {
    var s := (p.end.value - p.start) / p.PeriodMillis();
    CeilWithin(total, p.perPeriod, s);
    FloorReaches(p.end.value - p.start, p.PeriodMillis(), Ceil(total, p.perPeriod));
    assert p.perPeriod * s == s * p.perPeriod;
  }

  /** What a request commits to: one period, or a whole number of them in the distribution's own instrument. */
  function Commitment(p: Plan, a: Asked): (c: Option<nat>)
    requires p.Valid()
  {
    if a.iteration.None? then Some(p.perPeriod)
    else
      var es := a.iteration.value;
      if |es| == 1 && es[0].0 == p.instrument && es[0].1 % p.perPeriod == 0 && es[0].1 > 0 then Some(es[0].1) else None
  }

  /** A commitment is a whole number of periods, at least one, of the distribution's instrument and of no other. */
  lemma CommitmentIs(p: Plan, a: Asked, n: nat)
    requires p.Valid()
    ensures Commitment(p, a) == Some(n) <==>
              && (exists k: nat :: k >= 1 && n == k * p.perPeriod)
              && (if a.iteration.None? then n == p.perPeriod else a.iteration.value == [(p.instrument, n)])
  {
    var d := p.perPeriod;
    if Commitment(p, a) == Some(n) {
      if a.iteration.None? {
        assert n == 1 * d;
      } else {
        var k := n / d;
        assert n == k * d + n % d;
        assert n == k * d && k >= 1;
      }
    }
    if k: nat :| k >= 1 && n == k * d {
      MultipleIsFar(d, k);
      MultipleHasNoRest(k, d);
    }
  }

  lemma MultipleHasNoRest(k: nat, d: nat)
    requires d > 0
    ensures (k * d) % d == 0
  {
    QuotientIs(d, k, 0);
    assert k * d == d * ((k * d) / d) + (k * d) % d;
  }

  /**
   * A request is prepared exactly when the distribution holds no unsettled funding, the request is for one period,
   * its commitment is proper, and the deadline is after the request and late enough for everything funded,
   * commitment included, to have accrued by it.
   */
  method PrepareFunding(p: Plan, a: Asked) returns (r: Outcome)
    requires p.Valid()
    ensures r.Prepared? <==>
              && !p.funded && p.totalFunded == p.totalSettled && a.gross == p.perPeriod
              && a.requestedAt < a.deadline && Commitment(p, a).Some?
              && AccruedGross(p, a.deadline) >= p.totalFunded + Commitment(p, a).value
    ensures r.Prepared? ==> Commitment(p, a) == Some(r.commitment)
    ensures r.ExceedsSchedule? || r.DeadlineBeforeRunway? ==>
              Commitment(p, a).Some? && AccruedGross(p, a.deadline) < p.totalFunded + Commitment(p, a).value
  {
    if p.funded || p.totalFunded - p.totalSettled != 0 {
      return AlreadyFunded;
    }
    if a.gross != p.perPeriod {
      return NotOnePeriod;
    }
    if a.deadline <= a.requestedAt {
      return DeadlineNotAfterRequest;
    }
    var committed := p.perPeriod;
    if a.iteration.Some? {
      var entries := a.iteration.value;
      if |entries| != 1 || entries[0].0 != p.instrument {
        return WrongInstruments;
      }
      if entries[0].1 % p.perPeriod != 0 {
        return NotWholePeriods;
      }
      if entries[0].1 <= 0 {
        return NoPeriods;
      }
      committed := entries[0].1;
    }
    var total := p.totalFunded + committed;
    AccruedReachesIff(p, a.deadline, total);
    if p.end.Some? {
      ScheduleCoversIff(p, total);
      var scheduled := (p.end.value - p.start) / p.PeriodMillis();
      if total > p.perPeriod * scheduled {
        return ExceedsSchedule;
      }
    }
    var lastFundedDueAt := p.start + Ceil(total, p.perPeriod) * p.PeriodMillis();
    if lastFundedDueAt > a.requestedAt && a.deadline < lastFundedDueAt {
      return DeadlineBeforeRunway;
    }
    return Prepared(committed);
  }
}
