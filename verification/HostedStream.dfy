/** The stored state of one hosted stream, changed in place by the settle path. */
module HostedStream {
  import opened Common
  import opened Accrual
  import opened HostedSettle

  /** What a settle pays: `force` allows one period when nothing is due, `requested` is topped at what is. */
  function Plan(a: Agreement, settled: int, now: Millis, force: bool, requested: Option<nat>): nat {
    if a.stopped then 0
    else
      var due := Due(a, settled, now);
      if requested.Some? then Min(requested.value, Max(due, if force then a.rate else 0))
      else if due <= 0 && force then a.rate
      else due
  }

  /** Without force a settle never pays past the accrual, whatever amount is asked for. */
  lemma UnforcedPlanWithinAccrual(a: Agreement, settled: int, now: Millis, requested: Option<nat>)
    ensures settled + Plan(a, settled, now, false, requested) <= Max(settled, Accrued(a, now))
  {
    DueWithinAccrual(a, settled, now);
  }

  /**
   * What a settle pays, from where it has to bring the total. Unforced and unasked it brings it exactly there; a
   * request is paid up to that; force makes it at least one period, or allows a request of up to one.
   */
  lemma PlanReachesTarget(a: Agreement, settled: int, now: Millis, force: bool, requested: Option<nat>)
    requires !a.stopped
    ensures var due := Target(a, settled, now) - settled;
            && (!force && requested.None? ==> settled + Plan(a, settled, now, force, requested) == Target(a, settled, now))
            && (!force && requested.Some? ==> Plan(a, settled, now, force, requested) == Min(requested.value, due))
            && (force && requested.None? ==> Plan(a, settled, now, force, requested) == if due == 0 then a.rate else due)
            && (force && requested.Some? ==> Plan(a, settled, now, force, requested) == Min(requested.value, Max(due, a.rate)))
  {
    DueReachesTarget(a, settled, now);
  }

  /** With a total that is not negative, an ordinary settle has something to pay exactly when more accrued than is settled. */
  lemma PaysExactlyWhenAccrued(a: Agreement, settled: int, now: Millis)
    requires !a.stopped && settled >= 0
    ensures Plan(a, settled, now, false, None) > 0 <==> Accrued(a, now) > settled
  {
    RatePositiveIfAccrued(a, now);
  }

  lemma RatePositiveIfAccrued(a: Agreement, now: Millis)
    ensures Accrued(a, now) > 0 ==> a.rate > 0
  {
    if a.rate == 0 {
      assert forall n: nat :: n * 0 == 0;
    }
  }

  /** The protocol submits the amount that is planned, under the attempt that is planned, and nothing otherwise. */
  lemma PlannedIsSubmitted(a: Agreement, s: System, requested: Option<nat>)
    ensures var amount := Plan(a.(stopped := s.stopped), s.disk.settled, s.now, false, requested);
            && (Enabled(a, s, Submit(requested)) <==> s.phase.Idle? && !HasPending(s.disk) && amount > 0)
            && ApplySubmit(a, s, requested).phase.sub.amount == amount
            && ApplySubmit(a, s, requested).phase.sub.attempt == Next(s.disk)
  {
    assert Plan(a.(stopped := s.stopped), s.disk.settled, s.now, false, requested) == DueNow(a, s, requested);
  }

  /** What force alone adds: the rate, asked for or not, when the due amount does not already decide. */
  function Forced(a: Agreement, settled: int, now: Millis, requested: Option<nat>): nat {
    if requested.Some? then Min(requested.value, a.rate)
    else if Due(a, settled, now) == 0 then a.rate
    else 0
  }

  /** A forced settle pays past the accrual exactly when what force adds is more than what has accrued and is not settled. */
  lemma ForcedPlanOverrunsIff(a: Agreement, settled: int, now: Millis, force: bool, requested: Option<nat>)
    ensures var left := Max(0, Accrued(a, now) - settled);
            Plan(a, settled, now, force, requested) > left <==> !a.stopped && force && Forced(a, settled, now, requested) > left
  {
    DueWithinAccrual(a, settled, now);
  }

  /** The overrun is at most one period of a stream within its accrual, whatever is asked for. */
  lemma ForcedPlanOverrunsByAtMostOnePeriod(a: Agreement, settled: int, now: Millis, force: bool, requested: Option<nat>)
    ensures Plan(a, settled, now, force, requested) <= Max(0, Accrued(a, now) - settled) + a.rate
  {
    DueWithinAccrual(a, settled, now);
  }

  /** With something due: four of ten are settled, six are due, and a forced settle of ten pays ten. */
  lemma PartlyDueIsOverrun()
    ensures var a := Agreement(Second, 10, 0, None, CatchUp, false);
            && Accrued(a, 1000) == 10 && Due(a, 4, 1000) == 6
            && Plan(a, 4, 1000, true, Some(10)) == 10 && 4 + Plan(a, 4, 1000, true, Some(10)) == 14
  {
  }

  /** n settles in a row at one instant, each paid at once. */
  function ForceMany(a: Agreement, settled: int, now: Millis, n: nat): int {
    if n == 0 then settled
    else
      var before := ForceMany(a, settled, now, n - 1);
      before + Plan(a, before, now, true, None)
  }

  /** Forced settles have no bound: once everything is settled, n of them at one instant overrun by n periods. */
  lemma {:induction false} ForcedSettlesAddUp(a: Agreement, settled: int, now: Millis, n: nat)
    requires !a.stopped && settled >= Accrued(a, now)
    ensures ForceMany(a, settled, now, n) == settled + n * a.rate
  {
    if n > 0 {
      ForcedSettlesAddUp(a, settled, now, n - 1);
      OnePeriodMore(n - 1, a.rate);
    }
  }

  lemma OnePeriodMore(n: nat, rate: nat)
    ensures (n + 1) * rate == n * rate + rate && n * rate >= 0
  {
  }

  // ----- recovering offers whose record was lost -----

  /** Track each on-ledger offer the file does not know; the cycle counts the rows and the recovered rows again. */
  function RecoverFrom(st: Stream, recovered: nat, found: seq<(OfferId, nat)>): Stream
    decreases |found|
  {
    if |found| == 0 then st
    else if exists i :: 0 <= i < |st.records| && st.records[i].offer == found[0].0 then RecoverFrom(st, recovered, found[1..])
    else
      var r := Record(st.cycles + |st.records| + recovered + 1, found[0].1, found[0].0, Pending);
      RecoverFrom(st.(records := st.records + [r]), recovered + 1, found[1..])
  }

  /** The found offers no record names, each once. */
  function Unknown(records: seq<Record>, found: seq<(OfferId, nat)>): seq<(OfferId, nat)>
    decreases |found|
  {
    if |found| == 0 then []
    else if exists i :: 0 <= i < |records| && records[i].offer == found[0].0 then Unknown(records, found[1..])
    else [found[0]] + Unknown(records + [Record(0, found[0].1, found[0].0, Pending)], found[1..])
  }

  /** Recovered offers as records, each two cycles after the one before. */
  function Numbered(cycle: nat, offers: seq<(OfferId, nat)>): seq<Record> {
    seq(|offers|, j requires 0 <= j < |offers| => Record(cycle + 2 * j, offers[j].1, offers[j].0, Pending))
  }

  lemma UnknownSame(xs: seq<Record>, ys: seq<Record>, found: seq<(OfferId, nat)>)
    requires |xs| == |ys| && forall i :: 0 <= i < |xs| ==> xs[i].offer == ys[i].offer
    ensures Unknown(xs, found) == Unknown(ys, found)
    decreases |found|
  {
    if |found| > 0 {
      if exists i :: 0 <= i < |xs| && xs[i].offer == found[0].0 {
        UnknownSame(xs, ys, found[1..]);
      } else {
        var r := Record(0, found[0].1, found[0].0, Pending);
        UnknownSame(xs + [r], ys + [r], found[1..]);
      }
    }
  }

  /** Whatever is found, the offers no record names are appended in order, and the j-th is numbered 2 * j cycles too late. */
  lemma {:induction false} RecoveryNumbers(st: Stream, recovered: nat, found: seq<(OfferId, nat)>)
    ensures RecoverFrom(st, recovered, found).records
            == st.records + Numbered(st.cycles + |st.records| + recovered + 1, Unknown(st.records, found))
    ensures RecoverFrom(st, recovered, found).(records := st.records) == st
    decreases |found|
  {
    if |found| == 0 {
      assert Numbered(st.cycles + |st.records| + recovered + 1, []) == [];
    } else if exists i :: 0 <= i < |st.records| && st.records[i].offer == found[0].0 {
      RecoveryNumbers(st, recovered, found[1..]);
    } else {
      var cycle := st.cycles + |st.records| + recovered + 1;
      var r := Record(cycle, found[0].1, found[0].0, Pending);
      var st' := st.(records := st.records + [r]);
      RecoveryNumbers(st', recovered + 1, found[1..]);
      UnknownSame(st'.records, st.records + [r.(cycle := 0)], found[1..]);
      var rest := Unknown(st'.records, found[1..]);
      assert Unknown(st.records, found) == [found[0]] + rest;
      assert Numbered(cycle, [found[0]] + rest) == [r] + Numbered(cycle + 2, rest);
    }
  }

  /** All records of one stream that are pending are withdrawn. */
  function ReleaseAll(records: seq<Record>): seq<Record> {
    seq(|records|, i requires 0 <= i < |records| =>
      if records[i].status.Pending? then records[i].(status := Withdrawn) else records[i])
  }

  lemma {:induction false} CountReleased(records: seq<Record>, cycle: nat)
    ensures Count(ReleaseAll(records), cycle) == Count(records, cycle)
  {
    if |records| > 0 {
      var n := |records| - 1;
      CountReleased(records[..n], cycle);
      assert ReleaseAll(records)[..n] == ReleaseAll(records[..n]);
    }
  }

  lemma {:induction false} CountNumbered(records: seq<Record>, cycle: nat, k: nat, offers: seq<(OfferId, nat)>)
    ensures Count(records + Numbered(cycle + k, offers), cycle)
            == Count(records, cycle) + if k == 0 && |offers| > 0 then 1 else 0
    decreases |offers|
  {
    if |offers| == 0 {
      assert records + Numbered(cycle + k, offers) == records;
    } else {
      var n := |offers| - 1;
      CountNumbered(records, cycle, k, offers[..n]);
      var last := Record(cycle + k + 2 * n, offers[n].1, offers[n].0, Pending);
      assert Numbered(cycle + k, offers) == Numbered(cycle + k, offers[..n]) + [last];
      assert records + Numbered(cycle + k, offers) == records + Numbered(cycle + k, offers[..n]) + [last];
      CountAppend(records + Numbered(cycle + k, offers[..n]), last, cycle);
    }
  }

  /**
   * Of all the offers recovered, only the first can get the cycle it was submitted for, and it does exactly when
   * there was no record before. In every other case, once all are withdrawn, the next settle submits the very
   * attempt that was next before the recovery, the one whose record had been lost.
   */
  lemma RecoveryRenumbersIff(st: Stream, found: seq<(OfferId, nat)>)
    requires Unknown(st.records, found) != []
    ensures var st' := RecoverFrom(st, 0, found);
            && |st'.records| == |st.records| + |Unknown(st.records, found)|
            && (forall i :: |st.records| <= i < |st'.records| ==>
                  (st'.records[i].cycle == Next(st).cycle <==> i == |st.records| == 0))
            && (Next(st'.(records := ReleaseAll(st'.records))) == Next(st) <==> st.records != [])
  {
    var st' := RecoverFrom(st, 0, found);
    RecoveryNumbers(st, 0, found);
    CountReleased(st'.records, st.cycles + 1);
    CountNumbered(st.records, st.cycles + 1, |st.records|, Unknown(st.records, found));
    assert st.cycles + |st.records| + 0 + 1 == st.cycles + 1 + |st.records|;
  }

  // ----- what reconciling settles -----

  predicate Known(fates: map<OfferId, Fate>, r: Record) {
    r.offer in fates && !fates[r.offer].Live?
  }

  /** A pending record whose offer's fate is known takes that fate. */
  function Resolved(fates: map<OfferId, Fate>, r: Record): Record {
    if !r.status.Pending? || !Known(fates, r) then r
    else r.(status := if fates[r.offer].Taken? then Accepted else Withdrawn)
  }

  function TakenAmount(fates: map<OfferId, Fate>): Record -> int {
    (r: Record) => if r.status.Pending? && r.offer in fates && fates[r.offer].Taken? then r.amount else 0
  }

  /** The first pending record from i on whose offer's fate is not known. */
  function Blocker(records: seq<Record>, i: nat, fates: map<OfferId, Fate>): (k: nat)
    requires i <= |records|
    ensures i <= k <= |records|
    ensures forall j :: i <= j < k ==> !records[j].status.Pending? || Known(fates, records[j])
    ensures k < |records| ==> records[k].status.Pending? && !Known(fates, records[k])
    decreases |records| - i
  {
    if i < |records| && (!records[i].status.Pending? || Known(fates, records[i])) then Blocker(records, i + 1, fates) else i
  }

  function ResolveOne(st: Stream, i: nat, fates: map<OfferId, Fate>): Stream
    requires i < |st.records| && (!st.records[i].status.Pending? || Known(fates, st.records[i]))
  {
    var r := st.records[i];
    if !r.status.Pending? then st else if fates[r.offer].Taken? then Credit(st, i) else Release(st, i)
  }

  lemma ReconcileTurn(st: Stream, i: nat, fates: map<OfferId, Fate>)
    requires i < |st.records|
    ensures if !st.records[i].status.Pending? || Known(fates, st.records[i]) then
              var st1 := ResolveOne(st, i, fates);
              && ReconcileFrom(st, i, fates) == ReconcileFrom(st1, i + 1, fates)
              && st1.records == st.records[i := Resolved(fates, st.records[i])]
              && st1.settled == st.settled + TakenAmount(fates)(st.records[i])
            else ReconcileFrom(st, i, fates) == st
  {
  }

  lemma {:induction false} BlockerSame(xs: seq<Record>, ys: seq<Record>, i: nat, fates: map<OfferId, Fate>)
    requires i <= |xs| == |ys| && xs[i..] == ys[i..]
    ensures Blocker(xs, i, fates) == Blocker(ys, i, fates)
    decreases |xs| - i
  {
    if i < |xs| {
      assert xs[i] == xs[i..][0] == ys[i..][0] == ys[i];
      assert xs[i + 1..] == xs[i..][1..] && ys[i + 1..] == ys[i..][1..];
      BlockerSame(xs, ys, i + 1, fates);
    }
  }

  /**
   * Every record before the first pending one of unknown fate is resolved, every later one is left, and the total
   * grows by exactly the amounts of the resolved offers that were taken.
   */
  lemma {:induction false} ReconcileResolves(st: Stream, i: nat, fates: map<OfferId, Fate>)
    requires i <= |st.records|
    ensures var st', stop := ReconcileFrom(st, i, fates), Blocker(st.records, i, fates);
            && |st'.records| == |st.records|
            && (forall j :: 0 <= j < |st.records| ==>
                  st'.records[j] == if i <= j < stop then Resolved(fates, st.records[j]) else st.records[j])
            && st'.settled == st.settled + Sum(st.records[i..stop], TakenAmount(fates))
    decreases |st.records| - i
  {
    hide Resolved, Known, Sum;
    var stop := Blocker(st.records, i, fates);
    if i < |st.records| && (!st.records[i].status.Pending? || Known(fates, st.records[i])) {
      ReconcileTurn(st, i, fates);
      var st1 := ResolveOne(st, i, fates);
      hide ReconcileFrom, ResolveOne;
      assert st1.records[i + 1..] == st.records[i + 1..];
      BlockerSame(st1.records, st.records, i + 1, fates);
      ReconcileResolves(st1, i + 1, fates);
      assert st1.records[i + 1..stop] == st.records[i..stop][1..];
      SumHead(st.records[i..stop], TakenAmount(fates));
    } else {
      assert stop == i && st.records[i..i] == [];
      NoneTaken(fates);
      if i < |st.records| {
        ReconcileTurn(st, i, fates);
      }
    }
  }

  /** Reconciling leaves something pending exactly when some pending offer's fate is not known. */
  lemma ReconcileBlockedIff(st: Stream, fates: map<OfferId, Fate>)
    ensures HasPending(ReconcileFrom(st, 0, fates))
            <==> exists i :: 0 <= i < |st.records| && st.records[i].status.Pending? && !Known(fates, st.records[i])
  {
    hide ReconcileFrom, Blocker, Known;
    var stop := Blocker(st.records, 0, fates);
    var records := ReconcileFrom(st, 0, fates).records;
    ReconcileResolves(st, 0, fates);
    assert stop < |records| ==> records[stop].status.Pending?;
    assert forall j :: 0 <= j < stop ==> !records[j].status.Pending?;
  }

  lemma NoneTaken(fates: map<OfferId, Fate>)
    ensures Sum([], TakenAmount(fates)) == 0
  {
  }

  class Stored {
    var settled: int
    var cycles: nat
    var records: seq<Record>

    constructor (st: Stream)
      ensures Value() == st
    {
      settled, cycles, records := st.settled, st.cycles, st.records;
    }

    function Value(): Stream
      reads this
    {
      Stream(settled, cycles, records)
    }

    /** Credit or release every pending record whose fate is known; the first that is not blocks the settle. */
    method ReconcileOutstandingOffers(fates: map<OfferId, Fate>) returns (blocker: Option<Record>)
      modifies this
      ensures Value() == ReconcileFrom(old(Value()), 0, fates)
      ensures blocker.None? <==> !HasPending(Value())
      ensures blocker.None? <==> forall i :: 0 <= i < |old(records)| && old(records)[i].status.Pending? ==> Known(fates, old(records)[i])
      ensures blocker.Some? ==> blocker.value in records && blocker.value.status.Pending?
    {
      ReconcileBlockedIff(Value(), fates);
      blocker := None;
      var i := 0;
      while i < |records| && blocker.None?
        invariant i <= |records|
        invariant blocker.None? ==> ReconcileFrom(Value(), i, fates) == ReconcileFrom(old(Value()), 0, fates)
        invariant blocker.None? ==> forall j :: 0 <= j < i ==> !records[j].status.Pending?
        invariant blocker.Some? ==> blocker.value in records && blocker.value.status.Pending?
                                    && Value() == ReconcileFrom(old(Value()), 0, fates)
        decreases |records| - i, blocker.None?
      {
        var r := records[i];
        if r.status.Pending? {
          if r.offer in fates && fates[r.offer].Taken? {
            CreditAcceptedOffer(i);
          } else if r.offer in fates && fates[r.offer].Back? {
            records := records[i := r.(status := Withdrawn)];
          } else {
            blocker := Some(r);
          }
        }
        if blocker.None? {
          i := i + 1;
        }
      }
    }

    /** The offer's amount is settled and its cycle closed: nothing is pending, and the next attempt is a new cycle's first. */
    method CreditAcceptedOffer(i: nat)
      requires i < |records|
      modifies this
      ensures Value() == Credit(old(Value()), i)
      ensures settled == old(settled) + old(records)[i].amount && cycles >= old(cycles)
      ensures |records| == |old(records)| && forall j :: 0 <= j < |records| && j != i ==> records[j] == old(records)[j]
      ensures RecordsOk(old(Value())) && old(records)[i].status.Pending? ==>
                RecordsOk(Value()) && !HasPending(Value()) && Next(Value()) == Attempt(old(cycles) + 2, 0)
    {
      if RecordsOk(Value()) && records[i].status.Pending? {
        CreditNext(Value(), i);
      }
      settled := settled + records[i].amount;
      cycles := Max(cycles, records[i].cycle);
      records := records[i := records[i].(status := Accepted)];
    }

    method CountRetries(cycle: nat) returns (n: nat)
      ensures n == Count(records, cycle)
    {
      n := 0;
      for i := 0 to |records|
        invariant n == Count(records[..i], cycle)
      {
        assert records[..i + 1][..i] == records[..i];
        if records[i].cycle == cycle {
          n := n + 1;
        }
      }
      assert records[..|records|] == records;
    }

    /** The attempt and amount of the next settle, or None when something is pending or nothing is due. */
    method NextSettle(a: Agreement, now: Millis, force: bool, requested: Option<nat>, fates: map<OfferId, Fate>)
      returns (plan: Option<(Attempt, nat)>)
      modifies this
      ensures Value() == if a.stopped then old(Value()) else ReconcileFrom(old(Value()), 0, fates)
      ensures plan.Some? <==> !a.stopped && !HasPending(Value()) && Plan(a, settled, now, force, requested) > 0
      ensures plan.Some? ==> plan.value == (Next(Value()), Plan(a, settled, now, force, requested))
      ensures !force && requested.None? && settled >= 0 ==>
                (plan.Some? <==> !a.stopped && !HasPending(Value()) && Accrued(a, now) > settled)
      ensures plan.Some? && !force && requested.None? ==> settled + plan.value.1 == Target(a, settled, now)
      ensures plan.Some? && !force && requested.Some? ==> plan.value.1 == Min(requested.value, Target(a, settled, now) - settled)
      ensures plan.Some? && force ==>
                plan.value.1 == if requested.Some? then Min(requested.value, Max(Target(a, settled, now) - settled, a.rate))
                                else if Target(a, settled, now) == settled then a.rate
                                else Target(a, settled, now) - settled
    {
      if a.stopped {
        return None;
      }
      var blocker := ReconcileOutstandingOffers(fates);
      if blocker.Some? {
        return None;
      }
      PlanReachesTarget(a, settled, now, force, requested);
      if settled >= 0 {
        PaysExactlyWhenAccrued(a, settled, now);
      }
      var due: nat;
      if requested.Some? {
        var cap := Max(Due(a, settled, now), if force then a.rate else 0);
        due := Min(requested.value, cap);
      } else {
        due := Due(a, settled, now);
        if due <= 0 && force {
          due := a.rate;
        }
      }
      if due <= 0 {
        return None;
      }
      var cycle := cycles + 1;
      var retry := CountRetries(cycle);
      plan := Some((Attempt(cycle, retry), due));
    }

    /**
     * Save a committed settle. A direct transfer is settled; an offer is not, and is tracked exactly once. Either
     * way the attempt is used up: no later settle submits it again.
     */
    method RecordOutcome(attempt: Attempt, c: Committed)
      modifies this
      ensures Value() == Record1(old(Value()), attempt, c)
      ensures settled == old(settled) + if c.form.Direct? then c.amount else 0
      ensures c.form.AsOffer? ==> CountOffer(records, c.form.offer) == Max(1, CountOffer(old(records), c.form.offer))
      ensures RecordsOk(old(Value())) && !HasPending(old(Value())) && attempt == Next(old(Value()))
              && (c.form.AsOffer? ==> CountOffer(old(records), c.form.offer) == 0) ==>
                RecordsOk(Value()) && UsedUp(old(Value()), Value(), attempt)
    {
      OutcomeUsesAttempt(Value(), attempt, c);
      match c.form {
        case Direct =>
          settled := settled + c.amount;
          cycles := cycles + 1;
        case AsOffer(offer, _) =>
          if !exists i :: 0 <= i < |records| && records[i].offer == offer {
            records := records + [Record(attempt.cycle, c.amount, offer, Pending)];
          }
      }
    }
  }

  function CountOffer(records: seq<Record>, offer: OfferId): nat {
    if |records| == 0 then 0
    else CountOffer(records[..|records| - 1], offer) + if records[|records| - 1].offer == offer then 1 else 0
  }

  lemma {:induction false} CountOfferIff(records: seq<Record>, offer: OfferId)
    ensures CountOffer(records, offer) > 0 <==> exists i :: 0 <= i < |records| && records[i].offer == offer
  {
    if |records| > 0 {
      CountOfferIff(records[..|records| - 1], offer);
    }
  }

  /** The attempt is passed, as is every attempt passed before, and the next settle submits another. */
  ghost predicate UsedUp(st: Stream, st': Stream, attempt: Attempt) {
    Passed(st', attempt) && Next(st') != attempt && forall at :: Passed(st, at) ==> Passed(st', at)
  }

  lemma DirectUsesAttempt(st: Stream, amount: nat)
    requires RecordsOk(st) && !HasPending(st)
    ensures var st' := Stream(st.settled + amount, st.cycles + 1, st.records);
            RecordsOk(st') && UsedUp(st, st', Next(st))
  {
    SaveDirectNext(st, amount);
    hide RecordsOk, HasPending, Passed, Next;
  }

  lemma OfferUsesAttempt(st: Stream, amount: nat, offer: OfferId)
    requires RecordsOk(st) && !HasPending(st)
    ensures var st' := st.(records := st.records + [Record(st.cycles + 1, amount, offer, Pending)]);
            RecordsOk(st') && UsedUp(st, st', Next(st))
  {
    SaveOfferNext(st, amount, offer);
    hide RecordsOk, HasPending, Passed, Next;
  }

  lemma OfferTrackedOnce(st: Stream, attempt: Attempt, c: Committed)
    requires c.form.AsOffer?
    ensures var st' := Record1(st, attempt, c);
            && CountOffer(st'.records, c.form.offer) == Max(1, CountOffer(st.records, c.form.offer))
            && (CountOffer(st.records, c.form.offer) == 0 ==>
                  st' == st.(records := st.records + [Record(attempt.cycle, c.amount, c.form.offer, Pending)]))
  {
    CountOfferIff(st.records, c.form.offer);
    var r := Record(attempt.cycle, c.amount, c.form.offer, Pending);
    assert (st.records + [r])[..|st.records|] == st.records;
  }

  /** A saved outcome settles or tracks the payment once, and uses its attempt up. */
  lemma OutcomeUsesAttempt(st: Stream, attempt: Attempt, c: Committed)
    ensures c.form.AsOffer? ==>
              CountOffer(Record1(st, attempt, c).records, c.form.offer) == Max(1, CountOffer(st.records, c.form.offer))
    ensures RecordsOk(st) && !HasPending(st) && attempt == Next(st)
            && (c.form.AsOffer? ==> CountOffer(st.records, c.form.offer) == 0) ==>
              RecordsOk(Record1(st, attempt, c)) && UsedUp(st, Record1(st, attempt, c), attempt)
  {
    hide RecordsOk, HasPending, UsedUp, CountOffer;
    if c.form.AsOffer? {
      OfferTrackedOnce(st, attempt, c);
      hide Record1;
      if RecordsOk(st) && !HasPending(st) {
        OfferUsesAttempt(st, c.amount, c.form.offer);
      }
    } else if RecordsOk(st) && !HasPending(st) {
      DirectUsesAttempt(st, c.amount);
    }
  }
}
