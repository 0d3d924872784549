/**
 * The hosted settle protocol of one stream: reconcile, submit under a deterministic attempt, save.
 * Submissions may be lost, land late or be duplicates; the process may crash between any two steps.
 */
module HostedSettle {
  import opened Common
  import opened Accrual

  type OfferId = nat

  datatype Status = Pending | Accepted | Withdrawn
  datatype Record = Record(cycle: nat, amount: nat, offer: OfferId, status: Status)

  /** What the state file holds for one stream. */
  datatype Stream = Stream(settled: int, cycles: nat, records: seq<Record>)

  datatype Attempt = Attempt(cycle: nat, retry: nat)
  datatype Fate = Live | Taken | Back
  datatype Form = Direct | AsOffer(offer: OfferId, fate: Fate)
  datatype Committed = Committed(serial: nat, amount: nat, form: Form)
  datatype Submission = Submission(serial: nat, attempt: Attempt, amount: nat)
  datatype Phase = Idle | Waiting(sub: Submission)

  datatype System = System(
    disk: Stream,
    phase: Phase,
    stopped: bool,
    committed: map<Attempt, Committed>,
    offers: map<OfferId, Attempt>,
    floating: set<Submission>,
    serial: nat,
    now: Millis)

  function Count(records: seq<Record>, cycle: nat): nat {
    if |records| == 0 then 0 else
      Count(records[..|records| - 1], cycle) + if records[|records| - 1].cycle == cycle then 1 else 0
  }

  /** The attempt the next settle submits: the cycle after the last settled, and how often it was offered. */
  function Next(st: Stream): Attempt {
    Attempt(st.cycles + 1, Count(st.records, st.cycles + 1))
  }

  predicate HasPending(st: Stream) {
    exists i :: 0 <= i < |st.records| && st.records[i].status.Pending?
  }

  // ----- what the code does to the stored stream -----

  function Credit(st: Stream, i: nat): Stream
    requires i < |st.records|
  {
    var r := st.records[i];
    Stream(st.settled + r.amount, Max(st.cycles, r.cycle), st.records[i := r.(status := Accepted)])
  }

  function Release(st: Stream, i: nat): Stream
    requires i < |st.records|
  {
    st.(records := st.records[i := st.records[i].(status := Withdrawn)])
  }

  /** Settle each pending record whose fate is known, in order, stopping at the first that is not. */
  function ReconcileFrom(st: Stream, i: nat, fates: map<OfferId, Fate>): Stream
    requires i <= |st.records|
    decreases |st.records| - i
  {
    if i == |st.records| then st
    else
      var r := st.records[i];
      if !r.status.Pending? then ReconcileFrom(st, i + 1, fates)
      else if r.offer !in fates || fates[r.offer].Live? then st
      else if fates[r.offer].Taken? then ReconcileFrom(Credit(st, i), i + 1, fates)
      else ReconcileFrom(Release(st, i), i + 1, fates)
  }

  function Record1(st: Stream, attempt: Attempt, c: Committed): Stream {
    match c.form
    case Direct => Stream(st.settled + c.amount, st.cycles + 1, st.records)
    case AsOffer(offer, _) =>
      if exists i :: 0 <= i < |st.records| && st.records[i].offer == offer then st
      else st.(records := st.records + [Record(attempt.cycle, c.amount, offer, Pending)])
  }

  // ----- steps -----

  datatype Step =
    | Reconcile(unreadable: set<OfferId>)
    | Submit(requested: Option<nat>)
    | Commit(sub: Submission, locked: Option<OfferId>)
    | Save
    | Abandon
    | Resolve(offer: OfferId, taken: bool)
    | Confirm(i: nat)
    | Stop
    | Wait(now: Millis)

  function Fates(s: System, unreadable: set<OfferId>): map<OfferId, Fate> {
    map o | o in s.offers && o !in unreadable && s.offers[o] in s.committed && s.committed[s.offers[o]].form.AsOffer? ::
      s.committed[s.offers[o]].form.fate
  }

  function DueNow(a: Agreement, s: System, requested: Option<nat>): nat {
    var due := Due(a.(stopped := s.stopped), s.disk.settled, s.now);
    if requested.Some? then Min(requested.value, due) else due
  }

  /** The i-th record is pending, and this is what became of its offer. */
  ghost predicate Settles(s: System, i: nat, fate: Fate) {
    && i < |s.disk.records| && s.disk.records[i].status.Pending?
    && s.disk.records[i].offer in s.offers && s.offers[s.disk.records[i].offer] in s.committed
    && var c := s.committed[s.offers[s.disk.records[i].offer]];
       c.form.AsOffer? && c.form.fate == fate
  }

  /** Confirm: a client records what became of an offer, which the ledger is asked to confirm. */
  ghost predicate Enabled(a: Agreement, s: System, step: Step) {
    match step
    case Reconcile(_) => s.phase.Idle?
    case Submit(requested) => s.phase.Idle? && !HasPending(s.disk) && DueNow(a, s, requested) > 0
    case Commit(sub, locked) => sub in s.floating && (locked.Some? ==> locked.value !in s.offers)
    case Save => s.phase.Waiting? && s.phase.sub.attempt in s.committed && s.committed[s.phase.sub.attempt].serial == s.phase.sub.serial
    case Abandon => true
    case Resolve(offer, _) =>
      && offer in s.offers && s.offers[offer] in s.committed
      && s.committed[s.offers[offer]].form == AsOffer(offer, Live)
    case Confirm(i) => s.phase.Idle? && (Settles(s, i, Taken) || Settles(s, i, Back))
    case Stop => true
    case Wait(now) => s.now <= now
  }

  function ApplySubmit(a: Agreement, s: System, requested: Option<nat>): System {
    var sub := Submission(s.serial, Next(s.disk), DueNow(a, s, requested));
    s.(phase := Waiting(sub), floating := s.floating + {sub}, serial := s.serial + 1)
  }

  /** The ledger deduplicates: only the first submission of an attempt commits. */
  function ApplyCommit(s: System, sub: Submission, locked: Option<OfferId>): System {
    var landed := s.(floating := s.floating - {sub});
    if sub.attempt in s.committed then landed
    else
      var form := if locked.Some? then AsOffer(locked.value, Live) else Direct;
      landed.(committed := s.committed[sub.attempt := Committed(sub.serial, sub.amount, form)],
              offers := if locked.Some? then s.offers[locked.value := sub.attempt] else s.offers)
  }

  function ApplyResolve(s: System, offer: OfferId, taken: bool): System
    requires offer in s.offers && s.offers[offer] in s.committed
  {
    var at := s.offers[offer];
    s.(committed := s.committed[at := s.committed[at].(form := AsOffer(offer, if taken then Taken else Back))])
  }

  function Apply(a: Agreement, s: System, step: Step): System
    requires Enabled(a, s, step)
  {
    match step
    case Reconcile(unreadable) => s.(disk := ReconcileFrom(s.disk, 0, Fates(s, unreadable)))
    case Submit(requested) => ApplySubmit(a, s, requested)
    case Commit(sub, locked) => ApplyCommit(s, sub, locked)
    case Save => s.(disk := Record1(s.disk, s.phase.sub.attempt, s.committed[s.phase.sub.attempt]), phase := Idle)
    case Abandon => s.(phase := Idle)
    case Resolve(offer, taken) => ApplyResolve(s, offer, taken)
    case Confirm(i) =>
      s.(disk := if s.committed[s.offers[s.disk.records[i].offer]].form.fate.Taken? then Credit(s.disk, i) else Release(s.disk, i))
    case Stop => s.(stopped := true)
    case Wait(now) => s.(now := now)
  }

  // ----- the invariant -----

  /** Every attempt at or before this one has been recorded. */
  predicate Passed(st: Stream, at: Attempt) {
    at.cycle <= st.cycles || (at.cycle == st.cycles + 1 && at.retry < Count(st.records, st.cycles + 1))
  }

  predicate RecordsOk(st: Stream) {
    && (forall i :: 0 <= i < |st.records| ==> st.records[i].cycle <= st.cycles + 1)
    && (forall i :: 0 <= i < |st.records| && st.records[i].status.Pending? ==> st.records[i].cycle == st.cycles + 1)
    && (forall i, j :: 0 <= i < j < |st.records| ==> !(st.records[i].status.Pending? && st.records[j].status.Pending?))
  }

  /** Each record stands for one committed offer of an attempt already passed. */
  ghost predicate RecordsMatch(s: System) {
    forall i :: 0 <= i < |s.disk.records| ==>
      var r := s.disk.records[i];
      && r.offer in s.offers && s.offers[r.offer] in s.committed && Passed(s.disk, s.offers[r.offer])
      && var c := s.committed[s.offers[r.offer]];
         c.form.AsOffer? && c.form.offer == r.offer && c.amount == r.amount
         && (r.status.Accepted? ==> c.form.fate.Taken?) && (r.status.Withdrawn? ==> c.form.fate.Back?)
  }

  /** Attempts come in order: all committed ones are recorded, but perhaps the very next. */
  ghost predicate AttemptsInOrder(s: System) {
    && (forall at :: at in s.committed ==> s.committed[at].serial < s.serial && (Passed(s.disk, at) || at == Next(s.disk)))
    && (forall sub :: sub in s.floating ==>
          && sub.serial < s.serial
          && ((sub.attempt in s.committed && Passed(s.disk, sub.attempt)) || sub.attempt == Next(s.disk)))
    && (HasPending(s.disk) ==> Next(s.disk) !in s.committed && forall sub :: sub in s.floating ==> sub.attempt != Next(s.disk))
  }

  ghost predicate OffersMatch(s: System) {
    && (forall o :: o in s.offers ==>
          s.offers[o] in s.committed && s.committed[s.offers[o]].form.AsOffer? && s.committed[s.offers[o]].form.offer == o)
    && (forall o :: o in s.offers && s.committed[s.offers[o]].form.fate.Live? ==>
          s.offers[o] == Next(s.disk) || exists i :: 0 <= i < |s.disk.records| && s.disk.records[i].status.Pending? && s.disk.records[i].offer == o)
  }

  /** A committed offer is registered under its own attempt. */
  ghost predicate OfferNames(s: System) {
    forall at :: at in s.committed && s.committed[at].form.AsOffer? ==>
      s.committed[at].form.offer in s.offers && s.offers[s.committed[at].form.offer] == at
  }

  /** No outstanding attempt promises more than what has accrued and is not yet settled. */
  ghost predicate WithinAccrual(a: Agreement, s: System) {
    var left := Accrued(a, s.now) - s.disk.settled;
    && 0 <= left
    && (forall i :: 0 <= i < |s.disk.records| && s.disk.records[i].status.Pending? ==> s.disk.records[i].amount <= left)
    && (forall sub :: sub in s.floating && sub.attempt == Next(s.disk) ==> sub.amount <= left)
    && (Next(s.disk) in s.committed ==> s.committed[Next(s.disk)].amount <= left)
  }

  ghost predicate PhaseOk(s: System) {
    s.phase.Waiting? ==> s.phase.sub.serial < s.serial && s.phase.sub.attempt == Next(s.disk) && !HasPending(s.disk)
  }

  // ----- the money -----

  function Worth(c: Committed): nat {
    if c.form.AsOffer? && c.form.fate.Back? then 0 else c.amount
  }

  ghost function Worths(committed: map<Attempt, Committed>): map<Attempt, int> {
    map at | at in committed :: Worth(committed[at])
  }

  /** Everything the payer has parted with: delivered transfers and funds locked in open offers. */
  ghost function PaidOut(s: System): int {
    Total(Worths(s.committed))
  }

  function PendingWorth(offers: map<OfferId, Attempt>, committed: map<Attempt, Committed>): Record -> int {
    (r: Record) => if r.status.Pending? && r.offer in offers && offers[r.offer] in committed then Worth(committed[offers[r.offer]]) else 0
  }

  function LostWorth(s: System): int {
    if Next(s.disk) in s.committed then Worth(s.committed[Next(s.disk)]) else 0
  }

  /** The ledger's total is what is settled, plus the pending offer, plus an attempt whose record was lost. */
  ghost predicate Balanced(s: System) {
    PaidOut(s) == s.disk.settled + Sum(s.disk.records, PendingWorth(s.offers, s.committed)) + LostWorth(s)
  }

  ghost predicate Inv(a: Agreement, s: System) {
    && RecordsOk(s.disk) && RecordsMatch(s) && AttemptsInOrder(s) && OffersMatch(s)
    && OfferNames(s) && WithinAccrual(a, s) && PhaseOk(s) && Balanced(s)
  }

  // ----- counting attempts -----

  lemma {:induction false} CountSame(records: seq<Record>, i: nat, r: Record, cycle: nat)
    requires i < |records| && r.cycle == records[i].cycle
    ensures Count(records[i := r], cycle) == Count(records, cycle)
  {
    var n := |records| - 1;
    if i < n {
      CountSame(records[..n], i, r, cycle);
      assert records[i := r][..n] == records[..n][i := r];
    } else {
      assert records[i := r][..n] == records[..n];
    }
  }

  lemma {:induction false} CountNone(records: seq<Record>, cycle: nat)
    requires forall i :: 0 <= i < |records| ==> records[i].cycle != cycle
    ensures Count(records, cycle) == 0
  {
    if |records| > 0 {
      CountNone(records[..|records| - 1], cycle);
    }
  }

  lemma CountAppend(records: seq<Record>, r: Record, cycle: nat)
    ensures Count(records + [r], cycle) == Count(records, cycle) + if r.cycle == cycle then 1 else 0
  {
    assert (records + [r])[..|records|] == records;
  }

  // ----- one record resolves -----

  lemma CreditNext(st: Stream, i: nat)
    requires RecordsOk(st) && i < |st.records| && st.records[i].status.Pending?
    ensures Next(Credit(st, i)) == Attempt(st.cycles + 2, 0) && Credit(st, i).cycles == st.cycles + 1
    ensures RecordsOk(Credit(st, i)) && !HasPending(Credit(st, i))
  {
    var st' := Credit(st, i);
    CountNone(st'.records, st.cycles + 2);
  }

  lemma ReleaseNext(st: Stream, i: nat)
    requires RecordsOk(st) && i < |st.records| && st.records[i].status.Pending?
    ensures Next(Release(st, i)) == Next(st)
    ensures RecordsOk(Release(st, i)) && !HasPending(Release(st, i))
  {
    CountSame(st.records, i, st.records[i].(status := Withdrawn), st.cycles + 1);
  }

  /** Resolving the pending record moves its worth into `settled`, or nowhere. */
  lemma RecordResolves(s: System, i: nat, status: Status)
    requires i < |s.disk.records| && !status.Pending?
    ensures var w := PendingWorth(s.offers, s.committed);
            Sum(s.disk.records[i := s.disk.records[i].(status := status)], w) == Sum(s.disk.records, w) - w(s.disk.records[i])
  {
    SumUpdate(s.disk.records, i, s.disk.records[i].(status := status), PendingWorth(s.offers, s.committed));
  }

  /** What crediting does to the attempts: all that were passed stay passed, and the pending one's cycle is closed. */
  lemma CreditPasses(s: System, i: nat)
    requires RecordsOk(s.disk) && Settles(s, i, Taken)
    ensures var st := Credit(s.disk, i);
            && HasPending(s.disk) && !HasPending(st) && RecordsOk(st)
            && forall at :: Passed(s.disk, at) ==> Passed(st, at) && at != Next(st)
    ensures Next(Credit(s.disk, i)) != Next(s.disk)
  {
    CreditNext(s.disk, i);
    assert HasPending(s.disk);
  }

  lemma CreditMatches(s: System, i: nat)
    requires RecordsOk(s.disk) && RecordsMatch(s) && OffersMatch(s) && Settles(s, i, Taken)
    requires forall at :: Passed(s.disk, at) ==> Passed(Credit(s.disk, i), at)
    requires Next(s.disk) !in s.committed
    ensures var s' := s.(disk := Credit(s.disk, i)); RecordsMatch(s') && OffersMatch(s')
  {
    hide Passed, Next;
    var s' := s.(disk := Credit(s.disk, i));
    assert RecordsMatch(s');
    assert OffersMatch(s');
  }

  lemma CreditAttempts(a: Agreement, s: System, i: nat)
    requires AttemptsInOrder(s) && WithinAccrual(a, s) && HasPending(s.disk) && Settles(s, i, Taken)
    requires var st := Credit(s.disk, i);
             && !HasPending(st) && Next(st) != Next(s.disk)
             && forall at :: Passed(s.disk, at) ==> Passed(st, at) && at != Next(st)
    ensures var s' := s.(disk := Credit(s.disk, i));
            AttemptsInOrder(s') && WithinAccrual(a, s') && Next(s'.disk) !in s.committed
  {
    var s' := s.(disk := Credit(s.disk, i));
    NoPendingMeans(s'.disk);
    hide Passed, Next, HasPending, Accrued;
    assert AttemptsInOrder(s');
    assert WithinAccrual(a, s');
  }

  lemma CreditInv(a: Agreement, s: System, i: nat)
    requires Inv(a, s) && s.phase.Idle? && Settles(s, i, Taken)
    ensures Inv(a, s.(disk := Credit(s.disk, i)))
  {
    RecordResolves(s, i, Accepted);
    CreditPasses(s, i);
    assert Next(s.disk) !in s.committed;
    hide RecordsOk, RecordsMatch, OffersMatch, AttemptsInOrder, WithinAccrual, Passed, Next, HasPending;
    CreditAttempts(a, s, i);
    CreditMatches(s, i);
    hide OfferNames;
    SameOfferNames(s, s.(disk := Credit(s.disk, i)));
  }

  lemma ReleaseInv(a: Agreement, s: System, i: nat)
    requires Inv(a, s) && s.phase.Idle? && Settles(s, i, Back)
    ensures Inv(a, s.(disk := Release(s.disk, i)))
  {
    var s' := s.(disk := Release(s.disk, i));
    ReleaseNext(s.disk, i);
    RecordResolves(s, i, Withdrawn);
    assert HasPending(s.disk);
    assert forall at :: Passed(s.disk, at) <==> Passed(s'.disk, at);
    assert RecordsMatch(s');
    assert OffersMatch(s');
  }

  lemma {:induction false} ReconcileInv(a: Agreement, s: System, i: nat, fates: map<OfferId, Fate>)
    requires Inv(a, s) && s.phase.Idle? && i <= |s.disk.records|
    requires forall o :: o in fates ==> o in s.offers && s.offers[o] in s.committed &&
                                        s.committed[s.offers[o]].form.AsOffer? && s.committed[s.offers[o]].form.fate == fates[o]
    ensures Inv(a, s.(disk := ReconcileFrom(s.disk, i, fates)))
    decreases |s.disk.records| - i
  {
    hide Inv;
    if i < |s.disk.records| {
      var r := s.disk.records[i];
      if !r.status.Pending? {
        ReconcileInv(a, s, i + 1, fates);
      } else if r.offer in fates && fates[r.offer].Taken? {
        CreditInv(a, s, i);
        ReconcileInv(a, s.(disk := Credit(s.disk, i)), i + 1, fates);
      } else if r.offer in fates && fates[r.offer].Back? {
        ReleaseInv(a, s, i);
        ReconcileInv(a, s.(disk := Release(s.disk, i)), i + 1, fates);
      }
    }
  }

  // ----- the other steps -----

  lemma SubmitInv(a: Agreement, s: System, requested: Option<nat>)
    requires Inv(a, s) && Enabled(a, s, Submit(requested))
    ensures Inv(a, ApplySubmit(a, s, requested))
  {
    var s' := ApplySubmit(a, s, requested);
    DueWithinAccrual(a.(stopped := s.stopped), s.disk.settled, s.now);
    assert AttemptsInOrder(s');
    assert WithinAccrual(a, s');
  }

  lemma DuplicateInv(a: Agreement, s: System, sub: Submission)
    requires Inv(a, s)
    ensures Inv(a, s.(floating := s.floating - {sub}))
  {
  }

  lemma CommitWorth(s: System, sub: Submission, locked: Option<OfferId>)
    requires RecordsMatch(s) && sub.attempt !in s.committed && (locked.Some? ==> locked.value !in s.offers)
    ensures var s' := ApplyCommit(s, sub, locked);
            && PaidOut(s') == PaidOut(s) + sub.amount
            && Sum(s.disk.records, PendingWorth(s'.offers, s'.committed)) == Sum(s.disk.records, PendingWorth(s.offers, s.committed))
  {
    var s' := ApplyCommit(s, sub, locked);
    assert Worths(s'.committed) == Worths(s.committed)[sub.attempt := sub.amount];
    TotalUpdate(Worths(s.committed), sub.attempt, sub.amount);
    SumCongruence(s.disk.records, PendingWorth(s.offers, s.committed), PendingWorth(s'.offers, s'.committed));
  }

  lemma CommitRecords(s: System, sub: Submission, locked: Option<OfferId>)
    requires RecordsMatch(s) && AttemptsInOrder(s) && sub in s.floating && sub.attempt !in s.committed
    requires locked.Some? ==> locked.value !in s.offers
    ensures sub.attempt == Next(s.disk) && !HasPending(s.disk)
    ensures RecordsMatch(ApplyCommit(s, sub, locked)) && AttemptsInOrder(ApplyCommit(s, sub, locked))
  {
    assert AttemptsInOrder(ApplyCommit(s, sub, locked));
  }

  lemma CommitOffers(s: System, sub: Submission, locked: Option<OfferId>)
    requires OffersMatch(s) && OfferNames(s) && sub.attempt == Next(s.disk) && sub.attempt !in s.committed
    requires locked.Some? ==> locked.value !in s.offers
    ensures OffersMatch(ApplyCommit(s, sub, locked)) && OfferNames(ApplyCommit(s, sub, locked))
  {
    assert OffersMatch(ApplyCommit(s, sub, locked));
  }

  lemma CommitInv(a: Agreement, s: System, sub: Submission, locked: Option<OfferId>)
    requires Inv(a, s) && Enabled(a, s, Commit(sub, locked)) && sub.attempt !in s.committed
    ensures Inv(a, ApplyCommit(s, sub, locked))
  {
    hide RecordsMatch, AttemptsInOrder, OffersMatch, OfferNames;
    CommitWorth(s, sub, locked);
    CommitRecords(s, sub, locked);
    CommitOffers(s, sub, locked);
    assert WithinAccrual(a, ApplyCommit(s, sub, locked));
  }

  lemma SaveDirectNext(st: Stream, amount: nat)
    requires RecordsOk(st) && !HasPending(st)
    ensures var st' := Stream(st.settled + amount, st.cycles + 1, st.records);
            && Next(st') == Attempt(st.cycles + 2, 0) && RecordsOk(st') && !HasPending(st')
            && (forall at :: Passed(st, at) ==> Passed(st', at) && at != Next(st'))
            && Passed(st', Next(st)) && Next(st) != Next(st')
  {
    CountNone(st.records, st.cycles + 2);
  }

  lemma SaveDirectInv(a: Agreement, s: System)
    requires Inv(a, s) && Enabled(a, s, Save) && s.committed[s.phase.sub.attempt].form.Direct?
    ensures Inv(a, Apply(a, s, Save))
  {
    hide RecordsOk, Passed, Next, HasPending;
    var s' := Apply(a, s, Save);
    SaveDirectNext(s.disk, s.committed[s.phase.sub.attempt].amount);
    NoPendingNoWorth(s);
    NoPendingNoWorth(s');
    assert RecordsMatch(s');
    assert AttemptsInOrder(s');
    assert OffersMatch(s') by { NoPendingMeans(s.disk); }
    assert WithinAccrual(a, s') by { NoPendingMeans(s.disk); }
  }

  lemma NoPendingMeans(st: Stream)
    requires !HasPending(st)
    ensures forall i :: 0 <= i < |st.records| ==> !st.records[i].status.Pending?
  {
  }

  lemma {:induction false} ZeroSum(records: seq<Record>, f: Record -> int)
    requires forall i :: 0 <= i < |records| ==> f(records[i]) == 0
    ensures Sum(records, f) == 0
  {
    if |records| > 0 {
      ZeroSum(records[..|records| - 1], f);
    }
  }

  lemma NoPendingNoWorth(s: System)
    requires !HasPending(s.disk)
    ensures Sum(s.disk.records, PendingWorth(s.offers, s.committed)) == 0
  {
    ZeroSum(s.disk.records, PendingWorth(s.offers, s.committed));
  }

  lemma SaveOfferShape(a: Agreement, s: System)
    requires Inv(a, s) && Enabled(a, s, Save) && s.committed[s.phase.sub.attempt].form.AsOffer?
    ensures var c := s.committed[s.phase.sub.attempt];
            var s' := Apply(a, s, Save);
            && s' == s.(disk := s.disk.(records := s.disk.records + [Record(s.disk.cycles + 1, c.amount, c.form.offer, Pending)]), phase := Idle)
            && Next(s'.disk) == Next(s.disk).(retry := Next(s.disk).retry + 1)
            && c.form.offer in s.offers && s.offers[c.form.offer] == Next(s.disk)
  {
    var offer := s.committed[s.phase.sub.attempt].form.offer;
    assert s.phase.sub.attempt == Next(s.disk);
    OfferOfCommitted(s, Next(s.disk));
    forall i | 0 <= i < |s.disk.records|
      ensures s.disk.records[i].offer != offer
    {
      assert Passed(s.disk, s.offers[s.disk.records[i].offer]);
    }
    CountAppend(s.disk.records, Record(s.disk.cycles + 1, s.committed[Next(s.disk)].amount, offer, Pending), s.disk.cycles + 1);
  }

  lemma OfferOfCommitted(s: System, at: Attempt)
    requires at in s.committed && s.committed[at].form.AsOffer?
    requires OffersMatch(s) && OfferNames(s)
    ensures s.committed[at].form.offer in s.offers && s.offers[s.committed[at].form.offer] == at
  {
  }

  lemma SaveOfferNext(st: Stream, amount: nat, offer: OfferId)
    requires RecordsOk(st) && !HasPending(st)
    ensures var st' := st.(records := st.records + [Record(st.cycles + 1, amount, offer, Pending)]);
            && RecordsOk(st') && HasPending(st') && Next(st') != Next(st)
            && (forall at :: Passed(st', at) <==> Passed(st, at) || at == Next(st))
            && !Passed(st', Next(st'))
  {
    var r := Record(st.cycles + 1, amount, offer, Pending);
    var st' := st.(records := st.records + [r]);
    CountAppend(st.records, r, st.cycles + 1);
    NoPendingMeans(st);
    assert st'.records[|st.records|] == r;
  }

  lemma SaveOfferMatches(s: System, s': System, offer: OfferId)
    requires RecordsMatch(s) && OffersMatch(s) && !HasPending(s.disk) && Next(s.disk) in s.committed
    requires var c := s.committed[Next(s.disk)];
             && c.form.AsOffer? && c.form.offer == offer && offer in s.offers && s.offers[offer] == Next(s.disk)
             && s' == s.(disk := s.disk.(records := s.disk.records + [Record(s.disk.cycles + 1, c.amount, offer, Pending)]), phase := Idle)
    requires forall at :: Passed(s'.disk, at) <==> Passed(s.disk, at) || at == Next(s.disk)
    ensures RecordsMatch(s') && OffersMatch(s')
  {
    hide Passed, Next;
    NoPendingMeans(s.disk);
    var n := |s.disk.records|;
    assert s'.disk.records[n].offer == offer && s'.disk.records[n].status.Pending?;
  }

  lemma SaveOfferInv(a: Agreement, s: System)
    requires Inv(a, s) && Enabled(a, s, Save) && s.committed[s.phase.sub.attempt].form.AsOffer?
    ensures Inv(a, Apply(a, s, Save))
  {
    hide RecordsOk, RecordsMatch, OffersMatch, OfferNames, AttemptsInOrder, WithinAccrual, Passed, Next, HasPending;
    var s' := Apply(a, s, Save);
    var c := s.committed[s.phase.sub.attempt];
    SaveOfferShape(a, s);
    SaveOfferNext(s.disk, c.amount, c.form.offer);
    SaveOfferMatches(s, s', c.form.offer);
    SaveOfferAttempts(a, s, s');
    SaveOfferBalanced(s, s', c);
    assert OfferNames(s') by {
      SameOfferNames(s, s');
    }
  }

  lemma SameOfferNames(s: System, s': System)
    requires OfferNames(s) && s'.committed == s.committed && s'.offers == s.offers
    ensures OfferNames(s')
  {
  }

  lemma SaveOfferBalanced(s: System, s': System, c: Committed)
    requires Balanced(s) && !HasPending(s.disk) && Next(s.disk) in s.committed && c == s.committed[Next(s.disk)]
    requires c.form.AsOffer? && c.form.offer in s.offers && s.offers[c.form.offer] == Next(s.disk)
    requires s' == s.(disk := s.disk.(records := s.disk.records + [Record(s.disk.cycles + 1, c.amount, c.form.offer, Pending)]), phase := Idle)
    requires Next(s'.disk) !in s.committed
    ensures Balanced(s')
  {
    NoPendingNoWorth(s);
    hide Next, HasPending;
    SumAppend(s.disk.records, Record(s.disk.cycles + 1, c.amount, c.form.offer, Pending), PendingWorth(s.offers, s.committed));
  }

  lemma SaveOfferAttempts(a: Agreement, s: System, s': System)
    requires AttemptsInOrder(s) && WithinAccrual(a, s) && !HasPending(s.disk) && Next(s.disk) in s.committed
    requires s' == s.(disk := s'.disk, phase := Idle) && s'.disk.settled == s.disk.settled
    requires |s'.disk.records| == |s.disk.records| + 1 && s'.disk.records[..|s.disk.records|] == s.disk.records
    requires s'.disk.records[|s.disk.records|].amount == s.committed[Next(s.disk)].amount
    requires forall at :: Passed(s'.disk, at) <==> Passed(s.disk, at) || at == Next(s.disk)
    requires !Passed(s'.disk, Next(s'.disk)) && Next(s'.disk) != Next(s.disk)
    ensures AttemptsInOrder(s') && WithinAccrual(a, s') && Next(s'.disk) !in s.committed
  {
    NoPendingMeans(s.disk);
    hide Passed, Next, HasPending, Accrued;
    var n := |s.disk.records|;
    assert forall i :: 0 <= i < n ==> s'.disk.records[i] == s.disk.records[i];
  }

  lemma ResolveWorth(s: System, offer: OfferId, taken: bool)
    requires OffersMatch(s) && offer in s.offers && s.committed[s.offers[offer]].form == AsOffer(offer, Live)
    ensures var s' := ApplyResolve(s, offer, taken);
            var lost := if taken then 0 else s.committed[s.offers[offer]].amount;
            PaidOut(s') == PaidOut(s) - lost
  {
    var s' := ApplyResolve(s, offer, taken);
    var at := s.offers[offer];
    assert Worths(s'.committed) == Worths(s.committed)[at := Worth(s'.committed[at])];
    TotalUpdate(Worths(s.committed), at, Worth(s'.committed[at]));
  }

  /** Resolving an offer changes the worth of the one record that stands for it. */
  lemma ResolvePending(s: System, offer: OfferId, taken: bool, i: nat)
    requires RecordsOk(s.disk) && RecordsMatch(s) && offer in s.offers && s.offers[offer] in s.committed
    requires s.committed[s.offers[offer]].form == AsOffer(offer, Live)
    requires i < |s.disk.records| && s.disk.records[i].status.Pending? && s.disk.records[i].offer == offer
    ensures var s' := ApplyResolve(s, offer, taken);
            Sum(s.disk.records, PendingWorth(s'.offers, s'.committed)) ==
            Sum(s.disk.records, PendingWorth(s.offers, s.committed)) - if taken then 0 else s.committed[s.offers[offer]].amount
  {
    var s' := ApplyResolve(s, offer, taken);
    var w, w' := PendingWorth(s.offers, s.committed), PendingWorth(s'.offers, s'.committed);
    var blank := s.disk.records[i].(status := Withdrawn);
    SumUpdate(s.disk.records, i, blank, w);
    SumUpdate(s.disk.records, i, blank, w');
    SumCongruence(s.disk.records[i := blank], w, w');
  }

  lemma ResolveBalanced(a: Agreement, s: System, offer: OfferId, taken: bool)
    requires Inv(a, s) && Enabled(a, s, Resolve(offer, taken))
    ensures Balanced(ApplyResolve(s, offer, taken))
  {
    var s' := ApplyResolve(s, offer, taken);
    ResolveWorth(s, offer, taken);
    if s.offers[offer] == Next(s.disk) {
      assert !HasPending(s.disk);
      NoPendingNoWorth(s);
      NoPendingNoWorth(s');
    } else {
      var i :| 0 <= i < |s.disk.records| && s.disk.records[i].status.Pending? && s.disk.records[i].offer == offer;
      ResolvePending(s, offer, taken, i);
    }
  }

  lemma ResolveMatches(s: System, offer: OfferId, taken: bool)
    requires RecordsOk(s.disk) && RecordsMatch(s) && OffersMatch(s) && OfferNames(s)
    requires offer in s.offers && s.offers[offer] in s.committed && s.committed[s.offers[offer]].form == AsOffer(offer, Live)
    ensures var s' := ApplyResolve(s, offer, taken); RecordsMatch(s') && OffersMatch(s') && OfferNames(s')
  {
    hide Passed, Next, RecordsOk;
    var s' := ApplyResolve(s, offer, taken);
    assert RecordsMatch(s');
    assert OffersMatch(s');
  }

  lemma ResolveAttempts(a: Agreement, s: System, offer: OfferId, taken: bool)
    requires AttemptsInOrder(s) && WithinAccrual(a, s) && offer in s.offers && s.offers[offer] in s.committed
    ensures var s' := ApplyResolve(s, offer, taken); AttemptsInOrder(s') && WithinAccrual(a, s')
  {
    hide Passed, Next, HasPending, Accrued;
    var s' := ApplyResolve(s, offer, taken);
    assert s'.committed.Keys == s.committed.Keys;
    assert forall at :: at in s.committed ==> s'.committed[at].serial == s.committed[at].serial && s'.committed[at].amount == s.committed[at].amount;
  }

  lemma ResolveInv(a: Agreement, s: System, offer: OfferId, taken: bool)
    requires Inv(a, s) && Enabled(a, s, Resolve(offer, taken))
    ensures Inv(a, ApplyResolve(s, offer, taken))
  {
    hide RecordsOk, RecordsMatch, OffersMatch, OfferNames, AttemptsInOrder, WithinAccrual, Balanced;
    ResolveBalanced(a, s, offer, taken);
    ResolveMatches(s, offer, taken);
    ResolveAttempts(a, s, offer, taken);
  }

  lemma QuietInv(a: Agreement, s: System, phase: Phase, stopped: bool, now: Millis)
    requires Inv(a, s) && s.now <= now && (phase == s.phase || phase.Idle?)
    ensures Inv(a, s.(phase := phase, stopped := stopped, now := now))
  {
    var s' := s.(phase := phase, stopped := stopped, now := now);
    AccruedMonotone(a, s.now, now);
    assert RecordsMatch(s') && AttemptsInOrder(s') && OffersMatch(s') && OfferNames(s');
    assert Balanced(s');
  }

  lemma StepInv(a: Agreement, s: System, step: Step)
    requires Inv(a, s) && Enabled(a, s, step)
    ensures Inv(a, Apply(a, s, step))
  {
    hide Inv;
    match step
    case Reconcile(unreadable) => ReconcileInv(a, s, 0, Fates(s, unreadable));
    case Submit(requested) => SubmitInv(a, s, requested);
    case Commit(sub, locked) =>
      if sub.attempt in s.committed {
        DuplicateInv(a, s, sub);
      } else {
        CommitInv(a, s, sub, locked);
      }
    case Save =>
      if s.committed[s.phase.sub.attempt].form.Direct? {
        SaveDirectInv(a, s);
      } else {
        SaveOfferInv(a, s);
      }
    case Abandon => QuietInv(a, s, Idle, s.stopped, s.now);
    case Resolve(offer, taken) => ResolveInv(a, s, offer, taken);
    case Confirm(i) =>
      if Settles(s, i, Taken) {
        CreditInv(a, s, i);
      } else {
        ReleaseInv(a, s, i);
      }
    case Stop => QuietInv(a, s, s.phase, true, s.now);
    case Wait(now) => QuietInv(a, s, s.phase, s.stopped, now);
  }

  // ----- whole runs -----

  ghost predicate Runs(a: Agreement, s: System, steps: seq<Step>)
    decreases steps
  {
    |steps| > 0 ==> Enabled(a, s, steps[0]) && Runs(a, Apply(a, s, steps[0]), steps[1..])
  }

  ghost function After(a: Agreement, s: System, steps: seq<Step>): System
    requires Runs(a, s, steps)
    decreases steps
  {
    if |steps| == 0 then s else After(a, Apply(a, s, steps[0]), steps[1..])
  }

  function Start(now: Millis): System {
    System(Stream(0, 0, []), Idle, false, map[], map[], {}, 0, now)
  }

  lemma {:induction false} RunInv(a: Agreement, s: System, steps: seq<Step>)
    requires Inv(a, s) && Runs(a, s, steps)
    ensures Inv(a, After(a, s, steps))
    decreases steps
  {
    hide Inv;
    if |steps| > 0 {
      StepInv(a, s, steps[0]);
      RunInv(a, Apply(a, s, steps[0]), steps[1..]);
    }
  }

  lemma {:induction false} PendingWorthBound(records: seq<Record>, w: Record -> int, bound: nat)
    requires forall i, j :: 0 <= i < j < |records| ==> w(records[i]) == 0 || w(records[j]) == 0
    requires forall i :: 0 <= i < |records| ==> w(records[i]) <= bound
    ensures Sum(records, w) <= bound
  {
    if |records| > 0 {
      var n := |records| - 1;
      if w(records[n]) == 0 {
        PendingWorthBound(records[..n], w, bound);
      } else {
        ZeroSum(records[..n], w);
      }
    }
  }

  /** In one state: what the ledger paid or locked is within the accrual, and so is settled plus any pending offer. */
  lemma InvMeansNoOverpayment(a: Agreement, s: System)
    requires Inv(a, s)
    ensures PaidOut(s) <= Accrued(a, s.now)
    ensures forall i, j :: 0 <= i < j < |s.disk.records| ==> !(s.disk.records[i].status.Pending? && s.disk.records[j].status.Pending?)
    ensures forall i :: 0 <= i < |s.disk.records| && s.disk.records[i].status.Pending? ==>
              s.disk.settled + s.disk.records[i].amount <= Accrued(a, s.now)
  {
    var left := Accrued(a, s.now) - s.disk.settled;
    PendingWorthBound(s.disk.records, PendingWorth(s.offers, s.committed), left);
    if Next(s.disk) in s.committed {
      NoPendingNoWorth(s);
    }
  }

  /** Over every unforced run, with any crashes, lost or late submissions and duplicates. */
  lemma NeverOverpays(a: Agreement, now: Millis, steps: seq<Step>)
    requires Runs(a, Start(now), steps)
    ensures var s := After(a, Start(now), steps);
            && PaidOut(s) <= Accrued(a, s.now)
            && (forall i, j :: 0 <= i < j < |s.disk.records| ==> !(s.disk.records[i].status.Pending? && s.disk.records[j].status.Pending?))
            && (forall i :: 0 <= i < |s.disk.records| && s.disk.records[i].status.Pending? ==>
                  s.disk.settled + s.disk.records[i].amount <= Accrued(a, s.now))
  {
    assert Worths(map[]) == map[];
    assert Inv(a, Start(now));
    RunInv(a, Start(now), steps);
    InvMeansNoOverpayment(a, After(a, Start(now), steps));
  }

  /**
   * The attempt a settle submits belongs to no saved record, and is unused on the ledger unless it is
   * the one whose state write was lost; then deduplication refuses it and nothing is paid.
   */
  lemma AttemptIsNewOrLost(a: Agreement, s: System, requested: Option<nat>)
    requires Inv(a, s) && Enabled(a, s, Submit(requested))
    ensures var at := ApplySubmit(a, s, requested).phase.sub.attempt;
            && (forall i :: 0 <= i < |s.disk.records| ==> s.offers[s.disk.records[i].offer] != at)
            && (forall used :: used in s.committed && used != at ==> Passed(s.disk, used))
            && !Passed(s.disk, at)
            && (at in s.committed ==>
                  forall locked :: ApplyCommit(ApplySubmit(a, s, requested), ApplySubmit(a, s, requested).phase.sub, locked).committed == s.committed)
  {
  }

  /** The next attempt committed, but nothing on disk says so and no settle is waiting for it. */
  ghost predicate Lost(s: System) {
    Next(s.disk) in s.committed && !HasPending(s.disk) &&
    (s.phase.Waiting? ==> s.phase.sub.serial != s.committed[Next(s.disk)].serial)
  }

  lemma {:induction false} ReconcileIdle(st: Stream, i: nat, fates: map<OfferId, Fate>)
    requires !HasPending(st) && i <= |st.records|
    ensures ReconcileFrom(st, i, fates) == st
    decreases |st.records| - i
  {
    if i < |st.records| {
      ReconcileIdle(st, i + 1, fates);
    }
  }

  lemma StepKeepsLost(a: Agreement, s: System, step: Step)
    requires Inv(a, s) && Lost(s) && Enabled(a, s, step)
    ensures var s' := Apply(a, s, step); Lost(s') && s'.disk == s.disk && s'.committed.Keys == s.committed.Keys
  {
    match step
    case Reconcile(unreadable) => ReconcileIdle(s.disk, 0, Fates(s, unreadable));
    case Commit(sub, _) => assert sub.attempt in s.committed;
    case _ =>
  }

  /**
   * A lost state write is never paid again: from then on every settle retries the same attempt,
   * the ledger refuses it, and neither the stored stream nor the set of payments ever changes.
   */
  lemma {:induction false} LostWriteIsNeverRepaid(a: Agreement, s: System, steps: seq<Step>)
    requires Inv(a, s) && Lost(s) && Runs(a, s, steps)
    ensures var s' := After(a, s, steps);
            s'.disk == s.disk && s'.committed.Keys == s.committed.Keys && Next(s'.disk) == Next(s.disk)
    decreases steps
  {
    hide Inv;
    if |steps| > 0 {
      StepKeepsLost(a, s, steps[0]);
      StepInv(a, s, steps[0]);
      LostWriteIsNeverRepaid(a, Apply(a, s, steps[0]), steps[1..]);
    }
  }

  // ----- recording what did not happen -----

  /**
   * The check of a recorded withdraw accepts whatever consumed the offer. Closing a pending record as withdrawn
   * keeps the invariant exactly when its funds came back; crediting it, exactly when it was taken.
   */
  lemma RecordingIsSafeIff(a: Agreement, s: System, i: nat)
    requires Inv(a, s) && s.phase.Idle? && i < |s.disk.records| && s.disk.records[i].status.Pending?
    ensures Inv(a, s.(disk := Release(s.disk, i))) <==> Settles(s, i, Back)
    ensures Inv(a, s.(disk := Credit(s.disk, i))) <==> Settles(s, i, Taken)
  {
    var r := s.disk.records[i];
    assert r.offer in s.offers && s.offers[r.offer] in s.committed && s.committed[s.offers[r.offer]].form.AsOffer?;
    var released, credited := s.(disk := Release(s.disk, i)), s.(disk := Credit(s.disk, i));
    assert released.disk.records[i] == r.(status := Withdrawn) && credited.disk.records[i] == r.(status := Accepted);
    hide RecordsOk, AttemptsInOrder, OffersMatch, OfferNames, WithinAccrual, Balanced, Passed;
    assert !Settles(s, i, Back) ==> !RecordsMatch(released);
    assert !Settles(s, i, Taken) ==> !RecordsMatch(credited);
    if Settles(s, i, Back) {
      ReleaseInv(a, s, i);
    }
    if Settles(s, i, Taken) {
      CreditInv(a, s, i);
    }
  }

  /** A taken offer recorded as withdrawn is paid a second time by the next settle; catch-up then overpays by all of it. */
  lemma MisrecordedWithdrawPaysAgain(a: Agreement, s: System, i: nat)
    requires Inv(a, s) && s.phase.Idle? && !s.stopped && Settles(s, i, Taken)
    requires a.policy.CatchUp? && s.disk.records[i].amount > 0
    ensures var s1 := s.(disk := Release(s.disk, i));
            && Enabled(a, s1, Submit(None))
            && var s2 := ApplySubmit(a, s1, None);
               && Enabled(a, s2, Commit(s2.phase.sub, None))
               && PaidOut(ApplyCommit(s2, s2.phase.sub, None)) == Accrued(a, s.now) + s.disk.records[i].amount
  {
    hide Inv, RecordsOk, WithinAccrual, Balanced, RecordsMatch, OffersMatch, OfferNames, AttemptsInOrder, HasPending, Next;
    TakenButReleased(a, s, i);
    var s2 := ApplySubmit(a, s.(disk := Release(s.disk, i)), None);
    NewCommitWorth(s2, s2.phase.sub);
  }

  /** What the next settle then sees: nothing pending, an unused attempt, and the taken amount as not yet settled. */
  lemma TakenButReleased(a: Agreement, s: System, i: nat)
    requires Inv(a, s) && Settles(s, i, Taken)
    ensures var st := Release(s.disk, i);
            && !HasPending(st) && Next(st) !in s.committed && st.settled == s.disk.settled
            && s.disk.settled + s.disk.records[i].amount <= Accrued(a, s.now)
            && PaidOut(s) == s.disk.settled + s.disk.records[i].amount
  {
    ReleaseNext(s.disk, i);
    assert HasPending(s.disk);
    OnePendingWorth(s, i);
  }

  lemma NewCommitWorth(s: System, sub: Submission)
    requires sub.attempt !in s.committed
    ensures PaidOut(ApplyCommit(s, sub, None)) == PaidOut(s) + sub.amount
  {
    assert Worths(ApplyCommit(s, sub, None).committed) == Worths(s.committed)[sub.attempt := sub.amount];
    TotalUpdate(Worths(s.committed), sub.attempt, sub.amount);
  }

  lemma OnePendingWorth(s: System, i: nat)
    requires RecordsOk(s.disk) && RecordsMatch(s) && Settles(s, i, Taken)
    ensures Sum(s.disk.records, PendingWorth(s.offers, s.committed)) == s.disk.records[i].amount
  {
    var w := PendingWorth(s.offers, s.committed);
    var blank := s.disk.records[i].(status := Withdrawn);
    SumUpdate(s.disk.records, i, blank, w);
    ZeroSum(s.disk.records[i := blank], w);
  }

  // ----- what an undisturbed settle gets done -----

  /** Submitted, landed at once and saved: the total moves by the due amount, and the cycle is over. */
  lemma DirectSettlePays(a: Agreement, s: System, requested: Option<nat>)
    requires Inv(a, s) && Enabled(a, s, Submit(requested)) && Next(s.disk) !in s.committed
    ensures var s1 := ApplySubmit(a, s, requested);
            var s2 := ApplyCommit(s1, s1.phase.sub, None);
            && Enabled(a, s1, Commit(s1.phase.sub, None)) && Enabled(a, s2, Save)
            && var s3 := Apply(a, s2, Save);
               && s3.disk == Stream(s.disk.settled + DueNow(a, s, requested), s.disk.cycles + 1, s.disk.records)
               && s3.phase.Idle? && PaidOut(s3) == PaidOut(s) + DueNow(a, s, requested)
  {
    var s1 := ApplySubmit(a, s, requested);
    NewCommitWorth(s1, s1.phase.sub);
  }

  lemma OfferIsSaved(a: Agreement, s: System, requested: Option<nat>, offer: OfferId)
    requires Inv(a, s) && Enabled(a, s, Submit(requested)) && Next(s.disk) !in s.committed && offer !in s.offers
    ensures var s1 := ApplySubmit(a, s, requested);
            var s2 := ApplyCommit(s1, s1.phase.sub, Some(offer));
            && Enabled(a, s1, Commit(s1.phase.sub, Some(offer))) && Enabled(a, s2, Save)
            && Next(s.disk) in s2.committed && s2.offers == s.offers[offer := Next(s.disk)]
            && s2.committed[Next(s.disk)] == Committed(s.serial, DueNow(a, s, requested), AsOffer(offer, Live))
            && Apply(a, s2, Save) == s2.(phase := Idle, disk := s.disk.(records :=
                 s.disk.records + [Record(s.disk.cycles + 1, DueNow(a, s, requested), offer, Pending)]))
  {
    hide Inv, Next, DueNow, RecordsOk, RecordsMatch, OffersMatch, OfferNames, AttemptsInOrder, WithinAccrual, Balanced;
    var s1 := ApplySubmit(a, s, requested);
    SubmitInv(a, s, requested);
    CommitInv(a, s1, s1.phase.sub, Some(offer));
    SaveOfferShape(a, ApplyCommit(s1, s1.phase.sub, Some(offer)));
  }

  /** Landed as an offer and taken: nothing is settled until the next reconcile, which then settles exactly the amount. */
  lemma OfferedSettlePays(a: Agreement, s: System, requested: Option<nat>, offer: OfferId)
    requires Inv(a, s) && Enabled(a, s, Submit(requested)) && Next(s.disk) !in s.committed && offer !in s.offers
    ensures var s1 := ApplySubmit(a, s, requested);
            var s2 := ApplyCommit(s1, s1.phase.sub, Some(offer));
            && Enabled(a, s1, Commit(s1.phase.sub, Some(offer))) && Enabled(a, s2, Save)
            && var s3 := Apply(a, s2, Save);
               && s3.disk.settled == s.disk.settled && HasPending(s3.disk) && Enabled(a, s3, Resolve(offer, true))
               && var s5 := Apply(a, ApplyResolve(s3, offer, true), Reconcile({}));
                  && s5.disk.settled == s.disk.settled + DueNow(a, s, requested)
                  && s5.disk.cycles == s.disk.cycles + 1 && !HasPending(s5.disk)
  {
    OfferIsSaved(a, s, requested, offer);
    NoPendingMeans(s.disk);
    hide Inv, Next, DueNow, ApplyCommit, ApplySubmit, ReconcileFrom;
    var s1 := ApplySubmit(a, s, requested);
    var s3 := Apply(a, ApplyCommit(s1, s1.phase.sub, Some(offer)), Save);
    var n := |s.disk.records|;
    assert s3.disk.records[n].status.Pending?;
    var s4 := ApplyResolve(s3, offer, true);
    assert forall j :: 0 <= j < n ==> s3.disk.records[j] == s.disk.records[j];
    var fates := Fates(s4, {});
    assert offer in fates && fates[offer].Taken?;
    SkipSettled(s4.disk, 0, n, fates);
    LastIsCredited(s4.disk, fates);
  }

  /** Records that are not pending are passed over. */
  lemma {:induction false} SkipSettled(st: Stream, i: nat, n: nat, fates: map<OfferId, Fate>)
    requires i <= n <= |st.records| && forall j :: i <= j < n ==> !st.records[j].status.Pending?
    ensures ReconcileFrom(st, i, fates) == ReconcileFrom(st, n, fates)
    decreases n - i
  {
    if i < n {
      SkipSettled(st, i + 1, n, fates);
    }
  }

  lemma LastIsCredited(st: Stream, fates: map<OfferId, Fate>)
    requires |st.records| > 0
    requires var r := st.records[|st.records| - 1];
             r.status.Pending? && r.cycle == st.cycles + 1 && r.offer in fates && fates[r.offer].Taken?
    requires forall j :: 0 <= j < |st.records| - 1 ==> !st.records[j].status.Pending?
    ensures var n := |st.records| - 1;
            && ReconcileFrom(st, n, fates) == Credit(st, n) && !HasPending(Credit(st, n))
            && Credit(st, n).settled == st.settled + st.records[n].amount && Credit(st, n).cycles == st.cycles + 1
  {
    var n := |st.records| - 1;
    assert ReconcileFrom(Credit(st, n), n + 1, fates) == Credit(st, n);
  }
}
