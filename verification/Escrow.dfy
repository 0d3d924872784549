/**
 * One custodied escrow: its `released` scalar, status, schedule and append-only audit ledger,
 * and what create, release, refund, reconcile and reclaim do to them.
 *
 * Amounts are whole units of 1e-10 of the asset; times are milliseconds.
 */
module Escrow {
  import opened Common

  type Millis = int
  type ContractId = nat

  /** A custody pool: Canton Coin, or another whitelisted registry asset. */
  datatype AssetKey = CC | Registry(key: nat)

  datatype Status = Active | Completed | Refunded
  datatype LegKind = Deposit | Release | Refund
  datatype Delivery = Direct | PendingOffer
  datatype OfferStatus = Open | Accepted | Withdrawn | Expired
  datatype LegState = Delivered | InFlight | Reverted

  datatype Leg = Leg(
    kind: LegKind,
    amount: nat,
    delivery: Delivery,
    offerStatus: Option<OfferStatus>,
    cid: Option<ContractId>,
    expiresAt: Option<Millis>)

  datatype ReleaseRecord = ReleaseRecord(at: Millis, amount: nat, pending: bool)

  datatype Escrow = Escrow(
    asset: AssetKey,
    rate: nat,
    cadenceSeconds: nat,
    total: nat,
    released: int,
    stalls: nat,
    status: Status,
    createdAt: Millis,
    nextDueAt: Millis,
    releases: seq<ReleaseRecord>,
    ledger: seq<Leg>)

  /** How a committed transfer landed: at once, or as an offer the receiver must accept. */
  datatype Transfer = Landed | Offered(cid: ContractId, expiresAt: Millis)

  /** The clock readings of one mutation, in the order the code takes them. */
  datatype Times = Times(checked: Millis, committed: Millis, rescheduled: Millis) {
    predicate Ordered() {
      checked <= committed <= rescheduled
    }
  }

  function Cadence(e: Escrow): nat {
    e.cadenceSeconds * 1000
  }

  function Remaining(e: Escrow): int {
    Max(0, e.total - e.released)
  }

  predicate IsOpenRelease(l: Leg) {
    l.kind.Release? && l.offerStatus == Some(Open)
  }

  predicate HasPendingRelease(e: Escrow) {
    exists i :: 0 <= i < |e.ledger| && IsOpenRelease(e.ledger[i])
  }

  function StateOf(l: Leg): LegState {
    if l.delivery.Direct? || l.offerStatus == Some(Accepted) then Delivered
    else if l.offerStatus == Some(Withdrawn) || l.offerStatus == Some(Expired) then Reverted
    else InFlight
  }

  // ----- what each leg contributes to the running totals -----

  function DeliveredDeposit(l: Leg): int {
    if l.kind.Deposit? && StateOf(l).Delivered? then l.amount else 0
  }

  function DeliveredRelease(l: Leg): int {
    if l.kind.Release? && StateOf(l).Delivered? then l.amount else 0
  }

  function InFlightRelease(l: Leg): int {
    if l.kind.Release? && StateOf(l).InFlight? then l.amount else 0
  }

  function DeliveredRefund(l: Leg): int {
    if l.kind.Refund? && StateOf(l).Delivered? then l.amount else 0
  }

  function InFlightRefund(l: Leg): int {
    if l.kind.Refund? && StateOf(l).InFlight? then l.amount else 0
  }

  function RevertedRefund(l: Leg): int {
    if l.kind.Refund? && StateOf(l).Reverted? then l.amount else 0
  }

  /** What a leg adds to `released`: a release until it reverts, a refund for good. */
  function Advance(l: Leg): int {
    if l.kind.Refund? || (l.kind.Release? && !StateOf(l).Reverted?) then l.amount else 0
  }

  // ----- what every reachable escrow satisfies -----

  predicate LegOk(l: Leg) {
    && (l.delivery.Direct? <==> l.offerStatus.None?)
    && (l.cid.Some? ==> l.delivery.PendingOffer?)
  }

  /** The scalar agrees with the ledger and stays within the deposit. */
  ghost predicate Conserved(e: Escrow) {
    && |e.ledger| > 0 && e.ledger[0].kind.Deposit? && e.ledger[0].amount == e.total
    && (forall i :: 0 <= i < |e.ledger| ==> LegOk(e.ledger[i]))
    && (forall i :: 0 < i < |e.ledger| ==> !e.ledger[i].kind.Deposit?)
    && e.released == Sum(e.ledger, Advance)
    && 0 <= e.released <= e.total
  }

  ghost predicate StatusMeans(e: Escrow) {
    && (!e.status.Refunded? ==> forall i :: 0 <= i < |e.ledger| ==> !e.ledger[i].kind.Refund?)
    && (forall i, j :: 0 <= i < j < |e.ledger| ==> !(e.ledger[i].kind.Refund? && e.ledger[j].kind.Refund?))
    && (e.status.Completed? ==> e.released == e.total && !HasPendingRelease(e))
  }

  ghost predicate Spaced(rs: seq<ReleaseRecord>, cadence: nat) {
    forall i, j :: 0 <= i < j < |rs| ==> rs[i].at + cadence <= rs[j].at
  }

  /** Recorded releases are one cadence apart, and the next is not due before the last plus one. */
  ghost predicate Paced(e: Escrow) {
    && 0 < e.cadenceSeconds
    && Spaced(e.releases, Cadence(e))
    && (e.status.Active? && |e.releases| > 0 ==> e.releases[|e.releases| - 1].at + Cadence(e) <= e.nextDueAt)
  }

  ghost predicate Valid(e: Escrow) {
    Conserved(e) && StatusMeans(e) && Paced(e)
  }

  // ----- operations -----

  function Append(e: Escrow, l: Leg): Escrow {
    e.(ledger := e.ledger + [l])
  }

  function TransferLeg(kind: LegKind, amount: nat, t: Transfer): Leg {
    match t
    case Landed => Leg(kind, amount, Direct, None, None, None)
    case Offered(cid, expiresAt) => Leg(kind, amount, PendingOffer, Some(Open), Some(cid), Some(expiresAt))
  }

  function Create(asset: AssetKey, rate: nat, cadenceSeconds: nat, total: nat, now: Millis, t: Transfer): Escrow {
    Escrow(asset, rate, cadenceSeconds, total, 0, 0, Active, now, now, [], [TransferLeg(Deposit, total, t)])
  }

  /** The releases an active, due escrow with money left makes once its transfer has committed. */
  function CycleAmount(e: Escrow): nat {
    Min(e.rate, Remaining(e))
  }

  function CompleteIfDone(e: Escrow): Escrow {
    if Remaining(e) <= 0 && !HasPendingRelease(e) then e.(status := Completed) else e
  }

  function AfterRelease(e: Escrow, times: Times, t: Transfer): Escrow {
    var amount := CycleAmount(e);
    var paid := e.(
      released := e.released + amount,
      nextDueAt := times.rescheduled + Cadence(e),
      releases := e.releases + [ReleaseRecord(times.committed, amount, t.Offered?)]);
    CompleteIfDone(Append(paid, TransferLeg(Release, amount, t)))
  }

  /** A due escrow with nothing left completes, or waits one cadence for its open offer. */
  function AfterIdleRelease(e: Escrow, times: Times): Escrow {
    if !HasPendingRelease(e) then e.(status := Completed)
    else e.(nextDueAt := times.rescheduled + Cadence(e))
  }

  function AfterRefund(e: Escrow, t: Transfer): Escrow {
    var closed :=
      if Remaining(e) > 0 then
        Append(e.(released := e.total), TransferLeg(Refund, Remaining(e), t))
      else e;
    closed.(status := Refunded, nextDueAt := e.createdAt)
  }

  predicate PastDeadline(l: Leg, now: Millis) {
    l.expiresAt.Some? && l.expiresAt.value <= now
  }

  predicate Tracked(l: Leg) {
    l.cid.Some? && l.offerStatus != Some(Accepted) && l.offerStatus != Some(Expired) && l.offerStatus != Some(Withdrawn)
  }

  /** What a chain snapshot lets reconcile infer about a tracked offer. */
  function Observe(l: Leg, live: set<ContractId>, now: Millis): OfferStatus
    requires l.cid.Some?
  {
    if l.cid.value in live then Open
    else if PastDeadline(l, now) then Expired
    else if !l.kind.Deposit? then Accepted
    else Open
  }

  /** A release offer whose funds came back un-advances `released` and reopens a completed escrow. */
  function Revert(e: Escrow, amount: nat): Escrow {
    e.(released := Max(0, e.released - amount), status := if e.status.Completed? then Active else e.status)
  }

  function ReconcileLeg(e: Escrow, i: nat, live: set<ContractId>, now: Millis): Escrow
    requires i < |e.ledger|
  {
    var l := e.ledger[i];
    if !Tracked(l) || l.offerStatus == Some(Observe(l, live, now)) then e else
      var next := Observe(l, live, now);
      var reverted := if next.Expired? && l.kind.Release? then Revert(e, l.amount) else e;
      var cleared := if next.Accepted? && l.kind.Release? then reverted.(stalls := 0) else reverted;
      cleared.(ledger := e.ledger[i := l.(offerStatus := Some(next))])
  }

  function ReconcileFrom(e: Escrow, i: nat, live: set<ContractId>, now: Millis): Escrow
    requires i <= |e.ledger|
    decreases |e.ledger| - i
  {
    if i == |e.ledger| then e else ReconcileFrom(ReconcileLeg(e, i, live, now), i + 1, live, now)
  }

  function Reconcile(e: Escrow, live: set<ContractId>, now: Millis): Escrow {
    var r := ReconcileFrom(e, 0, live, now);
    if r.status.Active? then CompleteIfDone(r) else r
  }

  /** A release offer past its deadline; `submitted` are the legs whose withdraw committed. */
  predicate Stuck(l: Leg, now: Millis) {
    IsOpenRelease(l) && l.cid.Some? && PastDeadline(l, now)
  }

  predicate Reclaims(l: Leg, i: nat, live: set<ContractId>, submitted: set<nat>, now: Millis) {
    Stuck(l, now) && l.cid.value in live && i in submitted
  }

  function ReclaimLeg(e: Escrow, i: nat, live: set<ContractId>, submitted: set<nat>, now: Millis): Escrow
    requires i < |e.ledger|
  {
    var l := e.ledger[i];
    if !Reclaims(l, i, live, submitted, now) then e else
      Revert(e, l.amount).(stalls := e.stalls + 1, ledger := e.ledger[i := l.(offerStatus := Some(Withdrawn))])
  }

  function ReclaimFrom(e: Escrow, i: nat, live: set<ContractId>, submitted: set<nat>, now: Millis): Escrow
    requires i <= |e.ledger|
    decreases |e.ledger| - i
  {
    if i == |e.ledger| then e else ReclaimFrom(ReclaimLeg(e, i, live, submitted, now), i + 1, live, submitted, now)
  }

  function Reclaim(e: Escrow, live: set<ContractId>, submitted: set<nat>, now: Millis): Escrow {
    if e.asset == CC || e.status.Refunded? then e else ReclaimFrom(e, 0, live, submitted, now)
  }

  // ----- every operation keeps Valid -----

  lemma CreateValid(asset: AssetKey, rate: nat, cadenceSeconds: nat, total: nat, now: Millis, t: Transfer)
    requires 0 < cadenceSeconds
    ensures Valid(Create(asset, rate, cadenceSeconds, total, now, t))
  {
    assert [TransferLeg(Deposit, total, t)][..0] == [];
  }

  lemma AppendKeeps(e: Escrow, l: Leg)
    requires Conserved(e) && LegOk(l) && !l.kind.Deposit?
    ensures Sum(Append(e, l).ledger, Advance) == e.released + Advance(l)
  {
    SumAppend(e.ledger, l, Advance);
  }

  lemma ReleasePaced(e: Escrow, times: Times, t: Transfer)
    requires Paced(e) && e.status.Active? && e.nextDueAt <= times.checked && times.Ordered()
    ensures Paced(AfterRelease(e, times, t))
  {
    var n := |e.releases|;
    assert n > 0 ==> forall i :: 0 <= i < n ==> e.releases[i].at <= e.releases[n - 1].at;
  }

  lemma ReleaseConserved(e: Escrow, times: Times, t: Transfer)
    requires Conserved(e) && Remaining(e) > 0
    ensures Conserved(AfterRelease(e, times, t))
  {
    AppendKeeps(e, TransferLeg(Release, CycleAmount(e), t));
  }

  lemma ReleaseValid(e: Escrow, times: Times, t: Transfer)
    requires Valid(e) && e.status.Active? && e.nextDueAt <= times.checked && times.Ordered()
    requires Remaining(e) > 0
    ensures Valid(AfterRelease(e, times, t))
  {
    ReleasePaced(e, times, t);
    ReleaseConserved(e, times, t);
  }

  lemma IdleReleaseValid(e: Escrow, times: Times)
    requires Valid(e) && e.status.Active? && e.nextDueAt <= times.checked && times.Ordered()
    requires Remaining(e) <= 0
    ensures Valid(AfterIdleRelease(e, times))
  {
  }

  lemma RefundConserved(e: Escrow, t: Transfer)
    requires Conserved(e)
    ensures Conserved(AfterRefund(e, t))
  {
    AppendKeeps(e, TransferLeg(Refund, Remaining(e), t));
  }

  lemma RefundMeans(e: Escrow, t: Transfer)
    requires StatusMeans(e) && e.status.Active?
    ensures StatusMeans(AfterRefund(e, t))
  {
  }

  lemma RefundValid(e: Escrow, t: Transfer)
    requires Valid(e) && e.status.Active?
    ensures Valid(AfterRefund(e, t))
  {
    RefundConserved(e, t);
    RefundMeans(e, t);
    hide Conserved, StatusMeans;
  }

  /** `released` never runs below a leg it counts, so `Math.max(0, ...)` never bites. */
  lemma ClampNeverBites(e: Escrow, i: nat)
    requires Conserved(e) && i < |e.ledger|
    ensures Advance(e.ledger[i]) <= e.released
    ensures IsOpenRelease(e.ledger[i]) ==> e.ledger[i].amount <= e.released
  {
    SumAtLeastOne(e.ledger, i, Advance);
  }

  /** Resolving one open offer: only a release that reverts gives back what it advanced. */
  function Resolve(e: Escrow, i: nat, status: OfferStatus, stalls: nat): Escrow
    requires i < |e.ledger|
  {
    var l := e.ledger[i];
    var back := if l.kind.Release? && (status.Expired? || status.Withdrawn?) then Revert(e, l.amount) else e;
    back.(stalls := stalls, ledger := e.ledger[i := l.(offerStatus := Some(status))])
  }

  lemma ResolveConserved(e: Escrow, i: nat, status: OfferStatus, stalls: nat)
    requires Conserved(e) && i < |e.ledger| && e.ledger[i].offerStatus == Some(Open)
    ensures Conserved(Resolve(e, i, status, stalls))
  {
    ClampNeverBites(e, i);
    assert LegOk(e.ledger[i]);
    var l' := e.ledger[i].(offerStatus := Some(status));
    SumUpdate(e.ledger, i, l', Advance);
    assert 0 <= Sum(e.ledger[i := l'], Advance) by {
      SumNonNegative(e.ledger[i := l'], Advance);
    }
  }

  lemma ResolveValid(e: Escrow, i: nat, status: OfferStatus, stalls: nat)
    requires Valid(e) && i < |e.ledger| && e.ledger[i].offerStatus == Some(Open)
    requires !status.Open?
    ensures Valid(Resolve(e, i, status, stalls))
    ensures Resolve(e, i, status, stalls).status == e.status
  {
    ResolveConserved(e, i, status, stalls);
    var r := Resolve(e, i, status, stalls);
    assert e.status.Completed? ==> !IsOpenRelease(e.ledger[i]);
    assert forall j :: 0 <= j < |r.ledger| ==> r.ledger[j].kind == e.ledger[j].kind;
    assert forall j :: 0 <= j < |r.ledger| && IsOpenRelease(r.ledger[j]) ==> IsOpenRelease(e.ledger[j]);
  }

  lemma ReconcileLegValid(e: Escrow, i: nat, live: set<ContractId>, now: Millis)
    requires Valid(e) && i < |e.ledger|
    ensures Valid(ReconcileLeg(e, i, live, now))
    ensures ReconcileLeg(e, i, live, now).status == e.status
    ensures |ReconcileLeg(e, i, live, now).ledger| == |e.ledger|
  {
    var l := e.ledger[i];
    assert LegOk(l);
    if Tracked(l) && l.offerStatus != Some(Observe(l, live, now)) {
      var next := Observe(l, live, now);
      assert l.offerStatus.Some? && l.offerStatus.value.Open?;
      ResolveValid(e, i, next, if next.Accepted? && l.kind.Release? then 0 else e.stalls);
    }
  }

  lemma {:induction false} ReconcileFromValid(e: Escrow, i: nat, live: set<ContractId>, now: Millis)
    requires Valid(e) && i <= |e.ledger|
    ensures Valid(ReconcileFrom(e, i, live, now))
    ensures ReconcileFrom(e, i, live, now).status == e.status
    decreases |e.ledger| - i
  {
    if i < |e.ledger| {
      ReconcileLegValid(e, i, live, now);
      ReconcileFromValid(ReconcileLeg(e, i, live, now), i + 1, live, now);
    }
  }

  /** Reconcile never reopens: the completed-to-active branch is dead in every valid escrow. */
  lemma ReconcileValid(e: Escrow, live: set<ContractId>, now: Millis)
    requires Valid(e)
    ensures Valid(Reconcile(e, live, now))
    ensures e.status.Completed? ==> Reconcile(e, live, now).status.Completed?
    ensures e.status.Refunded? ==> Reconcile(e, live, now).status.Refunded?
  {
    ReconcileFromValid(e, 0, live, now);
  }

  lemma ReclaimLegValid(e: Escrow, i: nat, live: set<ContractId>, submitted: set<nat>, now: Millis)
    requires Valid(e) && i < |e.ledger|
    ensures Valid(ReclaimLeg(e, i, live, submitted, now))
    ensures ReclaimLeg(e, i, live, submitted, now).status == e.status
  {
    if Reclaims(e.ledger[i], i, live, submitted, now) {
      ResolveValid(e, i, Withdrawn, e.stalls + 1);
    }
  }

  lemma {:induction false} ReclaimFromValid(e: Escrow, i: nat, live: set<ContractId>, submitted: set<nat>, now: Millis)
    requires Valid(e) && i <= |e.ledger|
    ensures Valid(ReclaimFrom(e, i, live, submitted, now))
    ensures ReclaimFrom(e, i, live, submitted, now).status == e.status
    decreases |e.ledger| - i
  {
    if i < |e.ledger| {
      ReclaimLegValid(e, i, live, submitted, now);
      ReclaimFromValid(ReclaimLeg(e, i, live, submitted, now), i + 1, live, submitted, now);
    }
  }

  lemma ReclaimValid(e: Escrow, live: set<ContractId>, submitted: set<nat>, now: Millis)
    requires Valid(e)
    ensures Valid(Reclaim(e, live, submitted, now))
    ensures Reclaim(e, live, submitted, now).status == e.status
  {
    if e.asset != CC && !e.status.Refunded? {
      ReclaimFromValid(e, 0, live, submitted, now);
    }
  }
}
