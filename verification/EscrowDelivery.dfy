/** What the statuses in an escrow's ledger say of the offers themselves, while no reconcile misreads one. */
module EscrowDelivery {
  import opened Common
  import opened Escrow
  import opened EscrowPool
  import opened EscrowSolvency
  import EscrowSummary

  predicate IsOpen(l: Leg, kind: LegKind) {
    l.kind == kind && l.offerStatus == Some(Open)
  }

  /** Reconcile's reading of this leg is right: its offer, if gone, was taken exactly when the deadline is still ahead. */
  predicate ReadsRight(offers: map<ContractId, Offer>, now: Millis, l: Leg, kind: LegKind) {
    IsOpen(l, kind) && l.cid.Some? && l.cid.value in offers && !offers[l.cid.value].state.Locked? ==>
      (offers[l.cid.value].state.Taken? <==> !PastDeadline(l, now))
  }

  /** Nothing that is read right counts as misread. */
  lemma ReadsRightIsNotMisread(offers: map<ContractId, Offer>, now: Millis, l: Leg)
    requires l.amount > 0
    ensures ReadsRight(offers, now, l, Release) <==> Misread(offers, now)(l) == 0
  {
  }

  predicate StepReadsRight(w: World, s: Step, kind: LegKind) {
    s.ReconcileStep? && s.id in w.escrows ==>
      forall i :: 0 <= i < |w.escrows[s.id].ledger| ==> ReadsRight(w.offers, w.now, w.escrows[s.id].ledger[i], kind)
  }

  /** The final status of a leg of this kind, release or refund, is its offer's. */
  predicate Truthful(offers: map<ContractId, Offer>, l: Leg, kind: LegKind) {
    l.kind == kind && l.delivery.PendingOffer? ==>
      && l.cid.Some? && l.cid.value in offers
      && (l.offerStatus == Some(Accepted) ==> offers[l.cid.value].state.Taken?)
      && (l.offerStatus == Some(Expired) || l.offerStatus == Some(Withdrawn) ==> offers[l.cid.value].state.Returned?)
  }

  ghost predicate AllTruthful(w: World, kind: LegKind) {
    forall id, i :: id in w.escrows && 0 <= i < |w.escrows[id].ledger| ==> Truthful(w.offers, w.escrows[id].ledger[i], kind)
  }

  /** Offers stay known, and a taken or returned one stays what it is. */
  predicate OffersAdvance(offers: map<ContractId, Offer>, offers': map<ContractId, Offer>) {
    forall c :: c in offers ==> c in offers' && (!offers[c].state.Locked? ==> offers'[c].state == offers[c].state)
  }

  lemma TruthfulKept(w: World, w': World, id: EscrowId, kind: LegKind)
    requires AllTruthful(w, kind) && OffersAdvance(w.offers, w'.offers)
    requires w'.escrows.Keys <= w.escrows.Keys + {id}
    requires forall k :: k in w'.escrows && k != id ==> w'.escrows[k].ledger == w.escrows[k].ledger
    requires id in w'.escrows ==>
               forall i :: 0 <= i < |w'.escrows[id].ledger| ==>
                 Truthful(w'.offers, w'.escrows[id].ledger[i], kind)
                 || (id in w.escrows && i < |w.escrows[id].ledger| && w'.escrows[id].ledger[i] == w.escrows[id].ledger[i])
    ensures AllTruthful(w', kind)
  {
    forall k, i | k in w'.escrows && 0 <= i < |w'.escrows[k].ledger| ensures Truthful(w'.offers, w'.escrows[k].ledger[i], kind) {
      if k in w.escrows && i < |w.escrows[k].ledger| && w'.escrows[k].ledger[i] == w.escrows[k].ledger[i] {
        assert Truthful(w.offers, w.escrows[k].ledger[i], kind);
      }
    }
  }

  lemma PayTruthful(w: World, id: EscrowId, e': Escrow, legKind: LegKind, amount: nat, t: Transfer, kind: LegKind)
    requires AllTruthful(w, kind) && id in w.escrows && Fresh(w, t)
    requires e'.ledger == w.escrows[id].ledger + [TransferLeg(legKind, amount, t)]
    ensures AllTruthful(Pay(w, id, e', amount, t), kind)
  {
    TruthfulKept(w, Pay(w, id, e', amount, t), id, kind);
  }

  lemma TimeTruthful(w: World, now: Millis, kind: LegKind)
    requires AllTruthful(w, kind)
    ensures AllTruthful(w.(now := now), kind)
  {
  }

  lemma ReconcileTruthful(w: World, id: EscrowId, kind: LegKind)
    requires !kind.Deposit?
    requires WorldOk(w) && AllTruthful(w, kind) && id in w.escrows && StepReadsRight(w, ReconcileStep(id), kind)
    ensures AllTruthful(Put(w, id, Reconcile(w.escrows[id], w.Live(), w.now)), kind)
  {
    var e := w.escrows[id];
    var r := Reconcile(e, w.Live(), w.now);
    ReconcileLedger(e, w.Live(), w.now);
    ReconcileFromSameLegs(e, 0, w.Live(), w.now);
    forall i | 0 <= i < |r.ledger| ensures Truthful(w.offers, r.ledger[i], kind) {
      ReconcileAt(e, 0, i, w.Live(), w.now);
      ReadTruthful(w, id, i, kind);
    }
    TruthfulKept(w, Put(w, id, r), id, kind);
  }

  lemma ReadTruthful(w: World, id: EscrowId, i: nat, kind: LegKind)
    requires !kind.Deposit?
    requires WorldOk(w) && AllTruthful(w, kind) && id in w.escrows && i < |w.escrows[id].ledger|
    requires ReadsRight(w.offers, w.now, w.escrows[id].ledger[i], kind)
    ensures var l := w.escrows[id].ledger[i];
            Truthful(w.offers, if Tracked(l) then l.(offerStatus := Some(Observe(l, w.Live(), w.now))) else l, kind)
  {
    hide Linked, EscrowSummary.DirectPace, StatusMeans, Paced;
    var l := w.escrows[id].ledger[i];
    assert LegOk(l) && Truthful(w.offers, l, kind);
    assert Tracked(l) ==> l.offerStatus.value.Open?;
  }

  lemma ReclaimTruthful(w: World, id: EscrowId, leg: nat, kind: LegKind)
    requires AllTruthful(w, kind) && id in w.escrows && leg < |w.escrows[id].ledger|
    requires Reclaims(w.escrows[id].ledger[leg], leg, w.Live(), {leg}, w.now)
    ensures AllTruthful(ApplyReclaim(w, id, leg), kind)
  {
    TruthfulKept(w, ApplyReclaim(w, id, leg), id, kind);
  }

  lemma StepTruthful(w: World, s: Step, kind: LegKind)
    requires !kind.Deposit?
    requires WorldOk(w) && AllTruthful(w, kind) && Enabled(w, s) && StepReadsRight(w, s, kind)
    ensures AllTruthful(Apply(w, s), kind)
  {
    hide AllTruthful, WorldOk, Truthful;
    var w' := Apply(w, s);
    match s {
      case CreateStep(id, _, _, _, _, _) => CreateTruthful(w, s, kind);
      case ReleaseStep(id, t, committed, rescheduled) =>
        var e, times := w.escrows[id], Times(w.now, committed, rescheduled);
        if Remaining(e) > 0 {
          PayTruthful(w, id, AfterRelease(e, times, t), Release, CycleAmount(e), t, kind);
          TimeTruthful(Pay(w, id, AfterRelease(e, times, t), CycleAmount(e), t), rescheduled, kind);
        } else {
          QuietTruthful(w, w', kind);
        }
      case RefundStep(id, t) =>
        var e := w.escrows[id];
        if Remaining(e) > 0 {
          PayTruthful(w, id, AfterRefund(e, t), Refund, Remaining(e), t, kind);
        } else {
          QuietTruthful(w, w', kind);
        }
      case ReconcileStep(id) => ReconcileTruthful(w, id, kind);
      case ReclaimStep(id, leg) => ReclaimTruthful(w, id, leg, kind);
      case _ => QuietTruthful(w, w', kind);
    }
  }

  lemma QuietTruthful(w: World, w': World, kind: LegKind)
    requires AllTruthful(w, kind) && OffersAdvance(w.offers, w'.offers) && w'.escrows.Keys == w.escrows.Keys
    requires forall k :: k in w.escrows ==> w'.escrows[k].ledger == w.escrows[k].ledger
    ensures AllTruthful(w', kind)
  {
    forall k, i | k in w'.escrows && 0 <= i < |w'.escrows[k].ledger| ensures Truthful(w'.offers, w'.escrows[k].ledger[i], kind) {
      assert Truthful(w.offers, w.escrows[k].ledger[i], kind);
    }
  }

  lemma CreateTruthful(w: World, s: Step, kind: LegKind)
    requires AllTruthful(w, kind) && Enabled(w, s) && s.CreateStep?
    ensures AllTruthful(Apply(w, s), kind)
  {
    var w' := Apply(w, s);
    assert w'.escrows[s.id].ledger == [TransferLeg(Deposit, s.total, s.t)];
    TruthfulKept(w, w', s.id, kind);
  }

  ghost predicate RunReadsRight(w: World, steps: seq<Step>, kind: LegKind)
    requires Runs(w, steps)
    decreases steps
  {
    |steps| > 0 ==> StepReadsRight(w, steps[0], kind) && RunReadsRight(Apply(w, steps[0]), steps[1..], kind)
  }

  lemma {:induction false} RunTruthful(w: World, steps: seq<Step>, kind: LegKind)
    requires !kind.Deposit?
    requires WorldOk(w) && AllTruthful(w, kind) && Runs(w, steps) && RunReadsRight(w, steps, kind)
    ensures WorldOk(After(w, steps)) && AllTruthful(After(w, steps), kind)
    decreases steps
  {
    hide WorldOk, AllTruthful;
    if |steps| > 0 {
      StepTruthful(w, steps[0], kind);
      StepOk(w, steps[0]);
      RunTruthful(Apply(w, steps[0]), steps[1..], kind);
    }
  }

  // ----- where the money of a leg is -----

  predicate Gone(offers: map<ContractId, Offer>, l: Leg, state: OfferState) {
    l.cid.Some? && l.cid.value in offers && offers[l.cid.value].state == state
  }

  /** The receiver of this leg has its money: it landed at once, or the receiver took its offer. */
  predicate Received(offers: map<ContractId, Offer>, l: Leg) {
    l.delivery.Direct? || Gone(offers, l, Taken)
  }

  function ReceivedAmount(offers: map<ContractId, Offer>, kind: LegKind): Leg -> int {
    (l: Leg) => if l.kind == kind && Received(offers, l) then l.amount else 0
  }

  function LockedAmount(offers: map<ContractId, Offer>, kind: LegKind): Leg -> int {
    (l: Leg) => if l.kind == kind && !l.delivery.Direct? && Gone(offers, l, Locked) then l.amount else 0
  }

  /** Fresh from a reconcile that read right, a leg's state in the ledger is where its money is. */
  lemma ReconciledLegIsTrue(w: World, id: EscrowId, i: nat, kind: LegKind)
    requires !kind.Deposit? && WorldOk(w) && AllTruthful(w, kind) && id in w.escrows && i < |w.escrows[id].ledger|
    requires ReadsRight(w.offers, w.now, w.escrows[id].ledger[i], kind) && w.escrows[id].ledger[i].kind == kind
    ensures |Reconcile(w.escrows[id], w.Live(), w.now).ledger| == |w.escrows[id].ledger|
    ensures var l := Reconcile(w.escrows[id], w.Live(), w.now).ledger[i];
            && l == w.escrows[id].ledger[i].(offerStatus := l.offerStatus)
            && (StateOf(l).Delivered? <==> Received(w.offers, l))
            && (StateOf(l).InFlight? <==> !l.delivery.Direct? && Gone(w.offers, l, Locked))
            && (StateOf(l).Reverted? <==> !l.delivery.Direct? && Gone(w.offers, l, Returned))
  {
    hide Linked, EscrowSummary.DirectPace, StatusMeans, Paced, ReconcileFrom;
    var e := w.escrows[id];
    var l := e.ledger[i];
    ReconcileLedger(e, w.Live(), w.now);
    ReconcileAt(e, 0, i, w.Live(), w.now);
    assert LegOk(l) && Truthful(w.offers, l, kind);
    assert Tracked(l) ==> l.offerStatus.value.Open?;
    assert Gone(w.offers, l, Locked) <==> l.cid.Some? && l.cid.value in w.Live();
  }

  /**
   * After such a reconcile the roll-up tells the truth: delivered and refunded are what payee and payer have
   * received, pending and refund-pending what is locked in open offers.
   */
  lemma ReconciledSummaryIsTrue(w: World, id: EscrowId)
    requires WorldOk(w) && AllTruthful(w, Release) && AllTruthful(w, Refund) && id in w.escrows
    requires StepReadsRight(w, ReconcileStep(id), Release) && StepReadsRight(w, ReconcileStep(id), Refund)
    ensures var ledger := Reconcile(w.escrows[id], w.Live(), w.now).ledger;
            var s := EscrowSummary.SummaryOf(ledger);
            && s.delivered == Sum(ledger, ReceivedAmount(w.offers, Release)) && s.pending == Sum(ledger, LockedAmount(w.offers, Release))
            && s.refunded == Sum(ledger, ReceivedAmount(w.offers, Refund)) && s.refundPending == Sum(ledger, LockedAmount(w.offers, Refund))
  {
    var ledger := Reconcile(w.escrows[id], w.Live(), w.now).ledger;
    ReconcileLedger(w.escrows[id], w.Live(), w.now);
    ReconcileFromSameLegs(w.escrows[id], 0, w.Live(), w.now);
    forall i | 0 <= i < |ledger|
      ensures DeliveredRelease(ledger[i]) == ReceivedAmount(w.offers, Release)(ledger[i])
      ensures InFlightRelease(ledger[i]) == LockedAmount(w.offers, Release)(ledger[i])
      ensures DeliveredRefund(ledger[i]) == ReceivedAmount(w.offers, Refund)(ledger[i])
      ensures InFlightRefund(ledger[i]) == LockedAmount(w.offers, Refund)(ledger[i])
    {
      hide Reconcile, ReconcileFrom, WorldOk, Received, Gone, StateOf;
      if !w.escrows[id].ledger[i].kind.Deposit? {
        ReconciledLegIsTrue(w, id, i, w.escrows[id].ledger[i].kind);
      }
    }
    hide Reconcile;
    SumCongruence(ledger, DeliveredRelease, ReceivedAmount(w.offers, Release));
    SumCongruence(ledger, InFlightRelease, LockedAmount(w.offers, Release));
    SumCongruence(ledger, DeliveredRefund, ReceivedAmount(w.offers, Refund));
    SumCongruence(ledger, InFlightRefund, LockedAmount(w.offers, Refund));
  }

  /** An active escrow completes in a reconcile exactly when nothing is then left and no release offer is open. */
  lemma ReconcileCompletesIff(e: Escrow, live: set<ContractId>, now: Millis)
    requires Valid(e)
    ensures var r := Reconcile(e, live, now);
            && (e.status.Active? ==> (r.status.Completed? <==> r.released == r.total && !HasPendingRelease(r)))
            && (!e.status.Active? ==> r.status == e.status)
  {
    ReconcileFromValid(e, 0, live, now);
  }

  /** A release offer gone before its deadline, which reconcile takes for accepted. */
  predicate NewlyAccepted(l: Leg, live: set<ContractId>, now: Millis) {
    l.kind.Release? && Tracked(l) && l.cid.value !in live && !PastDeadline(l, now)
  }

  predicate AnyAccepted(ledger: seq<Leg>, i: nat, live: set<ContractId>, now: Millis) {
    exists j :: i <= j < |ledger| && NewlyAccepted(ledger[j], live, now)
  }

  lemma AcceptedTurn(e: Escrow, i: nat, live: set<ContractId>, now: Millis)
    requires i < |e.ledger|
    ensures var e1 := ReconcileLeg(e, i, live, now);
            && |e1.ledger| == |e.ledger|
            && AnyAccepted(e1.ledger, i + 1, live, now) == AnyAccepted(e.ledger, i + 1, live, now)
            && e1.stalls == if NewlyAccepted(e.ledger[i], live, now) then 0 else e.stalls
    ensures AnyAccepted(e.ledger, i, live, now) <==> NewlyAccepted(e.ledger[i], live, now) || AnyAccepted(e.ledger, i + 1, live, now)
  {
    var e1 := ReconcileLeg(e, i, live, now);
    assert forall j :: i < j < |e.ledger| ==> e1.ledger[j] == e.ledger[j];
    hide NewlyAccepted, Tracked, Observe, Revert;
    assert e1.stalls == if NewlyAccepted(e.ledger[i], live, now) then 0 else e.stalls by {
      StallsAfter(e, i, live, now);
    }
  }

  lemma StallsAfter(e: Escrow, i: nat, live: set<ContractId>, now: Millis)
    requires i < |e.ledger|
    ensures ReconcileLeg(e, i, live, now).stalls == if NewlyAccepted(e.ledger[i], live, now) then 0 else e.stalls
  {
  }

  /** Newly accepted release legs clear the stall count; otherwise reconcile leaves it. */
  lemma {:induction false} ReconcileClearsStalls(e: Escrow, i: nat, live: set<ContractId>, now: Millis)
    requires i <= |e.ledger|
    ensures ReconcileFrom(e, i, live, now).stalls == if AnyAccepted(e.ledger, i, live, now) then 0 else e.stalls
    decreases |e.ledger| - i
  {
    hide ReconcileLeg, NewlyAccepted;
    if i < |e.ledger| {
      AcceptedTurn(e, i, live, now);
      ReconcileClearsStalls(ReconcileLeg(e, i, live, now), i + 1, live, now);
    }
  }

  /** A leg the payee let expire while it is still locked, and whose withdraw commits. */
  predicate Reclaimable(l: Leg, i: nat, live: set<ContractId>, submitted: set<nat>, now: Millis) {
    && l.kind.Release? && l.offerStatus == Some(Open) && l.cid.Some? && l.cid.value in live
    && l.expiresAt.Some? && l.expiresAt.value <= now && i in submitted
  }

  function ReclaimedCycle(e: Escrow, i: nat, live: set<ContractId>, submitted: set<nat>, now: Millis): nat
    requires i <= |e.ledger|
    decreases |e.ledger| - i
  {
    if i == |e.ledger| then 0
    else (if Reclaimable(e.ledger[i], i, live, submitted, now) then 1 else 0) + ReclaimedCycle(e, i + 1, live, submitted, now)
  }

  /** Reclaim withdraws exactly the reclaimable legs, each one stall, and leaves every other leg alone. */
  lemma {:induction false} ReclaimWithdrawsExactly(e: Escrow, i: nat, live: set<ContractId>, submitted: set<nat>, now: Millis)
    requires i <= |e.ledger|
    ensures var r := ReclaimFrom(e, i, live, submitted, now);
            && |r.ledger| == |e.ledger|
            && (forall j :: 0 <= j < |e.ledger| ==>
                  r.ledger[j] == if i <= j && Reclaimable(e.ledger[j], j, live, submitted, now)
                                 then e.ledger[j].(offerStatus := Some(Withdrawn)) else e.ledger[j])
            && r.stalls == e.stalls + ReclaimedCycle(e, i, live, submitted, now)
    decreases |e.ledger| - i
  {
    if i < |e.ledger| {
      var e1 := ReclaimLeg(e, i, live, submitted, now);
      ReclaimWithdrawsExactly(e1, i + 1, live, submitted, now);
      SameReclaimed(e, e1, i + 1, live, submitted, now);
    }
  }

  lemma {:induction false} SameReclaimed(e: Escrow, f: Escrow, i: nat, live: set<ContractId>, submitted: set<nat>, now: Millis)
    requires i <= |e.ledger| == |f.ledger| && forall j :: i <= j < |e.ledger| ==> e.ledger[j] == f.ledger[j]
    ensures ReclaimedCycle(e, i, live, submitted, now) == ReclaimedCycle(f, i, live, submitted, now)
    decreases |e.ledger| - i
  {
    if i < |e.ledger| {
      SameReclaimed(e, f, i + 1, live, submitted, now);
    }
  }

  /** Canton Coin offers are left to the network's sweep, and a refunded escrow has nowhere to return funds to. */
  lemma ReclaimLeavesAlone(e: Escrow, live: set<ContractId>, submitted: set<nat>, now: Millis)
    requires forall i :: 0 <= i < |e.ledger| ==> !Reclaimable(e.ledger[i], i, live, submitted, now) || e.asset == CC || e.status.Refunded?
    ensures Reclaim(e, live, submitted, now).ledger == e.ledger
  {
    ReclaimWithdrawsExactly(e, 0, live, submitted, now);
  }

  /**
   * In every run in which no reconcile misreads a release, drains and pending deposits included: a completed
   * escrow's payee has received exactly the deposit, each part of it directly or by taking the offer.
   */
  lemma CompletedMeansReceived(start: World, steps: seq<Step>, id: EscrowId)
    requires start.escrows == map[] && Runs(start, steps) && RunReadsRight(start, steps, Release)
    requires id in After(start, steps).escrows && After(start, steps).escrows[id].status.Completed?
    ensures var w := After(start, steps);
            var e := w.escrows[id];
            && Sum(e.ledger, ReceivedAmount(w.offers, Release)) == e.total
            && forall i :: 0 <= i < |e.ledger| && e.ledger[i].kind.Release? ==>
                 (StateOf(e.ledger[i]).Delivered? <==> Received(w.offers, e.ledger[i]))
  {
    RunTruthful(start, steps, Release);
    var w := After(start, steps);
    var e := w.escrows[id];
    EscrowSummary.CompletedMeansDelivered(e);
    forall i | 0 <= i < |e.ledger|
      ensures DeliveredRelease(e.ledger[i]) == ReceivedAmount(w.offers, Release)(e.ledger[i])
      ensures e.ledger[i].kind.Release? ==> (StateOf(e.ledger[i]).Delivered? <==> Received(w.offers, e.ledger[i]))
    {
      ClosedLegIsTrue(w, id, i, Release);
    }
    SumCongruence(e.ledger, DeliveredRelease, ReceivedAmount(w.offers, Release));
  }

  lemma ClosedLegIsTrue(w: World, id: EscrowId, i: nat, kind: LegKind)
    requires WorldOk(w) && AllTruthful(w, kind) && id in w.escrows && i < |w.escrows[id].ledger|
    requires !IsOpen(w.escrows[id].ledger[i], kind) || (kind.Release? && w.escrows[id].status.Completed?)
    ensures var l := w.escrows[id].ledger[i];
            l.kind == kind ==> (StateOf(l).Delivered? <==> Received(w.offers, l))
  {
    hide Linked, EscrowSummary.DirectPace, Paced;
    var l := w.escrows[id].ledger[i];
    assert LegOk(l) && Truthful(w.offers, l, kind);
    assert kind.Release? && w.escrows[id].status.Completed? ==> !IsOpenRelease(l);
    assert l.kind == kind && l.offerStatus.Some? ==> !l.offerStatus.value.Open?;
  }
}
