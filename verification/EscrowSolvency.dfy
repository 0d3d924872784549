/** No step of the escrow lane shrinks pool-minus-owed, and the interlock protects a drained pool. */
module EscrowSolvency {
  import opened Common
  import opened Escrow
  import opened EscrowPool
  import EscrowSummary
  import CommandId

  // ----- framing -----

  /** Offers that agree on every leg of an escrow leave its claim alone. */
  lemma ClaimFrame(e: Escrow, offers: map<ContractId, Offer>, offers': map<ContractId, Offer>, a: AssetKey)
    requires forall i :: 0 <= i < |e.ledger| ==> ReturnedWeight(offers)(e.ledger[i]) == ReturnedWeight(offers')(e.ledger[i])
    ensures Claim(e, offers, a) == Claim(e, offers', a)
  {
    SumCongruence(e.ledger, ReturnedWeight(offers), ReturnedWeight(offers'));
  }

  /** The offers of one escrow may change without touching what the others may draw. */
  ghost predicate OnlyOffersOf(w: World, w': World, id: EscrowId) {
    && (forall k :: k in w.escrows && k != id ==> k in w'.escrows && w'.escrows[k] == w.escrows[k])
    && (forall c :: c in w.offers ==> c in w'.offers && (w.offers[c].escrow != id ==> w'.offers[c] == w.offers[c]))
  }

  lemma ClaimOfOther(w: World, w': World, id: EscrowId, k: EscrowId, a: AssetKey)
    requires Linked(w) && OnlyOffersOf(w, w', id) && k in w.escrows && k != id
    ensures Claim(w'.escrows[k], w'.offers, a) == Claim(w.escrows[k], w.offers, a)
  {
    ClaimFrame(w.escrows[k], w.offers, w'.offers, a);
  }

  lemma ClaimsMove(w: World, w': World, id: EscrowId, a: AssetKey)
    requires Linked(w) && OnlyOffersOf(w, w', id) && w'.escrows.Keys == w.escrows.Keys + {id}
    ensures Total(Claims(w', a)) ==
            Total(Claims(w, a)) - (if id in w.escrows then Claim(w.escrows[id], w.offers, a) else 0) + Claim(w'.escrows[id], w'.offers, a)
  {
    forall k | k in w.escrows && k != id
      ensures Claim(w'.escrows[k], w'.offers, a) == Claim(w.escrows[k], w.offers, a)
    {
      ClaimOfOther(w, w', id, k, a);
    }
    ClaimsUpdate(w, w', id, a);
    TotalUpdate(Claims(w, a), id, Claim(w'.escrows[id], w'.offers, a));
  }

  lemma ClaimsUpdate(w: World, w': World, id: EscrowId, a: AssetKey)
    requires w'.escrows.Keys == w.escrows.Keys + {id}
    requires forall k :: k in w.escrows && k != id ==> Claim(w'.escrows[k], w'.offers, a) == Claim(w.escrows[k], w.offers, a)
    ensures Claims(w', a) == Claims(w, a)[id := Claim(w'.escrows[id], w'.offers, a)]
  {
  }

  lemma NothingReturned(ledger: seq<Leg>, offers: map<ContractId, Offer>)
    requires forall i :: 0 <= i < |ledger| ==> !IsOpenRelease(ledger[i])
    ensures Sum(ledger, ReturnedWeight(offers)) == 0
  {
    var zero := (l: Leg) => 0;
    SumCongruence(ledger, ReturnedWeight(offers), zero);
    ZeroSum(ledger, zero);
  }

  lemma {:induction false} ZeroSum(ledger: seq<Leg>, f: Leg -> int)
    requires forall i :: 0 <= i < |ledger| ==> f(ledger[i]) == 0
    ensures Sum(ledger, f) == 0
  {
    if |ledger| > 0 {
      ZeroSum(ledger[..|ledger| - 1], f);
    }
  }

  // ----- what each step does to a claim -----

  lemma ReleaseClaim(e: Escrow, offers: map<ContractId, Offer>, offers': map<ContractId, Offer>, times: Times, t: Transfer, a: AssetKey)
    requires Valid(e) && e.status.Active? && Remaining(e) > 0
    requires forall i :: 0 <= i < |e.ledger| ==> ReturnedWeight(offers)(e.ledger[i]) == ReturnedWeight(offers')(e.ledger[i])
    requires t.Offered? ==> t.cid in offers' && !offers'[t.cid].state.Returned?
    ensures Claim(AfterRelease(e, times, t), offers', a) == Claim(e, offers, a) - (if e.asset == a then CycleAmount(e) else 0)
  {
    var r := AfterRelease(e, times, t);
    var leg := TransferLeg(Release, CycleAmount(e), t);
    SumAppend(e.ledger, leg, ReturnedWeight(offers'));
    ClaimFrame(e, offers, offers', a);
    SumCongruence(e.ledger, ReturnedWeight(offers), ReturnedWeight(offers'));
    if r.status.Completed? {
      NothingReturned(r.ledger, offers');
    }
  }

  /** A refund closes the escrow's claim; anything returned but unseen stays behind as surplus. */
  lemma RefundClaim(e: Escrow, offers: map<ContractId, Offer>, a: AssetKey)
    requires Valid(e) && e.status.Active?
    ensures Claim(e, offers, a) >= ActiveRemaining(e, a)
  {
    SumNonNegative(e.ledger, ReturnedWeight(offers));
  }

  /**
   * What reconcile misreads: an offer taken in time but first seen gone after its deadline counts
   * as money back; one returned early counts as money delivered.
   */
  function Misread(offers: map<ContractId, Offer>, now: Millis): Leg -> int {
    (l: Leg) =>
      if !IsOpenRelease(l) || l.cid.None? || l.cid.value !in offers || offers[l.cid.value].state.Locked? then 0
      else if PastDeadline(l, now) then (if offers[l.cid.value].state.Taken? then l.amount else 0)
      else if offers[l.cid.value].state.Returned? then -(l.amount as int) else 0
  }

  ghost function Drawable(e: Escrow, offers: map<ContractId, Offer>): int {
    e.total - e.released + Sum(e.ledger, ReturnedWeight(offers))
  }

  lemma ReconcileLegClaim(w: World, e: Escrow, i: nat)
    requires Valid(e) && i < |e.ledger|
    requires e.ledger[i].cid.Some? ==> e.ledger[i].cid.value in w.offers
    ensures Drawable(ReconcileLeg(e, i, w.Live(), w.now), w.offers) == Drawable(e, w.offers) + Misread(w.offers, w.now)(e.ledger[i])
  {
    var l := e.ledger[i];
    assert LegOk(l);
    if Tracked(l) {
      assert l.offerStatus.value.Open?;
      ClampNeverBites(e, i);
      SumUpdate(e.ledger, i, l.(offerStatus := Some(Observe(l, w.Live(), w.now))), ReturnedWeight(w.offers));
    }
  }

  lemma {:induction false} ReconcileFromClaim(w: World, e: Escrow, i: nat)
    requires Valid(e) && i <= |e.ledger|
    requires forall j :: 0 <= j < |e.ledger| && e.ledger[j].cid.Some? ==> e.ledger[j].cid.value in w.offers
    ensures Drawable(ReconcileFrom(e, i, w.Live(), w.now), w.offers) ==
            Drawable(e, w.offers) + Sum(e.ledger[i..], Misread(w.offers, w.now))
    decreases |e.ledger| - i
  {
    if i < |e.ledger| {
      var s := ReconcileLeg(e, i, w.Live(), w.now);
      ReconcileLegClaim(w, e, i);
      ReconcileLegValid(e, i, w.Live(), w.now);
      ReconcileFromClaim(w, s, i + 1);
      SumHead(e.ledger[i..], Misread(w.offers, w.now));
      assert s.ledger[i + 1..] == e.ledger[i..][1..];
    }
  }

  /** An active escrow's claim is what it may draw; the others claim nothing. */
  lemma ClaimIsDrawable(e: Escrow, offers: map<ContractId, Offer>, a: AssetKey)
    requires Valid(e)
    ensures Claim(e, offers, a) == if e.status.Active? && e.asset == a then Drawable(e, offers) else 0
  {
    if e.status.Completed? {
      NothingReturned(e.ledger, offers);
    }
  }

  lemma ReconcileDrawable(w: World, id: EscrowId)
    requires WorldOk(w) && id in w.escrows
    ensures var e := w.escrows[id];
            var r := ReconcileFrom(e, 0, w.Live(), w.now);
            && Valid(r) && r.status == e.status && r.asset == e.asset
            && Drawable(r, w.offers) == Drawable(e, w.offers) + Sum(e.ledger, Misread(w.offers, w.now))
  {
    var e := w.escrows[id];
    assert e.ledger[0..] == e.ledger;
    ReconcileFromClaim(w, e, 0);
    ReconcileFromValid(e, 0, w.Live(), w.now);
    ReconcileFromSameLegs(e, 0, w.Live(), w.now);
  }

  /** Completing an escrow that is done releases no claim: it had none left. */
  lemma CompletionClaimsNothing(e: Escrow, offers: map<ContractId, Offer>, a: AssetKey)
    requires Valid(e) && e.status.Active?
    ensures Claim(CompleteIfDone(e), offers, a) == Claim(e, offers, a)
  {
    if CompleteIfDone(e).status.Completed? {
      NothingReturned(e.ledger, offers);
    }
  }

  /** Reconcile changes an active escrow's claim by exactly what it misreads. */
  lemma ReconcileClaim(w: World, id: EscrowId, a: AssetKey)
    requires WorldOk(w) && id in w.escrows
    ensures var e := w.escrows[id];
            Claim(Reconcile(e, w.Live(), w.now), w.offers, a) ==
            Claim(e, w.offers, a) + (if e.status.Active? && e.asset == a then Sum(e.ledger, Misread(w.offers, w.now)) else 0)
  {
    hide Linked, Valid, ReconcileFrom, CompleteIfDone, Claim, Drawable, Misread, EscrowSummary.DirectPace;
    var e := w.escrows[id];
    var r := ReconcileFrom(e, 0, w.Live(), w.now);
    ReconcileDrawable(w, id);
    ClaimIsDrawable(e, w.offers, a);
    ClaimIsDrawable(r, w.offers, a);
    if r.status.Active? {
      CompletionClaimsNothing(r, w.offers, a);
    }
  }

  /** Withdrawing the offer of one leg changes no other leg's weight. */
  lemma ReclaimFrame(w: World, w': World, id: EscrowId, i: nat, ledger: seq<Leg>)
    requires Linked(w) && id in w.escrows && i < |w.escrows[id].ledger| && w.escrows[id].ledger[i].cid.Some?
    requires w.escrows[id].ledger[i].cid.value in w.offers
    requires w'.offers == SetState(w, w.escrows[id].ledger[i].cid.value, Returned).offers
    requires |ledger| == |w.escrows[id].ledger| && !IsOpenRelease(ledger[i])
    requires forall j :: 0 <= j < |ledger| && j != i ==> ledger[j] == w.escrows[id].ledger[j]
    ensures Sum(ledger, ReturnedWeight(w.offers)) == Sum(ledger, ReturnedWeight(w'.offers))
  {
    forall j | 0 <= j < |ledger|
      ensures ReturnedWeight(w.offers)(ledger[j]) == ReturnedWeight(w'.offers)(ledger[j])
    {
      if j != i && ledger[j].cid.Some? {
        assert w.offers[ledger[j].cid.value].leg == j;
      }
    }
    SumCongruence(ledger, ReturnedWeight(w.offers), ReturnedWeight(w'.offers));
  }

  lemma ReclaimClaim(w: World, w': World, id: EscrowId, i: nat, a: AssetKey)
    requires WorldOk(w) && id in w.escrows && i < |w.escrows[id].ledger| && !w.escrows[id].status.Refunded?
    requires Reclaims(w.escrows[id].ledger[i], i, w.Live(), {i}, w.now)
    requires w'.offers == SetState(w, w.escrows[id].ledger[i].cid.value, Returned).offers
    ensures var e := w.escrows[id];
            Claim(ReclaimLeg(e, i, w.Live(), {i}, w.now), w'.offers, a) ==
            Claim(e, w.offers, a) + (if e.asset == a then e.ledger[i].amount else 0)
  {
    hide Linked, EscrowSummary.DirectPace, Paced;
    var e := w.escrows[id];
    var l := e.ledger[i];
    var r := ReclaimLeg(e, i, w.Live(), {i}, w.now);
    ReclaimLegValid(e, i, w.Live(), {i}, w.now);
    ClampNeverBites(e, i);
    assert IsOpenRelease(l);
    SumUpdate(e.ledger, i, l.(offerStatus := Some(Withdrawn)), ReturnedWeight(w.offers));
    ReclaimFrame(w, w', id, i, r.ledger);
  }

  /** Returning an offer adds at most its own amount to its escrow's claim. */
  lemma ReturnClaim(w: World, c: ContractId, id: EscrowId, a: AssetKey)
    requires WorldOk(w) && c in w.offers && id in w.escrows && w.offers[c].escrow == id
    ensures Claim(w.escrows[id], SetState(w, c, Returned).offers, a) <=
            Claim(w.escrows[id], w.offers, a) + (if w.offers[c].asset == a then w.offers[c].amount else 0)
  {
    var e := w.escrows[id];
    var offers' := SetState(w, c, Returned).offers;
    var k := w.offers[c].leg;
    if k < |e.ledger| && e.ledger[k].cid == Some(c) {
      ReturnSum(e.ledger, k, w.offers, offers');
    } else {
      forall i | 0 <= i < |e.ledger|
        ensures ReturnedWeight(w.offers)(e.ledger[i]) == ReturnedWeight(offers')(e.ledger[i])
      {
        if e.ledger[i].cid.Some? {
          assert w.offers[e.ledger[i].cid.value].leg == i;
        }
      }
      ClaimFrame(e, w.offers, offers', a);
    }
  }

  lemma ReturnSum(ledger: seq<Leg>, k: nat, offers: map<ContractId, Offer>, offers': map<ContractId, Offer>)
    requires k < |ledger|
    requires forall i :: 0 <= i < |ledger| && i != k ==> ReturnedWeight(offers)(ledger[i]) == ReturnedWeight(offers')(ledger[i])
    ensures Sum(ledger, ReturnedWeight(offers')) <= Sum(ledger, ReturnedWeight(offers)) + ledger[k].amount
  {
    var blank := ledger[k].(offerStatus := None);
    SumUpdate(ledger, k, blank, ReturnedWeight(offers));
    SumUpdate(ledger, k, blank, ReturnedWeight(offers'));
    SumCongruence(ledger[k := blank], ReturnedWeight(offers), ReturnedWeight(offers'));
  }

  // ----- the slack of the pool -----

  /** The two premises of solvency: deposits land, and no taken offer is first seen gone after its deadline. */
  ghost predicate Premise(w: World, s: Step) {
    match s
    case CreateStep(_, _, _, _, _, t) => t.Landed?
    case ReconcileStep(id) => id in w.escrows && forall i :: 0 <= i < |w.escrows[id].ledger| ==> Misread(w.offers, w.now)(w.escrows[id].ledger[i]) <= 0
    case Drain(_, _) => false
    case _ => true
  }

  lemma CreditSlack(w: World, asset: AssetKey, amount: int, a: AssetKey)
    ensures Slack(w.Credit(asset, amount), a) == Slack(w, a) + (if asset == a then amount else 0)
  {
    assert Claims(w.Credit(asset, amount), a) == Claims(w, a);
  }

  lemma NewClaim(e: Escrow, offers: map<ContractId, Offer>, a: AssetKey)
    requires |e.ledger| == 1 && e.ledger[0].kind.Deposit? && e.status.Active? && e.released == 0
    ensures Claim(e, offers, a) == if e.asset == a then e.total else 0
  {
    NothingReturned(e.ledger, offers);
  }

  lemma LockMovesOnlyItsOwn(w: World, id: EscrowId, e: Escrow, t: Transfer)
    requires Fresh(w, t)
    ensures OnlyOffersOf(w, Put(Lock(w, id, 0, e.asset, e.total, t), id, e), id)
  {
  }

  lemma RegisterSlack(w: World, w': World, id: EscrowId, e: Escrow, a: AssetKey)
    requires Linked(w) && id !in w.escrows && OnlyOffersOf(w, w', id)
    requires w'.escrows == w.escrows[id := e] && w'.pool == w.pool
    requires |e.ledger| == 1 && e.ledger[0].kind.Deposit? && e.status.Active? && e.released == 0
    ensures Slack(w', a) == Slack(w, a) - (if e.asset == a then e.total else 0)
  {
    ClaimsMove(w, w', id, a);
    NewClaim(e, w'.offers, a);
  }

  lemma OpenSlack(w: World, id: EscrowId, e: Escrow, t: Transfer, a: AssetKey)
    requires Linked(w) && id !in w.escrows && Fresh(w, t)
    requires |e.ledger| == 1 && e.ledger[0].kind.Deposit? && e.status.Active? && e.released == 0
    ensures Slack(OpenEscrow(w, id, e, t), a) == Slack(w, a) - (if t.Offered? && e.asset == a then e.total else 0)
  {
    LockMovesOnlyItsOwn(w, id, e, t);
    RegisterSlack(w, Put(Lock(w, id, 0, e.asset, e.total, t), id, e), id, e, a);
    CreditSlack(Put(Lock(w, id, 0, e.asset, e.total, t), id, e), e.asset, e.total, a);
  }

  lemma PaySlack(w: World, id: EscrowId, e': Escrow, amount: nat, t: Transfer, a: AssetKey)
    requires Linked(w) && id in w.escrows && Fresh(w, t)
    ensures var w' := Pay(w, id, e', amount, t);
            Slack(w', a) == Slack(w, a) + Claim(w.escrows[id], w.offers, a) - Claim(e', w'.offers, a) - (if e'.asset == a then amount else 0)
  {
    var w' := Pay(w, id, e', amount, t);
    assert OnlyOffersOf(w, w', id);
    ClaimsMove(w, w', id, a);
  }

  lemma PutSlack(w: World, id: EscrowId, e': Escrow, a: AssetKey)
    requires Linked(w) && id in w.escrows
    ensures Slack(Put(w, id, e'), a) == Slack(w, a) + Claim(w.escrows[id], w.offers, a) - Claim(e', w.offers, a)
  {
    assert OnlyOffersOf(w, Put(w, id, e'), id);
    ClaimsMove(w, Put(w, id, e'), id, a);
  }

  lemma SlackIgnoresTime(w: World, now: Millis, a: AssetKey)
    ensures Slack(w.(now := now), a) == Slack(w, a)
  {
    assert Claims(w.(now := now), a) == Claims(w, a);
  }

  lemma FreshOfferFrame(w: World, id: EscrowId, t: Transfer, offers': map<ContractId, Offer>)
    requires Linked(w) && id in w.escrows && Fresh(w, t)
    requires forall c :: c in w.offers ==> c in offers' && offers'[c] == w.offers[c]
    ensures var ledger := w.escrows[id].ledger;
            forall i :: 0 <= i < |ledger| ==> ReturnedWeight(w.offers)(ledger[i]) == ReturnedWeight(offers')(ledger[i])
  {
  }

  lemma PaidReleaseSlack(w: World, id: EscrowId, times: Times, t: Transfer, a: AssetKey)
    requires WorldOk(w) && id in w.escrows && Fresh(w, t) && w.escrows[id].status.Active? && Remaining(w.escrows[id]) > 0
    ensures Slack(Pay(w, id, AfterRelease(w.escrows[id], times, t), CycleAmount(w.escrows[id]), t), a) == Slack(w, a)
  {
    hide Slack, Claim, Linked, Valid, EscrowSummary.DirectPace;
    var e := w.escrows[id];
    var r := AfterRelease(e, times, t);
    var offers' := Pay(w, id, r, CycleAmount(e), t).offers;
    PaySlack(w, id, r, CycleAmount(e), t, a);
    FreshOfferFrame(w, id, t, offers');
    ReleaseClaim(e, w.offers, offers', times, t, a);
  }

  lemma IdleReleaseSlack(w: World, id: EscrowId, times: Times, a: AssetKey)
    requires WorldOk(w) && id in w.escrows && w.escrows[id].status.Active? && Remaining(w.escrows[id]) <= 0
    ensures Slack(Put(w, id, AfterIdleRelease(w.escrows[id], times)), a) == Slack(w, a)
  {
    hide Slack, Linked, Valid, EscrowSummary.DirectPace;
    var e := w.escrows[id];
    PutSlack(w, id, AfterIdleRelease(e, times), a);
    if !HasPendingRelease(e) {
      NothingReturned(e.ledger, w.offers);
    }
  }

  lemma ReleaseSlack(w: World, id: EscrowId, times: Times, t: Transfer, a: AssetKey)
    requires WorldOk(w) && id in w.escrows && Fresh(w, t) && w.escrows[id].status.Active?
    ensures Slack(ApplyRelease(w, id, times, t), a) == Slack(w, a)
  {
    hide Slack, WorldOk;
    var e := w.escrows[id];
    if Remaining(e) > 0 {
      PaidReleaseSlack(w, id, times, t, a);
      SlackIgnoresTime(Pay(w, id, AfterRelease(e, times, t), CycleAmount(e), t), times.rescheduled, a);
    } else {
      IdleReleaseSlack(w, id, times, a);
      SlackIgnoresTime(Put(w, id, AfterIdleRelease(e, times)), times.rescheduled, a);
    }
  }

  lemma RefundSlack(w: World, id: EscrowId, t: Transfer, a: AssetKey)
    requires WorldOk(w) && id in w.escrows && Fresh(w, t) && w.escrows[id].status.Active?
    ensures Slack(ApplyRefund(w, id, t), a) >= Slack(w, a)
  {
    hide Slack, Linked, Valid, EscrowSummary.DirectPace;
    var e := w.escrows[id];
    RefundClaim(e, w.offers, a);
    if Remaining(e) > 0 {
      PaySlack(w, id, AfterRefund(e, t), Remaining(e), t, a);
    } else {
      PutSlack(w, id, AfterRefund(e, t), a);
    }
  }

  /** Exactly how far one reconcile moves pool-minus-owed. */
  lemma ReconcileSlack(w: World, id: EscrowId, a: AssetKey)
    requires WorldOk(w) && id in w.escrows
    ensures var e := w.escrows[id];
            Slack(Put(w, id, Reconcile(e, w.Live(), w.now)), a) ==
            Slack(w, a) - (if e.status.Active? && e.asset == a then Sum(e.ledger, Misread(w.offers, w.now)) else 0)
  {
    PutSlack(w, id, Reconcile(w.escrows[id], w.Live(), w.now), a);
    ReconcileClaim(w, id, a);
  }

  lemma ReclaimMovesOnlyItsOwn(w: World, id: EscrowId, leg: nat)
    requires Linked(w) && id in w.escrows && leg < |w.escrows[id].ledger|
    requires Reclaims(w.escrows[id].ledger[leg], leg, w.Live(), {leg}, w.now)
    ensures OnlyOffersOf(w, ApplyReclaim(w, id, leg), id)
  {
    assert w.offers[w.escrows[id].ledger[leg].cid.value].escrow == id;
  }

  lemma ReclaimSlack(w: World, id: EscrowId, leg: nat, a: AssetKey)
    requires WorldOk(w) && id in w.escrows && leg < |w.escrows[id].ledger| && !w.escrows[id].status.Refunded?
    requires Reclaims(w.escrows[id].ledger[leg], leg, w.Live(), {leg}, w.now)
    ensures Slack(ApplyReclaim(w, id, leg), a) == Slack(w, a)
  {
    hide Claim, Claims, Linked, Valid, EscrowSummary.DirectPace, OnlyOffersOf;
    ReclaimMovesOnlyItsOwn(w, id, leg);
    ClaimsMove(w, ApplyReclaim(w, id, leg), id, a);
    ReclaimClaim(w, ApplyReclaim(w, id, leg), id, leg, a);
  }

  /** A state change of one offer moves only the claim of the escrow that made it. */
  lemma OfferMoves(w: World, c: ContractId, state: OfferState, a: AssetKey)
    requires Linked(w) && c in w.offers
    ensures var w', k := SetState(w, c, state), w.offers[c].escrow;
            Total(Claims(w', a)) ==
            Total(Claims(w, a)) + if k in w.escrows then Claim(w.escrows[k], w'.offers, a) - Claim(w.escrows[k], w.offers, a) else 0
  {
    var w', k := SetState(w, c, state), w.offers[c].escrow;
    assert OnlyOffersOf(w, w', k);
    if k in w.escrows {
      ClaimsMove(w, w', k, a);
    } else {
      forall j | j in w.escrows
        ensures Claim(w.escrows[j], w'.offers, a) == Claim(w.escrows[j], w.offers, a)
      {
        ClaimOfOther(w, w', k, j, a);
      }
      assert Claims(w', a) == Claims(w, a);
    }
  }

  lemma TakeSlack(w: World, c: ContractId, a: AssetKey)
    requires Linked(w) && c in w.offers && w.offers[c].state.Locked?
    ensures Slack(SetState(w, c, Taken), a) == Slack(w, a)
  {
    hide Claim, Linked;
    OfferMoves(w, c, Taken, a);
    if w.offers[c].escrow in w.escrows {
      ClaimFrame(w.escrows[w.offers[c].escrow], w.offers, SetState(w, c, Taken).offers, a);
    }
  }

  lemma ReturnSlack(w: World, c: ContractId, a: AssetKey)
    requires WorldOk(w) && c in w.offers
    ensures Slack(SetState(w, c, Returned).Credit(w.offers[c].asset, w.offers[c].amount), a) >= Slack(w, a)
  {
    var w' := SetState(w, c, Returned);
    OfferMoves(w, c, Returned, a);
    if w.offers[c].escrow in w.escrows {
      ReturnClaim(w, c, w.offers[c].escrow, a);
    }
    CreditSlack(w', w.offers[c].asset, w.offers[c].amount, a);
  }

  /** Under the premises no step, whoever takes it, shrinks pool-minus-owed of any asset. */
  lemma StepKeepsSlack(w: World, s: Step, a: AssetKey)
    requires WorldOk(w) && Enabled(w, s) && Premise(w, s)
    ensures Slack(Apply(w, s), a) >= Slack(w, a)
  {
    hide Slack, Valid, EscrowSummary.DirectPace, Linked;
    match s
    case CreateStep(id, asset, rate, cadenceSeconds, total, t) =>
      OpenSlack(w, id, Create(asset, rate, cadenceSeconds, total, w.now, t), t, a);
    case ReleaseStep(id, t, committed, rescheduled) => ReleaseSlack(w, id, Times(w.now, committed, rescheduled), t, a);
    case RefundStep(id, t) => RefundSlack(w, id, t, a);
    case ReconcileStep(id) =>
      ReconcileSlack(w, id, a);
      SumNonPositive(w.escrows[id].ledger, Misread(w.offers, w.now));
    case ReclaimStep(id, leg) => ReclaimSlack(w, id, leg, a);
    case TakeOffer(c) => TakeSlack(w, c, a);
    case ReturnOffer(c) => ReturnSlack(w, c, a);
    case Fund(asset, amount) => CreditSlack(w, asset, amount, a);
    case Wait(_) => SlackIgnoresTime(w, s.now, a);
  }

  lemma {:induction false} SumNonPositive(ledger: seq<Leg>, f: Leg -> int)
    requires forall i :: 0 <= i < |ledger| ==> f(ledger[i]) <= 0
    ensures Sum(ledger, f) <= 0
  {
    if |ledger| > 0 {
      SumNonPositive(ledger[..|ledger| - 1], f);
    }
  }

  // ----- whole runs -----

  ghost predicate Runs(w: World, steps: seq<Step>)
    decreases steps
  {
    |steps| > 0 ==> Enabled(w, steps[0]) && Runs(Apply(w, steps[0]), steps[1..])
  }

  ghost predicate Premised(w: World, steps: seq<Step>)
    requires Runs(w, steps)
    decreases steps
  {
    |steps| > 0 ==> Premise(w, steps[0]) && Premised(Apply(w, steps[0]), steps[1..])
  }

  ghost function After(w: World, steps: seq<Step>): World
    requires Runs(w, steps)
    decreases steps
  {
    if |steps| == 0 then w else After(Apply(w, steps[0]), steps[1..])
  }

  lemma OwedWithinClaims(w: World, a: AssetKey)
    ensures Owed(w, a) <= Total(Claims(w, a))
  {
    forall id | id in w.escrows
      ensures Owing(w.escrows, a)[id] <= Claims(w, a)[id]
    {
      SumNonNegative(w.escrows[id].ledger, ReturnedWeight(w.offers));
    }
    TotalMonotone(Owing(w.escrows, a), Claims(w, a));
  }

  lemma {:induction false} RunOk(w: World, steps: seq<Step>)
    requires WorldOk(w) && Runs(w, steps)
    ensures WorldOk(After(w, steps))
    decreases steps
  {
    if |steps| > 0 {
      StepOk(w, steps[0]);
      RunOk(Apply(w, steps[0]), steps[1..]);
    }
  }

  lemma {:induction false} RunKeepsSlack(w: World, steps: seq<Step>, a: AssetKey)
    requires WorldOk(w) && Runs(w, steps) && Premised(w, steps)
    ensures Slack(After(w, steps), a) >= Slack(w, a)
    decreases steps
  {
    if |steps| > 0 {
      StepKeepsSlack(w, steps[0], a);
      StepOk(w, steps[0]);
      RunKeepsSlack(Apply(w, steps[0]), steps[1..], a);
    }
  }

  /** From an empty lane, every premised run leaves each pool able to cover all its active escrows. */
  lemma PoolStaysSolvent(start: World, steps: seq<Step>, a: AssetKey)
    requires start.escrows == map[] && start.Balance(a) >= 0
    requires Runs(start, steps) && Premised(start, steps)
    ensures var w := After(start, steps); WorldOk(w) && Owed(w, a) <= w.Balance(a)
  {
    assert Claims(start, a) == map[];
    RunOk(start, steps);
    RunKeepsSlack(start, steps, a);
    OwedWithinClaims(After(start, steps), a);
  }

  lemma StepStatusFinal(w: World, s: Step, id: EscrowId)
    requires WorldOk(w) && Enabled(w, s) && id in w.escrows && !w.escrows[id].status.Active?
    ensures id in Apply(w, s).escrows && Apply(w, s).escrows[id].status == w.escrows[id].status
  {
    hide Valid, Linked, EscrowSummary.DirectPace, Reconcile, ReclaimLeg, AfterRelease, AfterRefund;
    match s
    case ReconcileStep(k) => ReconcileValid(w.escrows[k], w.Live(), w.now);
    case ReclaimStep(k, leg) => ReclaimLegValid(w.escrows[k], leg, w.Live(), {leg}, w.now);
    case _ =>
  }

  /** Completed and refunded are final over every run: no reconcile or reclaim ever reopens an escrow. */
  lemma {:induction false} StatusIsFinal(w: World, steps: seq<Step>, id: EscrowId)
    requires WorldOk(w) && Runs(w, steps) && id in w.escrows && !w.escrows[id].status.Active?
    ensures id in After(w, steps).escrows && After(w, steps).escrows[id].status == w.escrows[id].status
    decreases steps
  {
    if |steps| > 0 {
      StepStatusFinal(w, steps[0], id);
      StepOk(w, steps[0]);
      StatusIsFinal(Apply(w, steps[0]), steps[1..], id);
    }
  }

  // ----- the interlock, in worlds an outside drain may have left short -----

  lemma OwedMove(escrows: map<EscrowId, Escrow>, id: EscrowId, e': Escrow, a: AssetKey)
    requires id in escrows
    ensures Total(Owing(escrows[id := e'], a)) == Total(Owing(escrows, a)) - ActiveRemaining(escrows[id], a) + ActiveRemaining(e', a)
  {
    assert Owing(escrows[id := e'], a) == Owing(escrows, a)[id := ActiveRemaining(e', a)];
    TotalUpdate(Owing(escrows, a), id, ActiveRemaining(e', a));
  }

  lemma PayKeepsCover(w: World, id: EscrowId, e': Escrow, amount: nat, t: Transfer, b: AssetKey)
    requires id in w.escrows && e'.asset == w.escrows[id].asset
    requires ActiveRemaining(e', e'.asset) == ActiveRemaining(w.escrows[id], e'.asset) - amount
    ensures var w' := Pay(w, id, e', amount, t);
            w'.Balance(b) - Owed(w', b) == w.Balance(b) - Owed(w, b)
  {
    OwedMove(w.escrows, id, e', b);
    assert Pay(w, id, e', amount, t).escrows == w.escrows[id := e'];
  }

  lemma PaymentsShrinkRemaining(e: Escrow, times: Times, t: Transfer)
    requires Conserved(e) && e.status.Active? && Remaining(e) > 0
    ensures var r := AfterRelease(e, times, t);
            r.asset == e.asset && ActiveRemaining(r, e.asset) == Remaining(e) - CycleAmount(e)
    ensures var r := AfterRefund(e, t); r.asset == e.asset && ActiveRemaining(r, e.asset) == 0
  {
  }

  /**
   * Any release or refund that moves money leaves enough for every other active escrow of the
   * asset; when the pool is short of what is owed, none that moves money is enabled.
   */
  lemma InterlockProtects(w: World, s: Step, b: AssetKey)
    requires WorldOk(w) && (s.ReleaseStep? || s.RefundStep?)
    requires s.id in w.escrows && Remaining(w.escrows[s.id]) > 0
    ensures var a := w.escrows[s.id].asset;
            && (w.Balance(a) < Owed(w, a) ==> !Enabled(w, s))
            && (Enabled(w, s) ==>
                  var w' := Apply(w, s);
                  && Owed(w', a) <= w'.Balance(a)
                  && w'.Balance(b) - Owed(w', b) == w.Balance(b) - Owed(w, b))
  {
    hide Linked, Owed, AfterRelease, AfterRefund, StatusMeans, Paced, EscrowSummary.DirectPace;
    if Enabled(w, s) {
      var e := w.escrows[s.id];
      match s {
        case ReleaseStep(id, t, committed, rescheduled) =>
          var r := AfterRelease(e, Times(w.now, committed, rescheduled), t);
          PaymentsShrinkRemaining(e, Times(w.now, committed, rescheduled), t);
          PayKeepsCover(w, id, r, CycleAmount(e), t, e.asset);
          PayKeepsCover(w, id, r, CycleAmount(e), t, b);
          var w1 := Pay(w, id, r, CycleAmount(e), t);
          OwedIgnoresTime(w1, rescheduled, e.asset);
          OwedIgnoresTime(w1, rescheduled, b);
        case RefundStep(id, t) =>
          PaymentsShrinkRemaining(e, Times(0, 0, 0), t);
          PayKeepsCover(w, id, AfterRefund(e, t), Remaining(e), t, e.asset);
          PayKeepsCover(w, id, AfterRefund(e, t), Remaining(e), t, b);
      }
    }
  }

  lemma OwedIgnoresTime(w: World, now: Millis, a: AssetKey)
    ensures Owed(w.(now := now), a) == Owed(w, a)
  {
  }

  // ----- where the premises are needed -----

  /** A deposit that lands only as an offer leaves the pool short by the whole deposit. */
  lemma PendingDepositLeavesPoolShort(id: EscrowId, total: nat)
    requires 0 < total
    ensures var w := World(map[], map[], map[], 0);
            var s := CreateStep(id, CC, 1, 60, total, Offered(7, 3600000));
            Enabled(w, s) && Owed(Apply(w, s), CC) == total > Apply(w, s).Balance(CC)
  {
    var w := World(map[], map[], map[], 0);
    var s := CreateStep(id, CC, 1, 60, total, Offered(7, 3600000));
    var w' := Apply(w, s);
    assert Owing(w.escrows, CC) == map[];
    assert Owing(w'.escrows, CC) == map[][id := total];
    TotalUpdate(map[], id, total);
  }

  /** Where reconcile leaves one leg: as it was if its status is final, else as the snapshot shows it. */
  lemma {:induction false} ReconcileAt(e: Escrow, i: nat, k: nat, live: set<ContractId>, now: Millis)
    requires i <= k < |e.ledger|
    ensures |ReconcileFrom(e, i, live, now).ledger| == |e.ledger|
    ensures var l := e.ledger[k];
            ReconcileFrom(e, i, live, now).ledger[k] == if Tracked(l) then l.(offerStatus := Some(Observe(l, live, now))) else l
    decreases |e.ledger| - i
  {
    ReconcileKeepsBefore(ReconcileLeg(e, i, live, now), i + 1, i, live, now);
    if i < k {
      ReconcileAt(ReconcileLeg(e, i, live, now), i + 1, k, live, now);
    }
  }

  lemma {:induction false} ReconcileKeepsBefore(e: Escrow, i: nat, k: nat, live: set<ContractId>, now: Millis)
    requires k < i <= |e.ledger|
    ensures |ReconcileFrom(e, i, live, now).ledger| == |e.ledger| && ReconcileFrom(e, i, live, now).ledger[k] == e.ledger[k]
    decreases |e.ledger| - i
  {
    if i < |e.ledger| {
      ReconcileKeepsBefore(ReconcileLeg(e, i, live, now), i + 1, k, live, now);
    }
  }

  /**
   * An offer the payee took, first seen gone after its deadline: reconcile writes it off as expired while the payee
   * keeps the money, and pool minus owed falls by its amount and by whatever else this reconcile misreads.
   */
  lemma LateAcceptIsUncounted(w: World, id: EscrowId, i: nat)
    requires WorldOk(w) && id in w.escrows && w.escrows[id].status.Active? && i < |w.escrows[id].ledger|
    requires Stuck(w.escrows[id].ledger[i], w.now) && w.offers[w.escrows[id].ledger[i].cid.value].state.Taken?
    ensures var e := w.escrows[id];
            var w' := Put(w, id, Reconcile(e, w.Live(), w.now));
            && w' == Apply(w, ReconcileStep(id))
            && |w'.escrows[id].ledger| == |e.ledger|
            && w'.escrows[id].ledger[i].offerStatus == Some(Expired) && w'.offers[e.ledger[i].cid.value].state.Taken?
            && Misread(w.offers, w.now)(e.ledger[i]) == e.ledger[i].amount
            && Slack(w', e.asset) == Slack(w, e.asset) - Sum(e.ledger, Misread(w.offers, w.now))
            && ((forall j :: 0 <= j < |e.ledger| && j != i ==> Misread(w.offers, w.now)(e.ledger[j]) == 0) ==>
                  Slack(w', e.asset) == Slack(w, e.asset) - e.ledger[i].amount)
  {
    hide Slack, Valid, EscrowSummary.DirectPace, ReconcileFrom, CompleteIfDone;
    ReconcileLedger(w.escrows[id], w.Live(), w.now);
    assert w.escrows[id].ledger[i].cid.Some?;
    var e := w.escrows[id];
    var f := Misread(w.offers, w.now);
    ReconcileAt(e, 0, i, w.Live(), w.now);
    ReconcileSlack(w, id, e.asset);
    if forall j :: 0 <= j < |e.ledger| && j != i ==> f(e.ledger[j]) == 0 {
      OnlyWeight(e.ledger, i, f);
    }
  }

  /** Completing an escrow touches no leg. */
  lemma ReconcileLedger(e: Escrow, live: set<ContractId>, now: Millis)
    ensures Reconcile(e, live, now).ledger == ReconcileFrom(e, 0, live, now).ledger
  {
  }

  lemma {:induction false} OnlyWeight(ledger: seq<Leg>, i: nat, f: Leg -> int)
    requires i < |ledger| && forall j :: 0 <= j < |ledger| && j != i ==> f(ledger[j]) == 0
    ensures Sum(ledger, f) == f(ledger[i])
  {
    var n := |ledger| - 1;
    if i == n {
      ZeroSum(ledger[..n], f);
    } else {
      OnlyWeight(ledger[..n], i, f);
    }
  }

  // ----- a release whose save is lost -----

  /** The transfer committed, and the process stopped before it saved the record. */
  function LoseSave(w: World, id: EscrowId, t: Transfer): World
    requires id in w.escrows
  {
    var e := w.escrows[id];
    Lock(w, id, |e.ledger|, e.asset, CycleAmount(e), t).Debit(e.asset, CycleAmount(e))
  }

  /** The command a release of this escrow submits: its cycle is the number of releases on record, plus one. */
  function ReleaseCommand(name: string, e: Escrow): string {
    CommandId.Encode(name + ":release", |e.releases| + 1, 0)
  }

  /** A lost save costs the pool exactly the cycle; pool minus owed of no other asset changes. */
  lemma LostSaveLowersSlack(w: World, id: EscrowId, t: Transfer, a: AssetKey)
    requires WorldOk(w) && id in w.escrows && Fresh(w, t)
    ensures var e, w' := w.escrows[id], LoseSave(w, id, t);
            && WorldOk(w') && w'.escrows == w.escrows
            && Slack(w', a) == Slack(w, a) - (if e.asset == a then CycleAmount(e) else 0)
            && w'.Balance(a) - Owed(w', a) == w.Balance(a) - Owed(w, a) - (if e.asset == a then CycleAmount(e) else 0)
  {
    hide Slack, Linked, Valid, EscrowSummary.DirectPace, Claim, Owed;
    var e, w' := w.escrows[id], LoseSave(w, id, t);
    var locked := Lock(w, id, |e.ledger|, e.asset, CycleAmount(e), t);
    assert w'.escrows == w.escrows;
    LockOk(w, id, t);
    LockSlack(w, id, t, a);
    CreditSlack(locked, e.asset, 0 - CycleAmount(e), a);
    assert w' == locked.Credit(e.asset, 0 - CycleAmount(e));
    BalanceAndTimeOk(locked, w'.pool, w'.now);
    SameOwed(w, w', a);
  }

  lemma SameOwed(w: World, w': World, a: AssetKey)
    requires w'.escrows == w.escrows
    ensures Owed(w', a) == Owed(w, a)
  {
  }

  lemma LockOk(w: World, id: EscrowId, t: Transfer)
    requires WorldOk(w) && id in w.escrows && Fresh(w, t)
    ensures var e := w.escrows[id]; WorldOk(Lock(w, id, |e.ledger|, e.asset, CycleAmount(e), t))
  {
  }

  lemma LockSlack(w: World, id: EscrowId, t: Transfer, a: AssetKey)
    requires WorldOk(w) && id in w.escrows && Fresh(w, t)
    ensures var e := w.escrows[id];
            Slack(Lock(w, id, |e.ledger|, e.asset, CycleAmount(e), t), a) == Slack(w, a)
  {
    hide Claim, Valid, EscrowSummary.DirectPace;
    var e := w.escrows[id];
    var w' := Lock(w, id, |e.ledger|, e.asset, CycleAmount(e), t);
    assert OnlyOffersOf(w, w', id);
    ClaimsMove(w, w', id, a);
    FreshOfferFrame(w, id, t, w'.offers);
    ClaimFrame(e, w.offers, w'.offers, a);
  }

  /** A release that moves money appends to the escrow's record of releases; nothing else does. */
  predicate Pays(w: World, s: Step, id: EscrowId) {
    s.ReleaseStep? && s.id == id && id in w.escrows && Remaining(w.escrows[id]) > 0
  }

  lemma {:induction false} ReconcileKeepsReleases(e: Escrow, i: nat, live: set<ContractId>, now: Millis)
    requires i <= |e.ledger|
    ensures ReconcileFrom(e, i, live, now).releases == e.releases
    decreases |e.ledger| - i
  {
    if i < |e.ledger| {
      ReconcileKeepsReleases(ReconcileLeg(e, i, live, now), i + 1, live, now);
    }
  }

  lemma StepKeepsReleases(w: World, s: Step, id: EscrowId)
    requires Enabled(w, s) && id in w.escrows && !Pays(w, s, id)
    ensures id in Apply(w, s).escrows && Apply(w, s).escrows[id].releases == w.escrows[id].releases
  {
    if s.ReconcileStep? {
      ReconcileKeepsReleases(w.escrows[s.id], 0, w.Live(), w.now);
    }
  }

  ghost predicate NeverPays(w: World, steps: seq<Step>, id: EscrowId)
    requires Runs(w, steps)
    decreases steps
  {
    |steps| > 0 ==> !Pays(w, steps[0], id) && NeverPays(Apply(w, steps[0]), steps[1..], id)
  }

  /**
   * After a lost save every retry submits the command that committed, whatever happens in between, so the ledger
   * refuses it: the escrow releases nothing more. Another escrow's, or another cycle's, command is a different one.
   */
  lemma {:induction false} RetryIsTheSameCommand(w: World, steps: seq<Step>, id: EscrowId, name: string)
    requires id in w.escrows && Runs(w, steps) && NeverPays(w, steps, id)
    ensures id in After(w, steps).escrows
    ensures ReleaseCommand(name, After(w, steps).escrows[id]) == ReleaseCommand(name, w.escrows[id])
    ensures forall other, e :: ReleaseCommand(other, e) == ReleaseCommand(name, w.escrows[id])
                               <==> other == name && |e.releases| == |w.escrows[id].releases|
    decreases steps
  {
    if |steps| > 0 {
      StepKeepsReleases(w, steps[0], id);
      RetryIsTheSameCommand(Apply(w, steps[0]), steps[1..], id, name);
    }
    forall other, e ensures ReleaseCommand(other, e) == ReleaseCommand(name, w.escrows[id])
                            <==> other == name && |e.releases| == |w.escrows[id].releases| {
      CommandId.EncodeInjective(other + ":release", |e.releases| + 1, 0, name + ":release", |w.escrows[id].releases| + 1, 0);
      if other + ":release" == name + ":release" {
        SameStem(other, name, ":release");
      }
    }
  }

  lemma SameStem(a: string, b: string, tail: string)
    requires a + tail == b + tail
    ensures a == b
  {
    assert |a| == |b|;
    assert forall i :: 0 <= i < |a| ==> a[i] == (a + tail)[i] && b[i] == (b + tail)[i];
  }

  /** When the surplus is less than the lost cycle, the pool refuses every release and refund of the asset that moves money. */
  lemma LostSaveBlocksPool(w: World, id: EscrowId, t: Transfer, s: Step)
    requires WorldOk(w) && id in w.escrows && Fresh(w, t) && (s.ReleaseStep? || s.RefundStep?)
    requires s.id in w.escrows && w.escrows[s.id].asset == w.escrows[id].asset && Remaining(w.escrows[s.id]) > 0
    requires w.Balance(w.escrows[id].asset) - Owed(w, w.escrows[id].asset) < CycleAmount(w.escrows[id])
    ensures !Enabled(LoseSave(w, id, t), s)
  {
    hide WorldOk, Owed, Enabled;
    var a := w.escrows[id].asset;
    LostSaveLowersSlack(w, id, t, a);
    InterlockProtects(LoseSave(w, id, t), s, a);
  }

  /** Reconcile names a gone release offer correctly exactly when it was taken before its deadline or returned after it. */
  lemma ClassifiedRightlyIff(l: Leg, o: Offer, live: set<ContractId>, now: Millis)
    requires IsOpenRelease(l) && l.cid.Some? && l.cid.value !in live && !o.state.Locked?
    ensures (Observe(l, live, now).Accepted? <==> o.state.Taken?) <==> (PastDeadline(l, now) <==> o.state.Returned?)
  {
  }
}
