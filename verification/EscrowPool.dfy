/**
 * Many escrows commingled in one custody pool per asset, against a ledger that locks offers,
 * lets receivers take them, returns expired ones, and may be drained from outside.
 */
module EscrowPool {
  import opened Common
  import opened Escrow
  import EscrowSummary

  type EscrowId = nat

  datatype OfferState = Locked | Taken | Returned

  /** A pending offer on the ledger, with the ledger leg of the escrow that made it. */
  datatype Offer = Offer(escrow: EscrowId, leg: nat, asset: AssetKey, amount: nat, expiresAt: Millis, state: OfferState)

  datatype World = World(
    escrows: map<EscrowId, Escrow>,
    pool: map<AssetKey, int>,
    offers: map<ContractId, Offer>,
    now: Millis)
  {
    function Balance(a: AssetKey): int {
      if a in pool then pool[a] else 0
    }

    function Credit(a: AssetKey, amount: int): World {
      this.(pool := pool[a := Balance(a) + amount])
    }

    function Debit(a: AssetKey, amount: int): World {
      this.(pool := pool[a := Balance(a) - amount])
    }

    function Live(): set<ContractId> {
      set c | c in offers && offers[c].state.Locked?
    }
  }

  // ----- what the pool owes -----

  function ActiveRemaining(e: Escrow, a: AssetKey): int {
    if e.status.Active? && e.asset == a then Remaining(e) else 0
  }

  ghost function Owing(escrows: map<EscrowId, Escrow>, a: AssetKey): map<EscrowId, int> {
    map id | id in escrows :: ActiveRemaining(escrows[id], a)
  }

  /** What the solvency interlock compares with the pool. */
  ghost function Owed(w: World, a: AssetKey): int {
    Total(Owing(w.escrows, a))
  }

  /** A release offer whose funds are back in the pool, but which reconcile has not seen yet. */
  function ReturnedWeight(offers: map<ContractId, Offer>): Leg -> int {
    (l: Leg) =>
      if IsOpenRelease(l) && l.cid.Some? && l.cid.value in offers && offers[l.cid.value].state.Returned?
      then l.amount else 0
  }

  /** Everything an escrow may yet draw from the pool. */
  function Claim(e: Escrow, offers: map<ContractId, Offer>, a: AssetKey): int {
    if e.asset != a || e.status.Refunded? then 0
    else ActiveRemaining(e, a) + Sum(e.ledger, ReturnedWeight(offers))
  }

  ghost function Claims(w: World, a: AssetKey): map<EscrowId, int> {
    map id | id in w.escrows :: Claim(w.escrows[id], w.offers, a)
  }

  ghost function Slack(w: World, a: AssetKey): int {
    w.Balance(a) - Total(Claims(w, a))
  }

  // ----- steps -----

  datatype Step =
    | CreateStep(id: EscrowId, asset: AssetKey, rate: nat, cadenceSeconds: nat, total: nat, t: Transfer)
    | ReleaseStep(id: EscrowId, t: Transfer, committed: Millis, rescheduled: Millis)
    | RefundStep(id: EscrowId, t: Transfer)
    | ReconcileStep(id: EscrowId)
    | ReclaimStep(id: EscrowId, leg: nat)
    | TakeOffer(cid: ContractId)
    | ReturnOffer(cid: ContractId)
    | Fund(asset: AssetKey, amount: nat)
    | Drain(asset: AssetKey, amount: nat)
    | Wait(now: Millis)

  predicate Fresh(w: World, t: Transfer) {
    t.Offered? ==> t.cid !in w.offers
  }

  ghost predicate Enabled(w: World, s: Step) {
    match s
    case CreateStep(id, _, _, cadenceSeconds, _, t) => id !in w.escrows && 0 < cadenceSeconds && Fresh(w, t)
    case ReleaseStep(id, t, committed, rescheduled) =>
      && id in w.escrows && Fresh(w, t) && w.now <= committed <= rescheduled
      && var e := w.escrows[id];
         e.status.Active? && e.nextDueAt <= w.now && (Remaining(e) > 0 ==> Owed(w, e.asset) <= w.Balance(e.asset))
    case RefundStep(id, t) =>
      && id in w.escrows && Fresh(w, t)
      && var e := w.escrows[id];
         e.status.Active? && (Remaining(e) > 0 ==> Owed(w, e.asset) <= w.Balance(e.asset))
    case ReconcileStep(id) => id in w.escrows
    case ReclaimStep(id, leg) =>
      && id in w.escrows
      && var e := w.escrows[id];
         e.asset != CC && !e.status.Refunded? && leg < |e.ledger| && Reclaims(e.ledger[leg], leg, w.Live(), {leg}, w.now)
    case TakeOffer(cid) => cid in w.offers && w.offers[cid].state.Locked? && w.now < w.offers[cid].expiresAt
    case ReturnOffer(cid) => cid in w.offers && w.offers[cid].state.Locked?
    case Fund(_, _) => true
    case Drain(_, _) => true
    case Wait(now) => w.now <= now
  }

  /** The offer a committed transfer leaves behind, if it did not land at once. */
  function Lock(w: World, id: EscrowId, leg: nat, asset: AssetKey, amount: nat, t: Transfer): World {
    match t
    case Landed => w
    case Offered(cid, expiresAt) => w.(offers := w.offers[cid := Offer(id, leg, asset, amount, expiresAt, Locked)])
  }

  function SetState(w: World, cid: ContractId, state: OfferState): World
    requires cid in w.offers
  {
    w.(offers := w.offers[cid := w.offers[cid].(state := state)])
  }

  function Put(w: World, id: EscrowId, e: Escrow): World {
    w.(escrows := w.escrows[id := e])
  }

  /** A committed transfer out of the pool: the balance drops, the offer (if any) locks, the record is saved. */
  function Pay(w: World, id: EscrowId, e': Escrow, amount: nat, t: Transfer): World
    requires id in w.escrows
  {
    Put(Lock(w, id, |w.escrows[id].ledger|, e'.asset, amount, t).Debit(e'.asset, amount), id, e')
  }

  function OpenEscrow(w: World, id: EscrowId, e: Escrow, t: Transfer): World {
    var locked := Lock(w, id, 0, e.asset, e.total, t);
    Put(if t.Landed? then locked.Credit(e.asset, e.total) else locked, id, e)
  }

  function ApplyRelease(w: World, id: EscrowId, times: Times, t: Transfer): World
    requires id in w.escrows
  {
    var e := w.escrows[id];
    var saved :=
      if Remaining(e) <= 0 then Put(w, id, AfterIdleRelease(e, times))
      else Pay(w, id, AfterRelease(e, times, t), CycleAmount(e), t);
    saved.(now := times.rescheduled)
  }

  function ApplyRefund(w: World, id: EscrowId, t: Transfer): World
    requires id in w.escrows
  {
    var e := w.escrows[id];
    if Remaining(e) <= 0 then Put(w, id, AfterRefund(e, t)) else Pay(w, id, AfterRefund(e, t), Remaining(e), t)
  }

  function ApplyReclaim(w: World, id: EscrowId, leg: nat): World
    requires id in w.escrows && leg < |w.escrows[id].ledger|
    requires Reclaims(w.escrows[id].ledger[leg], leg, w.Live(), {leg}, w.now)
  {
    var e := w.escrows[id];
    var l := e.ledger[leg];
    Put(SetState(w, l.cid.value, Returned).Credit(e.asset, l.amount), id, ReclaimLeg(e, leg, w.Live(), {leg}, w.now))
  }

  ghost function Apply(w: World, s: Step): World
    requires Enabled(w, s)
  {
    match s
    case CreateStep(id, asset, rate, cadenceSeconds, total, t) =>
      OpenEscrow(w, id, Create(asset, rate, cadenceSeconds, total, w.now, t), t)
    case ReleaseStep(id, t, committed, rescheduled) => ApplyRelease(w, id, Times(w.now, committed, rescheduled), t)
    case RefundStep(id, t) => ApplyRefund(w, id, t)
    case ReconcileStep(id) => Put(w, id, Reconcile(w.escrows[id], w.Live(), w.now))
    case ReclaimStep(id, leg) => ApplyReclaim(w, id, leg)
    case TakeOffer(cid) => SetState(w, cid, Taken)
    case ReturnOffer(cid) => SetState(w, cid, Returned).Credit(w.offers[cid].asset, w.offers[cid].amount)
    case Fund(asset, amount) => w.Credit(asset, amount)
    case Drain(asset, amount) => w.Debit(asset, amount)
    case Wait(now) => w.(now := now)
  }

  // ----- the invariant -----

  ghost predicate Linked(w: World) {
    forall id, i :: id in w.escrows && 0 <= i < |w.escrows[id].ledger| && w.escrows[id].ledger[i].cid.Some? ==>
      var l := w.escrows[id].ledger[i];
      && l.cid.value in w.offers
      && var o := w.offers[l.cid.value];
         o.escrow == id && o.leg == i && o.asset == w.escrows[id].asset && o.amount == l.amount && l.expiresAt == Some(o.expiresAt)
  }

  ghost predicate WorldOk(w: World) {
    && Linked(w)
    && (forall id :: id in w.escrows ==> Valid(w.escrows[id]) && EscrowSummary.DirectPace(w.escrows[id]))
  }

  lemma CreateOk(w: World, s: Step)
    requires WorldOk(w) && Enabled(w, s) && s.CreateStep?
    ensures WorldOk(Apply(w, s))
  {
    var e := Create(s.asset, s.rate, s.cadenceSeconds, s.total, w.now, s.t);
    CreateValid(s.asset, s.rate, s.cadenceSeconds, s.total, w.now, s.t);
    assert EscrowSummary.DirectPace(e);
    CreateLinks(w, s);
    hide Valid, EscrowSummary.DirectPace, Linked;
    assert Apply(w, s).escrows == w.escrows[s.id := e];
  }

  lemma CreateLinks(w: World, s: Step)
    requires Linked(w) && Enabled(w, s) && s.CreateStep?
    ensures Linked(Apply(w, s))
  {
    assert Apply(w, s).escrows[s.id].ledger == [TransferLeg(Deposit, s.total, s.t)];
  }

  lemma PayLinks(w: World, id: EscrowId, e': Escrow, kind: LegKind, amount: nat, t: Transfer)
    requires Linked(w) && id in w.escrows && Fresh(w, t)
    requires e'.ledger == w.escrows[id].ledger + [TransferLeg(kind, amount, t)] && e'.asset == w.escrows[id].asset
    ensures Linked(Pay(w, id, e', amount, t))
  {
    var w' := Pay(w, id, e', amount, t);
    forall k, i | k in w'.escrows && 0 <= i < |w'.escrows[k].ledger| && w'.escrows[k].ledger[i].cid.Some?
      ensures var l := w'.escrows[k].ledger[i];
              && l.cid.value in w'.offers
              && var o := w'.offers[l.cid.value];
                 o.escrow == k && o.leg == i && o.asset == w'.escrows[k].asset && o.amount == l.amount && l.expiresAt == Some(o.expiresAt)
    {
      if k == id && i == |w.escrows[id].ledger| {
      } else {
        assert w'.escrows[k].ledger[i] == w.escrows[k].ledger[i];
      }
    }
  }

  lemma IdleOk(w: World, id: EscrowId, times: Times)
    requires WorldOk(w) && id in w.escrows && times.Ordered()
    requires w.escrows[id].status.Active? && w.escrows[id].nextDueAt <= times.checked && Remaining(w.escrows[id]) <= 0
    ensures WorldOk(Put(w, id, AfterIdleRelease(w.escrows[id], times)))
  {
    IdleReleaseValid(w.escrows[id], times);
    assert AfterIdleRelease(w.escrows[id], times).ledger == w.escrows[id].ledger;
  }

  lemma PaidOk(w: World, id: EscrowId, times: Times, t: Transfer)
    requires WorldOk(w) && id in w.escrows && Fresh(w, t) && times.Ordered()
    requires w.escrows[id].status.Active? && w.escrows[id].nextDueAt <= times.checked && Remaining(w.escrows[id]) > 0
    ensures WorldOk(Pay(w, id, AfterRelease(w.escrows[id], times, t), CycleAmount(w.escrows[id]), t))
  {
    hide Valid, EscrowSummary.DirectPace, Linked;
    var e := w.escrows[id];
    ReleaseValid(e, times, t);
    EscrowSummary.ReleaseKeepsPace(e, times, t);
    PayLinks(w, id, AfterRelease(e, times, t), Release, CycleAmount(e), t);
  }

  lemma ReleaseOk(w: World, id: EscrowId, times: Times, t: Transfer)
    requires WorldOk(w) && id in w.escrows && Fresh(w, t) && times.Ordered()
    requires w.escrows[id].status.Active? && w.escrows[id].nextDueAt <= times.checked
    ensures WorldOk(ApplyRelease(w, id, times, t))
  {
    hide WorldOk;
    var e := w.escrows[id];
    if Remaining(e) <= 0 {
      IdleOk(w, id, times);
      var w' := Put(w, id, AfterIdleRelease(e, times));
      BalanceAndTimeOk(w', w'.pool, times.rescheduled);
    } else {
      PaidOk(w, id, times, t);
      var w' := Pay(w, id, AfterRelease(e, times, t), CycleAmount(e), t);
      BalanceAndTimeOk(w', w'.pool, times.rescheduled);
    }
  }

  lemma RefundOk(w: World, id: EscrowId, t: Transfer)
    requires WorldOk(w) && id in w.escrows && Fresh(w, t) && w.escrows[id].status.Active?
    ensures WorldOk(ApplyRefund(w, id, t))
  {
    hide Valid, Linked;
    var e := w.escrows[id];
    RefundValid(e, t);
    if Remaining(e) > 0 {
      PayLinks(w, id, AfterRefund(e, t), Refund, Remaining(e), t);
    } else {
      assert SameLegs(e, AfterRefund(e, t));
      SameLegsLinked(w, id, AfterRefund(e, t));
    }
  }

  /** Reconcile and reclaim move no leg and touch no money fact. */
  ghost predicate SameLegs(e: Escrow, r: Escrow) {
    && |r.ledger| == |e.ledger| && r.asset == e.asset
    && forall i :: 0 <= i < |e.ledger| ==>
         && r.ledger[i].cid == e.ledger[i].cid && r.ledger[i].amount == e.ledger[i].amount
         && r.ledger[i].expiresAt == e.ledger[i].expiresAt && r.ledger[i].kind == e.ledger[i].kind
  }

  lemma {:induction false} ReconcileFromSameLegs(e: Escrow, i: nat, live: set<ContractId>, now: Millis)
    requires i <= |e.ledger|
    ensures SameLegs(e, ReconcileFrom(e, i, live, now))
    decreases |e.ledger| - i
  {
    if i < |e.ledger| {
      ReconcileFromSameLegs(ReconcileLeg(e, i, live, now), i + 1, live, now);
    }
  }

  lemma SameLegsLinked(w: World, id: EscrowId, e': Escrow)
    requires Linked(w) && id in w.escrows && SameLegs(w.escrows[id], e')
    ensures Linked(Put(w, id, e'))
  {
  }

  lemma ReconcileOk(w: World, id: EscrowId)
    requires WorldOk(w) && id in w.escrows
    ensures WorldOk(Put(w, id, Reconcile(w.escrows[id], w.Live(), w.now)))
  {
    hide Valid, EscrowSummary.DirectPace, Linked, SameLegs;
    var e := w.escrows[id];
    ReconcileValid(e, w.Live(), w.now);
    EscrowSummary.ReconcileKeepsPace(e, w.Live(), w.now);
    ReconcileSameLegs(e, w.Live(), w.now);
    SameLegsLinked(w, id, Reconcile(e, w.Live(), w.now));
  }

  lemma ReconcileSameLegs(e: Escrow, live: set<ContractId>, now: Millis)
    ensures SameLegs(e, Reconcile(e, live, now))
  {
    ReconcileFromSameLegs(e, 0, live, now);
  }

  lemma ReclaimLegKeeps(e: Escrow, leg: nat, live: set<ContractId>, now: Millis)
    requires Valid(e) && EscrowSummary.DirectPace(e) && leg < |e.ledger|
    ensures var r := ReclaimLeg(e, leg, live, {leg}, now);
            Valid(r) && EscrowSummary.DirectPace(r) && SameLegs(e, r)
  {
    ReclaimLegValid(e, leg, live, {leg}, now);
    var r := ReclaimLeg(e, leg, live, {leg}, now);
    assert LegOk(e.ledger[leg]);
    if Reclaims(e.ledger[leg], leg, live, {leg}, now) {
      assert r.ledger[leg].kind.Release? && r.ledger[leg].delivery.PendingOffer?;
    }
  }

  lemma ReclaimOk(w: World, id: EscrowId, leg: nat)
    requires WorldOk(w) && id in w.escrows && leg < |w.escrows[id].ledger|
    requires Reclaims(w.escrows[id].ledger[leg], leg, w.Live(), {leg}, w.now)
    ensures WorldOk(ApplyReclaim(w, id, leg))
  {
    hide Valid, EscrowSummary.DirectPace, Linked, SameLegs;
    var e := w.escrows[id];
    ReclaimLegKeeps(e, leg, w.Live(), w.now);
    var r := ReclaimLeg(e, leg, w.Live(), {leg}, w.now);
    SameLegsLinked(w, id, r);
    OfferStateOk(Put(w, id, r), e.ledger[leg].cid.value, Returned);
    var w1 := SetState(Put(w, id, r), e.ledger[leg].cid.value, Returned);
    BalanceAndTimeOk(w1, w1.Credit(e.asset, e.ledger[leg].amount).pool, w1.now);
  }

  lemma OfferStateOk(w: World, c: ContractId, state: OfferState)
    requires WorldOk(w) && c in w.offers
    ensures WorldOk(SetState(w, c, state))
  {
    assert Linked(SetState(w, c, state));
  }

  lemma BalanceAndTimeOk(w: World, pool: map<AssetKey, int>, now: Millis)
    requires WorldOk(w)
    ensures WorldOk(w.(pool := pool, now := now))
  {
    assert Linked(w.(pool := pool, now := now));
  }

  lemma StepOk(w: World, s: Step)
    requires WorldOk(w) && Enabled(w, s)
    ensures WorldOk(Apply(w, s))
  {
    hide WorldOk;
    var w' := Apply(w, s);
    match s
    case CreateStep(_, _, _, _, _, _) => CreateOk(w, s);
    case ReleaseStep(id, t, committed, rescheduled) => ReleaseOk(w, id, Times(w.now, committed, rescheduled), t);
    case RefundStep(id, t) => RefundOk(w, id, t);
    case ReconcileStep(id) => ReconcileOk(w, id);
    case ReclaimStep(id, leg) => ReclaimOk(w, id, leg);
    case TakeOffer(c) => OfferStateOk(w, c, Taken);
    case ReturnOffer(c) =>
      OfferStateOk(w, c, Returned);
      BalanceAndTimeOk(SetState(w, c, Returned), w'.pool, w'.now);
    case Fund(_, _) => BalanceAndTimeOk(w, w'.pool, w'.now);
    case Drain(_, _) => BalanceAndTimeOk(w, w'.pool, w'.now);
    case Wait(_) => BalanceAndTimeOk(w, w'.pool, w'.now);
  }
}
