/** The short list of releases an escrow keeps beside its ledger, and that the two never disagree. */
module EscrowRecords {
  import opened Common
  import opened Escrow
  import opened EscrowPool
  import opened EscrowSolvency
  import EscrowSummary

  /** What the list says: each release's amount, and whether it was made as an offer. */
  function Listed(rs: seq<ReleaseRecord>): seq<(nat, bool)> {
    if |rs| == 0 then [] else Listed(rs[..|rs| - 1]) + [(rs[|rs| - 1].amount, rs[|rs| - 1].pending)]
  }

  /** What the ledger says: the same of its release legs, in order. */
  function Made(ledger: seq<Leg>): seq<(nat, bool)> {
    if |ledger| == 0 then []
    else
      var l := ledger[|ledger| - 1];
      if l.kind.Release? then Made(ledger[..|ledger| - 1]) + [(l.amount, l.delivery.PendingOffer?)] else Made(ledger[..|ledger| - 1])
  }

  predicate Agrees(e: Escrow) {
    Listed(e.releases) == Made(e.ledger)
  }

  /** Legs that differ in their status only say the same. */
  lemma {:induction false} MadeSame(xs: seq<Leg>, ys: seq<Leg>)
    requires |xs| == |ys|
    requires forall i :: 0 <= i < |xs| ==> xs[i].kind == ys[i].kind && xs[i].amount == ys[i].amount && xs[i].delivery == ys[i].delivery
    ensures Made(xs) == Made(ys)
  {
    if |xs| > 0 {
      MadeSame(xs[..|xs| - 1], ys[..|ys| - 1]);
    }
  }

  lemma MadeAppend(ledger: seq<Leg>, l: Leg)
    ensures Made(ledger + [l]) == Made(ledger) + if l.kind.Release? then [(l.amount, l.delivery.PendingOffer?)] else []
  {
    assert (ledger + [l])[..|ledger|] == ledger;
  }

  lemma ListedAppend(rs: seq<ReleaseRecord>, r: ReleaseRecord)
    ensures Listed(rs + [r]) == Listed(rs) + [(r.amount, r.pending)]
  {
    assert (rs + [r])[..|rs|] == rs;
  }

  lemma ReleaseAgrees(e: Escrow, times: Times, t: Transfer)
    requires Agrees(e)
    ensures Agrees(AfterRelease(e, times, t))
    ensures Listed(AfterRelease(e, times, t).releases) == Listed(e.releases) + [(CycleAmount(e), t.Offered?)]
    ensures AfterRelease(e, times, t).releases[|e.releases|].at == times.committed
  {
    MadeAppend(e.ledger, TransferLeg(Release, CycleAmount(e), t));
    ListedAppend(e.releases, ReleaseRecord(times.committed, CycleAmount(e), t.Offered?));
  }

  lemma RefundAgrees(e: Escrow, t: Transfer)
    requires Agrees(e)
    ensures Agrees(AfterRefund(e, t))
  {
    MadeAppend(e.ledger, TransferLeg(Refund, Remaining(e), t));
  }

  lemma {:induction false} ReconcileKeepsDeliveries(e: Escrow, i: nat, live: set<ContractId>, now: Millis)
    requires i <= |e.ledger|
    ensures var r := ReconcileFrom(e, i, live, now);
            && r.releases == e.releases && |r.ledger| == |e.ledger|
            && forall j :: 0 <= j < |e.ledger| ==>
                 r.ledger[j].kind == e.ledger[j].kind && r.ledger[j].amount == e.ledger[j].amount && r.ledger[j].delivery == e.ledger[j].delivery
    decreases |e.ledger| - i
  {
    if i < |e.ledger| {
      ReconcileKeepsDeliveries(ReconcileLeg(e, i, live, now), i + 1, live, now);
    }
  }

  lemma ReconcileAgrees(e: Escrow, live: set<ContractId>, now: Millis)
    requires Agrees(e)
    ensures Agrees(Reconcile(e, live, now))
  {
    ReconcileKeepsDeliveries(e, 0, live, now);
    MadeSame(e.ledger, ReconcileFrom(e, 0, live, now).ledger);
  }

  lemma ReclaimLegAgrees(e: Escrow, i: nat, live: set<ContractId>, submitted: set<nat>, now: Millis)
    requires Agrees(e) && i < |e.ledger|
    ensures Agrees(ReclaimLeg(e, i, live, submitted, now))
  {
    MadeSame(e.ledger, ReclaimLeg(e, i, live, submitted, now).ledger);
  }

  ghost predicate AllAgree(w: World) {
    forall id :: id in w.escrows ==> Agrees(w.escrows[id])
  }

  lemma StepAgrees(w: World, s: Step)
    requires AllAgree(w) && Enabled(w, s)
    ensures AllAgree(Apply(w, s))
  {
    hide Agrees, Reconcile, ReclaimLeg, AfterRelease, AfterRefund;
    match s {
      case CreateStep(id, asset, rate, cadenceSeconds, total, t) =>
        CreateAgrees(asset, rate, cadenceSeconds, total, w.now, t);
      case ReleaseStep(id, t, committed, rescheduled) =>
        var e, times := w.escrows[id], Times(w.now, committed, rescheduled);
        ReleaseAgrees(e, times, t);
        IdleAgrees(e, times);
      case RefundStep(id, t) => RefundAgrees(w.escrows[id], t);
      case ReconcileStep(id) => ReconcileAgrees(w.escrows[id], w.Live(), w.now);
      case ReclaimStep(id, leg) => ReclaimLegAgrees(w.escrows[id], leg, w.Live(), {leg}, w.now);
      case _ =>
    }
  }

  lemma CreateAgrees(asset: AssetKey, rate: nat, cadenceSeconds: nat, total: nat, now: Millis, t: Transfer)
    ensures Agrees(Create(asset, rate, cadenceSeconds, total, now, t))
  {
    assert [TransferLeg(Deposit, total, t)][..0] == [];
  }

  lemma IdleAgrees(e: Escrow, times: Times)
    requires Agrees(e)
    ensures Agrees(AfterIdleRelease(e, times))
  {
  }

  /** In every run each escrow lists exactly the releases its ledger holds: how many, of how much, and which as offers. */
  lemma {:induction false} RunAgrees(w: World, steps: seq<Step>)
    requires AllAgree(w) && Runs(w, steps)
    ensures AllAgree(After(w, steps))
    decreases steps
  {
    hide AllAgree;
    if |steps| > 0 {
      StepAgrees(w, steps[0]);
      RunAgrees(Apply(w, steps[0]), steps[1..]);
    }
  }
}
