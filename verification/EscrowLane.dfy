/**
 * The escrow lane's mutating operations over its stored escrows, as the service runs them:
 * load a record, change it step by step, save it. Chain reads and transfer outcomes are parameters.
 */
module EscrowLane {
  import opened Common
  import opened Escrow
  import opened EscrowPool

  datatype Error = NotFound | AlreadyExists | InvalidCadence | CapExceeded | CycleNotDue | PoolInsolvent | TransferFailed
  datatype Outcome<T> = Ok(value: T) | Err(error: Error)

  function OwedIn(owed: map<AssetKey, int>, a: AssetKey): int {
    if a in owed then owed[a] else 0
  }

  lemma OwingOneMore(escrows: map<EscrowId, Escrow>, id: EscrowId, e: Escrow, a: AssetKey)
    requires id !in escrows
    ensures Total(Owing(escrows[id := e], a)) == Total(Owing(escrows, a)) + ActiveRemaining(e, a)
  {
    assert Owing(escrows[id := e], a) == Owing(escrows, a)[id := ActiveRemaining(e, a)];
    TotalUpdate(Owing(escrows, a), id, ActiveRemaining(e, a));
  }

  method AddOwed(owed: map<AssetKey, int>, e: Escrow) returns (more: map<AssetKey, int>)
    ensures forall a :: OwedIn(more, a) == OwedIn(owed, a) + ActiveRemaining(e, a)
  {
    more := owed;
    if e.status.Active? {
      more := owed[e.asset := OwedIn(owed, e.asset) + Remaining(e)];
    }
  }

  /** Sum the remaining obligation of every active escrow, asset by asset. */
  method OwedByAsset(escrows: map<EscrowId, Escrow>) returns (owed: map<AssetKey, int>)
    ensures forall a :: OwedIn(owed, a) == Total(Owing(escrows, a))
  {
    owed := map[];
    var todo := escrows;
    ghost var done: map<EscrowId, Escrow> := map[];
    while todo != map[]
      invariant done.Keys !! todo.Keys && done + todo == escrows
      invariant forall a :: OwedIn(owed, a) == Total(Owing(done, a))
      decreases |todo|
    {
      var id :| id in todo;
      RemoveShrinks(todo, id);
      MoveOne(done, todo, id);
      var e := todo[id];
      ghost var before := done;
      owed := AddOwed(owed, e);
      todo := todo - {id};
      done := done[id := e];
      forall a
        ensures OwedIn(owed, a) == Total(Owing(done, a))
      {
        OwingOneMore(before, id, e, a);
      }
    }
    assert done == escrows;
  }

  // ----- when an escrow may be released -----

  /** The interlock refuses: something is owed in the asset, and the pool holds less. */
  ghost predicate Short(escrows: map<EscrowId, Escrow>, asset: AssetKey, pool: int) {
    var owed := Total(Owing(escrows, asset));
    0 < owed && pool < owed
  }

  /** What one release call answers. */
  ghost function Released(escrows: map<EscrowId, Escrow>, id: EscrowId, times: Times, pool: int, transfer: Option<Transfer>): Outcome<Escrow> {
    if id !in escrows then Err(NotFound)
    else
      var e := escrows[id];
      if !e.status.Active? then Ok(e)
      else if e.nextDueAt > times.checked then Err(CycleNotDue)
      else if Remaining(e) <= 0 then Ok(AfterIdleRelease(e, times))
      else if Short(escrows, e.asset, pool) then Err(PoolInsolvent)
      else if transfer.None? then Err(TransferFailed)
      else Ok(AfterRelease(e, times, transfer.value))
  }

  /** A new escrow may be released at once. */
  lemma DueFromTheStart(escrows: map<EscrowId, Escrow>, id: EscrowId, asset: AssetKey, rate: nat, cadenceSeconds: nat, total: nat,
                        now: Millis, deposit: Transfer, times: Times, pool: int, transfer: Option<Transfer>)
    requires now <= times.checked
    ensures Released(escrows[id := Create(asset, rate, cadenceSeconds, total, now, deposit)], id, times, pool, transfer) != Err(CycleNotDue)
  {
  }

  /**
   * After a release, one that paid or one that waits for an open offer, the next call is refused as not due exactly
   * until one cadence has passed since it was rescheduled; if the release completed the escrow, none ever is.
   */
  lemma NextDueOneCadenceLater(escrows: map<EscrowId, Escrow>, id: EscrowId, times: Times, pool: int, transfer: Option<Transfer>,
                               escrows': map<EscrowId, Escrow>, times': Times, pool': int, transfer': Option<Transfer>)
    requires id in escrows && escrows[id].status.Active?
    requires var r := Released(escrows, id, times, pool, transfer); r.Ok? && id in escrows' && escrows'[id] == r.value
    ensures Released(escrows', id, times', pool', transfer') == Err(CycleNotDue)
            <==> escrows'[id].status.Active? && times'.checked < times.rescheduled + escrows[id].cadenceSeconds * 1000
  {
  }

  /** Releasing at each due time, with no delay and a transfer that lands. */
  function Punctually(e: Escrow, n: nat): Escrow {
    if n == 0 then e
    else
      var before := Punctually(e, n - 1);
      var t := before.nextDueAt;
      if before.status.Active? && Remaining(before) > 0 then AfterRelease(before, Times(t, t, t), Landed) else before
  }

  /** While money is left, a trigger at every due time makes one release per cadence, the n-th one n - 1 cadences in. */
  lemma {:induction false} OneReleasePerCadence(e: Escrow, n: nat)
    requires e.status.Active? && n > 0
    requires forall k :: 0 <= k < n ==> Punctually(e, k).status.Active? && Remaining(Punctually(e, k)) > 0
    ensures var last := Punctually(e, n);
            && |last.releases| == |e.releases| + n
            && last.releases[|e.releases| + n - 1].at == e.nextDueAt + (n - 1) * (e.cadenceSeconds * 1000)
            && last.nextDueAt == e.nextDueAt + n * (e.cadenceSeconds * 1000)
            && last.cadenceSeconds == e.cadenceSeconds
  {
    assert Punctually(e, n - 1).status.Active?;
    if n > 1 {
      OneReleasePerCadence(e, n - 1);
      CadencesAdd(n - 1, e.cadenceSeconds * 1000);
    } else {
      assert Punctually(e, 0) == e;
    }
  }

  lemma CadencesAdd(n: nat, cadence: nat)
    ensures (n + 1) * cadence == n * cadence + cadence
  {
  }

  class Lane {
    var escrows: map<EscrowId, Escrow>

    constructor ()
      ensures escrows == map[]
    {
      escrows := map[];
    }

    /** The interlock: refuse when the pool holds less than all active escrows of the asset are owed. */
    method PoolSolvent(asset: AssetKey, pool: int) returns (ok: bool)
      ensures ok <==> Total(Owing(escrows, asset)) <= 0 || Total(Owing(escrows, asset)) <= pool
    {
      var all := OwedByAsset(escrows);
      var owed := OwedIn(all, asset);
      ok := owed <= 0 || owed <= pool;
    }

    /** cap == 0 switches the custody cap off; `deposit` is how the funding transfer landed, if it did. */
    method CreateEscrow(id: EscrowId, asset: AssetKey, rate: nat, cadenceSeconds: int, total: nat, cap: nat, now: Millis,
                        deposit: Option<Transfer>)
      returns (r: Outcome<Escrow>)
      modifies this
      ensures r.Ok? <==>
                && 0 < cadenceSeconds && id !in old(escrows) && deposit.Some?
                && (cap == 0 || Total(Owing(old(escrows), asset)) + total <= cap)
      ensures r.Ok? ==> r.value == Create(asset, rate, cadenceSeconds, total, now, deposit.value) && escrows == old(escrows)[id := r.value]
      ensures r.Err? ==> escrows == old(escrows)
    {
      if cadenceSeconds <= 0 {
        return Err(InvalidCadence);
      }
      if id in escrows {
        return Err(AlreadyExists);
      }
      var all := OwedByAsset(escrows);
      var owed := OwedIn(all, asset);
      if cap > 0 && owed + total > cap {
        return Err(CapExceeded);
      }
      if deposit.None? {
        return Err(TransferFailed);
      }
      var e := Escrow(asset, rate, cadenceSeconds, total, 0, 0, Active, now, now, [], []);
      e := Append(e, TransferLeg(Deposit, total, deposit.value));
      escrows := escrows[id := e];
      r := Ok(e);
    }

    /** One cycle: refused before it is due or while the pool is short, otherwise paid and recorded. */
    method ReleaseEscrowOnce(id: EscrowId, times: Times, pool: int, transfer: Option<Transfer>) returns (r: Outcome<Escrow>)
      modifies this
      ensures r == Released(old(escrows), id, times, pool, transfer)
      ensures r == Err(NotFound) <==> id !in old(escrows)
      ensures r == Err(CycleNotDue) <==> id in old(escrows) && old(escrows)[id].status.Active? && times.checked < old(escrows)[id].nextDueAt
      ensures r.Ok? && old(escrows)[id].status.Active? && r.value.status.Active? ==>
                r.value.nextDueAt == times.rescheduled + old(escrows)[id].cadenceSeconds * 1000
      ensures escrows == if r.Ok? then old(escrows)[id := r.value] else old(escrows)
    {
      if id !in escrows {
        return Err(NotFound);
      }
      var e := escrows[id];
      if !e.status.Active? {
        assert escrows[id := e] == escrows;
        return Ok(e);
      }
      if e.nextDueAt > times.checked {
        return Err(CycleNotDue);
      }
      var remaining := Remaining(e);
      if remaining <= 0 {
        if !HasPendingRelease(e) {
          e := e.(status := Completed);
        } else {
          e := e.(nextDueAt := times.rescheduled + e.cadenceSeconds * 1000);
        }
        escrows := escrows[id := e];
        return Ok(e);
      }
      var amount: nat := Min(e.rate, remaining);
      var solvent := PoolSolvent(e.asset, pool);
      if !solvent {
        return Err(PoolInsolvent);
      }
      if transfer.None? {
        return Err(TransferFailed);
      }
      var pending := transfer.value.Offered?;
      e := e.(released := e.released + amount);
      e := e.(nextDueAt := times.rescheduled + e.cadenceSeconds * 1000);
      e := e.(releases := e.releases + [ReleaseRecord(times.committed, amount, pending)]);
      e := Append(e, TransferLeg(Release, amount, transfer.value));
      if Remaining(e) <= 0 && !HasPendingRelease(e) {
        e := e.(status := Completed);
      }
      escrows := escrows[id := e];
      r := Ok(e);
    }

    /** Return what is left to the payer and close the escrow. */
    method RefundEscrow(id: EscrowId, pool: int, transfer: Option<Transfer>) returns (r: Outcome<Escrow>)
      modifies this
      ensures r == Err(NotFound) <==> id !in old(escrows)
      ensures id in old(escrows) ==>
                var e := old(escrows)[id];
                && (!e.status.Active? ==> r == Ok(e))
                && (e.status.Active? && Remaining(e) <= 0 ==> r == Ok(AfterRefund(e, Landed)))
                && (e.status.Active? && Remaining(e) > 0 ==>
                      r == if 0 < Total(Owing(old(escrows), e.asset)) && pool < Total(Owing(old(escrows), e.asset)) then Err(PoolInsolvent)
                           else if transfer.None? then Err(TransferFailed)
                           else Ok(AfterRefund(e, transfer.value)))
      ensures escrows == if r.Ok? then old(escrows)[id := r.value] else old(escrows)
    {
      if id !in escrows {
        return Err(NotFound);
      }
      var e := escrows[id];
      if !e.status.Active? {
        assert escrows[id := e] == escrows;
        return Ok(e);
      }
      var remaining := Remaining(e);
      if remaining > 0 {
        var solvent := PoolSolvent(e.asset, pool);
        if !solvent {
          return Err(PoolInsolvent);
        }
        if transfer.None? {
          return Err(TransferFailed);
        }
        e := e.(released := e.total);
        e := Append(e, TransferLeg(Refund, remaining, transfer.value));
      }
      e := e.(status := Refunded);
      e := e.(nextDueAt := e.createdAt);
      escrows := escrows[id := e];
      r := Ok(e);
    }

    /** `live` is the chain's set of open offers, or None when the read failed and nothing may be inferred. */
    method ReconcileEscrow(id: EscrowId, live: Option<set<ContractId>>, now: Millis) returns (r: Outcome<Escrow>)
      modifies this
      ensures r == Err(NotFound) <==> id !in old(escrows)
      ensures id in old(escrows) ==>
                r == Ok(if live.Some? then Reconcile(old(escrows)[id], live.value, now) else old(escrows)[id])
      ensures escrows == if r.Ok? then old(escrows)[id := r.value] else old(escrows)
    {
      if id !in escrows {
        return Err(NotFound);
      }
      var e := escrows[id];
      if live.Some? {
        var i := 0;
        while i < |e.ledger|
          invariant i <= |e.ledger|
          invariant ReconcileFrom(e, i, live.value, now) == ReconcileFrom(old(escrows)[id], 0, live.value, now)
        {
          var l := e.ledger[i];
          if Tracked(l) {
            var next := Observe(l, live.value, now);
            if l.offerStatus != Some(next) {
              if next.Expired? && l.kind.Release? {
                e := e.(released := Max(0, e.released - l.amount));
                if e.status.Completed? {
                  e := e.(status := Active);
                }
              }
              if next.Accepted? && l.kind.Release? {
                e := e.(stalls := 0);
              }
              e := e.(ledger := e.ledger[i := l.(offerStatus := Some(next))]);
            }
          }
          i := i + 1;
        }
        if e.status.Active? && Remaining(e) <= 0 && !HasPendingRelease(e) {
          e := e.(status := Completed);
        }
      }
      escrows := escrows[id := e];
      r := Ok(e);
    }

    /** Withdraw every release offer stuck past its deadline whose withdraw submission commits. */
    method ReclaimExpiredReleases(id: EscrowId, live: set<ContractId>, submitted: set<nat>, now: Millis)
      returns (r: Outcome<Escrow>, reclaimed: nat)
      modifies this
      ensures r == Err(NotFound) <==> id !in old(escrows)
      ensures id in old(escrows) ==> r == Ok(Reclaim(old(escrows)[id], live, submitted, now))
      ensures id in old(escrows) ==> reclaimed == r.value.stalls - old(escrows)[id].stalls
      ensures escrows == if r.Ok? then old(escrows)[id := r.value] else old(escrows)
    {
      if id !in escrows {
        return Err(NotFound), 0;
      }
      var e := escrows[id];
      reclaimed := 0;
      if e.asset == CC || e.status.Refunded? {
        assert escrows[id := e] == escrows;
        return Ok(e), 0;
      }
      var i := 0;
      while i < |e.ledger|
        invariant i <= |e.ledger|
        invariant ReclaimFrom(e, i, live, submitted, now) == ReclaimFrom(old(escrows)[id], 0, live, submitted, now)
        invariant reclaimed == e.stalls - old(escrows)[id].stalls
      {
        var l := e.ledger[i];
        if IsOpenRelease(l) && l.cid.Some? && PastDeadline(l, now) && l.cid.value in live && i in submitted {
          e := e.(ledger := e.ledger[i := l.(offerStatus := Some(Withdrawn))]);
          e := e.(released := Max(0, e.released - l.amount));
          if e.status.Completed? {
            e := e.(status := Active);
          }
          e := e.(stalls := e.stalls + 1);
          reclaimed := reclaimed + 1;
        }
        i := i + 1;
      }
      escrows := escrows[id := e];
      r := Ok(e);
    }
  }
}
