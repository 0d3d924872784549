/**
 * Recording settled cycles across all direct-payment streams: one on-chain update backs at most
 * one retained cycle, and each total is the sum of everything ever credited.
 */
module V1Records {
  import opened Common

  type StreamId = nat
  type UpdateId = string

  const HISTORY_LIMIT := 500

  datatype Entry = Entry(amount: nat, updateId: UpdateId)
  datatype OfferStatus = Pending | Accepted | Withdrawn
  datatype OfferRecord = OfferRecord(cycle: nat, amount: nat, offer: nat, createdBy: UpdateId, finalId: UpdateId, status: OfferStatus)
  datatype ClaimStatus = Allocated | ClaimReady | Claimed | ClaimWithdrawn
  datatype ClaimRecord = ClaimRecord(cycle: nat, amount: nat, allocatedBy: UpdateId, claimedBy: UpdateId, status: ClaimStatus)

  /** `cut` totals the history entries dropped by the retention limit; it exists only in this model. */
  datatype State = State(
    settled: int, cycles: nat, history: seq<Entry>, cut: int,
    offers: seq<OfferRecord>, claims: seq<ClaimRecord>)

  type Store = map<StreamId, State>

  /** What checking the update on chain established. */
  datatype Proof = Unproven | Delivered(amount: nat) | OfferMade(offer: nat, amount: nat)

  datatype Reply = Settled(amount: nat) | PendingAcceptance | AlreadyRecorded | AlreadyFinal | WithdrawnReply
                 | NotFound | MissingUpdateId | Replayed | Mismatch

  function AmountOf(e: Entry): int {
    e.amount
  }

  predicate Has(history: seq<Entry>, u: UpdateId) {
    exists i :: 0 <= i < |history| && history[i].updateId == u
  }

  predicate RecordedElsewhere(store: Store, id: StreamId, u: UpdateId) {
    exists k :: k in store && k != id && Has(store[k].history, u)
  }

  predicate Retained(store: Store, u: UpdateId) {
    exists k :: k in store && Has(store[k].history, u)
  }

  /** Append a cycle; past the limit the oldest entries are cut. */
  function Push(st: State, amount: nat, u: UpdateId): State {
    var history := st.history + [Entry(amount, u)];
    if |history| > HISTORY_LIMIT then
      var excess := |history| - HISTORY_LIMIT;
      st.(history := history[excess..], cut := st.cut + Sum(history[..excess], AmountOf))
    else st.(history := history)
  }

  function CreditNext(st: State, amount: nat, u: UpdateId): State {
    Push(st.(settled := st.settled + amount, cycles := st.cycles + 1), amount, u)
  }

  function CreditCycle(st: State, cycle: nat, amount: nat, u: UpdateId): State {
    Push(st.(settled := st.settled + amount, cycles := Max(st.cycles, cycle)), amount, u)
  }

  function AcceptOffer(st: State, i: nat, amount: nat, u: UpdateId): State
    requires i < |st.offers|
  {
    CreditCycle(st, st.offers[i].cycle, amount, u).(offers := st.offers[i := st.offers[i].(status := Accepted, finalId := u)])
  }

  function ClaimAllocation(st: State, i: nat, amount: nat, u: UpdateId): State
    requires i < |st.claims|
  {
    CreditCycle(st, st.claims[i].cycle, amount, u).(claims := st.claims[i := st.claims[i].(status := Claimed, claimedBy := u)])
  }

  function TrackOffer(st: State, offer: nat, amount: nat, u: UpdateId): State {
    if exists i :: 0 <= i < |st.offers| && st.offers[i].offer == offer then st
    else st.(offers := st.offers + [OfferRecord(st.cycles + 1, amount, offer, u, "", Pending)])
  }

  // ----- the record paths -----

  /** Model 2: a cycle the payer's wallet committed. The replay guards apply to a non-empty update id. */
  function AfterSettle(store: Store, id: StreamId, u: UpdateId, proof: Proof): (Store, Reply) {
    if id !in store then (store, NotFound)
    else if u != "" && Has(store[id].history, u) then (store, AlreadyRecorded)
    else if u != "" && RecordedElsewhere(store, id, u) then (store, Replayed)
    else match proof
      case Unproven => (store, Mismatch)
      case Delivered(amount) => (store[id := CreditNext(store[id], amount, u)], Settled(amount))
      case OfferMade(offer, amount) => (store[id := TrackOffer(store[id], offer, amount, u)], PendingAcceptance)
  }

  function AfterAccept(store: Store, id: StreamId, i: nat, u: UpdateId, verified: Option<nat>): (Store, Reply) {
    if u == "" then (store, MissingUpdateId)
    else if id !in store || i >= |store[id].offers| then (store, NotFound)
    else
      var r := store[id].offers[i];
      if r.finalId == u || Has(store[id].history, u) then (store, AlreadyRecorded)
      else if r.createdBy == u then (store, Mismatch)
      else if RecordedElsewhere(store, id, u) then (store, Replayed)
      else if r.status.Accepted? then (store, AlreadyFinal)
      else if verified.None? || verified.value < r.amount then (store, Mismatch)
      else
        var amount := Min(r.amount, verified.value);
        (store[id := AcceptOffer(store[id], i, amount, u)], Settled(amount))
  }

  function AfterClaim(store: Store, id: StreamId, i: nat, u: UpdateId, verified: Option<nat>): (Store, Reply) {
    if u == "" then (store, MissingUpdateId)
    else if id !in store || i >= |store[id].claims| then (store, NotFound)
    else
      var r := store[id].claims[i];
      if r.claimedBy == u || Has(store[id].history, u) then (store, AlreadyRecorded)
      else if r.allocatedBy == u then (store, Mismatch)
      else if RecordedElsewhere(store, id, u) then (store, Replayed)
      else if r.status.Claimed? then (store, AlreadyFinal)
      else if verified.None? || verified.value < r.amount then (store, Mismatch)
      else
        var amount := Min(r.amount, verified.value);
        (store[id := ClaimAllocation(store[id], i, amount, u)], Settled(amount))
  }

  function AfterWithdraw(store: Store, id: StreamId, i: nat, u: UpdateId, consumed: bool): (Store, Reply) {
    if u == "" then (store, MissingUpdateId)
    else if id !in store || i >= |store[id].offers| then (store, NotFound)
    else
      var r := store[id].offers[i];
      if !r.status.Pending? then (store, AlreadyFinal)
      else if r.createdBy == u || !consumed then (store, Mismatch)
      else (store[id := store[id].(offers := store[id].offers[i := r.(status := Withdrawn, finalId := u)])], WithdrawnReply)
  }

  // ----- what a reply tells its caller -----

  /** One stream gains one cycle: its total grows by the amount, its history ends with the entry, no other stream changes. */
  predicate Credited(before: Store, after: Store, id: StreamId, amount: nat, u: UpdateId) {
    && id in before && id in after && after == before[id := after[id]]
    && after[id].settled == before[id].settled + amount && after[id].cycles >= before[id].cycles
    && |after[id].history| > 0 && after[id].history[|after[id].history| - 1] == Entry(amount, u)
    && Retained(after, u)
  }

  /** No stream's total, cycles or history differs. */
  predicate NothingCredited(before: Store, after: Store) {
    && after.Keys == before.Keys
    && forall k :: k in before ==>
         && after[k].settled == before[k].settled && after[k].cycles == before[k].cycles
         && after[k].history == before[k].history && after[k].cut == before[k].cut
         && after[k].claims == before[k].claims
  }

  /** The offer has its record: the one it had, or a new one at the end, pending, for the cycle to come. */
  predicate Tracked(before: Store, after: Store, id: StreamId, offer: nat, amount: nat, u: UpdateId) {
    && id in before && id in after && after == before[id := after[id]]
    && var rs, rs' := before[id].offers, after[id].offers;
       if exists i :: 0 <= i < |rs| && rs[i].offer == offer then rs' == rs
       else
         && |rs'| == |rs| + 1 && rs'[..|rs|] == rs
         && var r := rs'[|rs|];
            r.offer == offer && r.amount == amount && r.createdBy == u && r.cycle == before[id].cycles + 1 && r.status.Pending?
  }

  lemma PushCredits(store: Store, id: StreamId, st: State, amount: nat, u: UpdateId, st': State)
    requires id in store && st.settled == store[id].settled + amount && st.cycles >= store[id].cycles
    requires st'.settled == st.settled && st'.cycles == st.cycles && st'.history == Push(st, amount, u).history
    ensures Credited(store, store[id := st'], id, amount, u)
  {
    var n := |st'.history| - 1;
    assert st'.history[n] == Entry(amount, u);
    assert Has(store[id := st'][id].history, u);
  }

  /** A wallet-signed cycle is settled exactly when its update proves a delivery and, if named, is retained nowhere. */
  lemma SettleMeans(store: Store, id: StreamId, u: UpdateId, proof: Proof)
    ensures var (store', reply) := AfterSettle(store, id, u, proof);
            && (reply.Settled? <==> id in store && proof.Delivered? && (u != "" ==> !Retained(store, u)))
            && (reply.Settled? ==>
                  && proof == Delivered(reply.amount) && Credited(store, store', id, reply.amount, u)
                  && store'[id].cycles == store[id].cycles + 1
                  && store'[id].offers == store[id].offers && store'[id].claims == store[id].claims)
            && (reply.PendingAcceptance? <==> id in store && proof.OfferMade? && (u != "" ==> !Retained(store, u)))
            && (reply.PendingAcceptance? ==> NothingCredited(store, store') && Tracked(store, store', id, proof.offer, proof.amount, u))
            && (!reply.Settled? && !reply.PendingAcceptance? ==> store' == store)
            && (StoreOk(store) && u != "" ==> StoreOk(store'))
  {
    hide StoreOk, CreditNext, Credited, Has;
    if u != "" && StoreOk(store) {
      DoOk(store, Settle(id, u, proof));
    }
    if id in store {
      RetainedIff(store, id, u);
      if proof.Delivered? {
        NextCredits(store, id, proof.amount, u);
      }
    }
  }

  lemma NextCredits(store: Store, id: StreamId, amount: nat, u: UpdateId)
    requires id in store
    ensures Credited(store, store[id := CreditNext(store[id], amount, u)], id, amount, u)
    ensures var st' := CreditNext(store[id], amount, u);
            st'.cycles == store[id].cycles + 1 && st'.offers == store[id].offers && st'.claims == store[id].claims
  {
    var st := store[id].(settled := store[id].settled + amount, cycles := store[id].cycles + 1);
    PushCredits(store, id, st, amount, u, CreditNext(store[id], amount, u));
  }

  /** An accept is settled exactly once per offer and per update, for the offer's amount, which the chain confirmed. */
  lemma AcceptMeans(store: Store, id: StreamId, i: nat, u: UpdateId, verified: Option<nat>)
    ensures var (store', reply) := AfterAccept(store, id, i, u, verified);
            && (reply.Settled? <==>
                  && u != "" && id in store && i < |store[id].offers| && !Retained(store, u)
                  && var r := store[id].offers[i];
                     u != r.finalId && u != r.createdBy && !r.status.Accepted? && verified.Some? && r.amount <= verified.value)
            && (reply.Settled? ==>
                  && reply.amount == store[id].offers[i].amount && Credited(store, store', id, reply.amount, u)
                  && store'[id].cycles == Max(store[id].cycles, store[id].offers[i].cycle) && store'[id].claims == store[id].claims
                  && store'[id].offers == store[id].offers[i := store[id].offers[i].(status := Accepted, finalId := u)])
            && (!reply.Settled? ==> store' == store)
            && (StoreOk(store) ==> StoreOk(store'))
  {
    hide StoreOk, Credited, Has;
    if StoreOk(store) {
      DoOk(store, Accept(id, i, u, verified));
    }
    if id in store && i < |store[id].offers| {
      RetainedIff(store, id, u);
      AcceptCredits(store, id, i, store[id].offers[i].amount, u);
    }
  }

  lemma AcceptCredits(store: Store, id: StreamId, i: nat, amount: nat, u: UpdateId)
    requires id in store && i < |store[id].offers|
    ensures Credited(store, store[id := AcceptOffer(store[id], i, amount, u)], id, amount, u)
  {
    var st := store[id].(settled := store[id].settled + amount, cycles := Max(store[id].cycles, store[id].offers[i].cycle));
    PushCredits(store, id, st, amount, u, AcceptOffer(store[id], i, amount, u));
  }

  /** A claim is settled exactly once per allocation and per update, for the allocated amount. */
  lemma ClaimMeans(store: Store, id: StreamId, i: nat, u: UpdateId, verified: Option<nat>)
    ensures var (store', reply) := AfterClaim(store, id, i, u, verified);
            && (reply.Settled? <==>
                  && u != "" && id in store && i < |store[id].claims| && !Retained(store, u)
                  && var r := store[id].claims[i];
                     u != r.claimedBy && u != r.allocatedBy && !r.status.Claimed? && verified.Some? && r.amount <= verified.value)
            && (reply.Settled? ==>
                  && reply.amount == store[id].claims[i].amount && Credited(store, store', id, reply.amount, u)
                  && store'[id].cycles == Max(store[id].cycles, store[id].claims[i].cycle) && store'[id].offers == store[id].offers
                  && store'[id].claims == store[id].claims[i := store[id].claims[i].(status := Claimed, claimedBy := u)])
            && (!reply.Settled? ==> store' == store)
            && (StoreOk(store) ==> StoreOk(store'))
  {
    hide StoreOk, Credited, Has;
    if StoreOk(store) {
      DoOk(store, Claim(id, i, u, verified));
    }
    if id in store && i < |store[id].claims| {
      RetainedIff(store, id, u);
      ClaimCredits(store, id, i, store[id].claims[i].amount, u);
    }
  }

  lemma ClaimCredits(store: Store, id: StreamId, i: nat, amount: nat, u: UpdateId)
    requires id in store && i < |store[id].claims|
    ensures Credited(store, store[id := ClaimAllocation(store[id], i, amount, u)], id, amount, u)
  {
    var st := store[id].(settled := store[id].settled + amount, cycles := Max(store[id].cycles, store[id].claims[i].cycle));
    PushCredits(store, id, st, amount, u, ClaimAllocation(store[id], i, amount, u));
  }

  /** A withdraw credits nothing and closes only an offer that was pending, so no update closes an offer twice. */
  lemma WithdrawMeans(store: Store, id: StreamId, i: nat, u: UpdateId, consumed: bool)
    ensures var (store', reply) := AfterWithdraw(store, id, i, u, consumed);
            && NothingCredited(store, store')
            && (store' != store ==> reply.WithdrawnReply? && AfterWithdraw(store', id, i, u, consumed) == (store', AlreadyFinal))
            && (reply.WithdrawnReply? <==>
                  && u != "" && id in store && i < |store[id].offers| && consumed
                  && store[id].offers[i].status.Pending? && store[id].offers[i].createdBy != u)
            && (reply.WithdrawnReply? ==>
                  store'[id].offers == store[id].offers[i := store[id].offers[i].(status := Withdrawn, finalId := u)])
            && (StoreOk(store) ==> StoreOk(store'))
  {
    hide StoreOk;
    if StoreOk(store) {
      DoOk(store, Withdraw(id, i, u, consumed));
    }
  }

  /**
   * The round trip of a wallet-signed offer: recorded as pending, then accepted under a fresh update that proves the
   * amount, it settles exactly that amount as the next cycle; withdrawn instead, it settles nothing and is closed.
   */
  lemma OfferRoundTrip(store: Store, id: StreamId, u: UpdateId, offer: nat, amount: nat, u': UpdateId, verified: nat)
    requires id in store && (u != "" ==> !Retained(store, u))
    requires forall i :: 0 <= i < |store[id].offers| ==> store[id].offers[i].offer != offer
    requires u' != "" && u' != u && !Retained(store, u')
    ensures var (pending, reply) := AfterSettle(store, id, u, OfferMade(offer, amount));
            var i := |store[id].offers|;
            var (paid, paidReply) := AfterAccept(pending, id, i, u', Some(verified));
            var (back, backReply) := AfterWithdraw(pending, id, i, u', true);
            && reply.PendingAcceptance?
            && (verified >= amount ==>
                  paidReply == Settled(amount) && paid[id].settled == store[id].settled + amount && paid[id].cycles == store[id].cycles + 1)
            && (verified < amount ==> paidReply.Mismatch? && paid == pending)
            && backReply.WithdrawnReply? && back[id].settled == store[id].settled && back[id].cycles == store[id].cycles
            && back[id].offers[i].status.Withdrawn?
  {
    hide Has, Push;
    RetainedIff(store, id, u);
    var (pending, reply) := AfterSettle(store, id, u, OfferMade(offer, amount));
    SameRetained(store, pending, u');
    RetainedIff(pending, id, u');
    AcceptMeans(pending, id, |store[id].offers|, u', Some(verified));
  }

  lemma SameRetained(store: Store, store': Store, u: UpdateId)
    requires NothingCredited(store, store')
    ensures Retained(store', u) <==> Retained(store, u)
  {
    forall k | k in store ensures Has(store'[k].history, u) == Has(store[k].history, u) {
    }
  }

  // ----- the lane, changed in place -----

  class Lane {
    var store: Store

    constructor (streams: set<StreamId>)
      ensures store == map id | id in streams :: State(0, 0, [], 0, [], [])
    {
      store := map id | id in streams :: State(0, 0, [], 0, [], []);
    }

    /** The entry is the newest; a total that counted it already now equals everything retained or cut. */
    method PushHistory(id: StreamId, amount: nat, u: UpdateId)
      requires id in store
      modifies this
      ensures store == old(store)[id := Push(old(store)[id], amount, u)]
      ensures |store[id].history| <= HISTORY_LIMIT && store[id].history[|store[id].history| - 1] == Entry(amount, u)
      ensures Accounted(old(store)[id].(settled := old(store)[id].settled - amount)) ==> Accounted(store[id])
    {
      if Accounted(store[id].(settled := store[id].settled - amount)) {
        PushAccounts(store[id], amount, u);
      }
      var st := store[id];
      st := st.(history := st.history + [Entry(amount, u)]);
      if |st.history| > HISTORY_LIMIT {
        var excess := |st.history| - HISTORY_LIMIT;
        st := st.(cut := st.cut + Sum(st.history[..excess], AmountOf), history := st.history[excess..]);
      }
      store := store[id := st];
    }

    method RecordSettle(id: StreamId, u: UpdateId, proof: Proof) returns (reply: Reply)
      modifies this
      ensures (store, reply) == AfterSettle(old(store), id, u, proof)
      ensures reply.Settled? <==> id in old(store) && proof.Delivered? && (u != "" ==> !Retained(old(store), u))
      ensures reply.Settled? ==>
                && proof == Delivered(reply.amount) && Credited(old(store), store, id, reply.amount, u)
                && store[id].cycles == old(store)[id].cycles + 1
      ensures reply.PendingAcceptance? <==> id in old(store) && proof.OfferMade? && (u != "" ==> !Retained(old(store), u))
      ensures reply.PendingAcceptance? ==>
                NothingCredited(old(store), store) && Tracked(old(store), store, id, proof.offer, proof.amount, u)
      ensures !reply.Settled? && !reply.PendingAcceptance? ==> store == old(store)
      ensures StoreOk(old(store)) && u != "" ==> StoreOk(store)
    {
      hide Credited, NothingCredited, Tracked, StoreOk, Retained, Accounted;
      SettleMeans(store, id, u, proof);
      if id !in store {
        return NotFound;
      }
      if u != "" && Has(store[id].history, u) {
        return AlreadyRecorded;
      }
      if u != "" && exists k :: k in store && k != id && Has(store[k].history, u) {
        return Replayed;
      }
      match proof {
        case Unproven =>
          reply := Mismatch;
        case Delivered(amount) =>
          store := store[id := store[id].(settled := store[id].settled + amount, cycles := store[id].cycles + 1)];
          PushHistory(id, amount, u);
          assert store == old(store)[id := CreditNext(old(store)[id], amount, u)];
          reply := Settled(amount);
        case OfferMade(offer, amount) =>
          var st := store[id];
          if !exists i :: 0 <= i < |st.offers| && st.offers[i].offer == offer {
            st := st.(offers := st.offers + [OfferRecord(st.cycles + 1, amount, offer, u, "", Pending)]);
          }
          store := store[id := st];
          reply := PendingAcceptance;
      }
    }

    method RecordAcceptTransfer(id: StreamId, i: nat, u: UpdateId, verified: Option<nat>) returns (reply: Reply)
      modifies this
      ensures (store, reply) == AfterAccept(old(store), id, i, u, verified)
      ensures reply.Settled? ==>
                && u != "" && !Retained(old(store), u) && Credited(old(store), store, id, reply.amount, u)
                && i < |old(store)[id].offers| && !old(store)[id].offers[i].status.Accepted?
                && reply.amount == old(store)[id].offers[i].amount && verified.Some? && reply.amount <= verified.value
                && store[id].cycles == Max(old(store)[id].cycles, old(store)[id].offers[i].cycle)
                && store[id].offers == old(store)[id].offers[i := old(store)[id].offers[i].(status := Accepted, finalId := u)]
      ensures !reply.Settled? ==> store == old(store)
      ensures StoreOk(old(store)) ==> StoreOk(store)
    {
      hide Credited, NothingCredited, Tracked, StoreOk, Retained, Accounted;
      AcceptMeans(store, id, i, u, verified);
      if u == "" {
        return MissingUpdateId;
      }
      if id !in store || i >= |store[id].offers| {
        return NotFound;
      }
      var r := store[id].offers[i];
      if r.finalId == u || Has(store[id].history, u) {
        return AlreadyRecorded;
      }
      if r.createdBy == u {
        return Mismatch;
      }
      if RecordedElsewhere(store, id, u) {
        return Replayed;
      }
      if r.status.Accepted? {
        return AlreadyFinal;
      }
      if verified.None? || verified.value < r.amount {
        return Mismatch;
      }
      var amount := Min(r.amount, verified.value);
      store := store[id := store[id].(settled := store[id].settled + amount, cycles := Max(store[id].cycles, r.cycle))];
      PushHistory(id, amount, u);
      store := store[id := store[id].(offers := store[id].offers[i := r.(status := Accepted, finalId := u)])];
      assert store == old(store)[id := AcceptOffer(old(store)[id], i, amount, u)];
      reply := Settled(amount);
    }

    method RecordClaim(id: StreamId, i: nat, u: UpdateId, verified: Option<nat>) returns (reply: Reply)
      modifies this
      ensures (store, reply) == AfterClaim(old(store), id, i, u, verified)
      ensures reply.Settled? ==>
                && u != "" && !Retained(old(store), u) && Credited(old(store), store, id, reply.amount, u)
                && i < |old(store)[id].claims| && !old(store)[id].claims[i].status.Claimed?
                && reply.amount == old(store)[id].claims[i].amount && verified.Some? && reply.amount <= verified.value
                && store[id].cycles == Max(old(store)[id].cycles, old(store)[id].claims[i].cycle)
                && store[id].claims == old(store)[id].claims[i := old(store)[id].claims[i].(status := Claimed, claimedBy := u)]
      ensures !reply.Settled? ==> store == old(store)
      ensures StoreOk(old(store)) ==> StoreOk(store)
    {
      hide Credited, NothingCredited, Tracked, StoreOk, Retained, Accounted;
      ClaimMeans(store, id, i, u, verified);
      if u == "" {
        return MissingUpdateId;
      }
      if id !in store || i >= |store[id].claims| {
        return NotFound;
      }
      var r := store[id].claims[i];
      if r.claimedBy == u || Has(store[id].history, u) {
        return AlreadyRecorded;
      }
      if r.allocatedBy == u {
        return Mismatch;
      }
      if RecordedElsewhere(store, id, u) {
        return Replayed;
      }
      if r.status.Claimed? {
        return AlreadyFinal;
      }
      if verified.None? || verified.value < r.amount {
        return Mismatch;
      }
      var amount := Min(r.amount, verified.value);
      store := store[id := store[id].(settled := store[id].settled + amount, cycles := Max(store[id].cycles, r.cycle))];
      PushHistory(id, amount, u);
      store := store[id := store[id].(claims := store[id].claims[i := r.(status := Claimed, claimedBy := u)])];
      assert store == old(store)[id := ClaimAllocation(old(store)[id], i, amount, u)];
      reply := Settled(amount);
    }

    /** A withdraw returns the funds: the offer is closed and nothing is credited. */
    method RecordWithdrawTransfer(id: StreamId, i: nat, u: UpdateId, consumed: bool) returns (reply: Reply)
      modifies this
      ensures (store, reply) == AfterWithdraw(old(store), id, i, u, consumed)
      ensures NothingCredited(old(store), store)
      ensures !reply.WithdrawnReply? ==> store == old(store)
      ensures reply.WithdrawnReply? ==> consumed && u != "" && old(store)[id].offers[i].status.Pending? && store[id].offers[i].status.Withdrawn?
      ensures StoreOk(old(store)) ==> StoreOk(store)
    {
      hide Credited, NothingCredited, Tracked, StoreOk, Retained, Accounted;
      WithdrawMeans(store, id, i, u, consumed);
      if u == "" {
        return MissingUpdateId;
      }
      if id !in store || i >= |store[id].offers| {
        return NotFound;
      }
      var r := store[id].offers[i];
      if !r.status.Pending? {
        return AlreadyFinal;
      }
      if r.createdBy == u || !consumed {
        return Mismatch;
      }
      store := store[id := store[id].(offers := store[id].offers[i := r.(status := Withdrawn, finalId := u)])];
      reply := WithdrawnReply;
    }
  }

  // ----- what holds over every run -----

  ghost predicate Accounted(st: State) {
    st.settled == st.cut + Sum(st.history, AmountOf) && |st.history| <= HISTORY_LIMIT
  }

  /** No update id backs two retained cycles, on one stream or across streams. */
  ghost predicate Distinct(store: Store) {
    forall k, l, i, j ::
      (k in store && l in store && 0 <= i < |store[k].history| && 0 <= j < |store[l].history|
       && store[k].history[i].updateId == store[l].history[j].updateId) ==> k == l && i == j
  }

  ghost predicate StoreOk(store: Store) {
    Distinct(store) && forall k :: k in store ==> Accounted(store[k])
  }

  lemma {:induction false} SumSplit(history: seq<Entry>, n: nat)
    requires n <= |history|
    ensures Sum(history, AmountOf) == Sum(history[..n], AmountOf) + Sum(history[n..], AmountOf)
  {
    if n == 0 {
      assert history[0..] == history;
    } else {
      SumSplit(history, n - 1);
      assert history[..n][..n - 1] == history[..n - 1];
      SumHead(history[n - 1..], AmountOf);
      assert history[n - 1..][1..] == history[n..];
    }
  }

  lemma PushAccounts(st: State, amount: nat, u: UpdateId)
    requires st.settled == st.cut + Sum(st.history, AmountOf) + amount && |st.history| <= HISTORY_LIMIT
    ensures Accounted(Push(st, amount, u))
  {
    var history := st.history + [Entry(amount, u)];
    SumAppend(st.history, Entry(amount, u), AmountOf);
    if |history| > HISTORY_LIMIT {
      SumSplit(history, |history| - HISTORY_LIMIT);
    }
  }

  /** What a push leaves in the history: a suffix of the old one, then the new entry. */
  lemma PushKeepsSuffix(st: State, amount: nat, u: UpdateId)
    requires |st.history| <= HISTORY_LIMIT
    ensures var history := Push(st, amount, u).history;
            var cut := |st.history| + 1 - |history|;
            && 0 <= cut <= 1 && |history| > 0 && history[|history| - 1].updateId == u
            && forall i :: 0 <= i < |history| - 1 ==> history[i] == st.history[i + cut]
  {
  }

  /** A store without the entry that a further credit of this stream cuts; nothing is cut below the limit. */
  function BeforeCut(store: Store, id: StreamId): Store
    requires id in store
  {
    var history := store[id].history;
    store[id := store[id].(history := if |history| >= HISTORY_LIMIT then history[1..] else history)]
  }

  /** Crediting an update keeps ids distinct exactly when it is retained nowhere but, perhaps, in the entry being cut. */
  lemma CreditDistinctIff(store: Store, id: StreamId, st': State, amount: nat, u: UpdateId)
    requires Distinct(store) && id in store && |store[id].history| <= HISTORY_LIMIT
    requires st'.history == Push(store[id], amount, u).history
    ensures Distinct(store[id := st']) <==> !Retained(BeforeCut(store, id), u)
  {
    hide Distinct, Retained;
    var kept := BeforeCut(store, id);
    PushAfterCut(store, id, st', amount, u);
    assert kept[id := st'] == store[id := st'];
    hide BeforeCut, Push;
    if Retained(kept, u) {
      RetainedCreditClashes(kept, id, st', amount, u);
    } else {
      KeptDistinct(store, id);
      CreditDistinct(kept, id, st', amount, u);
    }
  }

  lemma PushAfterCut(store: Store, id: StreamId, st': State, amount: nat, u: UpdateId)
    requires id in store && |store[id].history| <= HISTORY_LIMIT && st'.history == Push(store[id], amount, u).history
    ensures var kept := BeforeCut(store, id);
            && kept.Keys == store.Keys && |kept[id].history| < HISTORY_LIMIT
            && st'.history == kept[id].history + [Entry(amount, u)] == Push(kept[id], amount, u).history
  {
    var history := store[id].history;
    if |history| >= HISTORY_LIMIT {
      assert (history + [Entry(amount, u)])[1..] == history[1..] + [Entry(amount, u)];
    }
  }

  lemma RetainedCreditClashes(store: Store, id: StreamId, st': State, amount: nat, u: UpdateId)
    requires id in store && Retained(store, u) && st'.history == store[id].history + [Entry(amount, u)]
    ensures !Distinct(store[id := st'])
  {
    var k :| k in store && Has(store[k].history, u);
    var i :| 0 <= i < |store[k].history| && store[k].history[i].updateId == u;
    var n := |store[id].history|;
    assert store[id := st'][k].history[i].updateId == u && store[id := st'][id].history[n].updateId == u;
  }

  lemma KeptDistinct(store: Store, id: StreamId)
    requires Distinct(store) && id in store
    ensures Distinct(BeforeCut(store, id))
  {
    var kept := BeforeCut(store, id);
    var cut := |store[id].history| - |kept[id].history|;
    forall k, l, i, j | k in kept && l in kept && 0 <= i < |kept[k].history| && 0 <= j < |kept[l].history|
                        && kept[k].history[i].updateId == kept[l].history[j].updateId
      ensures k == l && i == j
    {
      assert kept[k].history[i] == store[k].history[if k == id then i + cut else i];
      assert kept[l].history[j] == store[l].history[if l == id then j + cut else j];
    }
  }

  lemma CreditDistinct(store: Store, id: StreamId, st': State, amount: nat, u: UpdateId)
    requires Distinct(store) && id in store && |store[id].history| <= HISTORY_LIMIT && !Retained(store, u)
    requires st'.history == Push(store[id], amount, u).history
    ensures Distinct(store[id := st'])
  {
    PushKeepsSuffix(store[id], amount, u);
    var store' := store[id := st'];
    var cut := |store[id].history| + 1 - |st'.history|;
    forall k, i | k in store && 0 <= i < |store[k].history|
      ensures store[k].history[i].updateId != u
    {
      assert !Has(store[k].history, u);
    }
    forall k, l, i, j | k in store' && l in store' && 0 <= i < |store'[k].history| && 0 <= j < |store'[l].history|
                        && store'[k].history[i].updateId == store'[l].history[j].updateId
      ensures k == l && i == j
    {
      var n := |st'.history| - 1;
      if (k == id && i == n) || (l == id && j == n) {
      } else {
        assert store'[k].history[i] == store[k].history[if k == id then i + cut else i];
        assert store'[l].history[j] == store[l].history[if l == id then j + cut else j];
      }
    }
  }

  lemma CreditOk(store: Store, id: StreamId, credited: State, st': State, amount: nat, u: UpdateId)
    requires StoreOk(store) && id in store && !Retained(store, u)
    requires credited.history == store[id].history && credited.cut == store[id].cut && credited.settled == store[id].settled + amount
    requires var p := Push(credited, amount, u); st'.history == p.history && st'.settled == p.settled && st'.cut == p.cut
    ensures StoreOk(store[id := st'])
  {
    PushAccounts(credited, amount, u);
    CreditDistinct(store, id, st', amount, u);
  }

  lemma RetainedIff(store: Store, id: StreamId, u: UpdateId)
    requires id in store
    ensures Retained(store, u) <==> Has(store[id].history, u) || RecordedElsewhere(store, id, u)
  {
  }

  // ----- runs over all paths -----

  datatype Op =
    | Settle(id: StreamId, u: UpdateId, proof: Proof)
    | Accept(id: StreamId, i: nat, u: UpdateId, verified: Option<nat>)
    | Claim(id: StreamId, i: nat, u: UpdateId, verified: Option<nat>)
    | Withdraw(id: StreamId, i: nat, u: UpdateId, consumed: bool)
    | HostedSettle(id: StreamId, u: UpdateId, amount: nat)
    | HostedAccept(id: StreamId, i: nat, u: UpdateId)

  /** The two hosted paths take the id from the ledger and check nothing. */
  function Do(store: Store, op: Op): Store {
    match op
    case Settle(id, u, proof) => AfterSettle(store, id, u, proof).0
    case Accept(id, i, u, verified) => AfterAccept(store, id, i, u, verified).0
    case Claim(id, i, u, verified) => AfterClaim(store, id, i, u, verified).0
    case Withdraw(id, i, u, consumed) => AfterWithdraw(store, id, i, u, consumed).0
    case HostedSettle(id, u, amount) => if id in store then store[id := CreditNext(store[id], amount, u)] else store
    case HostedAccept(id, i, u) =>
      if id in store && i < |store[id].offers| && store[id].offers[i].status.Pending? then
        store[id := AcceptOffer(store[id], i, store[id].offers[i].amount, u)]
      else store
  }

  /** A client must name its update; a hosted settle or accept is the first to see its own. */
  predicate Admissible(store: Store, op: Op) {
    match op
    case Settle(_, u, _) => u != ""
    case HostedSettle(_, u, _) => !Retained(store, u)
    case HostedAccept(_, _, u) => !Retained(store, u)
    case _ => true
  }

  lemma NextOk(store: Store, id: StreamId, amount: nat, u: UpdateId)
    requires StoreOk(store) && id in store && !Retained(store, u)
    ensures StoreOk(store[id := CreditNext(store[id], amount, u)])
  {
    var st := store[id];
    CreditOk(store, id, st.(settled := st.settled + amount, cycles := st.cycles + 1), CreditNext(st, amount, u), amount, u);
  }

  lemma AcceptOk(store: Store, id: StreamId, i: nat, amount: nat, u: UpdateId)
    requires StoreOk(store) && id in store && i < |store[id].offers| && !Retained(store, u)
    ensures StoreOk(store[id := AcceptOffer(store[id], i, amount, u)])
  {
    var st := store[id];
    CreditOk(store, id, st.(settled := st.settled + amount, cycles := Max(st.cycles, st.offers[i].cycle)), AcceptOffer(st, i, amount, u), amount, u);
  }

  lemma ClaimOk(store: Store, id: StreamId, i: nat, amount: nat, u: UpdateId)
    requires StoreOk(store) && id in store && i < |store[id].claims| && !Retained(store, u)
    ensures StoreOk(store[id := ClaimAllocation(store[id], i, amount, u)])
  {
    var st := store[id];
    CreditOk(store, id, st.(settled := st.settled + amount, cycles := Max(st.cycles, st.claims[i].cycle)), ClaimAllocation(st, i, amount, u), amount, u);
  }

  /** Tracking or withdrawing an offer touches no history. */
  lemma OffersOk(store: Store, id: StreamId, offers: seq<OfferRecord>)
    requires StoreOk(store) && id in store
    ensures StoreOk(store[id := store[id].(offers := offers)])
  {
  }

  lemma DoOk(store: Store, op: Op)
    requires StoreOk(store) && Admissible(store, op)
    ensures StoreOk(Do(store, op))
  {
    hide StoreOk, CreditNext, AcceptOffer, ClaimAllocation, Retained, Has, RecordedElsewhere;
    match op
    case Settle(id, u, proof) =>
      if id in store {
        RetainedIff(store, id, u);
        match proof {
          case Unproven =>
          case Delivered(amount) => if !Retained(store, u) { NextOk(store, id, amount, u); }
          case OfferMade(offer, amount) => OffersOk(store, id, TrackOffer(store[id], offer, amount, u).offers);
        }
      }
    case Accept(id, i, u, verified) =>
      if id in store && i < |store[id].offers| && verified.Some? {
        RetainedIff(store, id, u);
        if !Retained(store, u) {
          AcceptOk(store, id, i, Min(store[id].offers[i].amount, verified.value), u);
        }
      }
    case Claim(id, i, u, verified) =>
      if id in store && i < |store[id].claims| && verified.Some? {
        RetainedIff(store, id, u);
        if !Retained(store, u) {
          ClaimOk(store, id, i, Min(store[id].claims[i].amount, verified.value), u);
        }
      }
    case Withdraw(id, i, u, _) =>
      if id in store && i < |store[id].offers| {
        OffersOk(store, id, store[id].offers[i := store[id].offers[i].(status := Withdrawn, finalId := u)]);
      }
    case HostedSettle(id, u, amount) =>
      if id in store {
        NextOk(store, id, amount, u);
      }
    case HostedAccept(id, i, u) =>
      if id in store && i < |store[id].offers| {
        AcceptOk(store, id, i, store[id].offers[i].amount, u);
      }
  }

  predicate AllAdmissible(store: Store, ops: seq<Op>)
    decreases ops
  {
    |ops| > 0 ==> Admissible(store, ops[0]) && AllAdmissible(Do(store, ops[0]), ops[1..])
  }

  function DoAll(store: Store, ops: seq<Op>): Store
    decreases ops
  {
    if |ops| == 0 then store else DoAll(Do(store, ops[0]), ops[1..])
  }

  /** Over every run of every record path: distinct retained ids, and totals that include what was cut. */
  lemma {:induction false} RunOk(store: Store, ops: seq<Op>)
    requires StoreOk(store) && AllAdmissible(store, ops)
    ensures StoreOk(DoAll(store, ops))
    decreases ops
  {
    hide StoreOk, Do, Admissible;
    if |ops| > 0 {
      DoOk(store, ops[0]);
      RunOk(Do(store, ops[0]), ops[1..]);
    }
  }

  /** A retained update can be recorded by no client path, on any stream. */
  lemma RepeatChangesNothing(store: Store, id: StreamId, i: nat, u: UpdateId, proof: Proof, verified: Option<nat>)
    requires Retained(store, u) && u != ""
    ensures AfterSettle(store, id, u, proof).0 == store
    ensures AfterAccept(store, id, i, u, verified).0 == store
    ensures AfterClaim(store, id, i, u, verified).0 == store
  {
    if id in store {
      RetainedIff(store, id, u);
    }
  }

  /** Without an update id the guards do not apply: the same empty id is credited again and again. */
  lemma EmptyIdIsCreditedAgain(store: Store, id: StreamId, amount: nat)
    requires id in store
    ensures var once := AfterSettle(store, id, "", Delivered(amount)).0;
            var twice := AfterSettle(once, id, "", Delivered(amount)).0;
            twice[id].settled == store[id].settled + 2 * amount
  {
  }

  /** A delivered update is credited exactly when no stream retains its id. */
  lemma SettleCreditsIff(store: Store, id: StreamId, u: UpdateId, amount: nat)
    requires id in store && u != ""
    ensures var (store', reply) := AfterSettle(store, id, u, Delivered(amount));
            && (reply.Settled? <==> !Retained(store, u))
            && store'[id].settled == store[id].settled + if Retained(store, u) then 0 else amount
  {
    RetainedIff(store, id, u);
  }

  // ----- what is retained -----

  function CreditMany(st: State, entries: seq<Entry>): State {
    if |entries| == 0 then st
    else
      var last := entries[|entries| - 1];
      CreditNext(CreditMany(st, entries[..|entries| - 1]), last.amount, last.updateId)
  }

  function Latest(entries: seq<Entry>): seq<Entry> {
    if |entries| > 500 then entries[|entries| - 500..] else entries
  }

  lemma LatestStep(all: seq<Entry>, x: Entry)
    ensures Latest(Latest(all) + [x]) == Latest(all + [x])
  {
  }

  /** The history is the latest 500 of everything credited. */
  lemma {:induction false} HistoryHoldsLatest(st: State, entries: seq<Entry>)
    requires |st.history| <= HISTORY_LIMIT
    ensures CreditMany(st, entries).history == Latest(st.history + entries)
  {
    if |entries| == 0 {
      assert st.history + entries == st.history;
    } else {
      var n := |entries| - 1;
      HistoryHoldsLatest(st, entries[..n]);
      var before := st.history + entries[..n];
      assert st.history + entries == before + [entries[n]];
      LatestStep(before, entries[n]);
    }
  }

  /** So an update is forgotten after 500 further credits of its stream, and then it can be credited again. */
  lemma CutIdIsCreditedAgain(store: Store, id: StreamId, u: UpdateId, amount: nat, entries: seq<Entry>)
    requires id in store && u != "" && |store[id].history| <= HISTORY_LIMIT && !RecordedElsewhere(store, id, u)
    requires |entries| >= 500 && forall i :: 0 <= i < |entries| ==> entries[i].updateId != u
    ensures var later := store[id := CreditMany(store[id], entries)];
            AfterSettle(later, id, u, Delivered(amount)).1 == Settled(amount)
  {
    hide CreditMany, Latest;
    HistoryHoldsLatest(store[id], entries);
    LatestLacks(store[id].history, entries, u);
    var later := store[id := CreditMany(store[id], entries)];
    assert forall k :: k in later && k != id ==> later[k] == store[k];
    assert !RecordedElsewhere(later, id, u);
  }

  lemma LatestLacks(history: seq<Entry>, entries: seq<Entry>, u: UpdateId)
    requires |entries| >= HISTORY_LIMIT && forall i :: 0 <= i < |entries| ==> entries[i].updateId != u
    ensures !Has(Latest(history + entries), u)
  {
    var all := history + entries;
    assert |Latest(all)| == HISTORY_LIMIT;
    forall i | 0 <= i < HISTORY_LIMIT ensures Latest(all)[i].updateId != u {
      assert Latest(all)[i] == entries[i + |entries| - HISTORY_LIMIT];
    }
  }
}
