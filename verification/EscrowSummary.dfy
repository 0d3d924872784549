/** Roll-ups of an escrow's audit ledger, the legacy-ledger reconstruction, and the release rate. */
module EscrowSummary {
  import opened Common
  import opened Escrow

  datatype Summary = Summary(
    totalIn: int, delivered: int, pending: int, refunded: int, refundPending: int, remaining: int,
    cyclesReleased: int, cyclesDelivered: int, cyclesPending: int)
  {
    function Streamed(): int {
      delivered + pending
    }
  }

  function ReleaseCycle(l: Leg): int {
    if l.kind.Release? then 1 else 0
  }

  function DeliveredCycle(l: Leg): int {
    if l.kind.Release? && StateOf(l).Delivered? then 1 else 0
  }

  function InFlightCycle(l: Leg): int {
    if l.kind.Release? && StateOf(l).InFlight? then 1 else 0
  }

  /** The roll-up of a ledger: each bucket is the sum of the legs that are in it. */
  function SummaryOf(ledger: seq<Leg>): Summary {
    var totalIn, delivered, pending := Sum(ledger, DeliveredDeposit), Sum(ledger, DeliveredRelease), Sum(ledger, InFlightRelease);
    var refunded, refundPending := Sum(ledger, DeliveredRefund), Sum(ledger, InFlightRefund);
    Summary(totalIn, delivered, pending, refunded, refundPending,
            Max(0, totalIn - (delivered + pending) - refunded - refundPending),
            Sum(ledger, ReleaseCycle), Sum(ledger, DeliveredCycle), Sum(ledger, InFlightCycle))
  }

  method Summarize(ledger: seq<Leg>) returns (s: Summary)
    ensures s == SummaryOf(ledger)
  {
    var totalIn, delivered, pending, refunded, refundPending := 0, 0, 0, 0, 0;
    var cyclesReleased, cyclesDelivered, cyclesPending := 0, 0, 0;
    for i := 0 to |ledger|
      invariant totalIn == Sum(ledger[..i], DeliveredDeposit)
      invariant delivered == Sum(ledger[..i], DeliveredRelease) && pending == Sum(ledger[..i], InFlightRelease)
      invariant refunded == Sum(ledger[..i], DeliveredRefund) && refundPending == Sum(ledger[..i], InFlightRefund)
      invariant cyclesReleased == Sum(ledger[..i], ReleaseCycle)
      invariant cyclesDelivered == Sum(ledger[..i], DeliveredCycle) && cyclesPending == Sum(ledger[..i], InFlightCycle)
    {
      var l := ledger[i];
      assert ledger[..i + 1][..i] == ledger[..i];
      match l.kind {
        case Deposit =>
          if StateOf(l).Delivered? { totalIn := totalIn + l.amount; }
        case Release =>
          cyclesReleased := cyclesReleased + 1;
          match StateOf(l) {
            case Delivered => delivered, cyclesDelivered := delivered + l.amount, cyclesDelivered + 1;
            case InFlight => pending, cyclesPending := pending + l.amount, cyclesPending + 1;
            case Reverted =>
          }
        case Refund =>
          match StateOf(l) {
            case Delivered => refunded := refunded + l.amount;
            case InFlight => refundPending := refundPending + l.amount;
            case Reverted =>
          }
      }
    }
    assert ledger[..|ledger|] == ledger;
    var streamed := delivered + pending;
    s := Summary(totalIn, delivered, pending, refunded, refundPending,
                 Max(0, totalIn - streamed - refunded - refundPending),
                 cyclesReleased, cyclesDelivered, cyclesPending);
  }

  // ----- conservation -----

  function Streaming(l: Leg): int {
    DeliveredRelease(l) + InFlightRelease(l)
  }

  function Refunding(l: Leg): int {
    DeliveredRefund(l) + InFlightRefund(l)
  }

  function Outgoing(l: Leg): int {
    Streaming(l) + Refunding(l)
  }

  /** `released` splits into the four outgoing buckets and the refunds that came back. */
  lemma ReleasedSplits(ledger: seq<Leg>)
    ensures var s := SummaryOf(ledger);
            Sum(ledger, Advance) == s.Streamed() + s.refunded + s.refundPending + Sum(ledger, RevertedRefund)
  {
    SumAdd(ledger, DeliveredRelease, InFlightRelease, Streaming);
    SumAdd(ledger, DeliveredRefund, InFlightRefund, Refunding);
    SumAdd(ledger, Streaming, Refunding, Outgoing);
    SumAdd(ledger, Outgoing, RevertedRefund, Advance);
  }

  lemma {:induction false} OnlyTheDepositFunds(ledger: seq<Leg>)
    requires |ledger| > 0 && ledger[0].kind.Deposit?
    requires forall i :: 0 < i < |ledger| ==> !ledger[i].kind.Deposit?
    ensures Sum(ledger, DeliveredDeposit) == DeliveredDeposit(ledger[0])
  {
    if |ledger| == 1 {
      assert ledger[..0] == [];
    } else {
      OnlyTheDepositFunds(ledger[..|ledger| - 1]);
    }
  }

  /**
   * The `valueConservation` check of reconcile passes exactly for a delivered deposit
   * (or while nothing has gone out). With a delivered deposit the clamp on `remaining`
   * is inert and `remaining` is the scalar's remainder plus any refund that came back.
   */
  lemma SummaryConserves(e: Escrow)
    requires Conserved(e)
    ensures var s := SummaryOf(e.ledger);
            var out := s.Streamed() + s.refunded + s.refundPending;
            && (s.totalIn == out + s.remaining <==> StateOf(e.ledger[0]).Delivered? || e.total == 0 || out == 0)
            && (StateOf(e.ledger[0]).Delivered? ==>
                  && s.totalIn == e.total
                  && s.totalIn - out >= 0
                  && s.remaining == Remaining(e) + Sum(e.ledger, RevertedRefund))
  {
    ReleasedSplits(e.ledger);
    OnlyTheDepositFunds(e.ledger);
    SumNonNegative(e.ledger, RevertedRefund);
    SumNonNegative(e.ledger, DeliveredRelease);
    SumNonNegative(e.ledger, InFlightRelease);
    SumNonNegative(e.ledger, DeliveredRefund);
    SumNonNegative(e.ledger, InFlightRefund);
  }

  lemma {:induction false} NothingInBucket(ledger: seq<Leg>, f: Leg -> int)
    requires forall i :: 0 <= i < |ledger| ==> f(ledger[i]) == 0
    ensures Sum(ledger, f) == 0
  {
    if |ledger| > 0 {
      NothingInBucket(ledger[..|ledger| - 1], f);
    }
  }

  /** A completed escrow has delivered, not merely offered, its whole deposit to the payee. */
  lemma CompletedMeansDelivered(e: Escrow)
    requires Valid(e) && e.status.Completed?
    ensures var s := SummaryOf(e.ledger);
            s.delivered == e.total && s.pending == 0 && s.refunded == 0 && s.refundPending == 0 && Remaining(e) == 0
  {
    ReleasedSplits(e.ledger);
    forall i | 0 <= i < |e.ledger|
      ensures InFlightRelease(e.ledger[i]) == 0
    {
      var l := e.ledger[i];
      assert LegOk(l) && !IsOpenRelease(l);
      assert l.offerStatus.Some? && l.kind.Release? ==> !l.offerStatus.value.Open?;
    }
    NothingInBucket(e.ledger, InFlightRelease);
    NothingInBucket(e.ledger, DeliveredRefund);
    NothingInBucket(e.ledger, InFlightRefund);
    NothingInBucket(e.ledger, RevertedRefund);
  }

  lemma {:induction false} BucketIff(ledger: seq<Leg>, f: Leg -> int)
    requires forall i :: 0 <= i < |ledger| ==> f(ledger[i]) >= 0
    ensures Sum(ledger, f) > 0 <==> exists i :: 0 <= i < |ledger| && f(ledger[i]) > 0
  {
    if |ledger| > 0 {
      var n := |ledger| - 1;
      BucketIff(ledger[..n], f);
      SumNonNegative(ledger[..n], f);
    }
  }

  function RevertedCycle(l: Leg): int {
    if l.kind.Release? && StateOf(l).Reverted? then 1 else 0
  }

  function PlacedCycle(l: Leg): int {
    DeliveredCycle(l) + InFlightCycle(l)
  }

  /**
   * The cycle counts partition the releases: each is delivered, pending or came back. One is pending exactly while
   * the escrow has an open release, which is what keeps it from completing.
   */
  lemma CyclesPartition(e: Escrow)
    requires Conserved(e)
    ensures var s := SummaryOf(e.ledger);
            && s.cyclesReleased == s.cyclesDelivered + s.cyclesPending + Sum(e.ledger, RevertedCycle)
            && (s.cyclesPending > 0 <==> HasPendingRelease(e))
  {
    SumAdd(e.ledger, DeliveredCycle, InFlightCycle, PlacedCycle);
    SumAdd(e.ledger, PlacedCycle, RevertedCycle, ReleaseCycle);
    BucketIff(e.ledger, InFlightCycle);
    forall i | 0 <= i < |e.ledger| ensures InFlightCycle(e.ledger[i]) > 0 <==> IsOpenRelease(e.ledger[i]) {
      assert LegOk(e.ledger[i]);
      var o := e.ledger[i].offerStatus;
      assert o.Some? ==> o.value.Open? || o.value.Accepted? || o.value.Withdrawn? || o.value.Expired?;
    }
  }

  /**
   * A refund sends back exactly what is left: with the deposit delivered, the roll-up afterwards accounts for all of
   * it as streamed or as refunded, at once or in an open offer, and nothing remains.
   */
  lemma RefundReturnsTheRest(e: Escrow, t: Transfer)
    requires Conserved(e) && StatusMeans(e) && e.status.Active? && StateOf(e.ledger[0]).Delivered?
    ensures var s, s' := SummaryOf(e.ledger), SummaryOf(AfterRefund(e, t).ledger);
            && s'.Streamed() == s.Streamed() && s'.totalIn == e.total && s'.remaining == 0
            && s'.refunded + s'.refundPending == Remaining(e) == e.total - s.Streamed()
            && (t.Landed? ==> s'.refunded == Remaining(e)) && (t.Offered? ==> s'.refundPending == Remaining(e))
            && AfterRefund(e, t).status.Refunded? && AfterRefund(e, t).releases == e.releases
            && AfterRefund(e, t).nextDueAt == e.createdAt && AfterRefund(e, t).released == e.total
  {
    var r := AfterRefund(e, t);
    RefundConserved(e, t);
    SummaryConserves(e);
    SummaryConserves(r);
    ReleasedSplits(e.ledger);
    ReleasedSplits(r.ledger);
    NothingInBucket(e.ledger, DeliveredRefund);
    NothingInBucket(e.ledger, InFlightRefund);
    NothingInBucket(e.ledger, RevertedRefund);
    var leg := TransferLeg(Refund, Remaining(e), t);
    hide Sum, Conserved, StatusMeans;
    if Remaining(e) > 0 {
      SumsAfterRefund(e.ledger, leg);
    }
  }

  lemma SumsAfterRefund(ledger: seq<Leg>, l: Leg)
    requires l.kind.Refund?
    ensures Sum(ledger + [l], DeliveredDeposit) == Sum(ledger, DeliveredDeposit)
    ensures Sum(ledger + [l], DeliveredRelease) == Sum(ledger, DeliveredRelease)
    ensures Sum(ledger + [l], InFlightRelease) == Sum(ledger, InFlightRelease)
    ensures Sum(ledger + [l], DeliveredRefund) == Sum(ledger, DeliveredRefund) + DeliveredRefund(l)
    ensures Sum(ledger + [l], InFlightRefund) == Sum(ledger, InFlightRefund) + InFlightRefund(l)
    ensures Sum(ledger + [l], RevertedRefund) == Sum(ledger, RevertedRefund) + RevertedRefund(l)
  {
    hide Sum;
    SumAppend(ledger, l, DeliveredDeposit);
    SumAppend(ledger, l, DeliveredRelease);
    SumAppend(ledger, l, InFlightRelease);
    SumAppend(ledger, l, DeliveredRefund);
    SumAppend(ledger, l, InFlightRefund);
    SumAppend(ledger, l, RevertedRefund);
  }

  // ----- escrows stored before the ledger existed -----

  function RecordAmount(r: ReleaseRecord): int {
    r.amount
  }

  function ReleaseLeg(r: ReleaseRecord): Leg {
    if r.pending then Leg(Release, r.amount, PendingOffer, Some(Open), None, None)
    else Leg(Release, r.amount, Direct, None, None, None)
  }

  function ReleaseLegs(rs: seq<ReleaseRecord>): seq<Leg> {
    seq(|rs|, i requires 0 <= i < |rs| => ReleaseLeg(rs[i]))
  }

  /** What the pre-ledger code kept true of the scalar. */
  ghost predicate LegacyOk(e: Escrow) {
    var streamed := Sum(e.releases, RecordAmount);
    && e.ledger == [] && Paced(e) && streamed <= e.total
    && (e.released == if e.status.Refunded? then e.total else streamed)
    && (e.status.Completed? ==> streamed == e.total && forall i :: 0 <= i < |e.releases| ==> !e.releases[i].pending)
  }

  function DepositLeg(e: Escrow): Leg {
    Leg(Deposit, e.total, Direct, None, None, None)
  }

  function ImpliedRefund(e: Escrow): seq<Leg> {
    var refund := Max(0, e.total - Sum(e.releases, RecordAmount));
    if e.status.Refunded? && refund > 0 then [Leg(Refund, refund, Direct, None, None, None)] else []
  }

  function Reconstructed(e: Escrow): seq<Leg> {
    [DepositLeg(e)] + ReleaseLegs(e.releases) + ImpliedRefund(e)
  }

  /** Fill in a missing ledger from the deposit, the recorded releases and, if refunded, the rest. */
  method EnsureLedger(e: Escrow) returns (r: Escrow)
    ensures r == if e.ledger != [] then e else e.(ledger := Reconstructed(e))
  {
    if |e.ledger| > 0 {
      return e;
    }
    var ledger := [DepositLeg(e)];
    var streamed := 0;
    for i := 0 to |e.releases|
      invariant ledger == [DepositLeg(e)] + ReleaseLegs(e.releases[..i])
      invariant streamed == Sum(e.releases[..i], RecordAmount)
    {
      assert e.releases[..i + 1][..i] == e.releases[..i];
      streamed := streamed + e.releases[i].amount;
      ledger := ledger + [ReleaseLeg(e.releases[i])];
    }
    assert e.releases[..|e.releases|] == e.releases;
    if e.status.Refunded? {
      var refund := Max(0, e.total - streamed);
      if refund > 0 {
        ledger := ledger + [Leg(Refund, refund, Direct, None, None, None)];
      }
    }
    r := e.(ledger := ledger);
  }

  lemma {:induction false} ReconstructedSum(e: Escrow, k: nat, f: Leg -> int, g: ReleaseRecord -> int)
    requires k <= |e.releases| && f(DepositLeg(e)) == 0
    requires forall i :: 0 <= i < k ==> f(ReleaseLeg(e.releases[i])) == g(e.releases[i])
    ensures Sum([DepositLeg(e)] + ReleaseLegs(e.releases[..k]), f) == Sum(e.releases[..k], g)
  {
    if k == 0 {
      assert [DepositLeg(e)] + ReleaseLegs(e.releases[..0]) == [DepositLeg(e)];
      assert [DepositLeg(e)][..0] == [];
    } else {
      ReconstructedSum(e, k - 1, f, g);
      var before := [DepositLeg(e)] + ReleaseLegs(e.releases[..k - 1]);
      assert [DepositLeg(e)] + ReleaseLegs(e.releases[..k]) == before + [ReleaseLeg(e.releases[k - 1])];
      SumAppend(before, ReleaseLeg(e.releases[k - 1]), f);
      assert e.releases[..k][..k - 1] == e.releases[..k - 1];
    }
  }

  lemma ReconstructedTotals(e: Escrow)
    ensures Sum(Reconstructed(e), Advance) == Sum(e.releases, RecordAmount) + (if ImpliedRefund(e) == [] then 0 else ImpliedRefund(e)[0].amount)
    ensures SummaryOf(Reconstructed(e)).Streamed() == Sum(e.releases, RecordAmount)
  {
    var n := |e.releases|;
    assert e.releases[..n] == e.releases;
    var legs := [DepositLeg(e)] + ReleaseLegs(e.releases);
    ReconstructedSum(e, n, Advance, RecordAmount);
    ReconstructedSum(e, n, Streaming, RecordAmount);
    SumAdd(Reconstructed(e), DeliveredRelease, InFlightRelease, Streaming);
    if ImpliedRefund(e) == [] {
      assert Reconstructed(e) == legs;
    } else {
      assert Reconstructed(e) == legs + [ImpliedRefund(e)[0]];
      SumAppend(legs, ImpliedRefund(e)[0], Advance);
      SumAppend(legs, ImpliedRefund(e)[0], Streaming);
    }
  }

  function DirectRecord(r: ReleaseRecord): int {
    if r.pending then 0 else r.amount
  }

  function PendingRecord(r: ReleaseRecord): int {
    if r.pending then r.amount else 0
  }

  /**
   * What the reconstruction reports: the deposit as paid in, records as delivered or pending as they were recorded,
   * and, for a refunded escrow, the rest as refunded.
   */
  lemma ReconstructionReports(e: Escrow)
    requires Sum(e.releases, RecordAmount) <= e.total
    ensures var s := SummaryOf(Reconstructed(e));
            && s.totalIn == e.total
            && s.delivered == Sum(e.releases, DirectRecord) && s.pending == Sum(e.releases, PendingRecord)
            && s.refunded == (if e.status.Refunded? then e.total - Sum(e.releases, RecordAmount) else 0) && s.refundPending == 0
            && s.cyclesReleased == |e.releases|
  {
    var n := |e.releases|;
    var legs := [DepositLeg(e)] + ReleaseLegs(e.releases);
    assert e.releases[..n] == e.releases;
    var zero := (r: ReleaseRecord) => 0;
    var one := (r: ReleaseRecord) => 1;
    ReconstructedSum(e, n, DeliveredRelease, DirectRecord);
    ReconstructedSum(e, n, InFlightRelease, PendingRecord);
    ReconstructedSum(e, n, DeliveredRefund, zero);
    ReconstructedSum(e, n, InFlightRefund, zero);
    ReconstructedSum(e, n, ReleaseCycle, one);
    ConstantSum(e.releases, zero, 0);
    ConstantSum(e.releases, one, 1);
    ReconstructedShape(e);
    OnlyTheDepositFunds(Reconstructed(e));
    if ImpliedRefund(e) == [] {
      assert Reconstructed(e) == legs;
    } else {
      var last := ImpliedRefund(e)[0];
      assert Reconstructed(e) == legs + [last];
      SumAppend(legs, last, DeliveredRelease);
      SumAppend(legs, last, InFlightRelease);
      SumAppend(legs, last, DeliveredRefund);
      SumAppend(legs, last, InFlightRefund);
      SumAppend(legs, last, ReleaseCycle);
    }
  }

  lemma {:induction false} ConstantSum(rs: seq<ReleaseRecord>, f: ReleaseRecord -> int, c: nat)
    requires c <= 1 && forall i :: 0 <= i < |rs| ==> f(rs[i]) == c
    ensures Sum(rs, f) == if c == 0 then 0 else |rs|
  {
    if |rs| > 0 {
      ConstantSum(rs[..|rs| - 1], f, c);
    }
  }

  lemma ReconstructedShape(e: Escrow)
    ensures var ledger := Reconstructed(e);
            && ledger[0] == DepositLeg(e)
            && forall i :: 0 <= i < |ledger| ==>
                 && LegOk(ledger[i])
                 && (i > 0 ==> !ledger[i].kind.Deposit?)
                 && (ledger[i].kind.Refund? ==> e.status.Refunded? && i == |e.releases| + 1)
                 && (IsOpenRelease(ledger[i]) ==> 0 < i <= |e.releases| && e.releases[i - 1].pending)
  {
    var ledger, n := Reconstructed(e), |e.releases|;
    forall i | 0 < i < |ledger|
      ensures if i <= n then ledger[i] == ReleaseLeg(e.releases[i - 1]) else i == n + 1 && ImpliedRefund(e) == [ledger[i]]
    {
    }
  }

  /** The reconstruction of a pre-ledger escrow is a valid escrow that streamed what it recorded. */
  lemma ReconstructionValid(e: Escrow)
    requires LegacyOk(e)
    ensures Valid(e.(ledger := Reconstructed(e)))
    ensures SummaryOf(Reconstructed(e)).Streamed() == Sum(e.releases, RecordAmount)
  {
    ReconstructedShape(e);
    ReconstructedTotals(e);
    SumNonNegative(e.releases, RecordAmount);
    var r := e.(ledger := Reconstructed(e));
    assert Conserved(r);
    assert StatusMeans(r);
  }

  // ----- how often an escrow releases -----

  function ReleasesWithin(rs: seq<ReleaseRecord>, from: Millis, to: Millis): nat {
    if |rs| == 0 then 0 else
      ReleasesWithin(rs[..|rs| - 1], from, to) + if from <= rs[|rs| - 1].at <= to then 1 else 0
  }

  /** The newest release in a window is at least (count - 1) cadences after the window opens. */
  lemma {:induction false} WindowSpreads(rs: seq<ReleaseRecord>, cadence: nat, from: Millis, to: Millis)
    requires Spaced(rs, cadence)
    ensures var c := ReleasesWithin(rs, from, to);
            c > 0 ==> from + (c - 1) * cadence <= Min(rs[|rs| - 1].at, to)
  {
    if |rs| > 0 {
      var n := |rs| - 1;
      WindowSpreads(rs[..n], cadence, from, to);
      var c := ReleasesWithin(rs[..n], from, to);
      if c > 0 {
        assert rs[n - 1].at + cadence <= rs[n].at;
        OneCadenceMore(c, cadence);
      }
    }
  }

  lemma OneCadenceMore(c: nat, cadence: nat)
    ensures (c - 1) * cadence + cadence == c * cadence
  {
  }

  /** Whoever triggers them, any interval of length L holds at most L / cadence + 1 releases. */
  lemma ReleaseRateBound(e: Escrow, from: Millis, length: nat)
    requires Valid(e)
    ensures ReleasesWithin(e.releases, from, from + length) <= length / Cadence(e) + 1
  {
    WindowSpreads(e.releases, Cadence(e), from, from + length);
    CountWithin(ReleasesWithin(e.releases, from, from + length), length, Cadence(e), from);
  }

  lemma CountWithin(count: nat, length: nat, cadence: nat, from: Millis)
    requires 0 < cadence && (count > 0 ==> from + (count - 1) * cadence <= from + length)
    ensures count <= length / cadence + 1
  {
    if count > 0 {
      QuotientBound(length, cadence, count - 1);
    }
  }

  // ----- completion under direct delivery -----

  predicate AllDirect(e: Escrow) {
    forall i :: 0 <= i < |e.ledger| && e.ledger[i].kind.Release? ==> e.ledger[i].delivery.Direct?
  }

  /** While every release lands at once, k releases have paid min(total, k * rate). */
  ghost predicate DirectPace(e: Escrow) {
    var k := |e.releases|;
    AllDirect(e) && !e.status.Refunded? ==>
      && e.released == Min(e.total, k * e.rate)
      && (k > 0 ==> (k - 1) * e.rate < e.total)
      && (k > 0 && e.total <= k * e.rate ==> e.status.Completed?)
  }

  lemma DirectEscrowHasNothingPending(e: Escrow)
    requires Conserved(e) && AllDirect(e)
    ensures !HasPendingRelease(e)
  {
    assert forall i :: 0 <= i < |e.ledger| ==> LegOk(e.ledger[i]);
  }

  lemma ReleaseKeepsPace(e: Escrow, times: Times, t: Transfer)
    requires Valid(e) && e.status.Active? && Remaining(e) > 0 && DirectPace(e)
    ensures DirectPace(AfterRelease(e, times, t))
  {
    var r := AfterRelease(e, times, t);
    if AllDirect(r) {
      assert forall i :: 0 <= i < |e.ledger| ==> r.ledger[i] == e.ledger[i];
      assert r.ledger[|e.ledger|] == TransferLeg(Release, CycleAmount(e), t);
      assert AllDirect(e);
      var k := |e.releases|;
      assert (k + 1) * e.rate == k * e.rate + e.rate;
      AppendKeeps(e, TransferLeg(Release, CycleAmount(e), t));
      DirectEscrowHasNothingPending(e);
      assert forall i :: 0 <= i < |r.ledger| ==> !IsOpenRelease(r.ledger[i]);
    }
  }

  lemma {:induction false} ReconcileFromKeepsPace(e: Escrow, i: nat, live: set<ContractId>, now: Millis)
    requires Valid(e) && i <= |e.ledger|
    ensures var r := ReconcileFrom(e, i, live, now);
            AllDirect(r) ==> AllDirect(e) && r.released == e.released && r.releases == e.releases
    ensures var r := ReconcileFrom(e, i, live, now); r.total == e.total && r.rate == e.rate
    decreases |e.ledger| - i
  {
    if i < |e.ledger| {
      ReconcileLegValid(e, i, live, now);
      var s := ReconcileLeg(e, i, live, now);
      ReconcileFromKeepsPace(s, i + 1, live, now);
      assert forall j :: 0 <= j < |e.ledger| ==> s.ledger[j].kind == e.ledger[j].kind && s.ledger[j].delivery == e.ledger[j].delivery;
      assert LegOk(e.ledger[i]);
    }
  }

  lemma ReconcileKeepsPace(e: Escrow, live: set<ContractId>, now: Millis)
    requires Valid(e) && DirectPace(e)
    ensures DirectPace(Reconcile(e, live, now))
  {
    ReconcileFromKeepsPace(e, 0, live, now);
    ReconcileFromValid(e, 0, live, now);
  }

  lemma {:induction false} ReclaimFromKeepsPace(e: Escrow, i: nat, live: set<ContractId>, submitted: set<nat>, now: Millis)
    requires Valid(e) && i <= |e.ledger| && DirectPace(e)
    ensures DirectPace(ReclaimFrom(e, i, live, submitted, now))
    decreases |e.ledger| - i
  {
    if i < |e.ledger| {
      ReclaimLegValid(e, i, live, submitted, now);
      var s := ReclaimLeg(e, i, live, submitted, now);
      assert LegOk(e.ledger[i]);
      assert Reclaims(e.ledger[i], i, live, submitted, now) ==> s.ledger[i].kind.Release? && s.ledger[i].delivery.PendingOffer?;
      ReclaimFromKeepsPace(s, i + 1, live, submitted, now);
    }
  }

  lemma ReclaimKeepsPace(e: Escrow, live: set<ContractId>, submitted: set<nat>, now: Millis)
    requires Valid(e) && DirectPace(e)
    ensures DirectPace(Reclaim(e, live, submitted, now))
  {
    ReclaimFromKeepsPace(e, 0, live, submitted, now);
  }

  /** With direct delivery a completed escrow took exactly ceil(total / rate) releases. */
  lemma CompletesInCeilReleases(e: Escrow)
    requires Valid(e) && DirectPace(e) && AllDirect(e) && 0 < e.rate
    ensures e.status.Completed? ==> |e.releases| == (e.total + e.rate - 1) / e.rate
    ensures e.status.Active? && |e.releases| > 0 ==> |e.releases| < (e.total + e.rate - 1) / e.rate
  {
    var k := |e.releases|;
    if e.status.Completed? {
      CeilIs(e.total, e.rate, k);
    } else if e.status.Active? && k > 0 {
      assert (k + 1) * e.rate == k * e.rate + e.rate;
      QuotientBound(e.total + e.rate - 1, e.rate, k + 1);
    }
  }
}
