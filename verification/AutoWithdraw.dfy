/**
 * The interactive auto-withdraw: a payment is sent off-chain first and recorded on the ledger second. A process may
 * stop between any two steps, a submission may commit after the process gave up on it, and a write may fail.
 */
module AutoWithdraw {
  import opened Common
  import opened SettlementJournal

  /**
   * A stream's active contract, what it says was withdrawn, and what was sent off-chain. A transfer whose outcome
   * is unknown counts as sent, so `sent` bounds what the recipient can ever have received.
   */
  datatype Stream = Stream(gen: nat, withdrawn: nat, sent: nat)

  /** A contract as an earlier query of the ledger showed it. */
  datatype Seen = Seen(gen: nat, withdrawn: nat)

  /** A submitted ledger record, named by its stream and time as the command id is. */
  datatype Submission = Submission(ref: Ref, gen: nat, amount: nat)

  datatype Stage = Prepared | Journaled | Sent | Recording

  datatype Job = Job(ref: Ref, gen: nat, amount: nat, stage: Stage)

  datatype Cycle =
    | Idle
    | Recovering(at: Millis, seen: map<StreamId, Seen>)
    | Executing(at: Millis, seen: map<StreamId, Seen>, job: Option<Job>)

  datatype State = State(
    now: Millis,
    streams: seq<Stream>,
    accepted: set<Ref>,
    flights: set<Submission>,
    journal: Journal,
    cycle: Cycle
  )

  /** `signing`: a gateway signs, and recovery is on. Otherwise a submission may be acknowledged before it commits. */
  datatype Config = Config(accrued: (StreamId, Millis) -> nat, signing: bool)

  /** Accrual never falls. */
  ghost predicate Grows(c: Config) {
    forall s: StreamId, t: Millis, u: Millis :: t <= u ==> c.accrued(s, t) <= c.accrued(s, u)
  }

  /** Done: committed and acknowledged. Gone: the contract is archived. Known: the command id was accepted before. */
  datatype Reply = Done | Gone | Known | Lost | AckOnly

  const MAX_ATTEMPTS: nat := 5

  datatype Step =
    | Tick(to: Millis)
    | Open
    | Begin
    | Recover(ref: Ref, reply: Reply, written: bool)
    | Select
    | Drop(stream: StreamId)
    | Prepare(stream: StreamId)
    | PutTransfer(written: bool)
    | Send(acknowledged: bool)
    | PutRecord(written: bool)
    | Submit(reply: Reply, written: bool)
    | LateCommit(submission: Submission)
    | Abort
    | Crash

  // ----- the ledger -----

  /** The choice is taken when the contract is active and the amount is what accrued by the time and was not withdrawn. */
  predicate Takes(st: State, c: Config, b: Submission) {
    && b.ref.stream < |st.streams|
    && st.streams[b.ref.stream].gen == b.gen
    && c.accrued(b.ref.stream, b.ref.time) == st.streams[b.ref.stream].withdrawn + b.amount
  }

  /** The contract is archived and its successor created with the larger total. */
  function Commit(st: State, b: Submission): State
    requires b.ref.stream < |st.streams|
  {
    var x := st.streams[b.ref.stream];
    st.(streams := st.streams[b.ref.stream := x.(gen := x.gen + 1, withdrawn := x.withdrawn + b.amount)],
        accepted := st.accepted + {b.ref})
  }

  // ----- the worker -----

  predicate Free(es: Entries, s: StreamId) {
    forall r :: r in es ==> r.stream != s
  }

  function SubmissionOf(r: Ref, e: Entry): Submission {
    Submission(r, e.gen, e.amount)
  }

  function JobSubmission(j: Job): Submission {
    Submission(j.ref, j.gen, j.amount)
  }

  function JobEntry(j: Job, phase: Phase): Entry {
    Entry(j.gen, j.amount, phase, 0)
  }

  function WithJob(st: State, j: Option<Job>): State
    requires st.cycle.Executing?
  {
    st.(cycle := st.cycle.(job := j))
  }

  predicate AtStage(st: State, stage: Stage) {
    st.cycle.Executing? && st.cycle.job.Some? && st.cycle.job.value.stage == stage
  }

  /** What the ledger may answer to a submission. */
  predicate MayReply(st: State, c: Config, b: Submission, reply: Reply) {
    match reply
    case Done => Takes(st, c, b)
    case Gone => b.ref.stream < |st.streams| && b.gen < st.streams[b.ref.stream].gen
    case Known => b.ref in st.accepted
    case Lost => true
    case AckOnly => !c.signing
  }

  predicate Enabled(st: State, c: Config, step: Step) {
    match step
    case Tick(to) => st.now <= to
    case Open => true
    case Begin => st.cycle.Idle?
    case Recover(r, reply, _) =>
      && st.cycle.Recovering? && c.signing
      && r in st.journal.mem && st.journal.mem[r].phase == InRecord && st.journal.mem[r].attempts < MAX_ATTEMPTS
      && MayReply(st, c, SubmissionOf(r, st.journal.mem[r]), reply)
    case Select => st.cycle.Recovering?
    case Drop(s) => st.cycle.Executing? && st.cycle.job.None? && s in st.cycle.seen
    case Prepare(s) => st.cycle.Executing? && st.cycle.job.None? && s in st.cycle.seen
    case PutTransfer(_) => AtStage(st, Prepared)
    case Send(_) => AtStage(st, Journaled) && st.cycle.job.value.ref.stream < |st.streams|
    case PutRecord(_) => AtStage(st, Sent)
    case Submit(reply, _) =>
      AtStage(st, Recording) && MayReply(st, c, JobSubmission(st.cycle.job.value), reply)
    case LateCommit(b) => b in st.flights && Takes(st, c, b)
    case Abort => true
    case Crash => true
  }

  function Apply(st: State, c: Config, step: Step): State
    requires Enabled(st, c, step)
  {
    match step
    case Tick(to) => st.(now := to)
    case Open => st.(streams := st.streams + [Stream(0, 0, 0)])
    case Begin => st.(cycle := Recovering(st.now, Snapshot(st.streams)))
    case Recover(r, reply, written) => AfterRecover(st, r, reply, written)
    case Select => AfterSelect(st, c)
    case Drop(s) => st.(cycle := st.cycle.(seen := st.cycle.seen - {s}))
    case Prepare(s) => AfterPrepare(st, c, s)
    case PutTransfer(written) => AfterPut(st, InTransfer, Journaled, written)
    case Send(acknowledged) => AfterSend(st, acknowledged)
    case PutRecord(written) => AfterPut(st, InRecord, Recording, written)
    case Submit(reply, written) => AfterSubmit(st, reply, written)
    case LateCommit(b) => Commit(st, b)
    case Abort => st.(cycle := Idle)
    case Crash => st.(cycle := Idle, journal := Restart(st.journal))
  }

  /** Discovery reads every active contract at one ledger offset. */
  function Snapshot(streams: seq<Stream>): map<StreamId, Seen> {
    map s | 0 <= s < |streams| :: Seen(streams[s].gen, streams[s].withdrawn)
  }

  /** Resubmit a journaled record: removed when it landed now or before, counted as a failed attempt otherwise. */
  function AfterRecover(st: State, r: Ref, reply: Reply, written: bool): State
    requires r in st.journal.mem
    requires reply.Done? ==> r.stream < |st.streams|
  {
    var b := SubmissionOf(r, st.journal.mem[r]);
    match reply
    case Done => Commit(st, b).(journal := Remove(st.journal, r, written))
    case Gone | Known => st.(journal := Remove(st.journal, r, written))
    case Lost | AckOnly => st.(flights := st.flights + {b}, journal := Bump(st.journal, r, written))
  }

  /** A stream with a journaled settlement is passed over, whatever the snapshot says is due. */
  function AfterSelect(st: State, c: Config): State
    requires st.cycle.Recovering?
  {
    var at, seen := st.cycle.at, st.cycle.seen;
    st.(cycle := Executing(at,
                           map s | s in seen && Free(st.journal.mem, s) && c.accrued(s, at) > seen[s].withdrawn :: seen[s],
                           None))
  }

  /** The amount comes from the snapshot; preparing on a contract archived since then fails. */
  function AfterPrepare(st: State, c: Config, s: StreamId): State
    requires st.cycle.Executing? && s in st.cycle.seen
  {
    var at, x := st.cycle.at, st.cycle.seen[s];
    var amount := Max(0, c.accrued(s, at) - x.withdrawn);
    var b := Submission(Ref(s, at), x.gen, amount);
    st.(cycle := Executing(at, st.cycle.seen - {s}, if Takes(st, c, b) then Some(Job(b.ref, b.gen, b.amount, Prepared)) else None))
  }

  function AfterPut(st: State, phase: Phase, stage: Stage, written: bool): State
    requires st.cycle.Executing? && st.cycle.job.Some?
  {
    var j := st.cycle.job.value;
    WithJob(st, if written then Some(j.(stage := stage)) else None)
      .(journal := Put(st.journal, j.ref, JobEntry(j, phase), written))
  }

  function AfterSend(st: State, acknowledged: bool): State
    requires AtStage(st, Journaled) && st.cycle.job.value.ref.stream < |st.streams|
  {
    var j := st.cycle.job.value;
    var x := st.streams[j.ref.stream];
    WithJob(st, if acknowledged then Some(j.(stage := Sent)) else None)
      .(streams := st.streams[j.ref.stream := x.(sent := x.sent + j.amount)])
  }

  function AfterSubmit(st: State, reply: Reply, written: bool): State
    requires AtStage(st, Recording)
    requires reply.Done? ==> st.cycle.job.value.ref.stream < |st.streams|
  {
    var j := st.cycle.job.value;
    var b := JobSubmission(j);
    var done := WithJob(st, None);
    match reply
    case Done => Commit(done, b).(journal := Remove(st.journal, j.ref, written))
    case AckOnly => done.(flights := st.flights + {b}, journal := Remove(st.journal, j.ref, written))
    case Lost | Gone | Known => done.(flights := st.flights + {b}, journal := Bump(st.journal, j.ref, written))
  }

  // ----- what every run keeps -----

  /** The payment of this entry is out: both copies of the journal hold it, and it is all that is unrecorded. */
  predicate Backed(xs: seq<Stream>, j: Journal, r: Ref) {
    && r.stream < |xs|
    && r in j.mem && r in j.disk
    && j.mem[r].gen == j.disk[r].gen == xs[r.stream].gen
    && j.mem[r].amount == j.disk[r].amount
    && xs[r.stream].sent == xs[r.stream].withdrawn + j.mem[r].amount
  }

  /** Some settlement of the stream is paid and journaled. */
  ghost predicate Out(xs: seq<Stream>, j: Journal, s: StreamId) {
    exists t :: Backed(xs, j, Ref(s, t))
  }

  predicate Single(es: Entries) {
    forall r, q :: r in es && q in es && r.stream == q.stream ==> r == q
  }

  /** An amount claimed of contract generation `gen` at r's time is what had accrued and was not withdrawn. */
  predicate Claim(xs: seq<Stream>, now: Millis, c: Config, r: Ref, gen: nat, amount: nat) {
    && r.stream < |xs| && gen <= xs[r.stream].gen
    && (gen == xs[r.stream].gen ==>
          amount > 0 && r.time <= now && c.accrued(r.stream, r.time) == xs[r.stream].withdrawn + amount)
  }

  predicate EntryOk(xs: seq<Stream>, now: Millis, c: Config, j: Journal, r: Ref, e: Entry) {
    && Claim(xs, now, c, r, e.gen, e.amount)
    && (e.phase == InRecord && e.gen == xs[r.stream].gen ==> Backed(xs, j, r))
  }

  predicate EntriesOk(xs: seq<Stream>, now: Millis, c: Config, j: Journal, es: Entries) {
    Single(es) && forall r :: r in es ==> EntryOk(xs, now, c, j, r, es[r])
  }

  ghost predicate StreamOk(xs: seq<Stream>, now: Millis, c: Config, j: Journal, s: StreamId)
    requires s < |xs|
  {
    && xs[s].withdrawn <= xs[s].sent
    && xs[s].withdrawn <= c.accrued(s, now)
    && (xs[s].withdrawn < xs[s].sent ==> Out(xs, j, s))
  }

  ghost predicate StreamsOk(xs: seq<Stream>, now: Millis, c: Config, j: Journal) {
    forall s :: 0 <= s < |xs| ==> StreamOk(xs, now, c, j, s)
  }

  predicate FlightOk(xs: seq<Stream>, j: Journal, b: Submission) {
    && b.ref.stream < |xs| && b.gen <= xs[b.ref.stream].gen
    && (b.gen == xs[b.ref.stream].gen ==> Backed(xs, j, b.ref) && b.amount == j.mem[b.ref].amount)
  }

  predicate FlightsOk(xs: seq<Stream>, j: Journal, flights: set<Submission>) {
    forall b :: b in flights ==> FlightOk(xs, j, b)
  }

  predicate AcceptedOk(xs: seq<Stream>, c: Config, accepted: set<Ref>) {
    forall r :: r in accepted ==> r.stream < |xs| && c.accrued(r.stream, r.time) <= xs[r.stream].withdrawn
  }

  predicate SeenOk(xs: seq<Stream>, seen: map<StreamId, Seen>) {
    forall s :: s in seen ==>
      && s < |xs| && seen[s].gen <= xs[s].gen
      && (seen[s].gen == xs[s].gen ==> seen[s].withdrawn == xs[s].withdrawn)
  }

  predicate Selected(c: Config, j: Journal, at: Millis, seen: map<StreamId, Seen>) {
    forall s :: s in seen ==> Free(j.mem, s) && c.accrued(s, at) > seen[s].withdrawn
  }

  predicate JobOk(xs: seq<Stream>, now: Millis, c: Config, j: Journal, job: Job) {
    var r := job.ref;
    && Claim(xs, now, c, r, job.gen, job.amount)
    && match job.stage
       case Prepared => job.gen == xs[r.stream].gen && Free(j.mem, r.stream)
       case Journaled =>
         && r in j.mem && j.mem[r] == JobEntry(job, InTransfer)
         && r in j.disk && j.disk[r] == JobEntry(job, InTransfer)
         && job.gen == xs[r.stream].gen && xs[r.stream].sent == xs[r.stream].withdrawn
       case Sent | Recording =>
         && r in j.mem && j.mem[r].gen == job.gen && j.mem[r].amount == job.amount
         && (job.gen == xs[r.stream].gen ==> Backed(xs, j, r))
  }

  predicate CycleOk(xs: seq<Stream>, now: Millis, c: Config, j: Journal, cycle: Cycle) {
    match cycle
    case Idle => true
    case Recovering(at, seen) => at <= now && SeenOk(xs, seen)
    case Executing(at, seen, job) =>
      && at <= now && SeenOk(xs, seen) && Selected(c, j, at, seen)
      && (job.Some? ==> job.value.ref.stream !in seen && JobOk(xs, now, c, j, job.value))
  }

  ghost predicate Inv(st: State, c: Config) {
    && EntriesOk(st.streams, st.now, c, st.journal, st.journal.mem)
    && EntriesOk(st.streams, st.now, c, st.journal, st.journal.disk)
    && StreamsOk(st.streams, st.now, c, st.journal)
    && FlightsOk(st.streams, st.journal, st.flights)
    && AcceptedOk(st.streams, c, st.accepted)
    && CycleOk(st.streams, st.now, c, st.journal, st.cycle)
  }

  // ----- one piece at a time -----

  /** Each contract is as it was, or archived since; what was backed still is unless its contract is archived. */
  ghost predicate Advances(xs: seq<Stream>, xs': seq<Stream>, j: Journal) {
    && |xs| <= |xs'|
    && (forall s :: 0 <= s < |xs| ==>
          xs[s].gen < xs'[s].gen || (xs[s].gen == xs'[s].gen && xs[s].withdrawn == xs'[s].withdrawn))
    && (forall q :: Backed(xs, j, q) && xs'[q.stream].gen == xs[q.stream].gen ==> Backed(xs', j, q))
  }

  lemma EntriesAdvance(xs: seq<Stream>, xs': seq<Stream>, now: Millis, c: Config, j: Journal, es: Entries)
    requires EntriesOk(xs, now, c, j, es) && Advances(xs, xs', j)
    ensures EntriesOk(xs', now, c, j, es)
  {
    hide Backed;
    forall r | r in es ensures EntryOk(xs', now, c, j, r, es[r]) {
      assert EntryOk(xs, now, c, j, r, es[r]);
    }
  }

  lemma OthersAdvance(st: State, xs': seq<Stream>, c: Config)
    requires Inv(st, c) && Advances(st.streams, xs', st.journal)
    ensures FlightsOk(xs', st.journal, st.flights)
    ensures !st.cycle.Idle? ==> SeenOk(xs', st.cycle.seen)
    ensures EntriesOk(xs', st.now, c, st.journal, st.journal.mem)
    ensures EntriesOk(xs', st.now, c, st.journal, st.journal.disk)
  {
    EntriesAdvance(st.streams, xs', st.now, c, st.journal, st.journal.mem);
    EntriesAdvance(st.streams, xs', st.now, c, st.journal, st.journal.disk);
    hide Backed, EntriesOk, StreamsOk;
    forall f | f in st.flights ensures FlightOk(xs', st.journal, f) {
      assert FlightOk(st.streams, st.journal, f);
    }
  }

  /** The stream that changed is in order; the others are as they were. */
  lemma StreamsAdvance(xs: seq<Stream>, xs': seq<Stream>, now: Millis, c: Config, j: Journal, s: StreamId)
    requires StreamsOk(xs, now, c, j) && Advances(xs, xs', j) && s < |xs'| && StreamOk(xs', now, c, j, s)
    requires |xs'| <= |xs| + 1 && (|xs'| > |xs| ==> s == |xs|)
    requires forall i :: 0 <= i < |xs| && i != s ==> xs'[i] == xs[i]
    ensures StreamsOk(xs', now, c, j)
  {
    hide Backed;
    forall i | 0 <= i < |xs'| && i != s ensures StreamOk(xs', now, c, j, i) {
      assert StreamOk(xs, now, c, j, i);
      if Out(xs, j, i) {
        var t :| Backed(xs, j, Ref(i, t));
        assert xs'[i] == xs[i];
        assert Backed(xs', j, Ref(i, t));
      }
    }
  }

  lemma CommitInv(st: State, c: Config, b: Submission)
    requires Inv(st, c) && Grows(c) && Takes(st, c, b)
    requires Backed(st.streams, st.journal, b.ref) && b.amount == st.journal.mem[b.ref].amount
    ensures Inv(Commit(st, b), c)
  {
    var xs, xs', j := st.streams, Commit(st, b).streams, st.journal;
    assert EntryOk(xs, st.now, c, j, b.ref, j.mem[b.ref]);
    assert c.accrued(b.ref.stream, b.ref.time) <= c.accrued(b.ref.stream, st.now);
    assert Advances(xs, xs', j);
    OthersAdvance(st, xs', c);
    StreamsAdvance(xs, xs', st.now, c, j, b.ref.stream);
    CommitCycleOk(st, c, b);
    hide EntriesOk, EntryOk, StreamsOk, FlightsOk, CycleOk, Backed, Advances, Grows;
  }

  lemma CommitCycleOk(st: State, c: Config, b: Submission)
    requires Inv(st, c) && Takes(st, c, b) && Backed(st.streams, st.journal, b.ref)
    requires b.amount == st.journal.mem[b.ref].amount > 0
    requires Advances(st.streams, Commit(st, b).streams, st.journal)
    ensures CycleOk(Commit(st, b).streams, st.now, c, st.journal, st.cycle)
  {
    hide EntriesOk, StreamsOk, FlightsOk, AcceptedOk, Selected;
  }

  /** A payment that was backed still is, with the same amount. */
  ghost predicate Keeps(xs: seq<Stream>, j: Journal, j': Journal) {
    forall r :: Backed(xs, j, r) ==> Backed(xs, j', r) && j'.mem[r].amount == j.mem[r].amount
  }

  lemma JournalInv(st: State, c: Config, j': Journal)
    requires Inv(st, c) && Keeps(st.streams, st.journal, j')
    requires EntriesOk(st.streams, st.now, c, j', j'.mem) && EntriesOk(st.streams, st.now, c, j', j'.disk)
    requires CycleOk(st.streams, st.now, c, j', st.cycle)
    ensures Inv(st.(journal := j'), c)
  {
    var xs, j, now := st.streams, st.journal, st.now;
    hide Backed, EntriesOk, CycleOk, AcceptedOk;
    forall f | f in st.flights ensures FlightOk(xs, j', f) {
      assert FlightOk(xs, j, f);
    }
    forall s | 0 <= s < |xs| ensures StreamOk(xs, now, c, j', s) {
      assert StreamOk(xs, now, c, j, s);
      if Out(xs, j, s) {
        var t :| Backed(xs, j, Ref(s, t));
        assert Backed(xs, j', Ref(s, t));
      }
    }
  }

  /** Entries of the new journal that are entries of the old one, but for their count of attempts, stay in order. */
  lemma EntriesKept(st: State, c: Config, j': Journal, es: Entries, es': Entries)
    requires EntriesOk(st.streams, st.now, c, st.journal, es) && Keeps(st.streams, st.journal, j')
    requires forall r :: r in es' ==> r in es && es'[r].(attempts := es[r].attempts) == es[r]
    ensures EntriesOk(st.streams, st.now, c, j', es')
  {
    hide Backed, Claim;
    forall r | r in es' ensures EntryOk(st.streams, st.now, c, j', r, es'[r]) {
      assert EntryOk(st.streams, st.now, c, st.journal, r, es[r]);
    }
  }

  predicate NoJob(cycle: Cycle) {
    cycle.Executing? ==> cycle.job.None?
  }

  /** Only an entry whose contract is archived may be removed. */
  lemma RemoveInv(st: State, c: Config, r: Ref, written: bool)
    requires Inv(st, c) && NoJob(st.cycle)
    requires r in st.journal.mem && r.stream < |st.streams| && st.journal.mem[r].gen < st.streams[r.stream].gen
    ensures Inv(st.(journal := Remove(st.journal, r, written)), c)
  {
    var j' := Remove(st.journal, r, written);
    hide Claim, AcceptedOk, FlightsOk, StreamsOk, SeenOk;
    EntriesKept(st, c, j', st.journal.mem, j'.mem);
    EntriesKept(st, c, j', if written then st.journal.mem else st.journal.disk, j'.disk);
    JournalInv(st, c, j');
  }

  lemma BumpKeeps(xs: seq<Stream>, j: Journal, r: Ref, written: bool)
    ensures Keeps(xs, j, Bump(j, r, written))
  {
  }

  lemma BumpInv(st: State, c: Config, r: Ref, written: bool)
    requires Inv(st, c) && NoJob(st.cycle)
    ensures Inv(st.(journal := Bump(st.journal, r, written)), c)
  {
    var j' := Bump(st.journal, r, written);
    hide Claim, AcceptedOk, FlightsOk, StreamsOk, SeenOk, Backed, Keeps, EntriesOk;
    BumpKeeps(st.streams, st.journal, r, written);
    EntriesKept(st, c, j', st.journal.mem, j'.mem);
    EntriesKept(st, c, j', if written && r in st.journal.mem then st.journal.mem else st.journal.disk, j'.disk);
    JournalInv(st, c, j');
  }

  lemma RestartInv(st: State, c: Config)
    requires Inv(st, c)
    ensures Inv(st.(cycle := Idle, journal := Restart(st.journal)), c)
  {
    var idle := st.(cycle := Idle);
    var j' := Restart(st.journal);
    hide Claim, AcceptedOk, FlightsOk, StreamsOk, SeenOk;
    EntriesKept(idle, c, j', st.journal.disk, st.journal.disk);
    JournalInv(idle, c, j');
  }

  lemma FlightInv(st: State, c: Config, b: Submission)
    requires Inv(st, c) && FlightOk(st.streams, st.journal, b)
    ensures Inv(st.(flights := st.flights + {b}), c)
  {
    hide FlightOk, EntriesOk, StreamsOk, AcceptedOk, CycleOk;
  }

  lemma DropJobInv(st: State, c: Config)
    requires Inv(st, c) && st.cycle.Executing?
    ensures Inv(WithJob(st, None), c)
  {
    hide EntriesOk, StreamsOk, AcceptedOk, FlightsOk, SeenOk, Selected;
  }

  // ----- the steps -----

  lemma RecoverInv(st: State, c: Config, r: Ref, reply: Reply, written: bool)
    requires Inv(st, c) && Grows(c) && Enabled(st, c, Recover(r, reply, written))
    ensures Inv(AfterRecover(st, r, reply, written), c)
  {
    var e := st.journal.mem[r];
    var b := SubmissionOf(r, e);
    assert EntryOk(st.streams, st.now, c, st.journal, r, e);
    hide EntriesOk, StreamsOk, FlightsOk, CycleOk, Backed, Inv;
    assert Claim(st.streams, st.now, c, r, e.gen, e.amount);
    match reply {
      case Done =>
        CommitInv(st, c, b);
        RemoveInv(Commit(st, b), c, r, written);
      case Gone =>
        RemoveInv(st, c, r, written);
      case Known =>
        AcceptedIsArchived(st, c, r, e);
        RemoveInv(st, c, r, written);
      case Lost | AckOnly =>
        FlightInv(st, c, b);
        BumpInv(st.(flights := st.flights + {b}), c, r, written);
    }
  }

  lemma AcceptedIsArchived(st: State, c: Config, r: Ref, e: Entry)
    requires Inv(st, c) && r in st.accepted && Claim(st.streams, st.now, c, r, e.gen, e.amount)
    ensures e.gen < st.streams[r.stream].gen
  {
  }

  lemma PrepareInv(st: State, c: Config, s: StreamId)
    requires Inv(st, c) && Enabled(st, c, Prepare(s))
    ensures Inv(AfterPrepare(st, c, s), c)
  {
    hide EntriesOk, StreamsOk, FlightsOk, AcceptedOk;
  }

  lemma SelectInv(st: State, c: Config)
    requires Inv(st, c) && st.cycle.Recovering?
    ensures Inv(AfterSelect(st, c), c)
  {
    hide EntriesOk, StreamsOk, FlightsOk, AcceptedOk;
  }

  /** Writing an entry that is not paid yet, or is backed under the same key already, unbacks nothing. */
  lemma PutInv(st: State, c: Config, r: Ref, e: Entry, written: bool)
    requires Inv(st, c) && NoJob(st.cycle)
    requires Claim(st.streams, st.now, c, r, e.gen, e.amount)
    requires st.cycle.Executing? ==> r.stream !in st.cycle.seen
    requires Free(st.journal.mem, r.stream) || (r in st.journal.mem && st.journal.mem[r].gen == e.gen && st.journal.mem[r].amount == e.amount)
    requires e.phase == InRecord && e.gen == st.streams[r.stream].gen ==> Backed(st.streams, st.journal, r)
    ensures Inv(st.(journal := Put(st.journal, r, e, written)), c)
  {
    var xs, j, now, j' := st.streams, st.journal, st.now, Put(st.journal, r, e, written);
    hide StreamsOk, FlightsOk, AcceptedOk, SeenOk, Claim;
    assert Keeps(xs, j, j');
    PutEntryOk(st, c, r, e, written);
    assert EntriesOk(xs, now, c, j', j'.disk) by {
      if !written {
        EntriesKept(st, c, j', j.disk, j.disk);
      }
    }
    hide Keeps, EntriesOk;
    JournalInv(st, c, j');
  }

  lemma PutEntryOk(st: State, c: Config, r: Ref, e: Entry, written: bool)
    requires EntriesOk(st.streams, st.now, c, st.journal, st.journal.mem)
    requires Keeps(st.streams, st.journal, Put(st.journal, r, e, written))
    requires Claim(st.streams, st.now, c, r, e.gen, e.amount)
    requires Free(st.journal.mem, r.stream) || r in st.journal.mem
    requires e.phase == InRecord && e.gen == st.streams[r.stream].gen ==> Backed(st.streams, st.journal, r)
    ensures EntriesOk(st.streams, st.now, c, Put(st.journal, r, e, written), Put(st.journal, r, e, written).mem)
  {
    var j' := Put(st.journal, r, e, written);
    hide Claim, Backed;
    forall q | q in j'.mem ensures EntryOk(st.streams, st.now, c, j', q, j'.mem[q]) {
      if q != r {
        assert EntryOk(st.streams, st.now, c, st.journal, q, st.journal.mem[q]);
      }
    }
  }

  lemma PutTransferInv(st: State, c: Config, written: bool)
    requires Inv(st, c) && AtStage(st, Prepared)
    ensures Inv(AfterPut(st, InTransfer, Journaled, written), c)
  {
    var job := st.cycle.job.value;
    var r := job.ref;
    assert JobOk(st.streams, st.now, c, st.journal, job);
    assert StreamOk(st.streams, st.now, c, st.journal, r.stream);
    assert !Out(st.streams, st.journal, r.stream);
    DropJobInv(st, c);
    PutInv(WithJob(st, None), c, r, JobEntry(job, InTransfer), written);
    hide EntriesOk, StreamsOk, FlightsOk, AcceptedOk, SeenOk;
  }

  lemma SendInv(st: State, c: Config, acknowledged: bool)
    requires Inv(st, c) && Enabled(st, c, Send(acknowledged))
    ensures Inv(AfterSend(st, acknowledged), c)
  {
    hide EntriesOk, FlightsOk, StreamsOk, StreamOk, CycleOk, Backed, Advances;
    var job := st.cycle.job.value;
    var xs' := AfterSend(st, acknowledged).streams;
    SendBacks(st, c, job);
    OthersAdvance(st, xs', c);
    SendCycleOk(st, c, acknowledged);
    SentStreamOk(st, c, xs', job.ref);
    StreamsAdvance(st.streams, xs', st.now, c, st.journal, job.ref.stream);
  }

  lemma SentStreamOk(st: State, c: Config, xs': seq<Stream>, r: Ref)
    requires StreamsOk(st.streams, st.now, c, st.journal) && r.stream < |st.streams| == |xs'|
    requires Backed(xs', st.journal, r) && xs'[r.stream].withdrawn == st.streams[r.stream].withdrawn
    ensures StreamOk(xs', st.now, c, st.journal, r.stream)
  {
    assert StreamOk(st.streams, st.now, c, st.journal, r.stream);
    assert Backed(xs', st.journal, Ref(r.stream, r.time));
  }

  lemma SendBacks(st: State, c: Config, job: Job)
    requires Inv(st, c) && AtStage(st, Journaled) && job == st.cycle.job.value && job.ref.stream < |st.streams|
    ensures var x := st.streams[job.ref.stream];
            var xs' := st.streams[job.ref.stream := x.(sent := x.sent + job.amount)];
            Backed(xs', st.journal, job.ref) && Advances(st.streams, xs', st.journal)
  {
    var xs, j, now, r := st.streams, st.journal, st.now, job.ref;
    assert JobOk(xs, now, c, j, job);
    assert EntryOk(xs, now, c, j, r, j.mem[r]);
    hide FlightsOk, AcceptedOk, StreamsOk, SeenOk, Selected;
    forall q | Backed(xs, j, q) ensures q.stream != r.stream {
      assert q.stream == r.stream ==> q == r;
    }
  }

  lemma SendCycleOk(st: State, c: Config, acknowledged: bool)
    requires CycleOk(st.streams, st.now, c, st.journal, st.cycle) && Enabled(st, c, Send(acknowledged))
    requires Backed(AfterSend(st, acknowledged).streams, st.journal, st.cycle.job.value.ref)
    ensures var st' := AfterSend(st, acknowledged);
            CycleOk(st'.streams, st'.now, c, st'.journal, st'.cycle)
  {
    hide Backed, Selected;
    assert SeenOk(AfterSend(st, acknowledged).streams, st.cycle.seen);
  }

  lemma PutRecordInv(st: State, c: Config, written: bool)
    requires Inv(st, c) && AtStage(st, Sent)
    ensures Inv(AfterPut(st, InRecord, Recording, written), c)
  {
    var job := st.cycle.job.value;
    assert JobOk(st.streams, st.now, c, st.journal, job);
    DropJobInv(st, c);
    PutInv(WithJob(st, None), c, job.ref, JobEntry(job, InRecord), written);
    hide EntriesOk, StreamsOk, FlightsOk, AcceptedOk, SeenOk;
  }

  /** An acknowledgement that is not a commit breaks the invariant, unless the record had landed before it. */
  lemma SubmitInv(st: State, c: Config, reply: Reply, written: bool)
    requires Inv(st, c) && Grows(c) && Enabled(st, c, Submit(reply, written))
    requires reply.AckOnly? ==> Landed(st)
    ensures Inv(AfterSubmit(st, reply, written), c)
  {
    var job := st.cycle.job.value;
    var b := JobSubmission(job);
    var done := WithJob(st, None);
    assert JobOk(st.streams, st.now, c, st.journal, job);
    DropJobInv(st, c);
    hide EntriesOk, StreamsOk, FlightsOk, CycleOk, AcceptedOk, Backed, Inv;
    match reply {
      case Done =>
        CommitInv(done, c, b);
        RemoveInv(Commit(done, b), c, job.ref, written);
      case AckOnly =>
        FlightInv(done, c, b);
        RemoveInv(done.(flights := st.flights + {b}), c, job.ref, written);
      case Lost | Gone | Known =>
        FlightInv(done, c, b);
        BumpInv(done.(flights := st.flights + {b}), c, job.ref, written);
    }
  }

  /** The ledger already holds the record of the settlement being submitted. */
  predicate Landed(st: State)
    requires AtStage(st, Recording)
  {
    var job := st.cycle.job.value;
    job.ref.stream < |st.streams| && job.gen < st.streams[job.ref.stream].gen
  }

  lemma TickInv(st: State, c: Config, to: Millis)
    requires Inv(st, c) && Grows(c) && st.now <= to
    ensures Inv(st.(now := to), c)
  {
    var xs, j := st.streams, st.journal;
    hide Backed;
    forall s | 0 <= s < |xs| ensures StreamOk(xs, to, c, j, s) {
      assert StreamOk(xs, st.now, c, j, s);
      assert c.accrued(s, st.now) <= c.accrued(s, to);
    }
    forall r | r in j.mem ensures EntryOk(xs, to, c, j, r, j.mem[r]) {
      assert EntryOk(xs, st.now, c, j, r, j.mem[r]);
    }
    forall r | r in j.disk ensures EntryOk(xs, to, c, j, r, j.disk[r]) {
      assert EntryOk(xs, st.now, c, j, r, j.disk[r]);
    }
  }

  lemma OpenInv(st: State, c: Config)
    requires Inv(st, c)
    ensures Inv(st.(streams := st.streams + [Stream(0, 0, 0)]), c)
  {
    var xs, j, now := st.streams, st.journal, st.now;
    var xs' := xs + [Stream(0, 0, 0)];
    assert Advances(xs, xs', j);
    OthersAdvance(st, xs', c);
    StreamsAdvance(xs, xs', now, c, j, |xs|);
    hide EntriesOk, StreamsOk, FlightsOk, Advances, Selected;
  }

  lemma SettleCycleInv(st: State, c: Config, cycle: Cycle)
    requires Inv(st, c) && CycleOk(st.streams, st.now, c, st.journal, cycle)
    ensures Inv(st.(cycle := cycle), c)
  {
    hide EntriesOk, StreamsOk, FlightsOk, AcceptedOk, CycleOk;
  }

  /** In-process signing acknowledges before the commit only when the endpoint that waits is missing. */
  predicate Waits(step: Step) {
    step.Submit? ==> !step.reply.AckOnly?
  }

  lemma StepInv(st: State, c: Config, step: Step)
    requires Inv(st, c) && Grows(c) && Enabled(st, c, step) && Waits(step)
    ensures Inv(Apply(st, c, step), c)
  {
    hide Inv, AfterRecover, AfterSelect, AfterPrepare, AfterPut, AfterSend, AfterSubmit, Commit;
    match step {
      case Tick(to) => TickInv(st, c, to);
      case Open => OpenInv(st, c);
      case Begin => BeginInv(st, c);
      case Recover(r, reply, written) => RecoverInv(st, c, r, reply, written);
      case Select => SelectInv(st, c);
      case Drop(s) => DropInv(st, c, s);
      case Prepare(s) => PrepareInv(st, c, s);
      case PutTransfer(written) => PutTransferInv(st, c, written);
      case Send(acknowledged) => SendInv(st, c, acknowledged);
      case PutRecord(written) => PutRecordInv(st, c, written);
      case Submit(reply, written) => SubmitInv(st, c, reply, written);
      case LateCommit(b) => LateCommitInv(st, c, b);
      case Abort => AbortInv(st, c);
      case Crash => RestartInv(st, c);
    }
  }

  lemma BeginInv(st: State, c: Config)
    requires Inv(st, c)
    ensures Inv(st.(cycle := Recovering(st.now, Snapshot(st.streams))), c)
  {
    SettleCycleInv(st, c, Recovering(st.now, Snapshot(st.streams)));
  }

  lemma DropInv(st: State, c: Config, s: StreamId)
    requires Inv(st, c) && st.cycle.Executing? && st.cycle.job.None?
    ensures Inv(st.(cycle := st.cycle.(seen := st.cycle.seen - {s})), c)
  {
    hide EntriesOk, StreamsOk, FlightsOk, AcceptedOk;
    SettleCycleInv(st, c, Executing(st.cycle.at, st.cycle.seen - {s}, None));
  }

  lemma AbortInv(st: State, c: Config)
    requires Inv(st, c)
    ensures Inv(st.(cycle := Idle), c)
  {
    SettleCycleInv(st, c, Idle);
  }

  lemma LateCommitInv(st: State, c: Config, b: Submission)
    requires Inv(st, c) && Grows(c) && b in st.flights && Takes(st, c, b)
    ensures Inv(Commit(st, b), c)
  {
    assert FlightOk(st.streams, st.journal, b);
    CommitInv(st, c, b);
  }

  // ----- whole runs -----

  predicate Runs(st: State, c: Config, steps: seq<Step>)
    decreases |steps|
  {
    |steps| > 0 ==> Enabled(st, c, steps[0]) && Runs(Apply(st, c, steps[0]), c, steps[1..])
  }

  function After(st: State, c: Config, steps: seq<Step>): State
    requires Runs(st, c, steps)
    decreases |steps|
  {
    if |steps| == 0 then st else After(Apply(st, c, steps[0]), c, steps[1..])
  }

  const Start := State(0, [], {}, {}, Journal(map[], map[]), Idle)

  lemma {:induction false} RunInv(st: State, c: Config, steps: seq<Step>)
    requires Inv(st, c) && Grows(c) && Runs(st, c, steps) && forall step :: step in steps ==> Waits(step)
    ensures Inv(After(st, c, steps), c)
    decreases |steps|
  {
    if |steps| > 0 {
      StepInv(st, c, steps[0]);
      RunInv(Apply(st, c, steps[0]), c, steps[1..]);
    }
  }

  /** What the journal holds of a stream: at most one entry, of this amount while it is not recorded. */
  ghost function Unrecorded(st: State, s: StreamId): nat
    requires s < |st.streams|
  {
    if Out(st.streams, st.journal, s) then
      var t :| Backed(st.streams, st.journal, Ref(s, t));
      st.journal.mem[Ref(s, t)].amount
    else 0
  }

  /**
   * However the process crashes, writes fail, snapshots go stale and submissions are lost or land late: a stream has
   * at most one journaled settlement, in memory and on disk; what was sent is what is recorded plus that settlement,
   * if it is unrecorded; and nothing beyond the accrual is ever sent.
   */
  lemma NoAccrualIsPaidTwice(c: Config, steps: seq<Step>, s: StreamId)
    requires Grows(c) && Runs(Start, c, steps) && forall step :: step in steps ==> Waits(step)
    requires s < |After(Start, c, steps).streams|
    ensures var st := After(Start, c, steps);
            && Single(st.journal.mem) && Single(st.journal.disk)
            && st.streams[s].sent == st.streams[s].withdrawn + Unrecorded(st, s)
            && st.streams[s].sent <= c.accrued(s, st.now)
  {
    RunInv(Start, c, steps);
    InvBounds(After(Start, c, steps), c, s);
  }

  lemma InvBounds(st: State, c: Config, s: StreamId)
    requires Inv(st, c) && Grows(c) && s < |st.streams|
    ensures Single(st.journal.mem) && Single(st.journal.disk)
    ensures st.streams[s].sent == st.streams[s].withdrawn + Unrecorded(st, s)
    ensures st.streams[s].sent <= c.accrued(s, st.now)
  {
    assert StreamOk(st.streams, st.now, c, st.journal, s);
    if Out(st.streams, st.journal, s) {
      var t :| Backed(st.streams, st.journal, Ref(s, t)) && Unrecorded(st, s) == st.journal.mem[Ref(s, t)].amount;
      assert EntryOk(st.streams, st.now, c, st.journal, Ref(s, t), st.journal.mem[Ref(s, t)]);
      assert c.accrued(s, t) <= c.accrued(s, st.now);
    }
  }

  /** Whenever a cycle removes an entry, everything sent on its stream is recorded and nothing else is journaled. */
  lemma RemovalMeansRecorded(st: State, c: Config, step: Step, s: StreamId)
    requires Inv(st, c) && Grows(c) && Enabled(st, c, step) && Waits(step) && s < |st.streams|
    requires (step.Recover? && step.reply in {Done, Gone, Known} && step.ref.stream == s)
             || (step.Submit? && step.reply.Done? && st.cycle.job.value.ref.stream == s)
    ensures var st' := Apply(st, c, step);
            && Free(st'.journal.mem, s) && |st'.streams| == |st.streams|
            && st'.streams[s].sent == st'.streams[s].withdrawn == st.streams[s].sent
  {
    StepInv(st, c, step);
    var st' := Apply(st, c, step);
    var r := if step.Recover? then step.ref else st.cycle.job.value.ref;
    assert step.Submit? ==> JobOk(st.streams, st.now, c, st.journal, st.cycle.job.value);
    assert r in st.journal.mem && Single(st.journal.mem);
    assert Free(st'.journal.mem, s);
    assert StreamOk(st'.streams, st'.now, c, st'.journal, s);
  }

  // ----- what the worker gets done -----

  /** A journaled record whose contract is still active can always be recorded by recovery, while attempts are left. */
  lemma RecoveryCanRecord(st: State, c: Config, r: Ref, written: bool)
    requires Inv(st, c) && st.cycle.Recovering? && c.signing && r in st.journal.mem
    requires var e := st.journal.mem[r];
             e.phase == InRecord && e.attempts < MAX_ATTEMPTS && r.stream < |st.streams| && e.gen == st.streams[r.stream].gen
    ensures Enabled(st, c, Recover(r, Done, written))
  {
    assert EntryOk(st.streams, st.now, c, st.journal, r, st.journal.mem[r]);
  }

  /** How often recovery resubmits this entry in vain, until it is removed. */
  function VainTries(st: State, c: Config, steps: seq<Step>, r: Ref): nat
    requires Runs(st, c, steps)
    decreases |steps|
  {
    if |steps| == 0 || r !in st.journal.mem then 0
    else
      (if steps[0].Recover? && steps[0].ref == r && steps[0].reply in {Lost, AckOnly} then 1 else 0)
      + VainTries(Apply(st, c, steps[0]), c, steps[1..], r)
  }

  predicate WritesSucceed(steps: seq<Step>) {
    forall i :: 0 <= i < |steps| ==>
      match steps[i]
      case Recover(_, _, written) => written
      case PutTransfer(written) => written
      case PutRecord(written) => written
      case Submit(_, written) => written
      case _ => true
  }

  /** The entry is on record, the same in memory and on disk, and no settlement in progress is about to write it. */
  predicate Resting(st: State, r: Ref) {
    && st.journal.mem == st.journal.disk
    && r in st.journal.mem && st.journal.mem[r].phase == InRecord && st.journal.mem[r].attempts <= MAX_ATTEMPTS
    && (st.cycle.Executing? ==>
          && (r.stream in st.cycle.seen ==> Free(st.journal.mem, r.stream))
          && (st.cycle.job.Some? ==> st.cycle.job.value.ref.stream != r.stream))
  }

  lemma RestingStep(st: State, c: Config, step: Step, r: Ref)
    requires Resting(st, r) && Enabled(st, c, step) && WritesSucceed([step])
    ensures var st' := Apply(st, c, step);
            r in st'.journal.mem ==>
              && Resting(st', r)
              && st'.journal.mem[r].attempts
                 == st.journal.mem[r].attempts + if step.Recover? && step.ref == r && step.reply in {Lost, AckOnly} then 1 else 0
  {
    assert [step][0] == step;
    assert !Free(st.journal.mem, r.stream);
    hide Takes, Snapshot, Enabled;
    assert Enabled(st, c, step);
    match step {
      case Recover(q, reply, written) => RestingRecover(st, c, q, reply, r);
      case Select => RestingSelect(st, c, r);
      case _ =>
        RestingOther(st, c, step, r);
    }
  }

  lemma RestingRecover(st: State, c: Config, q: Ref, reply: Reply, r: Ref)
    requires Resting(st, r) && Enabled(st, c, Recover(q, reply, true))
    ensures var st' := AfterRecover(st, q, reply, true);
            r in st'.journal.mem ==>
              && Resting(st', r)
              && st'.journal.mem[r].attempts == st.journal.mem[r].attempts + if q == r && reply in {Lost, AckOnly} then 1 else 0
  {
  }

  lemma RestingSelect(st: State, c: Config, r: Ref)
    requires Resting(st, r) && st.cycle.Recovering?
    ensures Resting(AfterSelect(st, c), r)
  {
  }

  lemma RestingOther(st: State, c: Config, step: Step, r: Ref)
    requires Resting(st, r) && Enabled(st, c, step) && !step.Recover? && !step.Select? && WritesSucceed([step])
    ensures var st' := Apply(st, c, step);
            r in st'.journal.mem && Resting(st', r) && st'.journal.mem[r].attempts == st.journal.mem[r].attempts
  {
    assert [step][0] == step;
    assert !Free(st.journal.mem, r.stream);
  }

  /** With writes that succeed, and across any crashes, a settlement on record is resubmitted in vain at most five times. */
  lemma {:induction false} AtMostFiveTries(st: State, c: Config, steps: seq<Step>, r: Ref)
    requires Resting(st, r) && Runs(st, c, steps) && WritesSucceed(steps)
    ensures VainTries(st, c, steps, r) <= 5 - st.journal.mem[r].attempts
    decreases |steps|
  {
    if |steps| > 0 {
      var st' := Apply(st, c, steps[0]);
      assert WritesSucceed([steps[0]]) by {
        assert [steps[0]][0] == steps[0];
      }
      assert forall i :: 0 <= i < |steps[1..]| ==> steps[1..][i] == steps[i + 1];
      RestingStep(st, c, steps[0], r);
      if r in st'.journal.mem {
        AtMostFiveTries(st', c, steps[1..], r);
      } else {
        assert VainTries(st', c, steps[1..], r) == 0;
      }
    }
  }

  // ----- forgetting an entry -----

  /** The next cycle of a stream, undisturbed until the money is out. */
  function PayAgain(s: StreamId): seq<Step> {
    [Begin, Select, Prepare(s), PutTransfer(true), Send(true)]
  }

  /**
   * The journal entry is what prevents a second payment: with no entry in memory, whatever the reason, the next
   * cycle pays everything the ledger shows as accrued, and that exceeds the accrual exactly when an earlier
   * payment is unrecorded.
   */
  lemma ForgottenIsPaidAgainIff(st: State, c: Config, s: StreamId)
    requires st.cycle.Idle? && s < |st.streams| && Free(st.journal.mem, s)
    requires st.streams[s].withdrawn <= st.streams[s].sent && c.accrued(s, st.now) > st.streams[s].withdrawn
    ensures Runs(st, c, PayAgain(s))
    ensures var st' := After(st, c, PayAgain(s));
            && st'.now == st.now && |st'.streams| == |st.streams|
            && st'.streams[s].sent == st.streams[s].sent + c.accrued(s, st.now) - st.streams[s].withdrawn
            && (st'.streams[s].sent > c.accrued(s, st.now) <==> st.streams[s].sent > st.streams[s].withdrawn)
    ensures var st', amount := After(st, c, PayAgain(s)), c.accrued(s, st.now) - st.streams[s].withdrawn;
            && st'.streams == st.streams[s := st'.streams[s]]
            && st'.streams[s].gen == st.streams[s].gen && st'.streams[s].withdrawn == st.streams[s].withdrawn
            && AtStage(st', Sent) && st'.cycle.job.value == Job(Ref(s, st.now), st.streams[s].gen, amount, Sent)
            && st'.journal == Put(st.journal, Ref(s, st.now), Entry(st.streams[s].gen, amount, InTransfer, 0), true)
  {
    var s1 := Apply(st, c, Begin);
    var s2 := Apply(s1, c, Select);
    SelectsAndPrepares(st, c, s);
    var s3 := Apply(s2, c, Prepare(s));
    PaysPrepared(s3, c);
    hide Apply, Enabled, AtStage, Free, AfterPut, AfterSend;
    FiveSteps(st, c, Begin, Select, Prepare(s), PutTransfer(true), Send(true));
  }

  /** A stream that is due and free is selected and prepared for all that accrued and was not withdrawn. */
  lemma SelectsAndPrepares(st: State, c: Config, s: StreamId)
    requires st.cycle.Idle? && s < |st.streams| && Free(st.journal.mem, s) && c.accrued(s, st.now) > st.streams[s].withdrawn
    ensures Enabled(st, c, Begin)
    ensures var s1 := Apply(st, c, Begin); Enabled(s1, c, Select)
    ensures var s2 := Apply(Apply(st, c, Begin), c, Select); Enabled(s2, c, Prepare(s))
    ensures var s3 := Apply(Apply(Apply(st, c, Begin), c, Select), c, Prepare(s));
            && s3 == st.(cycle := s3.cycle) && AtStage(s3, Prepared)
            && s3.cycle.job.value == Job(Ref(s, st.now), st.streams[s].gen, c.accrued(s, st.now) - st.streams[s].withdrawn, Prepared)
  {
  }

  lemma PaysPrepared(st: State, c: Config)
    requires AtStage(st, Prepared) && st.cycle.job.value.ref.stream < |st.streams|
    ensures Enabled(st, c, PutTransfer(true))
    ensures var s4 := Apply(st, c, PutTransfer(true)); Enabled(s4, c, Send(true))
    ensures var j, s5 := st.cycle.job.value, Apply(Apply(st, c, PutTransfer(true)), c, Send(true));
            var x := st.streams[j.ref.stream];
            && s5.now == st.now && AtStage(s5, Sent) && s5.cycle.job.value == j.(stage := Sent)
            && s5.streams == st.streams[j.ref.stream := x.(sent := x.sent + j.amount)]
            && s5.journal == Put(st.journal, j.ref, JobEntry(j, InTransfer), true)
  {
  }

  /** The whole of an undisturbed cycle of one stream, from discovery to the record. */
  function SettleOne(s: StreamId): seq<Step> {
    PayAgain(s) + [PutRecord(true), Submit(Done, true)]
  }

  /**
   * An undisturbed cycle settles a stream that is due and has nothing journaled: exactly what accrued and was not
   * withdrawn is sent, the record lands, and the journal is clear of the stream again.
   */
  lemma CycleSettles(st: State, c: Config, s: StreamId)
    requires st.cycle.Idle? && s < |st.streams| && Free(st.journal.mem, s)
    requires st.streams[s].withdrawn <= st.streams[s].sent && c.accrued(s, st.now) > st.streams[s].withdrawn
    ensures Runs(st, c, SettleOne(s))
    ensures var st' := After(st, c, SettleOne(s));
            && |st'.streams| == |st.streams|
            && st'.streams[s].withdrawn == c.accrued(s, st.now)
            && st'.streams[s].sent == st.streams[s].sent + (c.accrued(s, st.now) - st.streams[s].withdrawn)
            && st'.streams[s].gen == st.streams[s].gen + 1
            && Free(st'.journal.mem, s) && st'.journal.mem == st'.journal.disk
  {
    ForgottenIsPaidAgainIff(st, c, s);
    var paid := After(st, c, PayAgain(s));
    var put := Apply(paid, c, PutRecord(true));
    assert AtStage(put, Recording) && put.streams == paid.streams;
    assert Takes(put, c, JobSubmission(put.cycle.job.value));
    assert Enabled(put, c, Submit(Done, true));
    var done := Apply(put, c, Submit(Done, true));
    var rest := [PutRecord(true), Submit(Done, true)];
    assert Runs(done, c, []) && After(done, c, []) == done;
    OneStep(put, c, Submit(Done, true), []);
    OneStep(paid, c, PutRecord(true), [Submit(Done, true)]);
    assert [PutRecord(true)] + [Submit(Done, true)] == rest && [Submit(Done, true)] + [] == [Submit(Done, true)];
    RunsJoin(st, c, PayAgain(s), rest);
    hide Runs, After, AfterPut, Takes;
    assert done.journal.mem == paid.journal.mem[Ref(s, st.now) := Entry(st.streams[s].gen, paid.cycle.job.value.amount, InRecord, 0)] - {Ref(s, st.now)} by {
      assert put.journal.mem == paid.journal.mem[Ref(s, st.now) := Entry(st.streams[s].gen, paid.cycle.job.value.amount, InRecord, 0)] by {
        PutRecordMem(paid);
      }
    }
  }

  lemma PutRecordMem(st: State)
    requires AtStage(st, Sent)
    ensures AfterPut(st, InRecord, Recording, true).journal.mem
            == st.journal.mem[st.cycle.job.value.ref := JobEntry(st.cycle.job.value, InRecord)]
  {
  }

  lemma {:induction false} RunsJoin(st: State, c: Config, xs: seq<Step>, ys: seq<Step>)
    requires Runs(st, c, xs) && Runs(After(st, c, xs), c, ys)
    ensures Runs(st, c, xs + ys) && After(st, c, xs + ys) == After(After(st, c, xs), c, ys)
    decreases |xs|
  {
    hide Enabled, Apply;
    if |xs| == 0 {
      assert xs + ys == ys;
    } else {
      assert (xs + ys)[1..] == xs[1..] + ys;
      RunsJoin(Apply(st, c, xs[0]), c, xs[1..], ys);
    }
  }

  lemma FiveSteps(st: State, c: Config, a1: Step, a2: Step, a3: Step, a4: Step, a5: Step)
    requires Enabled(st, c, a1)
    requires var s1 := Apply(st, c, a1); Enabled(s1, c, a2)
    requires var s2 := Apply(Apply(st, c, a1), c, a2); Enabled(s2, c, a3)
    requires var s3 := Apply(Apply(Apply(st, c, a1), c, a2), c, a3); Enabled(s3, c, a4)
    requires var s4 := Apply(Apply(Apply(Apply(st, c, a1), c, a2), c, a3), c, a4); Enabled(s4, c, a5)
    ensures Runs(st, c, [a1, a2, a3, a4, a5])
    ensures After(st, c, [a1, a2, a3, a4, a5]) == Apply(Apply(Apply(Apply(Apply(st, c, a1), c, a2), c, a3), c, a4), c, a5)
  {
    hide Enabled, Apply;
    var s1 := Apply(st, c, a1);
    var s2 := Apply(s1, c, a2);
    var s3 := Apply(s2, c, a3);
    var s4 := Apply(s3, c, a4);
    var s5 := Apply(s4, c, a5);
    assert Runs(s5, c, []) && After(s5, c, []) == s5;
    OneStep(s4, c, a5, []);
    OneStep(s3, c, a4, [a5]);
    OneStep(s2, c, a3, [a4, a5]);
    OneStep(s1, c, a2, [a3, a4, a5]);
    OneStep(st, c, a1, [a2, a3, a4, a5]);
  }

  lemma OneStep(st: State, c: Config, a: Step, rest: seq<Step>)
    requires Enabled(st, c, a) && Runs(Apply(st, c, a), c, rest)
    ensures Runs(st, c, [a] + rest) && After(st, c, [a] + rest) == After(Apply(st, c, a), c, rest)
  {
    assert ([a] + rest)[1..] == rest;
  }

  /**
   * An acknowledgement that precedes the commit removes the entry of an unrecorded payment. It is harmless exactly
   * when the record had landed anyway; otherwise the next cycle can pay the same accrual again.
   */
  lemma EarlyAckIsHarmlessIff(st: State, c: Config, written: bool)
    requires Inv(st, c) && Grows(c) && Enabled(st, c, Submit(AckOnly, written))
    ensures var st' := AfterSubmit(st, AckOnly, written);
            Inv(st', c) <==> Landed(st)
  {
    var job := st.cycle.job.value;
    var s := job.ref.stream;
    assert JobOk(st.streams, st.now, c, st.journal, job);
    if Landed(st) {
      SubmitInv(st, c, AckOnly, written);
    } else {
      var st' := AfterSubmit(st, AckOnly, written);
      assert JobSubmission(job) in st'.flights;
      assert job.ref !in st'.journal.mem;
      assert !FlightOk(st'.streams, st'.journal, JobSubmission(job));
    }
  }

  lemma EarlyAckPaysTwice(st: State, c: Config, written: bool)
    requires Inv(st, c) && Grows(c) && Enabled(st, c, Submit(AckOnly, written)) && !Landed(st)
    ensures var s, idle := st.cycle.job.value.ref.stream, AfterSubmit(st, AckOnly, written).(cycle := Idle);
            s < |st.streams| && Runs(idle, c, PayAgain(s)) && |After(idle, c, PayAgain(s)).streams| == |st.streams|
            && After(idle, c, PayAgain(s)).streams[s].sent > c.accrued(s, st.now)
  {
    var job := st.cycle.job.value;
    var s := job.ref.stream;
    assert JobOk(st.streams, st.now, c, st.journal, job);
    assert StreamOk(st.streams, st.now, c, st.journal, s);
    assert c.accrued(s, job.ref.time) <= c.accrued(s, st.now);
    var idle := AfterSubmit(st, AckOnly, written).(cycle := Idle);
    assert Free(idle.journal.mem, s);
    ForgottenIsPaidAgainIff(idle, c, s);
  }
}
