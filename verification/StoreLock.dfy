/** The lock file that makes load, change and save of a store one step for every process of a host. */
module StoreLock {
  import opened Common

  type Pid = nat
  type Token = nat

  datatype Holder = Holder(pid: Pid, token: Token)

  /** Where a process is in one locked mutation; its own queue admits one at a time. */
  datatype Proc<S> =
    | Out
    | Trying(token: Token)
    | Seen(token: Token, holder: Holder)
    | Judged(token: Token, holder: Holder, stale: bool)
    | Inside(token: Token, loaded: Option<S>)
    | Releasing(token: Token)
    | Dead
  {
    predicate Holds(t: Token) {
      (Inside? || Releasing?) && token == t
    }

    predicate Waits() {
      Trying? || Seen? || Judged?
    }
  }

  /** `committed` records every change saved so far, in order; it is not part of the program's state. */
  datatype State<S, M> = State(lock: Option<Holder>, procs: seq<Proc<S>>, issued: Token, store: S, committed: seq<M>)

  /**
   * A waiter reads who holds the lock, then asks whether that process is alive, then removes the file: three calls,
   * between any two of which others may act. Crash is any exit of a process, wherever it is.
   */
  datatype Step<M> =
    | Spawn
    | Start(p: Pid)
    | Link(p: Pid)
    | Read(p: Pid)
    | Probe(p: Pid, aged: bool)
    | Wait(p: Pid)
    | TimeOut(p: Pid)
    | Unlink(p: Pid)
    | Load(p: Pid)
    | Save(p: Pid, change: M)
    | Finish(p: Pid)
    | Remove(p: Pid)
    | Crash(p: Pid)

  function Fold<S, M>(init: S, ms: seq<M>, f: (S, M) -> S): S {
    if |ms| == 0 then init else f(Fold(init, ms[..|ms| - 1], f), ms[|ms| - 1])
  }

  predicate Enabled<S, M>(st: State<S, M>, step: Step<M>) {
    step.Spawn? || (
      && step.p < |st.procs|
      && var x := st.procs[step.p];
         match step
         case Spawn => true
         case Start(_) => x.Out?
         case Link(_) => x.Trying? && st.lock.None?
         case Read(_) => x.Trying? && st.lock.Some?
         case Probe(_, _) => x.Seen? && x.holder.pid < |st.procs|
         case Wait(_) => x.Judged? && !x.stale
         case TimeOut(_) => x.Judged? && !x.stale
         case Unlink(_) => x.Judged? && x.stale
         case Load(_) => x.Inside?
         case Save(_, _) => x.Inside? && x.loaded.Some?
         case Finish(_) => x.Inside?
         case Remove(_) => x.Releasing?
         case Crash(_) => !x.Dead?
    )
  }

  function At<S, M>(st: State<S, M>, p: Pid, x: Proc<S>): State<S, M>
    requires p < |st.procs|
  {
    st.(procs := st.procs[p := x])
  }

  function Apply<S, M>(st: State<S, M>, step: Step<M>, f: (S, M) -> S): State<S, M>
    requires Enabled(st, step)
  {
    match step
    case Spawn => st.(procs := st.procs + [Out])
    case Start(p) => At(st, p, Trying(st.issued)).(issued := st.issued + 1)
    case Link(p) => At(st, p, Inside(st.procs[p].token, None)).(lock := Some(Holder(p, st.procs[p].token)))
    case Read(p) => At(st, p, Seen(st.procs[p].token, st.lock.value))
    case Probe(p, aged) =>
      var h := st.procs[p].holder;
      At(st, p, Judged(st.procs[p].token, h, aged || st.procs[h.pid].Dead?))
    case Wait(p) => At(st, p, Trying(st.procs[p].token))
    case TimeOut(p) => At(st, p, Out)
    case Unlink(p) => At(st, p, Trying(st.procs[p].token)).(lock := None)
    case Load(p) => At(st, p, Inside(st.procs[p].token, Some(st.store)))
    case Save(p, m) =>
      var s := f(st.procs[p].loaded.value, m);
      At(st, p, Inside(st.procs[p].token, Some(s))).(store := s, committed := st.committed + [m])
    case Finish(p) =>
      At(st, p, if st.lock.Some? && st.lock.value.token == st.procs[p].token then Releasing(st.procs[p].token) else Out)
    case Remove(p) => At(st, p, Out).(lock := None)
    case Crash(p) => At(st, p, Dead)
  }

  // ----- exclusion -----

  /** Two processes never hold the lock together, and one that does is who the file names. */
  predicate Owned<S, M>(st: State<S, M>) {
    forall p, t :: 0 <= p < |st.procs| && 0 <= t < st.issued && st.procs[p].Holds(t) ==> st.lock == Some(Holder(p, t))
  }

  predicate TokensOk<S, M>(st: State<S, M>) {
    && (forall p :: 0 <= p < |st.procs| && !st.procs[p].Out? && !st.procs[p].Dead? ==> st.procs[p].token < st.issued)
    && (st.lock.Some? ==> st.lock.value.pid < |st.procs| && st.lock.value.token < st.issued)
  }

  /** No process waits with the token of the lock, or with another waiter's. */
  predicate WaitersOk<S, M>(st: State<S, M>) {
    && (forall p :: 0 <= p < |st.procs| && st.procs[p].Waits() && st.lock.Some? ==> st.procs[p].token != st.lock.value.token)
    && (forall p, q :: 0 <= p < q < |st.procs| && st.procs[p].Waits() && st.procs[q].Waits() ==> st.procs[p].token != st.procs[q].token)
  }

  ghost predicate Serial<S, M>(st: State<S, M>, init: S, f: (S, M) -> S) {
    && st.store == Fold(init, st.committed, f)
    && forall p :: 0 <= p < |st.procs| && st.procs[p].Inside? && st.procs[p].loaded.Some? ==> st.procs[p].loaded.value == st.store
  }

  ghost predicate Inv<S, M>(st: State<S, M>, init: S, f: (S, M) -> S) {
    Owned(st) && TokensOk(st) && WaitersOk(st) && Serial(st, init, f)
  }

  /** Nobody is working under the lock that is there. */
  predicate Unheld<S, M>(st: State<S, M>) {
    st.lock.Some? && st.lock.value.pid < |st.procs| ==> !st.procs[st.lock.value.pid].Holds(st.lock.value.token)
  }

  lemma OneInside<S, M>(st: State<S, M>, p: Pid, q: Pid)
    requires Owned(st) && TokensOk(st) && p < |st.procs| && q < |st.procs|
    requires (st.procs[p].Inside? || st.procs[p].Releasing?) && (st.procs[q].Inside? || st.procs[q].Releasing?)
    ensures p == q
  {
    assert st.procs[p].Holds(st.procs[p].token) && st.procs[q].Holds(st.procs[q].token);
  }

  lemma TokensKept<S, M>(st: State<S, M>, step: Step<M>, f: (S, M) -> S)
    requires TokensOk(st) && Enabled(st, step)
    ensures TokensOk(Apply(st, step, f))
  {
  }

  lemma WaitersKept<S, M>(st: State<S, M>, step: Step<M>, f: (S, M) -> S)
    requires TokensOk(st) && WaitersOk(st) && Enabled(st, step)
    ensures WaitersOk(Apply(st, step, f))
  {
    var st' := Apply(st, step, f);
    forall p, q | 0 <= p < q < |st'.procs| && st'.procs[p].Waits() && st'.procs[q].Waits()
      ensures st'.procs[p].token != st'.procs[q].token
    {
      assert !step.Spawn? && !step.Start? ==> st.procs[p].Waits() && st.procs[q].Waits();
    }
  }

  lemma OwnedKept<S, M>(st: State<S, M>, step: Step<M>, f: (S, M) -> S)
    requires Owned(st) && TokensOk(st) && WaitersOk(st) && Enabled(st, step)
    requires step.Unlink? ==> Unheld(st)
    ensures Owned(Apply(st, step, f))
  {
    hide Fold;
    var st' := Apply(st, step, f);
    assert step.Remove? ==> st.procs[step.p].Holds(st.procs[step.p].token);
    forall p, t | 0 <= p < |st'.procs| && 0 <= t < st'.issued && st'.procs[p].Holds(t)
      ensures st'.lock == Some(Holder(p, t))
    {
      if step.Spawn? || p != step.p || step.Load? || step.Save? || step.Finish? {
        assert p < |st.procs| && st.procs[p].Holds(t);
      }
    }
  }

  lemma SerialKept<S, M>(st: State<S, M>, step: Step<M>, init: S, f: (S, M) -> S)
    requires Inv(st, init, f) && Enabled(st, step)
    ensures Serial(Apply(st, step, f), init, f)
  {
    if step.Save? {
      assert (st.committed + [step.change])[..|st.committed|] == st.committed;
      forall q | 0 <= q < |st.procs| && st.procs[q].Inside? ensures q == step.p {
        OneInside(st, step.p, q);
      }
    }
  }

  lemma StepInv<S, M>(st: State<S, M>, step: Step<M>, init: S, f: (S, M) -> S)
    requires Inv(st, init, f) && Enabled(st, step)
    requires step.Unlink? ==> Unheld(st)
    ensures Inv(Apply(st, step, f), init, f)
  {
    TokensKept(st, step, f);
    WaitersKept(st, step, f);
    OwnedKept(st, step, f);
    SerialKept(st, step, init, f);
  }

  /** Reclaiming keeps exclusion exactly when nobody holds the lock that is removed. */
  lemma ReclaimIsSafeIff<S, M>(st: State<S, M>, p: Pid, init: S, f: (S, M) -> S)
    requires Inv(st, init, f) && Enabled(st, Unlink(p))
    ensures Inv(Apply(st, Unlink(p), f), init, f) <==> Unheld(st)
  {
    if Unheld(st) {
      StepInv(st, Unlink(p), init, f);
    } else {
      var h := st.lock.value;
      assert Apply(st, Unlink(p), f).procs[h.pid].Holds(h.token);
    }
  }

  /** A release removes the lock of the process that releases, and no other. */
  lemma ReleaseRemovesOwn<S, M>(st: State<S, M>, p: Pid, init: S, f: (S, M) -> S)
    requires Inv(st, init, f) && Enabled(st, Remove(p))
    ensures st.lock == Some(Holder(p, st.procs[p].token))
  {
    assert st.procs[p].Holds(st.procs[p].token);
  }

  // ----- whole runs -----

  predicate Runs<S, M>(st: State<S, M>, steps: seq<Step<M>>, f: (S, M) -> S)
    decreases |steps|
  {
    |steps| > 0 ==> Enabled(st, steps[0]) && Runs(Apply(st, steps[0], f), steps[1..], f)
  }

  function After<S, M>(st: State<S, M>, steps: seq<Step<M>>, f: (S, M) -> S): State<S, M>
    requires Runs(st, steps, f)
    decreases |steps|
  {
    if |steps| == 0 then st else After(Apply(st, steps[0], f), steps[1..], f)
  }

  /** Every reclaim of the run removes a lock nobody holds at that moment. */
  predicate ReclaimsUnheld<S, M>(st: State<S, M>, steps: seq<Step<M>>, f: (S, M) -> S)
    requires Runs(st, steps, f)
    decreases |steps|
  {
    |steps| > 0 ==> (steps[0].Unlink? ==> Unheld(st)) && ReclaimsUnheld(Apply(st, steps[0], f), steps[1..], f)
  }

  function Begin<S, M>(init: S): State<S, M> {
    State(None, [], 0, init, [])
  }

  lemma {:induction false} RunInv<S, M>(st: State<S, M>, steps: seq<Step<M>>, init: S, f: (S, M) -> S)
    requires Inv(st, init, f) && Runs(st, steps, f) && ReclaimsUnheld(st, steps, f)
    ensures Inv(After(st, steps, f), init, f)
    decreases |steps|
  {
    if |steps| > 0 {
      StepInv(st, steps[0], init, f);
      RunInv(Apply(st, steps[0], f), steps[1..], init, f);
    }
  }

  /**
   * For any number of processes and crashes: at most one is in the critical section, and the store is what the saved
   * changes give when made one after another in the order they were saved.
   */
  lemma MutationsAreSerial<S, M>(init: S, steps: seq<Step<M>>, f: (S, M) -> S, p: Pid, q: Pid)
    requires Runs(Begin(init), steps, f) && ReclaimsUnheld(Begin(init), steps, f)
    ensures var st := After(Begin(init), steps, f);
            && st.store == Fold(init, st.committed, f)
            && (p < |st.procs| && q < |st.procs| && st.procs[p].Inside? && st.procs[q].Inside? ==> p == q)
  {
    RunInv(Begin(init), steps, init, f);
    var st := After(Begin(init), steps, f);
    if p < |st.procs| && q < |st.procs| && st.procs[p].Inside? && st.procs[q].Inside? {
      OneInside(st, p, q);
    }
  }

  // ----- when reclaims are safe -----

  /** Only r reclaims, and no lock is judged stale by its age. */
  predicate SoleReclaimer<M>(steps: seq<Step<M>>, r: Pid) {
    forall i :: 0 <= i < |steps| ==>
      && (steps[i].Unlink? ==> steps[i].p == r)
      && (steps[i].Probe? ==> !steps[i].aged)
  }

  /** Whom r has read and not yet probed does not exit meanwhile: a holder r finds dead was dead when r read its record. */
  predicate NoExitWhileProbed<S, M>(st: State<S, M>, steps: seq<Step<M>>, r: Pid, f: (S, M) -> S)
    requires Runs(st, steps, f)
    decreases |steps|
  {
    |steps| > 0 ==>
      && (steps[0].Crash? && r < |st.procs| && st.procs[r].Seen? ==> st.procs[r].holder.pid != steps[0].p)
      && NoExitWhileProbed(Apply(st, steps[0], f), steps[1..], r, f)
  }

  predicate DeadHolder<S, M>(st: State<S, M>, h: Holder) {
    h.pid < |st.procs| && st.procs[h.pid].Dead?
  }

  /** A dead holder whose record the sole reclaimer has read, or judged stale, still is the lock. */
  predicate StillThere<S, M>(st: State<S, M>, r: Pid) {
    r < |st.procs| && (st.procs[r].Seen? || (st.procs[r].Judged? && st.procs[r].stale)) ==>
      && (st.procs[r].Judged? ==> DeadHolder(st, st.procs[r].holder))
      && (DeadHolder(st, st.procs[r].holder) ==> st.lock == Some(st.procs[r].holder))
  }

  /**
   * With one reclaimer, no reclaim by age, and no holder that exits between being read and being probed, every
   * reclaim removes a lock nobody holds.
   */
  lemma {:induction false} SoleReclaimerIsSafe<S, M>(st: State<S, M>, steps: seq<Step<M>>, r: Pid, init: S, f: (S, M) -> S)
    requires Inv(st, init, f) && StillThere(st, r) && Runs(st, steps, f)
    requires SoleReclaimer(steps, r) && NoExitWhileProbed(st, steps, r, f)
    ensures ReclaimsUnheld(st, steps, f)
    decreases |steps|
  {
    if |steps| > 0 {
      var step := steps[0];
      StepInv(st, step, init, f);
      StillThereKept(st, step, r, init, f);
      forall i | 0 <= i < |steps[1..]| ensures steps[1..][i] == steps[i + 1] {
      }
      SoleReclaimerIsSafe(Apply(st, step, f), steps[1..], r, init, f);
    }
  }

  lemma StillThereKept<S, M>(st: State<S, M>, step: Step<M>, r: Pid, init: S, f: (S, M) -> S)
    requires Inv(st, init, f) && StillThere(st, r) && Enabled(st, step)
    requires (step.Unlink? ==> step.p == r) && (step.Probe? ==> !step.aged)
    requires step.Crash? && r < |st.procs| && st.procs[r].Seen? ==> st.procs[r].holder.pid != step.p
    ensures StillThere(Apply(st, step, f), r)
  {
    if step.Remove? {
      ReleaseRemovesOwn(st, step.p, init, f);
    }
  }

  lemma {:induction false} Extend<S, M>(st: State<S, M>, steps: seq<Step<M>>, last: Step<M>, f: (S, M) -> S)
    requires Runs(st, steps, f) && Enabled(After(st, steps, f), last)
    ensures Runs(st, steps + [last], f) && After(st, steps + [last], f) == Apply(After(st, steps, f), last, f)
    decreases |steps|
  {
    if |steps| > 0 {
      assert (steps + [last])[1..] == steps[1..] + [last];
      Extend(Apply(st, steps[0], f), steps[1..], last, f);
    } else {
      assert [last][1..] == [];
    }
  }

  /** Process 0 dies holding the lock; 1 and 2 both read it and find it dead. */
  function BothJudge<M>(): seq<Step<M>> {
    [Spawn] + [Spawn] + [Spawn] + [Start(0)] + [Link(0)] + [Crash(0)]
    + [Start(1)] + [Read(1)] + [Probe(1, false)] + [Start(2)] + [Read(2)] + [Probe(2, false)]
  }

  /** 1 removes it and enters; 2 removes the lock of 1 and enters too. */
  function BothEnter<M>(): seq<Step<M>> {
    BothJudge() + [Unlink(1)] + [Link(1)] + [Unlink(2)] + [Link(2)]
  }

  /** Both load, then both save. */
  function BothSave<M>(m: M, n: M): seq<Step<M>> {
    BothEnter() + [Load(1)] + [Load(2)] + [Save(1, m)] + [Save(2, n)]
  }

  lemma NoSteps<S, M>(st: State<S, M>, f: (S, M) -> S)
    ensures Runs(st, [], f) && After(st, [], f) == st
  {
  }

  lemma SpawnThree<S, M>(init: S, f: (S, M) -> S)
    ensures Runs(Begin<S, M>(init), [Spawn] + [Spawn] + [Spawn], f)
    ensures After(Begin<S, M>(init), [Spawn] + [Spawn] + [Spawn], f) == State(None, [Out, Out, Out], 0, init, [])
  {
    hide Runs, After;
    var b: State<S, M> := Begin(init);
    var none: seq<Step<M>> := [];
    NoSteps(b, f);
    Extend(b, none, Spawn, f);
    assert none + [Spawn] == [Spawn];
    Extend(b, [Spawn], Spawn, f);
    Extend(b, [Spawn] + [Spawn], Spawn, f);
  }

  lemma BothJudgeRuns<S, M>(init: S, f: (S, M) -> S)
    ensures Runs(Begin<S, M>(init), BothJudge(), f)
    ensures After(Begin(init), BothJudge<M>(), f)
            == State(Some(Holder(0, 0)), [Dead, Judged(1, Holder(0, 0), true), Judged(2, Holder(0, 0), true)], 3, init, [])
  {
    hide Runs, After;
    var b: State<S, M> := Begin(init);
    SpawnThree<S, M>(init, f);
    var s3 := [Spawn] + [Spawn] + [Spawn];
    Extend(b, s3, Start(0), f);
    Extend(b, s3 + [Start(0)], Link(0), f);
    Extend(b, s3 + [Start(0)] + [Link(0)], Crash(0), f);
    var s6 := s3 + [Start(0)] + [Link(0)] + [Crash(0)];
    assert After(b, s6, f) == State(Some(Holder(0, 0)), [Dead, Out, Out], 1, init, []);
    Extend(b, s6, Start(1), f);
    Extend(b, s6 + [Start(1)], Read(1), f);
    Extend(b, s6 + [Start(1)] + [Read(1)], Probe(1, false), f);
    var s9 := s6 + [Start(1)] + [Read(1)] + [Probe(1, false)];
    assert After(b, s9, f) == State(Some(Holder(0, 0)), [Dead, Judged(1, Holder(0, 0), true), Out], 2, init, []);
    Extend(b, s9, Start(2), f);
    Extend(b, s9 + [Start(2)], Read(2), f);
    Extend(b, s9 + [Start(2)] + [Read(2)], Probe(2, false), f);
  }

  lemma BothEnterRuns<S, M>(init: S, f: (S, M) -> S)
    ensures Runs(Begin<S, M>(init), BothEnter(), f)
    ensures After(Begin(init), BothEnter<M>(), f)
            == State(Some(Holder(2, 2)), [Dead, Inside(1, None), Inside(2, None)], 3, init, [])
  {
    hide Runs, After, BothJudge;
    var b: State<S, M> := Begin(init);
    BothJudgeRuns(init, f);
    var j := BothJudge();
    Extend(b, j, Unlink(1), f);
    Extend(b, j + [Unlink(1)], Link(1), f);
    Extend(b, j + [Unlink(1)] + [Link(1)], Unlink(2), f);
    Extend(b, j + [Unlink(1)] + [Link(1)] + [Unlink(2)], Link(2), f);
  }

  /**
   * With two waiters, reclaiming one dead process's lock puts both in the critical section, and the change one of
   * them saved is lost.
   */
  lemma TwoReclaimersOverlap<S, M>(init: S, f: (S, M) -> S, m: M, n: M)
    ensures Runs(Begin(init), BothSave(m, n), f)
    ensures After(Begin(init), BothSave(m, n), f)
            == State(Some(Holder(2, 2)), [Dead, Inside(1, Some(f(init, m))), Inside(2, Some(f(init, n)))], 3, f(init, n), [m, n])
  {
    hide Runs, After, BothEnter;
    var b: State<S, M> := Begin(init);
    BothEnterRuns(init, f);
    var w := BothEnter();
    Extend(b, w, Load(1), f);
    Extend(b, w + [Load(1)], Load(2), f);
    Extend(b, w + [Load(1)] + [Load(2)], Save(1, m), f);
    Extend(b, w + [Load(1)] + [Load(2)] + [Save(1, m)], Save(2, n), f);
  }

  /** 1 reads that 0 holds the lock; 0 releases it and exits; 2 takes it. */
  function HolderExits<M>(): seq<Step<M>> {
    [Spawn] + [Spawn] + [Spawn] + [Start(0)] + [Link(0)] + [Start(1)] + [Read(1)]
    + [Finish(0)] + [Remove(0)] + [Crash(0)] + [Start(2)] + [Link(2)]
  }

  /** 1 finds 0 dead, removes the lock of 2 and enters. */
  function LateProbe<M>(): seq<Step<M>> {
    HolderExits() + [Probe(1, false)] + [Unlink(1)] + [Link(1)]
  }

  lemma HolderExitsRuns<S, M>(init: S, f: (S, M) -> S)
    ensures Runs(Begin<S, M>(init), HolderExits(), f)
    ensures After(Begin(init), HolderExits<M>(), f)
            == State(Some(Holder(2, 2)), [Dead, Seen(1, Holder(0, 0)), Inside(2, None)], 3, init, [])
  {
    hide Runs, After;
    var b: State<S, M> := Begin(init);
    SpawnThree<S, M>(init, f);
    var s3 := [Spawn] + [Spawn] + [Spawn];
    Extend(b, s3, Start(0), f);
    Extend(b, s3 + [Start(0)], Link(0), f);
    var s5 := s3 + [Start(0)] + [Link(0)];
    assert After(b, s5, f) == State(Some(Holder(0, 0)), [Inside(0, None), Out, Out], 1, init, []);
    Extend(b, s5, Start(1), f);
    Extend(b, s5 + [Start(1)], Read(1), f);
    var s7 := s5 + [Start(1)] + [Read(1)];
    assert After(b, s7, f) == State(Some(Holder(0, 0)), [Inside(0, None), Seen(1, Holder(0, 0)), Out], 2, init, []);
    Extend(b, s7, Finish(0), f);
    Extend(b, s7 + [Finish(0)], Remove(0), f);
    Extend(b, s7 + [Finish(0)] + [Remove(0)], Crash(0), f);
    var s10 := s7 + [Finish(0)] + [Remove(0)] + [Crash(0)];
    assert After(b, s10, f) == State(None, [Dead, Seen(1, Holder(0, 0)), Out], 2, init, []);
    Extend(b, s10, Start(2), f);
    Extend(b, s10 + [Start(2)], Link(2), f);
  }

  /**
   * One reclaimer is not enough, even without reclaims by age: a holder that releases and exits between the read and
   * the probe is found dead, and the lock removed is the next holder's.
   */
  lemma OneReclaimerOverlaps<S, M>(init: S, f: (S, M) -> S)
    ensures Runs(Begin<S, M>(init), LateProbe(), f) && SoleReclaimer(LateProbe<M>(), 1)
    ensures After(Begin(init), LateProbe<M>(), f)
            == State(Some(Holder(1, 1)), [Dead, Inside(1, None), Inside(2, None)], 3, init, [])
  {
    hide Runs, After;
    var b: State<S, M> := Begin(init);
    HolderExitsRuns(init, f);
    var h := HolderExits();
    Extend(b, h, Probe(1, false), f);
    Extend(b, h + [Probe(1, false)], Unlink(1), f);
    Extend(b, h + [Probe(1, false)] + [Unlink(1)], Link(1), f);
  }

  /** 1 waits on the lock 0 holds, judges it stale by its age, removes it and enters. */
  function AgedOut<M>(): seq<Step<M>> {
    [Spawn] + [Spawn] + [Spawn] + [Start(0)] + [Link(0)] + [Start(1)] + [Read(1)] + [Probe(1, true)] + [Unlink(1)] + [Link(1)]
  }

  /** A live holder that outlasts the stale age is overtaken: the age must exceed every critical section. */
  lemma AgeReclaimOverlaps<S, M>(init: S, f: (S, M) -> S)
    ensures Runs(Begin<S, M>(init), AgedOut(), f)
    ensures After(Begin(init), AgedOut<M>(), f) == State(Some(Holder(1, 1)), [Inside(0, None), Inside(1, None), Out], 2, init, [])
  {
    hide Runs, After;
    var b: State<S, M> := Begin(init);
    SpawnThree<S, M>(init, f);
    var s3 := [Spawn] + [Spawn] + [Spawn];
    Extend(b, s3, Start(0), f);
    Extend(b, s3 + [Start(0)], Link(0), f);
    var s5 := s3 + [Start(0)] + [Link(0)];
    assert After(b, s5, f) == State(Some(Holder(0, 0)), [Inside(0, None), Out, Out], 1, init, []);
    Extend(b, s5, Start(1), f);
    Extend(b, s5 + [Start(1)], Read(1), f);
    Extend(b, s5 + [Start(1)] + [Read(1)], Probe(1, true), f);
    var s8 := s5 + [Start(1)] + [Read(1)] + [Probe(1, true)];
    assert After(b, s8, f) == State(Some(Holder(0, 0)), [Inside(0, None), Judged(1, Holder(0, 0), true), Out], 2, init, []);
    Extend(b, s8, Unlink(1), f);
    Extend(b, s8 + [Unlink(1)], Link(1), f);
  }
}
