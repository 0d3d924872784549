/** Carrying out the decided actions once each, with the ones in flight on disk before they are submitted. */
module ExecutorLoop {
  import opened Common
  import opened Executor

  datatype Key = Key(policyId: nat, streamId: StreamId)

  /** A submitted action, its place among the decided ones, and what a process that stopped here would read back. */
  datatype Submit = Submit(key: Key, amount: int, place: nat, onDisk: set<Key>)

  /** No write of the guard succeeded up to the k-th submission: one write reserves an action, one releases it. */
  ghost predicate Unwritten(submits: seq<Submit>, k: nat, written: nat -> bool) {
    forall m :: 0 <= m <= k && m < |submits| ==>
      !written(2 * submits[m].place) && (m < k ==> !written(2 * submits[m].place + 1))
  }

  /** A logged success of this stream that is younger than the cooldown. */
  predicate AlreadyExecuted(p: Policy, recent: seq<Log>, stream: StreamId, now: Millis) {
    exists i :: 0 <= i < |recent| && recent[i].streamId == stream && recent[i].success
                && (now - recent[i].time) * 1000 < p.cooldown
  }

  predicate Skipped(p: Policy, recent: seq<Log>, x: Pending, now: Millis, blocked: set<Key>) {
    AlreadyExecuted(p, recent, x.streamId, now) || Key(p.policyId, x.streamId) in blocked
  }

  /** The actions submitted, in order; `clock` gives the time at which each is looked at. */
  function Submitted(p: Policy, recent: seq<Log>, pending: seq<Pending>, clock: nat -> Millis, blocked: set<Key>): seq<(Key, int)> {
    if |pending| == 0 then []
    else
      var n := |pending| - 1;
      var earlier := Submitted(p, recent, pending[..n], clock, blocked);
      if Skipped(p, recent, pending[n], clock(n), blocked) then earlier
      else earlier + [(Key(p.policyId, pending[n].streamId), pending[n].amount)]
  }

  lemma {:induction false} SubmittedAreFree(p: Policy, recent: seq<Log>, pending: seq<Pending>, clock: nat -> Millis, blocked: set<Key>)
    ensures |Submitted(p, recent, pending, clock, blocked)| <= |pending|
    ensures forall i :: 0 <= i < |Submitted(p, recent, pending, clock, blocked)| ==>
              Submitted(p, recent, pending, clock, blocked)[i].0 !in blocked
  {
    if |pending| > 0 {
      SubmittedAreFree(p, recent, pending[..|pending| - 1], clock, blocked);
    }
  }

  class Guard {
    var reserved: set<Key>
    var stored: set<Key>
    var startup: set<Key>

    /** A process starts with whatever was in flight when the last one stopped. */
    constructor (stored: set<Key>)
      ensures reserved == {} && this.stored == stored && startup == stored
    {
      reserved, this.stored, startup := {}, stored, stored;
    }

    /** A failed write is only warned about. */
    method Persist(written: bool)
      modifies this`stored
      ensures stored == if written then reserved else old(stored)
    {
      if written {
        stored := reserved;
      }
    }

    /** Each decided action that nothing blocks, once and in order, with its id on disk while it is submitted. */
    method ExecutePending(p: Policy, recent: seq<Log>, pending: seq<Pending>, clock: nat -> Millis, written: nat -> bool)
      returns (submits: seq<Submit>)
      modifies this
      ensures reserved == old(reserved) && startup == old(startup)
      ensures Outcome(submits, stored) == Carry(p, recent, pending, clock, written, reserved, reserved + startup, old(stored))
      ensures Actions(submits) == Submitted(p, recent, pending, clock, reserved + startup)
      ensures (forall i :: written(i)) ==> forall i :: 0 <= i < |submits| ==> submits[i].onDisk == reserved + {submits[i].key}
    {
      CarrySubmits(p, recent, pending, clock, written, reserved, reserved + startup, stored);
      CarryNone(p, recent, pending, clock, written, reserved, reserved + startup, stored);
      hide Carry, Submitted, Actions, AlreadyExecuted;
      submits := [];
      for i := 0 to |pending|
        invariant reserved == old(reserved) && startup == old(startup)
        invariant Outcome(submits, stored) == Carry(p, recent, pending[..i], clock, written, reserved, reserved + startup, old(stored))
      {
        CarryStep(p, recent, pending, clock, written, reserved, reserved + startup, old(stored), i);
        var x := pending[i];
        var key := Key(p.policyId, x.streamId);
        if AlreadyExecuted(p, recent, x.streamId, clock(i)) || key in reserved || key in startup {
          continue;
        }
        reserved := reserved + {key};
        Persist(written(2 * i));
        submits := submits + [Submit(key, x.amount, i, stored)];
        reserved := reserved - {key};
        assert reserved == old(reserved);
        Persist(written(2 * i + 1));
      }
      assert pending[..|pending|] == pending;
    }
  }

  // ----- what is on disk -----

  function Actions(submits: seq<Submit>): seq<(Key, int)> {
    seq(|submits|, i requires 0 <= i < |submits| => (submits[i].key, submits[i].amount))
  }

  datatype Outcome = Outcome(submits: seq<Submit>, stored: set<Key>)

  /** The submissions and what the guard file holds after them; each is written twice, before it and after it. */
  function Carry(p: Policy, recent: seq<Log>, pending: seq<Pending>, clock: nat -> Millis, written: nat -> bool,
                 reserved: set<Key>, blocked: set<Key>, stored: set<Key>): Outcome
  {
    if |pending| == 0 then Outcome([], stored)
    else
      var n := |pending| - 1;
      var earlier := Carry(p, recent, pending[..n], clock, written, reserved, blocked, stored);
      var key := Key(p.policyId, pending[n].streamId);
      if Skipped(p, recent, pending[n], clock(n), blocked) then earlier
      else
        var onDisk := if written(2 * n) then reserved + {key} else earlier.stored;
        Outcome(earlier.submits + [Submit(key, pending[n].amount, n, onDisk)], if written(2 * n + 1) then reserved else onDisk)
  }

  lemma CarryStep(p: Policy, recent: seq<Log>, pending: seq<Pending>, clock: nat -> Millis, written: nat -> bool,
                  reserved: set<Key>, blocked: set<Key>, stored: set<Key>, i: nat)
    requires i < |pending|
    ensures var earlier := Carry(p, recent, pending[..i], clock, written, reserved, blocked, stored);
            var key := Key(p.policyId, pending[i].streamId);
            var onDisk := if written(2 * i) then reserved + {key} else earlier.stored;
            Carry(p, recent, pending[..i + 1], clock, written, reserved, blocked, stored)
            == if AlreadyExecuted(p, recent, pending[i].streamId, clock(i)) || key in blocked then earlier
               else Outcome(earlier.submits + [Submit(key, pending[i].amount, i, onDisk)], if written(2 * i + 1) then reserved else onDisk)
  {
    assert pending[..i + 1][..i] == pending[..i];
  }

  lemma CarryNone(p: Policy, recent: seq<Log>, pending: seq<Pending>, clock: nat -> Millis, written: nat -> bool,
                  reserved: set<Key>, blocked: set<Key>, stored: set<Key>)
    ensures Carry(p, recent, pending[..0], clock, written, reserved, blocked, stored) == Outcome([], stored)
  {
  }

  lemma {:induction false} CarrySubmits(p: Policy, recent: seq<Log>, pending: seq<Pending>, clock: nat -> Millis, written: nat -> bool,
                                        reserved: set<Key>, blocked: set<Key>, stored: set<Key>)
    ensures var o := Carry(p, recent, pending, clock, written, reserved, blocked, stored);
            && Actions(o.submits) == Submitted(p, recent, pending, clock, blocked)
            && (forall i :: 0 <= i < |o.submits| ==> o.submits[i].key !in blocked)
            && ((forall i :: written(i)) ==> forall i :: 0 <= i < |o.submits| ==> o.submits[i].onDisk == reserved + {o.submits[i].key})
  {
    if |pending| > 0 {
      CarrySubmits(p, recent, pending[..|pending| - 1], clock, written, reserved, blocked, stored);
    }
  }

  /** One of the submissions is of the i-th decided action. */
  predicate At(submits: seq<Submit>, i: nat) {
    exists k :: 0 <= k < |submits| && submits[k].place == i
  }

  /**
   * Which decided actions are submitted: those whose key is not blocked and whose stream has no success on record
   * that is younger than the cooldown, each for its decided amount; a failure or another stream's log blocks nothing.
   */
  lemma {:induction false} SubmittedIff(p: Policy, recent: seq<Log>, pending: seq<Pending>, clock: nat -> Millis, written: nat -> bool,
                                        reserved: set<Key>, blocked: set<Key>, stored: set<Key>, i: nat)
    requires i < |pending|
    ensures var submits := Carry(p, recent, pending, clock, written, reserved, blocked, stored).submits;
            && (At(submits, i)
                <==> && Key(p.policyId, pending[i].streamId) !in blocked
                     && forall j :: 0 <= j < |recent| && recent[j].streamId == pending[i].streamId && recent[j].success ==>
                          (clock(i) - recent[j].time) * 1000 >= p.cooldown)
            && (forall k :: 0 <= k < |submits| ==> submits[k].place < |pending|)
            && (forall k :: 0 <= k < |submits| && submits[k].place == i ==>
                  submits[k].key == Key(p.policyId, pending[i].streamId) && submits[k].amount == pending[i].amount)
  {
    PlacesBelow(p, recent, pending, clock, written, reserved, blocked, stored);
    SubmittedAt(p, recent, pending, clock, written, reserved, blocked, stored, i);
    hide Carry;
    assert AlreadyExecuted(p, recent, pending[i].streamId, clock(i))
           <==> !forall j :: 0 <= j < |recent| && recent[j].streamId == pending[i].streamId && recent[j].success ==>
                  (clock(i) - recent[j].time) * 1000 >= p.cooldown;
  }

  lemma {:induction false} SubmittedAt(p: Policy, recent: seq<Log>, pending: seq<Pending>, clock: nat -> Millis, written: nat -> bool,
                                       reserved: set<Key>, blocked: set<Key>, stored: set<Key>, i: nat)
    requires i < |pending|
    ensures var submits := Carry(p, recent, pending, clock, written, reserved, blocked, stored).submits;
            && (At(submits, i) <==> !Skipped(p, recent, pending[i], clock(i), blocked))
            && (forall k :: 0 <= k < |submits| && submits[k].place == i ==>
                  submits[k].key == Key(p.policyId, pending[i].streamId) && submits[k].amount == pending[i].amount)
  {
    var n := |pending| - 1;
    var submits := Carry(p, recent, pending, clock, written, reserved, blocked, stored).submits;
    var earlier := Carry(p, recent, pending[..n], clock, written, reserved, blocked, stored).submits;
    PlacesBelow(p, recent, pending[..n], clock, written, reserved, blocked, stored);
    if i < n {
      SubmittedAt(p, recent, pending[..n], clock, written, reserved, blocked, stored, i);
    }
    hide Skipped;
    assert forall k :: 0 <= k < |earlier| ==> submits[k] == earlier[k] && earlier[k].place < n by {
      assert forall k :: 0 <= k < |earlier| ==> earlier[k] in earlier;
    }
    assert i < n ==> pending[..n][i] == pending[i];
    if Skipped(p, recent, pending[n], clock(n), blocked) {
      assert submits == earlier;
    } else {
      assert submits[|earlier|].place == n && |submits| == |earlier| + 1;
      PlaceAmong(earlier, submits, i, n);
    }
  }

  lemma PlaceAmong(earlier: seq<Submit>, submits: seq<Submit>, i: nat, n: nat)
    requires |submits| == |earlier| + 1 && submits[|earlier|].place == n
    requires forall k :: 0 <= k < |earlier| ==> submits[k] == earlier[k]
    ensures At(submits, i) <==> i == n || At(earlier, i)
  {
    if At(earlier, i) {
      var k :| 0 <= k < |earlier| && earlier[k].place == i;
      assert submits[k].place == i;
    }
  }

  lemma {:induction false} PlacesBelow(p: Policy, recent: seq<Log>, pending: seq<Pending>, clock: nat -> Millis, written: nat -> bool,
                                       reserved: set<Key>, blocked: set<Key>, stored: set<Key>)
    ensures forall s :: s in Carry(p, recent, pending, clock, written, reserved, blocked, stored).submits ==> s.place < |pending|
  {
    if |pending| > 0 {
      PlacesBelow(p, recent, pending[..|pending| - 1], clock, written, reserved, blocked, stored);
    }
  }

  /**
   * How long an id that a restart found on disk stays there: until the first write that succeeds. A second stop in
   * the same cycle reads it back exactly when no write had succeeded by then.
   */
  lemma {:induction false} GuardSurvivesIff(p: Policy, recent: seq<Log>, pending: seq<Pending>, clock: nat -> Millis, written: nat -> bool,
                                            reserved: set<Key>, blocked: set<Key>, stored: set<Key>, key: Key)
    requires key in stored && key in blocked && key !in reserved
    ensures var o := Carry(p, recent, pending, clock, written, reserved, blocked, stored);
            && (forall k :: 0 <= k < |o.submits| ==> (key in o.submits[k].onDisk <==> Unwritten(o.submits, k, written)))
            && (key in o.stored <==> Unwritten(o.submits, |o.submits|, written))
  {
    if |pending| > 0 {
      var n := |pending| - 1;
      var earlier := Carry(p, recent, pending[..n], clock, written, reserved, blocked, stored);
      GuardSurvivesIff(p, recent, pending[..n], clock, written, reserved, blocked, stored, key);
      var o := Carry(p, recent, pending, clock, written, reserved, blocked, stored);
      if !Skipped(p, recent, pending[n], clock(n), blocked) {
        UnwrittenGrows(earlier.submits, o.submits[|earlier.submits|], written);
      }
    }
  }

  lemma UnwrittenGrows(submits: seq<Submit>, last: Submit, written: nat -> bool)
    ensures forall k :: 0 <= k < |submits| ==> (Unwritten(submits + [last], k, written) <==> Unwritten(submits, k, written))
    ensures Unwritten(submits + [last], |submits|, written) <==> Unwritten(submits, |submits|, written) && !written(2 * last.place)
    ensures Unwritten(submits + [last], |submits| + 1, written)
            <==> Unwritten(submits, |submits|, written) && !written(2 * last.place) && !written(2 * last.place + 1)
  {
    var all := submits + [last];
    assert all[|submits|] == last;
    assert forall m :: 0 <= m < |submits| ==> all[m] == submits[m];
  }

  /**
   * A process that stopped while this action was in flight comes back with it blocked exactly when its id had been
   * written: then its first cycle, whatever is decided, does not submit it again; otherwise a cycle that decides it
   * as its first action, with no success of the stream on record, does.
   */
  lemma RestartReplaysIff(submit: Submit, p: Policy, recent: seq<Log>, pending: seq<Pending>, clock: nat -> Millis)
    requires |pending| > 0 && submit.key == Key(p.policyId, pending[0].streamId)
    requires forall i :: 0 <= i < |pending| ==> !AlreadyExecuted(p, recent, pending[i].streamId, clock(i))
    ensures (exists i :: 0 <= i < |Submitted(p, recent, pending, clock, submit.onDisk)|
                         && Submitted(p, recent, pending, clock, submit.onDisk)[i].0 == submit.key)
            <==> submit.key !in submit.onDisk
  {
    SubmittedAreFree(p, recent, pending, clock, submit.onDisk);
    if submit.key !in submit.onDisk {
      FirstIsSubmitted(p, recent, pending, clock, submit.onDisk);
    }
  }

  lemma {:induction false} FirstIsSubmitted(p: Policy, recent: seq<Log>, pending: seq<Pending>, clock: nat -> Millis, blocked: set<Key>)
    requires |pending| > 0 && !Skipped(p, recent, pending[0], clock(0), blocked)
    ensures |Submitted(p, recent, pending, clock, blocked)| > 0
    ensures Submitted(p, recent, pending, clock, blocked)[0].0 == Key(p.policyId, pending[0].streamId)
  {
    var n := |pending| - 1;
    if n > 0 {
      FirstIsSubmitted(p, recent, pending[..n], clock, blocked);
    } else {
      assert Submitted(p, recent, pending[..n], clock, blocked) == [];
    }
  }

  /** What is submitted in the first cycle after a restart, whatever is decided: nothing that was on disk. */
  lemma RestartDoesNotReplay(submit: Submit, p: Policy, recent: seq<Log>, pending: seq<Pending>, clock: nat -> Millis)
    requires submit.key in submit.onDisk
    ensures forall i :: 0 <= i < |Submitted(p, recent, pending, clock, submit.onDisk)| ==>
              Submitted(p, recent, pending, clock, submit.onDisk)[i].0 != submit.key
  {
    SubmittedAreFree(p, recent, pending, clock, submit.onDisk);
  }
}
