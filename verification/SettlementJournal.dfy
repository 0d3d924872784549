/** The durable journal of settlements that are paid but not yet recorded. */
module SettlementJournal {
  import opened Common

  type StreamId = nat
  type Millis = int

  /** `withdraw-<stream>-<time>`: the settlement reference, and the key of an entry. */
  datatype Ref = Ref(stream: StreamId, time: Millis)

  datatype Phase = InTransfer | InRecord

  datatype Entry = Entry(gen: nat, amount: nat, phase: Phase, attempts: nat)

  type Entries = map<Ref, Entry>

  /** What the process knows and what a restart would find. */
  datatype Journal = Journal(mem: Entries, disk: Entries)

  /** A flush replaces the whole file by a rename, or leaves it as it was. */
  function Flush(j: Journal, written: bool): Journal {
    if written then j.(disk := j.mem) else j
  }

  function Put(j: Journal, r: Ref, e: Entry, written: bool): Journal {
    Flush(j.(mem := j.mem[r := e]), written)
  }

  function Bump(j: Journal, r: Ref, written: bool): Journal {
    if r in j.mem then Put(j, r, j.mem[r].(attempts := j.mem[r].attempts + 1), written) else j
  }

  function Remove(j: Journal, r: Ref, written: bool): Journal {
    if r in j.mem then Flush(j.(mem := j.mem - {r}), written) else j
  }

  /** A new process starts from the file. */
  function Restart(j: Journal): Journal {
    j.(mem := j.disk)
  }

  // ----- what a crash leaves of a run of operations -----

  datatype Op = PutOp(r: Ref, e: Entry, written: bool) | BumpOp(r: Ref, written: bool) | RemoveOp(r: Ref, written: bool)

  function Do(j: Journal, op: Op): Journal {
    match op
    case PutOp(r, e, written) => Put(j, r, e, written)
    case BumpOp(r, written) => Bump(j, r, written)
    case RemoveOp(r, written) => Remove(j, r, written)
  }

  function DoAll(j: Journal, ops: seq<Op>): Journal {
    if |ops| == 0 then j else Do(DoAll(j, ops[..|ops| - 1]), ops[|ops| - 1])
  }

  /** The operation replaced the file: its write succeeded, and it had something to write. */
  predicate Flushes(j: Journal, op: Op) {
    op.written && (op.PutOp? || op.r in j.mem)
  }

  /** How many operations had been done when the file was last replaced; 0 when it never was. */
  function LastFlush(j: Journal, ops: seq<Op>): (k: nat)
    ensures k <= |ops|
  {
    if |ops| == 0 then 0
    else if Flushes(DoAll(j, ops[..|ops| - 1]), ops[|ops| - 1]) then |ops|
    else LastFlush(j, ops[..|ops| - 1])
  }

  lemma FlushesIff(j: Journal, op: Op)
    ensures Do(j, op).disk == if Flushes(j, op) then Do(j, op).mem else j.disk
  {
  }

  /**
   * Wherever a process that had read its file stops, its successor starts with the entries that process knew just
   * after its last successful flush: a state that was real, never a mixture of two, and missing only what came after.
   */
  lemma {:induction false} RestartFindsLastFlush(j: Journal, ops: seq<Op>)
    requires j.mem == j.disk
    ensures var k := LastFlush(j, ops);
            && Restart(DoAll(j, ops)).mem == DoAll(j, ops[..k]).mem
            && forall i :: k <= i < |ops| ==> !Flushes(DoAll(j, ops[..i]), ops[i])
  {
    if |ops| > 0 {
      hide Do, Flushes;
      var n := |ops| - 1;
      var k := LastFlush(j, ops);
      FlushesIff(DoAll(j, ops[..n]), ops[n]);
      if k == |ops| {
        assert ops[..k] == ops;
      } else {
        RestartFindsLastFlush(j, ops[..n]);
        assert ops[..n][..k] == ops[..k];
        hide DoAll;
        forall i | k <= i < |ops| ensures !Flushes(DoAll(j, ops[..i]), ops[i]) {
          if i < n {
            assert ops[..n][..i] == ops[..i] && ops[..n][i] == ops[i];
          }
        }
      }
    }
  }

  /** So with writes that never fail, a restart loses nothing. */
  lemma {:induction false} ReliableWritesLoseNothing(j: Journal, ops: seq<Op>)
    requires j.mem == j.disk && forall i :: 0 <= i < |ops| ==> ops[i].written
    ensures Restart(DoAll(j, ops)) == DoAll(j, ops)
  {
    if |ops| > 0 {
      ReliableWritesLoseNothing(j, ops[..|ops| - 1]);
    }
  }

  class JournalFile {
    var stored: Entries

    constructor ()
      ensures stored == map[]
    {
      stored := map[];
    }
  }

  class Writer {
    const file: JournalFile
    var entries: Option<Entries>

    constructor (file: JournalFile)
      ensures this.file == file && View() == Restart(Journal(map[], file.stored))
    {
      this.file := file;
      entries := None;
    }

    /** Until the file is first read, what the process knows is what the file holds. */
    function View(): Journal
      reads this, file
    {
      Journal(if entries.Some? then entries.value else file.stored, file.stored)
    }

    method EnsureLoaded() returns (es: Entries)
      modifies this
      ensures View() == old(View()) && entries == Some(es) && es == View().mem
    {
      if entries.None? {
        entries := Some(file.stored);
      }
      es := entries.value;
    }

    /** `written` says whether the write succeeds; a failed write throws. */
    method FlushToFile(written: bool) returns (ok: bool)
      modifies file
      ensures entries.Some? ==> View() == Flush(old(View()), written)
      ensures entries.None? ==> View() == old(View())
      ensures ok == (written || entries.None?)
    {
      if entries.None? {
        return true;
      }
      if written {
        file.stored := entries.value;
      }
      ok := written;
    }

    method PutEntry(r: Ref, e: Entry, written: bool) returns (ok: bool)
      modifies this, file
      ensures View() == Put(old(View()), r, e, written) && ok == written
    {
      var es := EnsureLoaded();
      entries := Some(es[r := e]);
      ok := FlushToFile(written);
    }

    method BumpAttempts(r: Ref, written: bool) returns (ok: bool)
      modifies this, file
      ensures View() == Bump(old(View()), r, written) && ok == (written || r !in old(View()).mem)
    {
      var es := EnsureLoaded();
      if r !in es {
        return true;
      }
      entries := Some(es[r := es[r].(attempts := es[r].attempts + 1)]);
      ok := FlushToFile(written);
    }

    method RemoveEntry(r: Ref, written: bool) returns (ok: bool)
      modifies this, file
      ensures View() == Remove(old(View()), r, written) && ok == (written || r !in old(View()).mem)
    {
      var es := EnsureLoaded();
      if r !in es {
        return true;
      }
      entries := Some(es - {r});
      ok := FlushToFile(written);
    }

    /** Every entry once, in no particular order. */
    method List() returns (es: Entries)
      modifies this
      ensures View() == old(View()) && es == View().mem
    {
      es := EnsureLoaded();
    }
  }
}
