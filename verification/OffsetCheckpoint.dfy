/**
 * The subscriber's offset checkpoint: one loop per asset, all saving to one file by load, change and save through
 * one shared temporary file, without any lock.
 */
module OffsetCheckpoint {
  import opened Common

  type Asset = nat

  datatype Event = Event(id: nat, offset: nat, settles: bool)

  /** A file another writer was caught in is not JSON; it reads as an empty map. */
  datatype Content = Torn | Whole(offsets: map<Asset, nat>)

  function Read(c: Content): map<Asset, nat> {
    if c.Whole? then c.offsets else map[]
  }

  function OffsetIn(m: map<Asset, nat>, a: Asset): nat {
    if a in m then m[a] else 0
  }

  /** The events that are emitted, in order. */
  function Settles(es: seq<Event>): seq<Event> {
    if |es| == 0 then [] else Settles(es[..|es| - 1]) + (if es[|es| - 1].settles then [es[|es| - 1]] else [])
  }

  lemma {:induction false} SettlesKeeps(es: seq<Event>, e: Event)
    ensures e in Settles(es) <==> e in es && e.settles
  {
    if |es| > 0 {
      SettlesKeeps(es[..|es| - 1], e);
    }
  }

  // ----- one loop alone -----

  class OffsetFile {
    var content: Content

    constructor ()
      ensures content == Whole(map[])
    {
      content := Whole(map[]);
    }
  }

  class OffsetStore {
    const file: OffsetFile

    constructor (file: OffsetFile)
      ensures this.file == file
    {
      this.file := file;
    }

    method Load() returns (m: map<Asset, nat>)
      ensures m == Read(file.content)
    {
      m := match file.content
           case Torn => map[]
           case Whole(offsets) => offsets;
    }

    method Save(m: map<Asset, nat>, written: bool) returns (ok: bool)
      modifies file
      ensures file.content == (if written then Whole(m) else old(file.content)) && ok == written
    {
      if written {
        file.content := Whole(m);
      }
      ok := written;
    }

    method GetAssetOffset(a: Asset) returns (offset: nat)
      ensures offset == OffsetIn(Read(file.content), a)
    {
      var m := Load();
      offset := if a in m then m[a] else 0;
    }

    method SetAssetOffset(a: Asset, offset: nat, written: bool) returns (ok: bool)
      modifies file
      ensures file.content == (if written then Whole(Read(old(file.content))[a := offset]) else old(file.content))
      ensures ok == written
    {
      var m := Load();
      ok := Save(m[a := offset], written);
    }

    /** Emit what the answer holds, and save only afterwards; an answer without events leaves the checkpoint alone. */
    method PollOnce(a: Asset, events: Option<seq<Event>>, end: Option<nat>, written: bool) returns (emitted: seq<Event>)
      modifies file
      ensures emitted == if events.Some? then Settles(events.value) else []
      ensures forall e :: e in emitted <==> events.Some? && e in events.value && e.settles
      ensures OffsetIn(Read(file.content), a)
              == if events.Some? && end.Some? && written then end.value else OffsetIn(Read(old(file.content)), a)
      ensures forall b :: b != a ==> OffsetIn(Read(file.content), b) == OffsetIn(Read(old(file.content)), b)
    {
      emitted := [];
      if events.None? {
        return;
      }
      var es := events.value;
      for i := 0 to |es|
        invariant emitted == Settles(es[..i])
        invariant file.content == old(file.content)
      {
        assert es[..i + 1][..i] == es[..i];
        if es[i].settles {
          emitted := emitted + [es[i]];
        }
      }
      assert es[..|es|] == es;
      forall e ensures e in emitted <==> e in es && e.settles {
        SettlesKeeps(es, e);
      }
      if end.Some? {
        var ok := SetAssetOffset(a, end.value, written);
      }
    }
  }

  // ----- all loops together -----

  datatype Loop =
    | Idle
    | Asking(resume: nat)
    | Emitting(todo: seq<Event>, end: Option<nat>)
    | Saving(upTo: nat)
    | Loaded(offsets: map<Asset, nat>)
    | Writing(file: nat, offsets: map<Asset, nat>)
    | Renaming

  /**
   * One entry per asset in logs, known and loops. A log is complete up to `known`. `files` are the file bodies ever
   * made; `path` and `tmp` say which of them the two names refer to. `emitted` records every emission.
   */
  datatype State = State(
    logs: seq<seq<Event>>,
    known: seq<nat>,
    loops: seq<Loop>,
    files: seq<Content>,
    path: Option<nat>,
    tmp: Option<nat>,
    emitted: set<(Asset, Event)>
  )

  datatype Step =
    | Happen(a: Asset, e: Event)
    | Settle(a: Asset, upTo: nat)
    | Ask(a: Asset)
    | Answer(a: Asset, events: seq<Event>, end: Option<nat>)
    | NoEvents(a: Asset)
    | Emit(a: Asset)
    | Emitted(a: Asset)
    | LoadMap(a: Asset)
    | OpenTmp(a: Asset)
    | WriteTmp(a: Asset, torn: bool)
    | Rename(a: Asset)
    | Fail(a: Asset)
    | Crash

  predicate WellFormed(st: State) {
    && |st.logs| == |st.known| == |st.loops|
    && (st.path.Some? ==> st.path.value < |st.files|)
    && (st.tmp.Some? ==> st.tmp.value < |st.files|)
    && forall a :: 0 <= a < |st.loops| && st.loops[a].Writing? ==> st.loops[a].file < |st.files|
  }

  function OnDisk(st: State): map<Asset, nat>
    requires WellFormed(st)
  {
    if st.path.Some? then Read(st.files[st.path.value]) else map[]
  }

  /** The answer holds at least every event of the log after `resume` and up to `end`. */
  predicate Complete(log: seq<Event>, resume: nat, end: nat, events: seq<Event>) {
    forall e :: e in log && resume < e.offset <= end ==> e in events
  }

  predicate Enabled(st: State, step: Step)
    requires WellFormed(st)
  {
    step.Crash? || (
      && step.a < |st.loops|
      && match step
         case Happen(a, e) => e.offset > st.known[a]
         case Settle(a, upTo) => st.known[a] <= upTo
         case Ask(a) => st.loops[a].Idle?
         case Answer(a, events, end) =>
           && st.loops[a].Asking?
           && (end.Some? ==> end.value <= st.known[a] && Complete(st.logs[a], st.loops[a].resume, end.value, events))
         case NoEvents(a) => st.loops[a].Asking?
         case Emit(a) => st.loops[a].Emitting? && |st.loops[a].todo| > 0
         case Emitted(a) => st.loops[a].Emitting? && |st.loops[a].todo| == 0
         case LoadMap(a) => st.loops[a].Saving?
         case OpenTmp(a) => st.loops[a].Loaded?
         case WriteTmp(a, _) => st.loops[a].Writing?
         case Rename(a) => st.loops[a].Renaming?
         case Fail(a) => true
         case Crash => true
    )
  }

  function At(st: State, a: Asset, l: Loop): State
    requires a < |st.loops|
  {
    st.(loops := st.loops[a := l])
  }

  function Apply(st: State, step: Step): State
    requires WellFormed(st) && Enabled(st, step)
  {
    match step
    case Happen(a, e) => st.(logs := st.logs[a := st.logs[a] + [e]])
    case Settle(a, upTo) => st.(known := st.known[a := upTo])
    case Ask(a) => At(st, a, Asking(OffsetIn(OnDisk(st), a)))
    case Answer(a, events, end) => At(st, a, Emitting(events, end))
    case NoEvents(a) => At(st, a, Idle)
    case Emit(a) =>
      var l := st.loops[a];
      At(st, a, l.(todo := l.todo[1..])).(emitted := st.emitted + if l.todo[0].settles then {(a, l.todo[0])} else {})
    case Emitted(a) => At(st, a, if st.loops[a].end.Some? then Saving(st.loops[a].end.value) else Idle)
    case LoadMap(a) => At(st, a, Loaded(OnDisk(st)[a := st.loops[a].upTo]))
    case OpenTmp(a) =>
      if st.tmp.Some? then
        At(st, a, Writing(st.tmp.value, st.loops[a].offsets)).(files := st.files[st.tmp.value := Torn])
      else
        At(st, a, Writing(|st.files|, st.loops[a].offsets)).(files := st.files + [Torn], tmp := Some(|st.files|))
    case WriteTmp(a, torn) =>
      var l := st.loops[a];
      At(st, a, Renaming).(files := st.files[l.file := if torn then Torn else Whole(l.offsets)])
    case Rename(a) => At(st, a, Idle).(path := if st.tmp.Some? then st.tmp else st.path, tmp := None)
    case Fail(a) => At(st, a, Idle)
    case Crash => st.(loops := seq(|st.loops|, _ => Idle))
  }

  // ----- what every run keeps -----

  /** Every settlement of the asset up to this offset was emitted, and none can still appear there. */
  predicate Covered(st: State, a: Asset, offset: nat) {
    && a < |st.logs| && a < |st.known| && offset <= st.known[a]
    && forall e :: e in st.logs[a] && e.settles && e.offset <= offset ==> (a, e) in st.emitted
  }

  predicate MapOk(st: State, m: map<Asset, nat>) {
    forall a :: a in m ==> Covered(st, a, m[a])
  }

  predicate LoopOk(st: State, a: Asset, l: Loop)
    requires a < |st.logs| && a < |st.known|
  {
    match l
    case Idle | Renaming => true
    case Asking(resume) => resume > 0 ==> Covered(st, a, resume)
    case Emitting(todo, end) => end.Some? ==>
      && end.value <= st.known[a]
      && forall e :: e in st.logs[a] && e.settles && 0 < e.offset <= end.value ==> (a, e) in st.emitted || e in todo
    case Saving(upTo) => Covered(st, a, upTo)
    case Loaded(m) => MapOk(st, m)
    case Writing(_, m) => MapOk(st, m)
  }

  predicate Inv(st: State) {
    && WellFormed(st)
    && (forall a :: 0 <= a < |st.logs| ==> forall e :: e in st.logs[a] ==> e.offset > 0)
    && (forall i :: 0 <= i < |st.files| ==> MapOk(st, Read(st.files[i])))
    && (forall a :: 0 <= a < |st.loops| ==> LoopOk(st, a, st.loops[a]))
  }

  /** Coverage survives new events, a later horizon and more emissions. */
  predicate Extends(st: State, st': State) {
    && |st'.logs| == |st.logs| && |st'.known| == |st.known| && |st.known| == |st.logs|
    && st.emitted <= st'.emitted
    && (forall a :: 0 <= a < |st.known| ==> st.known[a] <= st'.known[a])
    && (forall a :: 0 <= a < |st.logs| ==> forall e :: e in st'.logs[a] ==> e in st.logs[a] || e.offset > st.known[a])
  }

  lemma CoverageKept(st: State, st': State)
    requires Extends(st, st')
    ensures forall a, o :: Covered(st, a, o) ==> Covered(st', a, o)
  {
  }

  lemma MapsKept(st: State, st': State)
    requires Extends(st, st')
    ensures forall m :: MapOk(st, m) ==> MapOk(st', m)
  {
    CoverageKept(st, st');
    hide Covered, Extends;
  }

  lemma LoopKept(st: State, st': State, a: Asset, l: Loop)
    requires Extends(st, st') && a < |st.logs| && LoopOk(st, a, l)
    ensures LoopOk(st', a, l)
  {
    CoverageKept(st, st');
    MapsKept(st, st');
    hide MapOk, Covered;
  }

  lemma StepInv(st: State, step: Step)
    requires Inv(st) && Enabled(st, step)
    ensures Inv(Apply(st, step))
  {
    var st' := Apply(st, step);
    StepExtends(st, step);
    FilesKept(st, step);
    forall a | 0 <= a < |st'.loops| ensures LoopOk(st', a, st'.loops[a]) {
      if st'.loops[a] == st.loops[a] {
        LoopKept(st, st', a, st.loops[a]);
      } else if !step.Crash? {
        MovedLoop(st, step);
      }
    }
  }

  lemma StepExtends(st: State, step: Step)
    requires Inv(st) && Enabled(st, step)
    ensures Extends(st, Apply(st, step)) && WellFormed(Apply(st, step))
    ensures var st' := Apply(st, step);
            forall a :: 0 <= a < |st'.logs| ==> forall e :: e in st'.logs[a] ==> e.offset > 0
  {
  }

  lemma FilesKept(st: State, step: Step)
    requires Inv(st) && Enabled(st, step)
    ensures var st' := Apply(st, step);
            forall i :: 0 <= i < |st'.files| ==> MapOk(st', Read(st'.files[i]))
  {
    var st' := Apply(st, step);
    StepExtends(st, step);
    MapsKept(st, st');
    hide Covered, Extends, MapOk;
    forall i | 0 <= i < |st'.files| ensures MapOk(st', Read(st'.files[i])) {
      if step.WriteTmp? && i == st.loops[step.a].file && !step.torn {
        assert LoopOk(st, step.a, st.loops[step.a]);
      } else if i < |st.files| && st'.files[i] == st.files[i] {
        assert MapOk(st, Read(st.files[i]));
      } else {
        EmptyMapOk(st');
      }
    }
  }

  lemma EmptyMapOk(st: State)
    ensures MapOk(st, map[])
  {
  }

  /** The loop that takes the step is in order after it. */
  lemma MovedLoop(st: State, step: Step)
    requires Inv(st) && Enabled(st, step) && !step.Crash?
    ensures LoopOk(Apply(st, step), step.a, Apply(st, step).loops[step.a])
  {
    var st', a := Apply(st, step), step.a;
    var l := st.loops[a];
    StepExtends(st, step);
    MapsKept(st, st');
    LoopKept(st, st', a, l);
    if st.path.Some? {
      assert MapOk(st, Read(st.files[st.path.value]));
    }
    if step.Emit? {
      assert l.todo == [l.todo[0]] + l.todo[1..];
    }
    hide Extends;
  }

  // ----- whole runs -----

  predicate Runs(st: State, steps: seq<Step>)
    decreases |steps|
  {
    |steps| > 0 ==> WellFormed(st) && Enabled(st, steps[0]) && Runs(Apply(st, steps[0]), steps[1..])
  }

  function After(st: State, steps: seq<Step>): State
    requires Runs(st, steps)
    decreases |steps|
  {
    if |steps| == 0 then st else After(Apply(st, steps[0]), steps[1..])
  }

  function Start(assets: nat): State {
    State(seq(assets, _ => []), seq(assets, _ => 0), seq(assets, _ => Idle), [], None, None, {})
  }

  lemma {:induction false} RunInv(st: State, steps: seq<Step>)
    requires Inv(st) && Runs(st, steps)
    ensures Inv(After(st, steps))
    decreases |steps|
  {
    if |steps| > 0 {
      StepInv(st, steps[0]);
      RunInv(Apply(st, steps[0]), steps[1..]);
    }
  }

  /**
   * Whatever the loops overwrite of each other, and wherever the process stops: the checkpoint a restart reads is
   * never past a settlement that was not emitted.
   */
  lemma CheckpointNeverAhead(assets: nat, steps: seq<Step>, a: Asset, e: Event)
    requires Runs(Start(assets), steps)
    ensures var st := After(Start(assets), steps);
            WellFormed(st) && |st.logs| == |st.loops|
            && (a < |st.logs| && e in st.logs[a] && e.settles && e.offset <= OffsetIn(OnDisk(st), a) ==> (a, e) in st.emitted)
  {
    RunInv(Start(assets), steps);
    var st := After(Start(assets), steps);
    if st.path.Some? {
      assert MapOk(st, Read(st.files[st.path.value]));
    }
  }

  /** A poll that gets as far as saving has emitted, now or before, every settlement up to its end offset. */
  lemma EveryEventIsEmitted(assets: nat, steps: seq<Step>, a: Asset, e: Event)
    requires Runs(Start(assets), steps)
    ensures var st := After(Start(assets), steps);
            |st.logs| == |st.loops|
            && (a < |st.loops| && st.loops[a].Saving? && e in st.logs[a] && e.settles && e.offset <= st.loops[a].upTo
                ==> (a, e) in st.emitted)
  {
    RunInv(Start(assets), steps);
    var st := After(Start(assets), steps);
    if a < |st.loops| {
      assert LoopOk(st, a, st.loops[a]);
    }
  }

  lemma {:induction false} RunsJoin(st: State, xs: seq<Step>, ys: seq<Step>)
    requires Runs(st, xs) && Runs(After(st, xs), ys)
    ensures Runs(st, xs + ys) && After(st, xs + ys) == After(After(st, xs), ys)
    decreases |xs|
  {
    hide Enabled, Apply, WellFormed;
    if |xs| == 0 {
      assert xs + ys == ys;
    } else {
      assert (xs + ys)[1..] == xs[1..] + ys;
      RunsJoin(Apply(st, xs[0]), xs[1..], ys);
    }
  }

  function Emits(a: Asset, n: nat): seq<Step> {
    if n == 0 then [] else [Emit(a)] + Emits(a, n - 1)
  }

  /** Emitting what an answer holds emits every settlement of it, and nothing else. */
  lemma {:induction false} EmitsAll(st: State, a: Asset)
    requires WellFormed(st) && a < |st.loops| && st.loops[a].Emitting?
    ensures var steps := Emits(a, |st.loops[a].todo|);
            && Runs(st, steps)
            && var st' := After(st, steps);
               && WellFormed(st') && st' == st.(loops := st'.loops, emitted := st'.emitted)
               && st'.loops == st.loops[a := Emitting([], st.loops[a].end)]
               && forall b, e :: (b, e) in st'.emitted <==> (b, e) in st.emitted || (b == a && e in st.loops[a].todo && e.settles)
    decreases |st.loops[a].todo|
  {
    var todo := st.loops[a].todo;
    if |todo| > 0 {
      EmitOne(st, a);
      var s1 := Apply(st, Emit(a));
      EmitsAll(s1, a);
      assert Emits(a, |todo|)[0] == Emit(a) && Emits(a, |todo|)[1..] == Emits(a, |todo| - 1);
      assert forall e :: e in todo <==> e == todo[0] || e in todo[1..];
      hide Apply, Enabled, WellFormed, Emits;
      assert st.loops[a := Emitting([], st.loops[a].end)] == s1.loops[a := Emitting([], st.loops[a].end)];
    } else {
      assert st.loops[a := Emitting([], st.loops[a].end)] == st.loops;
    }
  }

  lemma EmitOne(st: State, a: Asset)
    requires WellFormed(st) && a < |st.loops| && st.loops[a].Emitting? && |st.loops[a].todo| > 0
    ensures Enabled(st, Emit(a))
    ensures var l, s1 := st.loops[a], Apply(st, Emit(a));
            && WellFormed(s1) && s1 == st.(loops := s1.loops, emitted := s1.emitted)
            && s1.loops == st.loops[a := Emitting(l.todo[1..], l.end)]
            && forall b, e :: (b, e) in s1.emitted <==> (b, e) in st.emitted || (b == a && e == l.todo[0] && e.settles)
  {
  }

  /** A poll's save that nothing disturbs moves the asset's checkpoint to the end offset, and no other's. */
  lemma SaveAdvances(st: State, a: Asset)
    requires Inv(st) && a < |st.loops| && st.loops[a].Saving? && st.tmp.None?
    ensures var steps := [LoadMap(a)] + [OpenTmp(a), WriteTmp(a, false), Rename(a)];
            Runs(st, steps) && WellFormed(After(st, steps)) && OnDisk(After(st, steps)) == OnDisk(st)[a := st.loops[a].upTo]
  {
    var s1 := Apply(st, LoadMap(a));
    StepInv(st, LoadMap(a));
    SaveBringsBackItsLoad(s1, a);
    assert Runs(s1, []) && After(s1, []) == s1;
    assert [LoadMap(a)][1..] == [];
    hide Inv;
    RunsJoin(st, [LoadMap(a)], [OpenTmp(a), WriteTmp(a, false), Rename(a)]);
  }

  /**
   * A save that is not disturbed leaves exactly the map its load saw, so a checkpoint another loop saved since that
   * load goes back; those settlements are emitted again after a restart, and none is lost.
   */
  lemma SaveBringsBackItsLoad(st: State, a: Asset)
    requires Inv(st) && a < |st.loops| && st.loops[a].Loaded? && st.tmp.None?
    ensures var steps := [OpenTmp(a), WriteTmp(a, false), Rename(a)];
            Runs(st, steps) && WellFormed(After(st, steps)) && OnDisk(After(st, steps)) == st.loops[a].offsets
  {
    var s1 := Apply(st, OpenTmp(a));
    StepInv(st, OpenTmp(a));
    var s2 := Apply(s1, WriteTmp(a, false));
    StepInv(s1, WriteTmp(a, false));
    var s3 := Apply(s2, Rename(a));
    StepInv(s2, Rename(a));
    hide Inv;
    assert Runs(s3, []) && After(s3, []) == s3;
    assert [Rename(a)][1..] == [];
    assert Runs(s2, [Rename(a)]) && After(s2, [Rename(a)]) == s3;
    assert [WriteTmp(a, false), Rename(a)][1..] == [Rename(a)];
    assert Runs(s1, [WriteTmp(a, false), Rename(a)]) && After(s1, [WriteTmp(a, false), Rename(a)]) == s3;
    assert [OpenTmp(a), WriteTmp(a, false), Rename(a)][1..] == [WriteTmp(a, false), Rename(a)];
  }
}
