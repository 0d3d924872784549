/** The delegated executor: what it decides from a pruned log, and the rate any run of it keeps. */
module Executor {
  import opened Common

  /** Milliseconds; the limits are in microseconds. */
  type Millis = int
  type StreamId = nat

  datatype Log = Log(policyId: nat, streamId: StreamId, time: Millis, success: bool)

  datatype Policy = Policy(
    policyId: nat,
    max: int,
    period: int,
    cooldown: int,
    maxAmount: int,
    filters: seq<StreamId>,
    mayWithdraw: bool
  )

  datatype Pending = Pending(streamId: StreamId, amount: int)

  const MAX_RETAINED_LOGS: nat := 256

  /** A Date drops the fraction of a millisecond. */
  function Back(now: Millis, micros: int): Millis {
    now + (0 - micros) / 1000
  }

  function CountAfter(logs: seq<Log>, t: Millis): nat {
    if |logs| == 0 then 0 else CountAfter(logs[..|logs| - 1], t) + (if logs[|logs| - 1].time > t then 1 else 0)
  }

  function After(logs: seq<Log>, t: Millis): seq<Log> {
    if |logs| == 0 then []
    else if logs[|logs| - 1].time > t then After(logs[..|logs| - 1], t) + [logs[|logs| - 1]]
    else After(logs[..|logs| - 1], t)
  }

  function OfPolicy(logs: seq<Log>, id: nat): seq<Log> {
    if |logs| == 0 then []
    else if logs[|logs| - 1].policyId == id then OfPolicy(logs[..|logs| - 1], id) + [logs[|logs| - 1]]
    else OfPolicy(logs[..|logs| - 1], id)
  }

  /** Newest first. */
  function Insert(x: Log, logs: seq<Log>): seq<Log> {
    if |logs| == 0 then [x]
    else if logs[|logs| - 1].time < x.time then Insert(x, logs[..|logs| - 1]) + [logs[|logs| - 1]]
    else logs + [x]
  }

  function Sorted(logs: seq<Log>): seq<Log> {
    if |logs| == 0 then [] else Insert(logs[|logs| - 1], Sorted(logs[..|logs| - 1]))
  }

  function Capped(logs: seq<Log>): seq<Log> {
    if |logs| > MAX_RETAINED_LOGS then logs[..MAX_RETAINED_LOGS] else logs
  }

  /** The log the executor works with: one policy's, no older than either limit looks back, newest first, capped. */
  function Recent(logs: seq<Log>, p: Policy, now: Millis): seq<Log> {
    Capped(Sorted(After(OfPolicy(logs, p.policyId), Back(now, Max(Max(p.period, p.cooldown), 0)))))
  }

  // ----- the decision -----

  predicate Limited(p: Policy, logs: seq<Log>, now: Millis) {
    CountAfter(logs, Back(now, p.period)) >= p.max
  }

  predicate Cooling(p: Policy, logs: seq<Log>, now: Millis) {
    |Sorted(logs)| > 0 && now < Sorted(logs)[0].time + p.cooldown / 1000
  }

  predicate Wanted(p: Policy, balance: (StreamId, int)) {
    (p.filters == [] || balance.0 in p.filters) && p.mayWithdraw && balance.1 > 0
  }

  function Eligible(p: Policy, balances: seq<(StreamId, int)>): seq<Pending> {
    if |balances| == 0 then []
    else
      var b := balances[|balances| - 1];
      if Wanted(p, b) then Eligible(p, balances[..|balances| - 1]) + [Pending(b.0, Min(b.1, p.maxAmount))]
      else Eligible(p, balances[..|balances| - 1])
  }

  /** Nothing when limited or cooling, otherwise as many eligible streams as the period still allows. */
  function Decision(p: Policy, logs: seq<Log>, balances: seq<(StreamId, int)>, now: Millis): seq<Pending> {
    if Limited(p, logs, now) || Cooling(p, logs, now) then []
    else
      var all := Eligible(p, balances);
      all[..Min(|all|, p.max - CountAfter(logs, Back(now, p.period)))]
  }

  method EvaluatePolicy(p: Policy, logs: seq<Log>, balances: seq<(StreamId, int)>, now: Millis) returns (pending: seq<Pending>)
    ensures pending == Decision(p, logs, balances, now)
    ensures |pending| <= Max(0, p.max - CountAfter(logs, Back(now, p.period)))
    ensures forall x :: x in pending ==>
              exists i :: 0 <= i < |balances| && Wanted(p, balances[i])
                          && x.streamId == balances[i].0 && x.amount == Min(balances[i].1, p.maxAmount)
  {
    pending := [];
    var inPeriod := CountAfter(logs, Back(now, p.period));
    if inPeriod >= p.max {
      return;
    }
    var newestFirst := Sorted(logs);
    if |newestFirst| > 0 && now < newestFirst[0].time + p.cooldown / 1000 {
      return;
    }
    var remaining := p.max - inPeriod;
    var i := 0;
    while i < |balances|
      invariant i <= |balances| && |pending| <= remaining
      invariant pending == Eligible(p, balances[..i])
      invariant forall x :: x in pending ==>
                  exists k :: 0 <= k < i && Wanted(p, balances[k])
                              && x.streamId == balances[k].0 && x.amount == Min(balances[k].1, p.maxAmount)
    {
      assert balances[..i + 1][..i] == balances[..i];
      var (stream, withdrawable) := balances[i];
      if |p.filters| > 0 && stream !in p.filters {
        i := i + 1;
        continue;
      }
      if remaining <= |pending| {
        EligibleGrows(p, balances, i);
        return;
      }
      if p.mayWithdraw && withdrawable > 0 {
        pending := pending + [Pending(stream, Min(withdrawable, p.maxAmount))];
      }
      i := i + 1;
    }
    assert balances[..|balances|] == balances;
  }

  lemma {:induction false} EligibleGrows(p: Policy, balances: seq<(StreamId, int)>, i: nat)
    requires i <= |balances|
    ensures Eligible(p, balances[..i]) <= Eligible(p, balances)
  {
    if i < |balances| {
      EligibleGrows(p, balances[..|balances| - 1], i);
      assert balances[..|balances| - 1][..i] == balances[..i];
    } else {
      assert balances[..i] == balances;
    }
  }

  // ----- what the decision is -----

  /** The logs that are younger than so many microseconds. */
  function Younger(logs: seq<Log>, now: Millis, micros: int): seq<Log> {
    if |logs| == 0 then []
    else
      var rest := Younger(logs[..|logs| - 1], now, micros);
      if (now - logs[|logs| - 1].time) * 1000 < micros then rest + [logs[|logs| - 1]] else rest
  }

  lemma YoungerThan(t: Millis, now: Millis, micros: int)
    ensures t > Back(now, micros) <==> (now - t) * 1000 < micros
  {
  }

  lemma {:induction false} CountsYounger(logs: seq<Log>, now: Millis, micros: int)
    ensures CountAfter(logs, Back(now, micros)) == |Younger(logs, now, micros)|
  {
    if |logs| > 0 {
      CountsYounger(logs[..|logs| - 1], now, micros);
      YoungerThan(logs[|logs| - 1].time, now, micros);
    }
  }

  /** A policy cools exactly while some log is younger than the cooldown by a whole millisecond. */
  lemma CoolingIff(p: Policy, logs: seq<Log>, now: Millis)
    ensures Cooling(p, logs, now) <==> exists i :: 0 <= i < |logs| && (now + 1 - logs[i].time) * 1000 <= p.cooldown
  {
    HeadOfEmpty(logs);
    if logs != [] {
      HeadIsNewest(logs, logs[0]);
      var newest := Sorted(logs)[0];
      if i :| 0 <= i < |logs| && (now + 1 - logs[i].time) * 1000 <= p.cooldown {
        HeadIsNewest(logs, logs[i]);
      }
    }
  }

  lemma {:induction false} EligibleIs(p: Policy, balances: seq<(StreamId, int)>, i: nat)
    requires i < |balances|
    ensures |Eligible(p, balances[..i])| <= |Eligible(p, balances)|
    ensures Wanted(p, balances[i]) ==>
              && |Eligible(p, balances[..i])| < |Eligible(p, balances)|
              && Eligible(p, balances)[|Eligible(p, balances[..i])|] == Pending(balances[i].0, Min(balances[i].1, p.maxAmount))
  {
    var n := |balances| - 1;
    if i < n {
      EligibleIs(p, balances[..n], i);
      assert balances[..n][..i] == balances[..i];
    }
  }

  lemma {:induction false} EligibleFrom(p: Policy, balances: seq<(StreamId, int)>, k: nat) returns (i: nat)
    requires k < |Eligible(p, balances)|
    ensures i < |balances| && Wanted(p, balances[i]) && |Eligible(p, balances[..i])| == k
    ensures Eligible(p, balances)[k] == Pending(balances[i].0, Min(balances[i].1, p.maxAmount))
  {
    var n := |balances| - 1;
    if k < |Eligible(p, balances[..n])| {
      i := EligibleFrom(p, balances[..n], k);
      assert balances[..n][..i] == balances[..i];
    } else {
      i := n;
    }
  }

  /**
   * Which streams are acted on: those the filter admits (an empty one admits all) with something to withdraw, under a
   * policy that allows it, in order, as many as executions are left in the period, unless a recent log still cools.
   * Each gets its whole balance, up to the maximum.
   */
  lemma DecisionIncludesIff(p: Policy, logs: seq<Log>, balances: seq<(StreamId, int)>, now: Millis, i: nat)
    requires i < |balances| && forall j, k :: 0 <= j < k < |balances| ==> balances[j].0 != balances[k].0
    ensures (exists x :: x in Decision(p, logs, balances, now) && x.streamId == balances[i].0)
            <==> && (p.filters == [] || balances[i].0 in p.filters) && p.mayWithdraw && balances[i].1 > 0
                 && |Younger(logs, now, p.period)| + |Eligible(p, balances[..i])| < p.max
                 && forall j :: 0 <= j < |logs| ==> (now + 1 - logs[j].time) * 1000 > p.cooldown
    ensures forall x :: x in Decision(p, logs, balances, now) && x.streamId == balances[i].0 ==>
              x.amount == if balances[i].1 < p.maxAmount then balances[i].1 else p.maxAmount
  {
    hide Sorted, Cooling, CountAfter, Younger, Eligible;
    CountsYounger(logs, now, p.period);
    CoolingIff(p, logs, now);
    EligibleIs(p, balances, i);
    var all := Eligible(p, balances);
    var decision := Decision(p, logs, balances, now);
    if x :| x in decision && x.streamId == balances[i].0 {
      assert forall y :: y in decision && y.streamId == balances[i].0 ==>
          Wanted(p, balances[i]) && y == Pending(balances[i].0, Min(balances[i].1, p.maxAmount)) && |Eligible(p, balances[..i])| < |decision| by {
        forall y | y in decision && y.streamId == balances[i].0
          ensures Wanted(p, balances[i]) && y == Pending(balances[i].0, Min(balances[i].1, p.maxAmount)) && |Eligible(p, balances[..i])| < |decision| {
          var k :| 0 <= k < |decision| && decision[k] == y;
          var j := EligibleFrom(p, balances, k);
          assert j == i;
        }
      }
    }
    if Wanted(p, balances[i]) && |Eligible(p, balances[..i])| < |decision| {
      assert decision[|Eligible(p, balances[..i])|] in decision;
    }
  }

  // ----- pruning -----

  predicate Descending(logs: seq<Log>) {
    forall i, j :: 0 <= i < j < |logs| ==> logs[i].time >= logs[j].time
  }

  lemma {:induction false} InsertAdds(x: Log, logs: seq<Log>)
    ensures multiset(Insert(x, logs)) == multiset(logs) + multiset{x}
  {
    if |logs| > 0 && logs[|logs| - 1].time < x.time {
      InsertAdds(x, logs[..|logs| - 1]);
      SplitLast(logs);
    }
  }

  lemma {:induction false} InsertKeeps(x: Log, logs: seq<Log>)
    requires Descending(logs)
    ensures Descending(Insert(x, logs)) && multiset(Insert(x, logs)) == multiset(logs) + multiset{x}
  {
    InsertAdds(x, logs);
    if |logs| > 0 && logs[|logs| - 1].time < x.time {
      var n := |logs| - 1;
      InsertKeeps(x, logs[..n]);
      InsertAdds(x, logs[..n]);
      AppendOlder(Insert(x, logs[..n]), logs[..n], x, logs[n]);
    }
  }

  lemma AppendOlder(rest: seq<Log>, logs: seq<Log>, x: Log, last: Log)
    requires Descending(rest) && multiset(rest) == multiset(logs) + multiset{x}
    requires last.time <= x.time && forall i :: 0 <= i < |logs| ==> last.time <= logs[i].time
    ensures Descending(rest + [last])
  {
    forall i | 0 <= i < |rest| ensures rest[i].time >= last.time {
      FromEither(rest, logs, x, i);
    }
  }

  lemma FromEither(rest: seq<Log>, logs: seq<Log>, x: Log, i: nat)
    requires multiset(rest) == multiset(logs) + multiset{x} && i < |rest|
    ensures rest[i] == x || rest[i] in logs
  {
    assert rest[i] in multiset(rest);
  }

  lemma SplitLast(logs: seq<Log>)
    requires |logs| > 0
    ensures multiset(logs) == multiset(logs[..|logs| - 1]) + multiset{logs[|logs| - 1]}
  {
    assert logs == logs[..|logs| - 1] + [logs[|logs| - 1]];
  }

  lemma {:induction false} SortedIs(logs: seq<Log>)
    ensures Descending(Sorted(logs)) && multiset(Sorted(logs)) == multiset(logs)
  {
    if |logs| > 0 {
      hide Insert, Descending;
      var n := |logs| - 1;
      SortedIs(logs[..n]);
      InsertKeeps(logs[n], Sorted(logs[..n]));
      SplitLast(logs);
    }
  }

  lemma CountAppend(logs: seq<Log>, x: Log, t: Millis)
    ensures CountAfter(logs + [x], t) == CountAfter(logs, t) + if x.time > t then 1 else 0
  {
    assert (logs + [x])[..|logs|] == logs;
  }

  lemma {:induction false} CountInsert(x: Log, logs: seq<Log>, t: Millis)
    ensures CountAfter(Insert(x, logs), t) == CountAfter(logs, t) + if x.time > t then 1 else 0
  {
    if |logs| > 0 && logs[|logs| - 1].time < x.time {
      var n := |logs| - 1;
      CountInsert(x, logs[..n], t);
      CountAppend(Insert(x, logs[..n]), logs[n], t);
    } else {
      CountAppend(logs, x, t);
    }
  }

  lemma {:induction false} CountSorted(logs: seq<Log>, t: Millis)
    ensures CountAfter(Sorted(logs), t) == CountAfter(logs, t)
  {
    if |logs| > 0 {
      CountSorted(logs[..|logs| - 1], t);
      CountInsert(logs[|logs| - 1], Sorted(logs[..|logs| - 1]), t);
    }
  }

  /** In a newest-first log the logs after t come first. */
  lemma {:induction false} CountPrefix(logs: seq<Log>, k: nat, t: Millis)
    requires Descending(logs) && k <= |logs|
    ensures CountAfter(logs[..k], t) == Min(k, CountAfter(logs, t))
  {
    if k == |logs| {
      assert logs[..k] == logs;
      CountBound(logs, t);
    } else {
      var n := |logs| - 1;
      assert logs[..n][..k] == logs[..k];
      CountPrefix(logs[..n], k, t);
      if logs[n].time > t {
        AllAfter(logs[..n], t);
      }
    }
  }

  lemma {:induction false} CountBound(logs: seq<Log>, t: Millis)
    ensures CountAfter(logs, t) <= |logs|
  {
    if |logs| > 0 {
      CountBound(logs[..|logs| - 1], t);
    }
  }

  lemma {:induction false} AllAfter(logs: seq<Log>, t: Millis)
    requires forall i :: 0 <= i < |logs| ==> logs[i].time > t
    ensures CountAfter(logs, t) == |logs|
  {
    if |logs| > 0 {
      AllAfter(logs[..|logs| - 1], t);
    }
  }

  lemma {:induction false} CountFiltered(logs: seq<Log>, from: Millis, t: Millis)
    requires from <= t
    ensures CountAfter(After(logs, from), t) == CountAfter(logs, t)
  {
    if |logs| > 0 {
      var n := |logs| - 1;
      CountFiltered(logs[..n], from, t);
      CountAppend(After(logs[..n], from), logs[n], t);
    }
  }

  lemma {:induction false} AfterIs(logs: seq<Log>, t: Millis, x: Log)
    ensures x in After(logs, t) <==> x in logs && x.time > t
  {
    if |logs| > 0 {
      AfterIs(logs[..|logs| - 1], t, x);
    }
  }

  /** The pruned log shows every log of the period, up to the cap. */
  lemma RecentCount(logs: seq<Log>, p: Policy, fetched: Millis, now: Millis)
    requires fetched <= now
    ensures CountAfter(Recent(logs, p, fetched), Back(now, p.period))
            == Min(MAX_RETAINED_LOGS, CountAfter(OfPolicy(logs, p.policyId), Back(now, p.period)))
  {
    var mine, t := OfPolicy(logs, p.policyId), Back(now, p.period);
    var from := Back(fetched, Max(Max(p.period, p.cooldown), 0));
    var kept := After(mine, from);
    CountFiltered(mine, from, t);
    CountSorted(kept, t);
    SortedIs(kept);
    if |Sorted(kept)| > MAX_RETAINED_LOGS {
      CountPrefix(Sorted(kept), MAX_RETAINED_LOGS, t);
    } else {
      CountBound(Sorted(kept), t);
    }
  }

  lemma HeadIsNewest(logs: seq<Log>, x: Log)
    requires x in logs
    ensures |Sorted(logs)| > 0 && Sorted(logs)[0] in logs && Sorted(logs)[0].time >= x.time
  {
    SortedIs(logs);
    assert x in multiset(Sorted(logs));
    var s := Sorted(logs);
    var i :| 0 <= i < |s| && s[i] == x;
    assert s[0] in multiset(s);
    assert s[0] in multiset(logs);
  }

  lemma HeadOfEmpty(logs: seq<Log>)
    ensures Sorted(logs) == [] <==> logs == []
  {
    SortedIs(logs);
    assert |multiset(Sorted(logs))| == |Sorted(logs)| && |multiset(logs)| == |logs|;
  }

  /** The pruned log ends the cooldown at the same moment, or holds no log that could still be cooling. */
  lemma RecentCooling(logs: seq<Log>, p: Policy, fetched: Millis, now: Millis)
    requires fetched <= now
    ensures Cooling(p, Recent(logs, p, fetched), now) == Cooling(p, OfPolicy(logs, p.policyId), now)
  {
    var mine, recent := OfPolicy(logs, p.policyId), Recent(logs, p, fetched);
    var from := Back(fetched, Max(Max(p.period, p.cooldown), 0));
    var kept := After(mine, from);
    SortedIs(kept);
    HeadOfEmpty(mine);
    HeadOfEmpty(kept);
    HeadOfEmpty(recent);
    if mine != [] {
      HeadIsNewest(mine, mine[0]);
      var newest := Sorted(mine)[0];
      AfterIs(mine, from, newest);
      if newest in kept {
        HeadIsNewest(kept, newest);
        var head := Sorted(kept)[0];
        AfterIs(mine, from, head);
        HeadIsNewest(mine, head);
        assert recent[0] == head;
        HeadIsNewest(recent, head);
        var last := Sorted(recent)[0];
        assert last in multiset(Sorted(kept));
        assert last in multiset(kept);
        AfterIs(mine, from, last);
        HeadIsNewest(mine, last);
        assert head.time == newest.time == last.time;
      } else {
        assert newest.time <= from;
        if kept != [] {
          AfterIs(mine, from, kept[0]);
          HeadIsNewest(mine, kept[0]);
          assert false;
        }
        assert newest.time + p.cooldown / 1000 <= now;
      }
    }
  }

  /** Pruned and full logs give the same actions, for at most 256 executions per period or as many logs in it. */
  lemma PrunedDecidesAlike(logs: seq<Log>, p: Policy, balances: seq<(StreamId, int)>, fetched: Millis, now: Millis)
    requires fetched <= now
    requires p.max <= 256 || CountAfter(OfPolicy(logs, p.policyId), Back(now, p.period)) <= 256
    ensures Decision(p, Recent(logs, p, fetched), balances, now) == Decision(p, OfPolicy(logs, p.policyId), balances, now)
  {
    RecentCount(logs, p, fetched, now);
    RecentCooling(logs, p, fetched, now);
  }

  /** Beyond that the cap is a limit of its own: a policy that has used up its period is seen as one that has not. */
  lemma PrunedLimitsAlikeIff(logs: seq<Log>, p: Policy, fetched: Millis, now: Millis)
    requires fetched <= now
    ensures Limited(p, Recent(logs, p, fetched), now) == Limited(p, OfPolicy(logs, p.policyId), now)
            <==> p.max <= 256 || CountAfter(OfPolicy(logs, p.policyId), Back(now, p.period)) < p.max
  {
    RecentCount(logs, p, fetched, now);
  }

  // ----- a run of cycles for one policy -----

  /**
   * One cycle: the log is fetched, then the policy is evaluated, then at most the decided actions are executed, each
   * logged with a time no earlier than the evaluation. Logs written in a cycle are visible to the next fetch.
   */
  datatype Cycle = Cycle(fetched: Millis, now: Millis, balances: seq<(StreamId, int)>, executed: seq<Log>)

  predicate CycleOk(p: Policy, logs: seq<Log>, c: Cycle) {
    && c.fetched <= c.now
    && |c.executed| <= |Decision(p, Recent(logs, p, c.fetched), c.balances, c.now)|
    && forall i :: 0 <= i < |c.executed| ==> c.executed[i].policyId == p.policyId && c.executed[i].time >= c.now
  }

  predicate Runs(p: Policy, logs: seq<Log>, cycles: seq<Cycle>)
    decreases |cycles|
  {
    |cycles| > 0 ==> CycleOk(p, logs, cycles[0]) && Runs(p, logs + cycles[0].executed, cycles[1..])
  }

  function LogsAfter(logs: seq<Log>, cycles: seq<Cycle>): seq<Log>
    decreases |cycles|
  {
    if |cycles| == 0 then logs else LogsAfter(logs + cycles[0].executed, cycles[1..])
  }

  /** Executions of the policy in the window of one period that ends at `end`. */
  function InWindow(logs: seq<Log>, p: Policy, end: Millis): nat {
    if |logs| == 0 then 0
    else
      var x := logs[|logs| - 1];
      InWindow(logs[..|logs| - 1], p, end) + if x.policyId == p.policyId && Back(end, p.period) < x.time <= end then 1 else 0
  }

  ghost predicate RateKept(logs: seq<Log>, p: Policy) {
    forall end :: InWindow(logs, p, end) <= Max(0, p.max)
  }

  lemma {:induction false} WindowAppend(xs: seq<Log>, ys: seq<Log>, p: Policy, end: Millis)
    ensures InWindow(xs + ys, p, end) == InWindow(xs, p, end) + InWindow(ys, p, end)
    ensures InWindow(ys, p, end) <= |ys|
    decreases |ys|
  {
    if |ys| == 0 {
      assert xs + ys == xs;
    } else {
      var n := |ys| - 1;
      assert (xs + ys)[..|xs| + n] == xs + ys[..n];
      WindowAppend(xs, ys[..n], p, end);
    }
  }

  lemma {:induction false} NoneInWindow(xs: seq<Log>, p: Policy, end: Millis)
    requires forall i :: 0 <= i < |xs| ==> xs[i].time > end
    ensures InWindow(xs, p, end) == 0
  {
    if |xs| > 0 {
      NoneInWindow(xs[..|xs| - 1], p, end);
    }
  }

  /** What a later window holds of the old log, the evaluation counted. */
  lemma {:induction false} WindowCounted(logs: seq<Log>, p: Policy, now: Millis, end: Millis)
    requires now <= end
    ensures InWindow(logs, p, end) <= CountAfter(OfPolicy(logs, p.policyId), Back(now, p.period))
  {
    if |logs| > 0 {
      var n := |logs| - 1;
      WindowCounted(logs[..n], p, now, end);
      CountAppend(OfPolicy(logs[..n], p.policyId), logs[n], Back(now, p.period));
    }
  }

  lemma CycleKeepsRate(p: Policy, logs: seq<Log>, c: Cycle)
    requires RateKept(logs, p) && CycleOk(p, logs, c) && p.max <= MAX_RETAINED_LOGS
    ensures RateKept(logs + c.executed, p)
  {
    PrunedDecidesAlike(logs, p, c.balances, c.fetched, c.now);
    forall end ensures InWindow(logs + c.executed, p, end) <= Max(0, p.max) {
      WindowAppend(logs, c.executed, p, end);
      if end < c.now {
        NoneInWindow(c.executed, p, end);
      } else {
        WindowCounted(logs, p, c.now, end);
      }
    }
  }

  /** In no run does any window of one period hold more executions than the policy allows. */
  lemma {:induction false} RunKeepsRate(p: Policy, logs: seq<Log>, cycles: seq<Cycle>)
    requires RateKept(logs, p) && Runs(p, logs, cycles) && p.max <= 256
    ensures RateKept(LogsAfter(logs, cycles), p)
    decreases |cycles|
  {
    if |cycles| > 0 {
      CycleKeepsRate(p, logs, cycles[0]);
      RunKeepsRate(p, logs + cycles[0].executed, cycles[1..]);
    }
  }

  /** With a larger maximum, a log that fills the window does not stop the next cycle. */
  lemma CapLetsRateBreak(p: Policy, logs: seq<Log>, now: Millis)
    requires p.max > 256 && p.period > 0 && p.cooldown <= 0 && p.mayWithdraw && p.filters == []
    requires InWindow(logs, p, now) == p.max && forall i :: 0 <= i < |logs| ==> logs[i].time <= now
    ensures exists cycles :: Runs(p, logs, cycles) && !RateKept(LogsAfter(logs, cycles), p)
  {
    var balances := [(0, 1)];
    var x := Log(p.policyId, 0, now, true);
    var c := Cycle(now, now, balances, [x]);
    var recent := Recent(logs, p, now);
    WindowCounted(logs, p, now, now);
    RecentCount(logs, p, now, now);
    RecentCooling(logs, p, now, now);
    NotCooling(logs, p, now);
    assert balances[..0] == [];
    assert Eligible(p, balances) == [Pending(0, Min(1, p.maxAmount))];
    assert |Decision(p, recent, balances, now)| == 1;
    var cycles := [c];
    assert cycles[1..] == [];
    assert Runs(p, logs + [x], []) && LogsAfter(logs + [x], []) == logs + [x];
    WindowAppend(logs, [x], p, now);
    assert [x][..0] == [];
    assert InWindow([x], p, now) == 1;
    assert Runs(p, logs, cycles) && LogsAfter(logs, cycles) == logs + [x];
  }

  lemma NotCooling(logs: seq<Log>, p: Policy, now: Millis)
    requires p.cooldown <= 0 && forall i :: 0 <= i < |logs| ==> logs[i].time <= now
    ensures !Cooling(p, OfPolicy(logs, p.policyId), now)
  {
    var mine := OfPolicy(logs, p.policyId);
    HeadOfEmpty(mine);
    if mine != [] {
      HeadIsNewest(mine, mine[0]);
      OfPolicyIs(logs, p.policyId, Sorted(mine)[0]);
    }
  }

  /** The logs of one policy: each of its logs as often as it was written, and no other policy's. */
  lemma {:induction false} OfPolicyIs(logs: seq<Log>, id: nat, x: Log)
    ensures multiset(OfPolicy(logs, id))[x] == if x.policyId == id then multiset(logs)[x] else 0
    ensures x in OfPolicy(logs, id) <==> x in logs && x.policyId == id
  {
    if |logs| > 0 {
      OfPolicyIs(logs[..|logs| - 1], id, x);
      SplitLast(logs);
    }
    assert x in OfPolicy(logs, id) <==> x in multiset(OfPolicy(logs, id));
    assert x in logs <==> x in multiset(logs);
  }
}
