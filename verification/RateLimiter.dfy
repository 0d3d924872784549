/** The fixed-window request limiter, one bucket per caller. */
module RateLimiter {
  import opened Common

  type Millis = int

  datatype Bucket = Bucket(count: nat, resetAt: Millis)

  type Buckets = map<string, Bucket>

  datatype Event = Request(key: string, at: Millis) | Sweep(at: Millis)

  predicate Expired(bs: Buckets, key: string, now: Millis) {
    key !in bs || now >= bs[key].resetAt
  }

  function Counted(bs: Buckets, key: string, now: Millis, window: int): Buckets {
    if Expired(bs, key, now) then bs[key := Bucket(1, now + window)]
    else bs[key := bs[key].(count := bs[key].count + 1)]
  }

  predicate Admits(bs: Buckets, key: string, now: Millis, max: int) {
    Expired(bs, key, now) || bs[key].count + 1 <= max
  }

  function Swept(bs: Buckets, now: Millis): Buckets {
    map k | k in bs && now < bs[k].resetAt :: bs[k]
  }

  function Next(bs: Buckets, e: Event, window: int): Buckets {
    match e
    case Request(key, at) => Counted(bs, key, at, window)
    case Sweep(at) => Swept(bs, at)
  }

  class Limiter {
    const max: int
    const window: int
    var rateBuckets: Buckets

    constructor (max: int, window: int)
      ensures this.max == max && this.window == window && rateBuckets == map[]
    {
      this.max, this.window, rateBuckets := max, window, map[];
    }

    /** Some is the Retry-After of a refusal, in whole seconds: no shorter than the rest of the window. */
    method Handle(key: string, now: Millis) returns (refused: Option<int>)
      modifies this
      ensures rateBuckets == Counted(old(rateBuckets), key, now, window)
      ensures refused.None? <==> Admits(old(rateBuckets), key, now, max)
      ensures refused.Some? ==> Expired(rateBuckets, key, now + 1000 * refused.value) && !Expired(rateBuckets, key, now + 1000 * (refused.value - 1))
    {
      if key !in rateBuckets || now >= rateBuckets[key].resetAt {
        rateBuckets := rateBuckets[key := Bucket(1, now + window)];
        return None;
      }
      var bucket := rateBuckets[key].(count := rateBuckets[key].count + 1);
      rateBuckets := rateBuckets[key := bucket];
      if bucket.count > max {
        return Some((bucket.resetAt - now + 999) / 1000);
      }
      return None;
    }

    method SweepExpired(now: Millis)
      modifies this
      ensures rateBuckets == Swept(old(rateBuckets), now)
      ensures forall k :: k in rateBuckets <==> k in old(rateBuckets) && now < old(rateBuckets)[k].resetAt
      ensures forall k :: k in rateBuckets ==> rateBuckets[k] == old(rateBuckets)[k]
    {
      var todo := rateBuckets.Keys;
      while todo != {}
        invariant todo <= old(rateBuckets).Keys
        invariant rateBuckets == map k | k in old(rateBuckets) && (k in todo || now < old(rateBuckets)[k].resetAt) :: old(rateBuckets)[k]
        decreases |todo|
      {
        var k :| k in todo;
        if now >= rateBuckets[k].resetAt {
          rateBuckets := rateBuckets - {k};
        }
        todo := todo - {k};
      }
    }
  }

  // ----- runs -----

  /** The clock does not go back. */
  predicate Ordered(events: seq<Event>, from: Millis)
    decreases |events|
  {
    |events| > 0 ==> from <= events[0].at && Ordered(events[1..], events[0].at)
  }

  /** What each request is told, sweeps left out. */
  function Decisions(bs: Buckets, events: seq<Event>, max: int, window: int): seq<bool>
    decreases |events|
  {
    if |events| == 0 then []
    else
      (if events[0].Request? then [Admits(bs, events[0].key, events[0].at, max)] else [])
      + Decisions(Next(bs, events[0], window), events[1..], max, window)
  }

  function Requests(events: seq<Event>): seq<Event> {
    if |events| == 0 then [] else (if events[0].Request? then [events[0]] else []) + Requests(events[1..])
  }

  /** Two maps that differ only in buckets that have expired. */
  predicate Alike(xs: Buckets, ys: Buckets, now: Millis) {
    forall k :: k in xs.Keys + ys.Keys ==>
      (k in xs && k in ys && xs[k] == ys[k]) || (Expired(xs, k, now) && Expired(ys, k, now))
  }

  lemma NextAlike(xs: Buckets, ys: Buckets, e: Event, from: Millis, window: int)
    requires Alike(xs, ys, from) && from <= e.at
    ensures e.Request? ==> Alike(Next(xs, e, window), Next(ys, e, window), e.at)
    ensures e.Sweep? ==> Alike(Next(xs, e, window), ys, e.at)
    ensures e.Request? ==> forall max :: Admits(xs, e.key, e.at, max) == Admits(ys, e.key, e.at, max)
  {
  }

  lemma RequestsStep(events: seq<Event>)
    requires |events| > 0
    ensures var rest := Requests(events[1..]);
            if events[0].Request? then Requests(events)[..1] == [events[0]] && |Requests(events)| > 0 && Requests(events)[1..] == rest
            else Requests(events) == rest
  {
    var rest := Requests(events[1..]);
    if events[0].Request? {
      assert Requests(events) == [events[0]] + rest;
    }
  }

  /** Sweeping, whenever it happens, changes no decision. */
  lemma {:induction false} SweepsChangeNothing(xs: Buckets, ys: Buckets, events: seq<Event>, from: Millis, max: int, window: int)
    requires Ordered(events, from) && Alike(xs, ys, from)
    ensures Decisions(xs, events, max, window) == Decisions(ys, Requests(events), max, window)
    decreases |events|
  {
    if |events| > 0 {
      hide Alike, Next, Admits, Requests;
      var e := events[0];
      NextAlike(xs, ys, e, from, window);
      RequestsStep(events);
      if e.Request? {
        assert Requests(events)[..1][0] == e;
        SweepsChangeNothing(Next(xs, e, window), Next(ys, e, window), events[1..], e.at, max, window);
      } else {
        SweepsChangeNothing(Next(xs, e, window), ys, events[1..], e.at, max, window);
      }
    }
  }

  // ----- how many are admitted -----

  /** The key's requests admitted in [lo, hi]. */
  function AdmittedIn(bs: Buckets, events: seq<Event>, max: int, window: int, key: string, lo: Millis, hi: Millis): nat
    decreases |events|
  {
    if |events| == 0 then 0
    else
      var e := events[0];
      (if e.Request? && e.key == key && lo <= e.at <= hi && Admits(bs, key, e.at, max) then 1 else 0)
      + AdmittedIn(Next(bs, e, window), events[1..], max, window, key, lo, hi)
  }

  lemma {:induction false} SweepsAdmitNothing(xs: Buckets, ys: Buckets, events: seq<Event>, from: Millis, max: int, window: int,
                                              key: string, lo: Millis, hi: Millis)
    requires Ordered(events, from) && Alike(xs, ys, from)
    ensures AdmittedIn(xs, events, max, window, key, lo, hi) == AdmittedIn(ys, Requests(events), max, window, key, lo, hi)
    decreases |events|
  {
    if |events| > 0 {
      hide Alike, Next, Admits, Requests;
      var e := events[0];
      NextAlike(xs, ys, e, from, window);
      RequestsStep(events);
      if e.Request? {
        assert Requests(events)[..1][0] == e;
        SweepsAdmitNothing(Next(xs, e, window), Next(ys, e, window), events[1..], e.at, max, window, key, lo, hi);
      } else {
        SweepsAdmitNothing(Next(xs, e, window), ys, events[1..], e.at, max, window, key, lo, hi);
      }
    }
  }

  predicate OnlyRequests(events: seq<Event>) {
    forall i :: 0 <= i < |events| ==> events[i].Request?
  }

  lemma {:induction false} RequestsOnly(events: seq<Event>, from: Millis)
    requires Ordered(events, from)
    ensures OnlyRequests(Requests(events)) && Ordered(Requests(events), from)
    decreases |events|
  {
    if |events| > 0 {
      RequestsOnly(events[1..], events[0].at);
      var rest := Requests(events[1..]);
      if events[0].Request? {
        assert Requests(events) == [events[0]] + rest && ([events[0]] + rest)[1..] == rest;
      } else {
        assert Requests(events) == rest;
        LaterStart(rest, from, events[0].at);
      }
    }
  }

  lemma LaterStart(events: seq<Event>, from: Millis, from': Millis)
    requires from <= from' && Ordered(events, from')
    ensures Ordered(events, from)
  {
  }

  /** How many admissions in [lo, lo + window] the key's bucket shows to have happened, at most. */
  function Spent(bs: Buckets, key: string, lo: Millis, max: nat, window: nat): nat {
    if key !in bs then 0
    else
      var since := bs[key].resetAt - window;
      if since <= lo then Min(bs[key].count, max)
      else if since <= lo + window then max + Min(bs[key].count, max)
      else 2 * max
  }

  lemma RequestSpends(bs: Buckets, at: Millis, key: string, lo: Millis, max: int, window: nat, spent: nat)
    requires window > 0
    requires spent <= Spent(bs, key, lo, Max(1, max), window)
    requires spent > 0 ==> key in bs
    requires at <= lo && Expired(bs, key, at) ==> spent == 0
    requires key in bs ==> bs[key].resetAt - window <= at
    ensures var admitted := if lo <= at <= lo + window && Admits(bs, key, at, max) then 1 else 0;
            spent + admitted <= Spent(Counted(bs, key, at, window), key, lo, Max(1, max), window)
  {
  }

  /** Nothing is spent in [lo, ..] by requests before a bucket that expired by lo. */
  predicate SpentBefore(bs: Buckets, key: string, lo: Millis, spent: nat) {
    key in bs && bs[key].resetAt <= lo ==> spent == 0
  }

  /** In any closed interval of one window a key is admitted at most twice the maximum, or twice. */
  lemma {:induction false} BoundedFrom(bs: Buckets, events: seq<Event>, from: Millis, max: int, window: nat, key: string, lo: Millis, spent: nat)
    requires window > 0 && Ordered(events, from) && OnlyRequests(events)
    requires spent <= Spent(bs, key, lo, Max(1, max), window) && SpentBefore(bs, key, lo, spent)
    requires spent > 0 ==> key in bs
    requires key in bs ==> bs[key].resetAt - window <= from
    ensures spent + AdmittedIn(bs, events, max, window, key, lo, lo + window) <= 2 * Max(1, max)
    decreases |events|
  {
    if |events| > 0 {
      var e := events[0];
      assert e.Request?;
      assert OnlyRequests(events[1..]);
      var bs' := Next(bs, e, window);
      if e.key == key {
        RequestSpends(bs, e.at, key, lo, max, window, spent);
        var admitted := if lo <= e.at <= lo + window && Admits(bs, key, e.at, max) then 1 else 0;
        BoundedFrom(bs', events[1..], e.at, max, window, key, lo, spent + admitted);
      } else {
        BoundedFrom(bs', events[1..], e.at, max, window, key, lo, spent);
      }
    }
  }

  /**
   * For a clock that does not go back, and sweeps at any moment: in every closed interval of one window length a key
   * is admitted at most 2 * max(1, MAX) times.
   */
  lemma AtMostTwiceTheMaximum(events: seq<Event>, from: Millis, max: int, window: nat, key: string, lo: Millis)
    requires window > 0 && Ordered(events, from)
    ensures AdmittedIn(map[], events, max, window, key, lo, lo + window) <= 2 * Max(1, max)
  {
    SweepsAdmitNothing(map[], map[], events, from, max, window, key, lo, lo + window);
    RequestsOnly(events, from);
    BoundedFrom(map[], Requests(events), from, max, window, key, lo, 0);
  }

  /** n requests at one moment. */
  function Burst(key: string, at: Millis, n: nat): seq<Event> {
    if n == 0 then [] else [Request(key, at)] + Burst(key, at, n - 1)
  }

  lemma {:induction false} BurstOrdered(key: string, at: Millis, n: nat, rest: seq<Event>, from: Millis)
    requires from <= at && Ordered(rest, at)
    ensures Ordered(Burst(key, at, n) + rest, from)
  {
    if n == 0 {
      assert Burst(key, at, n) + rest == rest;
      LaterStart(rest, from, at);
    } else {
      BurstOrdered(key, at, n - 1, rest, at);
      assert (Burst(key, at, n) + rest)[1..] == Burst(key, at, n - 1) + rest;
    }
  }

  /** A burst that the bucket still has room for is admitted whole. */
  lemma {:induction false} BurstAdmitted(bs: Buckets, key: string, at: Millis, n: nat, rest: seq<Event>, max: int, window: nat,
                                         lo: Millis, hi: Millis)
    requires lo <= at <= hi && key in bs && at < bs[key].resetAt && bs[key].count + n <= max
    ensures AdmittedIn(bs, Burst(key, at, n) + rest, max, window, key, lo, hi)
            == n + AdmittedIn(bs[key := bs[key].(count := bs[key].count + n)], rest, max, window, key, lo, hi)
    decreases n
  {
    var events := Burst(key, at, n) + rest;
    if n == 0 {
      assert events == rest;
      assert bs[key := bs[key].(count := bs[key].count + n)] == bs;
    } else {
      var bs' := Next(bs, events[0], window);
      assert events[1..] == Burst(key, at, n - 1) + rest;
      BurstAdmitted(bs', key, at, n - 1, rest, max, window, lo, hi);
      assert bs'[key := bs'[key].(count := bs'[key].count + (n - 1))] == bs[key := bs[key].(count := bs[key].count + n)];
    }
  }

  /** A burst that opens a window is admitted up to the maximum, and fills it. */
  lemma WindowAdmitted(bs: Buckets, key: string, at: Millis, max: nat, rest: seq<Event>, window: nat, lo: Millis, hi: Millis)
    requires lo <= at <= hi && Expired(bs, key, at) && max >= 1 && window > 0
    ensures AdmittedIn(bs, Burst(key, at, max) + rest, max, window, key, lo, hi)
            == max + AdmittedIn(bs[key := Bucket(max, at + window)], rest, max, window, key, lo, hi)
  {
    var events := Burst(key, at, max) + rest;
    var bs' := Next(bs, events[0], window);
    assert events[1..] == Burst(key, at, max - 1) + rest;
    BurstAdmitted(bs', key, at, max - 1, rest, max, window, lo, hi);
    assert bs'[key := bs'[key].(count := bs'[key].count + (max - 1))] == bs[key := Bucket(max, at + window)];
  }

  /** For every maximum the bound is reached: a full window at its opening, and the next one at its own. */
  lemma TwiceIsReached(key: string, max: nat, window: nat)
    requires window > 0 && max >= 1
    ensures var events := Burst(key, 0, max) + Burst(key, window, max);
            Ordered(events, 0) && AdmittedIn(map[], events, max, window, key, 0, window) == 2 * Max(1, max)
  {
    var second := Burst(key, window, max);
    assert second + [] == second;
    BurstOrdered(key, window, max, [], 0);
    BurstOrdered(key, window, max, [], window);
    BurstOrdered(key, 0, max, second, 0);
    var full: Buckets := map[key := Bucket(max, window)];
    WindowAdmitted(map[], key, 0, max, second, window, 0, window);
    assert map[][key := Bucket(max, 0 + window)] == full;
    WindowAdmitted(full, key, window, max, [], window, 0, window);
  }
}
