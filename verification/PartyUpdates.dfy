/** Reading a party's whole update history through a server that refuses long pages. */
module PartyUpdates {
  import opened Common

  datatype Update = Update(offset: nat, body: string)

  /**
   * A page of more than `limit` updates is refused (413). `failing` says which requests fail for another
   * reason; the code tells the two apart by the message.
   */
  datatype Server = Server(updates: seq<Update>, limit: nat, failing: nat -> bool)

  datatype Answer = Page(rows: seq<Update>) | TooLarge | Failed

  datatype Outcome = Fetched(rows: seq<Update>) | Thrown

  const GUARD: nat := 100000

  /** Pages with this many updates or more leave the window as it is. */
  const DENSE: nat := 100

  /** Updates are stored in offset order and offsets start at 1. */
  predicate Ordered(us: seq<Update>) {
    && (forall i, j :: 0 <= i < j < |us| ==> us[i].offset <= us[j].offset)
    && (forall i :: 0 <= i < |us| ==> us[i].offset >= 1)
  }

  /** The updates with begin < offset <= end, in stored order. */
  function Between(us: seq<Update>, begin: nat, end: nat): seq<Update> {
    if |us| == 0 then []
    else Between(us[..|us| - 1], begin, end) + (if begin < us[|us| - 1].offset <= end then [us[|us| - 1]] else [])
  }

  function Respond(s: Server, request: nat, begin: nat, end: nat): Answer {
    var rows := Between(s.updates, begin, end);
    if s.failing(request) then Failed else if |rows| > s.limit then TooLarge else Page(rows)
  }

  /** The window after a page that was served: doubled, but not past what is left, when the page was sparse. */
  function Grown(window: nat, rows: nat, begin: nat, end: nat): nat
    requires begin <= end
  {
    if rows < DENSE && window < end then Min(if end - begin == 0 then 1 else end - begin, window * 2) else window
  }

  /** What is still collected from `begin` on with this window, starting at request number `guard`. */
  function Walk(s: Server, begin: nat, window: nat, end: nat, guard: nat): Outcome
    requires begin <= end && window >= 1
    decreases GUARD - guard
  {
    if begin == end || guard >= GUARD then Fetched([])
    else
      var to := Min(end, begin + window);
      match Respond(s, guard, begin, to)
      case Failed => Thrown
      case TooLarge => if window > 1 then Walk(s, begin, window / 2, end, guard + 1) else Thrown
      case Page(rows) =>
        Before(rows, Walk(s, to, Grown(window, |rows|, to, end), end, guard + 1))
  }

  function Before(rows: seq<Update>, rest: Outcome): Outcome {
    if rest.Fetched? then Fetched(rows + rest.rows) else Thrown
  }

  lemma BeforeTwice(xs: seq<Update>, ys: seq<Update>, rest: Outcome)
    ensures Before(xs, Before(ys, rest)) == Before(xs + ys, rest)
    ensures Before([], rest) == rest
  {
    if rest.Fetched? {
      assert xs + (ys + rest.rows) == xs + ys + rest.rows;
    }
  }

  /** One turn of the loop, as the walk from here sees it. */
  lemma WalkTurn(s: Server, all: seq<Update>, begin: nat, window: nat, end: nat, guard: nat)
    requires begin < end && window >= 1 && guard < GUARD
    ensures var to := Min(end, begin + window);
            Before(all, Walk(s, begin, window, end, guard)) ==
            match Respond(s, guard, begin, to)
            case Page(rows) => Before(all + rows, Walk(s, to, Grown(window, |rows|, to, end), end, guard + 1))
            case TooLarge => if window > 1 then Before(all, Walk(s, begin, window / 2, end, guard + 1)) else Thrown
            case Failed => Thrown
  {
    var to := Min(end, begin + window);
    var answer := Respond(s, guard, begin, to);
    if answer.Page? {
      hide Between, Respond;
      BeforeTwice(all, answer.rows, Walk(s, to, Grown(window, |answer.rows|, to, end), end, guard + 1));
    }
  }

  method FetchPartyUpdates(s: Server, end: nat) returns (out: Outcome)
    ensures out == Walk(s, 0, Max(1, end), end, 0)
  {
    WalkFromEnd(s, end);
    hide Walk, Respond, Before;
    var all: seq<Update> := [];
    var begin: nat, guard: nat := 0, 0;
    var window: nat := Max(1, end);
    ghost var whole := Walk(s, 0, window, end, 0);
    while begin < end && guard < GUARD
      invariant begin <= end && window >= 1 && guard <= GUARD
      invariant whole == Before(all, Walk(s, begin, window, end, guard))
      decreases GUARD - guard
    {
      WalkTurn(s, all, begin, window, end, guard);
      var to := Min(end, begin + window);
      match Respond(s, guard, begin, to) {
        case Page(rows) =>
          all := all + rows;
          begin := to;
          if |rows| < DENSE && window < end {
            window := Min(if end - begin == 0 then 1 else end - begin, window * 2);
          }
        case TooLarge =>
          if window <= 1 {
            return Thrown;
          }
          window := Max(1, window / 2);
        case Failed =>
          return Thrown;
      }
      guard := guard + 1;
    }
    WalkStops(s, all, begin, window, end, guard);
    return Fetched(all);
  }

  lemma WalkFromEnd(s: Server, end: nat)
    ensures Before([], Walk(s, 0, Max(1, end), end, 0)) == Walk(s, 0, Max(1, end), end, 0)
  {
    BeforeTwice([], [], Walk(s, 0, Max(1, end), end, 0));
  }

  lemma WalkStops(s: Server, all: seq<Update>, begin: nat, window: nat, end: nat, guard: nat)
    requires begin <= end && window >= 1 && (begin == end || guard >= GUARD)
    ensures Before(all, Walk(s, begin, window, end, guard)) == Fetched(all)
  {
    assert all + [] == all;
  }

  // ----- what a page holds -----

  /** Adjacent ranges join without gap or duplicate. */
  lemma {:induction false} BetweenJoins(us: seq<Update>, a: nat, b: nat, c: nat)
    requires Ordered(us) && a <= b <= c
    ensures Between(us, a, b) + Between(us, b, c) == Between(us, a, c)
  {
    if |us| > 0 {
      var n := |us| - 1;
      BetweenJoins(us[..n], a, b, c);
      if us[n].offset <= b {
        NoneAfter(us[..n], b, c);
      }
    }
  }

  lemma {:induction false} NoneAfter(us: seq<Update>, b: nat, c: nat)
    requires forall i :: 0 <= i < |us| ==> us[i].offset <= b
    ensures Between(us, b, c) == []
  {
    if |us| > 0 {
      NoneAfter(us[..|us| - 1], b, c);
    }
  }

  /** A history that ends by `end` is, from offset 0 to end, the history itself. */
  lemma {:induction false} BetweenAll(us: seq<Update>, end: nat)
    requires Ordered(us) && forall i :: 0 <= i < |us| ==> us[i].offset <= end
    ensures Between(us, 0, end) == us
  {
    if |us| > 0 {
      BetweenAll(us[..|us| - 1], end);
    }
  }

  // ----- soundness -----

  /** However the walk ends, what it returns is a prefix of the history: nothing out of order, twice or skipped. */
  lemma {:induction false} WalkReturnsPrefix(s: Server, begin: nat, window: nat, end: nat, guard: nat) returns (reached: nat)
    requires Ordered(s.updates) && begin <= end && window >= 1 && guard <= GUARD
    requires Walk(s, begin, window, end, guard).Fetched?
    ensures begin <= reached <= end
    ensures Walk(s, begin, window, end, guard).rows == Between(s.updates, begin, reached)
    decreases GUARD - guard
  {
    if begin == end || guard >= GUARD {
      reached := begin;
      EmptyRange(s.updates, begin);
    } else {
      var to := Min(end, begin + window);
      match Respond(s, guard, begin, to) {
        case Page(rows) =>
          reached := WalkReturnsPrefix(s, to, Grown(window, |rows|, to, end), end, guard + 1);
          BetweenJoins(s.updates, begin, to, reached);
        case TooLarge =>
          reached := WalkReturnsPrefix(s, begin, window / 2, end, guard + 1);
        case Failed =>
          assert false;
      }
    }
  }

  lemma {:induction false} EmptyRange(us: seq<Update>, b: nat)
    ensures Between(us, b, b) == []
  {
    if |us| > 0 {
      EmptyRange(us[..|us| - 1], b);
    }
  }

  // ----- completeness below the guard -----

  /** Every range of at most `span` offsets is served. */
  ghost predicate Serves(s: Server, span: nat) {
    forall b: nat, e: nat :: b <= e <= b + span ==> |Between(s.updates, b, e)| <= s.limit
  }

  /** One offset alone holds more updates than a page may. */
  predicate Oversized(s: Server, o: nat) {
    |Between(s.updates, o, o + 1)| > s.limit
  }

  lemma OversizedIsNotServed(s: Server, o: nat)
    requires Oversized(s, o)
    ensures forall span :: span >= 1 ==> !Serves(s, span)
  {
  }

  function Log2(n: nat): nat {
    if n <= 1 then 0 else 1 + Log2(n / 2)
  }

  lemma {:induction false} Log2Monotone(m: nat, n: nat)
    requires m <= n
    ensures Log2(m) <= Log2(n)
    decreases n
  {
    if m > 1 {
      Log2Monotone(m / 2, n / 2);
    }
  }

  function Ceil(n: nat, d: nat): nat
    requires d > 0
  {
    if n == 0 then 0 else if n <= d then 1 else 1 + Ceil(n - d, d)
  }

  lemma {:induction false} CeilIsDivision(n: nat, d: nat)
    requires d > 0
    ensures Ceil(n, d) == (n + d - 1) / d
  {
    if n == 0 {
      QuotientIs(d, 0, d - 1);
    } else if n <= d {
      QuotientIs(d, 1, n - 1);
    } else {
      CeilIsDivision(n - d, d);
      StepDown(n - 1, d);
    }
  }

  lemma {:induction false} CeilMonotone(m: nat, n: nat, d: nat)
    requires d > 0 && m <= n
    ensures Ceil(m, d) <= Ceil(n, d)
  {
    if m > d {
      CeilMonotone(m - d, n - d, d);
    }
  }

  /** Half a span that is always served: windows only shrink below twice of it, so never below it. */
  function Half(span: nat): nat {
    (span + 1) / 2
  }

  /** Two per page still to come, and one per halving the window can still take. */
  function Potential(begin: nat, window: nat, end: nat, span: nat): nat
    requires begin <= end && span >= 1
  {
    2 * Ceil(end - begin, Half(span)) + Log2(window)
  }

  /** Each request lowers the potential, so requests as many as the potential complete the walk. */
  lemma {:induction false} WalkCompletes(s: Server, begin: nat, window: nat, end: nat, guard: nat, span: nat)
    requires Ordered(s.updates) && begin <= end && window >= 1
    requires span == 1 || (span > 1 && Serves(s, span))
    requires window >= Min(Half(span), end - begin)
    requires guard + Potential(begin, window, end, span) <= GUARD
    ensures Walk(s, begin, window, end, guard) in {Fetched(Between(s.updates, begin, end)), Thrown}
    decreases GUARD - guard
  {
    hide Between, Ordered;
    if begin == end {
      EmptyRange(s.updates, begin);
    } else {
      var to := Min(end, begin + window);
      var rows := Between(s.updates, begin, to);
      if s.failing(guard) || (|rows| > s.limit && window == 1) {
        assert Walk(s, begin, window, end, guard).Thrown?;
      } else if |rows| > s.limit {
        assert span == 1 || to - begin > span;
        WalkCompletes(s, begin, window / 2, end, guard + 1, span);
      } else {
        var window' := Grown(window, |rows|, to, end);
        PageLowersPotential(begin, window, end, span, to, window');
        WalkCompletes(s, to, window', end, guard + 1, span);
        BetweenJoins(s.updates, begin, to, end);
      }
    }
  }

  lemma PageLowersPotential(begin: nat, window: nat, end: nat, span: nat, to: nat, window': nat)
    requires span >= 1 && begin < end && window >= Min(Half(span), end - begin)
    requires to == Min(end, begin + window) && (window' == window || window' == Min(if end == to then 1 else end - to, 2 * window))
    ensures Potential(to, window', end, span) < Potential(begin, window, end, span)
    ensures window' >= 1 && window' >= Min(Half(span), end - to)
  {
    var d := Half(span);
    assert window' <= 2 * window;
    Log2Monotone(window', 2 * window);
    if to < end {
      assert end - begin >= d + (end - to);
      CeilMonotone(end - to + d, end - begin, d);
    }
  }

  /**
   * When every range of `span` offsets is served, the whole history up to `end` is read whenever
   * 2 * ceil(end / ceil(span / 2)) + log2(end) requests are within the guard; with `end` the ledger's end, that is
   * the history itself.
   */
  lemma ReadsEverything(s: Server, end: nat, span: nat)
    requires Ordered(s.updates) && span >= 1 && Serves(s, span) && forall r :: !s.failing(r)
    requires 2 * Ceil(end, Half(span)) + Log2(end) <= 100000
    ensures Walk(s, 0, Max(1, end), end, 0) == Fetched(Between(s.updates, 0, end))
    ensures (forall i :: 0 <= i < |s.updates| ==> s.updates[i].offset <= end) ==> Walk(s, 0, Max(1, end), end, 0) == Fetched(s.updates)
  {
    WalkCompletes(s, 0, Max(1, end), end, 0, span);
    if forall i :: 0 <= i < |s.updates| ==> s.updates[i].offset <= end {
      BetweenAll(s.updates, end);
    }
    if Walk(s, 0, Max(1, end), end, 0).Thrown? {
      var o := ThrowsOnlyOnOversizedOffset(s, 0, Max(1, end), end, 0);
      OversizedIsNotServed(s, o);
    }
  }

  function PowerOfTwo(k: nat): nat {
    if k == 0 then 1 else 2 * PowerOfTwo(k - 1)
  }

  lemma PowerStep(window: nat, k: nat)
    requires k > 0
    ensures window * PowerOfTwo(k) == (2 * window) * PowerOfTwo(k - 1) && PowerOfTwo(k - 1) >= 1
  {
    PowerPositive(k - 1);
  }

  lemma {:induction false} PowerPositive(k: nat)
    ensures PowerOfTwo(k) >= 1
  {
    if k > 0 {
      PowerPositive(k - 1);
    }
  }

  /**
   * A window that has shrunk grows back: over a rest of the history that is sparse, fewer than 100 updates and
   * within a page, it doubles with every page, so a rest of up to window * 2^k offsets takes k + 1 requests.
   */
  lemma {:induction false} SparseRestIsFast(s: Server, begin: nat, window: nat, end: nat, guard: nat, k: nat)
    requires Ordered(s.updates) && begin <= end && window >= 1 && forall r :: !s.failing(r)
    requires |Between(s.updates, begin, end)| < 100 && |Between(s.updates, begin, end)| <= s.limit
    requires end - begin <= window * PowerOfTwo(k) && guard + k + 1 <= GUARD
    ensures Walk(s, begin, window, end, guard) == Fetched(Between(s.updates, begin, end))
    decreases k
  {
    hide Between, Ordered;
    if begin == end {
      EmptyRange(s.updates, begin);
    } else {
      var to := Min(end, begin + window);
      var rows := Between(s.updates, begin, to);
      Wider(s.updates, begin, begin, to, end);
      Wider(s.updates, begin, to, end, end);
      BetweenJoins(s.updates, begin, to, end);
      var window' := Grown(window, |rows|, to, end);
      if to == end {
        EmptyRange(s.updates, end);
        assert Walk(s, end, window', end, guard + 1) == Fetched([]);
        assert rows + [] == rows;
      } else {
        if k > 0 {
          PowerStep(window, k);
          PowerPositive(k - 1);
          RestCovered(end - to, window, window', PowerOfTwo(k - 1), end - begin);
          SparseRestIsFast(s, to, window', end, guard + 1, k - 1);
        }
      }
    }
  }

  lemma RestCovered(rest: nat, window: nat, window': nat, power: nat, whole: nat)
    requires power >= 1 && rest <= whole <= (2 * window) * power
    requires window' == 2 * window || window' == rest
    ensures rest <= window' * power
  {
    if window' == rest {
      assert rest * power >= rest * 1;
    }
  }

  // ----- what stops the walk -----

  /** Without other failures the walk throws only over a single offset that is too large to be served. */
  lemma {:induction false} ThrowsOnlyOnOversizedOffset(s: Server, begin: nat, window: nat, end: nat, guard: nat) returns (o: nat)
    requires begin <= end && window >= 1 && guard <= GUARD && forall r :: !s.failing(r)
    requires Walk(s, begin, window, end, guard).Thrown?
    ensures begin <= o < end && Oversized(s, o)
    decreases GUARD - guard
  {
    var to := Min(end, begin + window);
    match Respond(s, guard, begin, to) {
      case Page(rows) =>
        o := ThrowsOnlyOnOversizedOffset(s, to, Grown(window, |rows|, to, end), end, guard + 1);
      case TooLarge =>
        if window > 1 {
          o := ThrowsOnlyOnOversizedOffset(s, begin, window / 2, end, guard + 1);
        } else {
          o := begin;
        }
      case Failed =>
        assert false;
    }
  }

  /** A history with an oversized offset is never returned as complete. */
  lemma {:induction false} OversizedOffsetIsNotPassed(s: Server, begin: nat, window: nat, end: nat, guard: nat, o: nat)
    requires Ordered(s.updates) && begin <= o < end && window >= 1 && guard <= GUARD
    requires Oversized(s, o)
    ensures var w := Walk(s, begin, window, end, guard);
            w.Fetched? ==> exists reached :: begin <= reached <= o && w.rows == Between(s.updates, begin, reached)
    decreases GUARD - guard
  {
    if guard >= GUARD {
      EmptyRange(s.updates, begin);
      assert Between(s.updates, begin, begin) == [];
    } else {
      var to := Min(end, begin + window);
      match Respond(s, guard, begin, to) {
        case Page(rows) =>
          if to > o {
            Wider(s.updates, begin, o, o + 1, to);
            assert false;
          }
          OversizedOffsetIsNotPassed(s, to, Grown(window, |rows|, to, end), end, guard + 1, o);
          var w := Walk(s, to, Grown(window, |rows|, to, end), end, guard + 1);
          if w.Fetched? {
            var reached :| to <= reached <= o && w.rows == Between(s.updates, to, reached);
            BetweenJoins(s.updates, begin, to, reached);
          }
        case TooLarge =>
          if window > 1 {
            OversizedOffsetIsNotPassed(s, begin, window / 2, end, guard + 1, o);
          }
        case Failed =>
      }
    }
  }

  lemma {:induction false} Wider(us: seq<Update>, a: nat, b: nat, c: nat, d: nat)
    requires a <= b <= c <= d
    ensures |Between(us, b, c)| <= |Between(us, a, d)|
  {
    if |us| > 0 {
      Wider(us[..|us| - 1], a, b, c, d);
    }
  }

  /**
   * Within 2 * end + log2(end) requests the walk reads everything, or throws; it throws exactly when some single
   * offset is too large to be served.
   */
  lemma ReadsEverythingIff(s: Server, end: nat)
    requires Ordered(s.updates) && forall r :: !s.failing(r)
    requires 2 * end + Log2(end) <= 100000
    ensures var w := Walk(s, 0, Max(1, end), end, 0);
            && w in {Fetched(Between(s.updates, 0, end)), Thrown}
            && (w.Thrown? <==> exists o :: 0 <= o < end && Oversized(s, o))
  {
    hide Walk, Between, Ordered;
    CeilIsDivision(end, 1);
    WalkCompletes(s, 0, Max(1, end), end, 0, 1);
    if Walk(s, 0, Max(1, end), end, 0).Thrown? {
      var o := ThrowsOnlyOnOversizedOffset(s, 0, Max(1, end), end, 0);
    } else if o :| 0 <= o < end && Oversized(s, o) {
      OversizedOffsetIsNotRead(s, end, o);
    }
  }

  lemma OversizedOffsetIsNotRead(s: Server, end: nat, o: nat)
    requires Ordered(s.updates) && o < end && Oversized(s, o)
    ensures Walk(s, 0, Max(1, end), end, 0) != Fetched(Between(s.updates, 0, end))
  {
    hide Walk, Between, Ordered;
    var w := Walk(s, 0, Max(1, end), end, 0);
    OversizedOffsetIsNotPassed(s, 0, Max(1, end), end, 0, o);
    if w.Fetched? {
      var reached :| 0 <= reached <= o && w.rows == Between(s.updates, 0, reached);
      Splits(s.updates, 0, reached, end);
      Wider(s.updates, reached, o, o + 1, end);
    }
  }

  /** The rows of n full pages. */
  function Rows(limit: nat, n: nat): (r: nat)
  {
    if n == 0 then 0 else limit + Rows(limit, n - 1)
  }

  lemma {:induction false} RowsIsProduct(limit: nat, n: nat)
    ensures Rows(limit, n) == limit * n
  {
    if n > 0 {
      RowsIsProduct(limit, n - 1);
      assert limit * n == limit * (n - 1) + limit;
    }
  }

  /**
   * The guard itself throws nothing away only on short histories: where each offset up to `end` holds an update,
   * a longer history than limit * (requests left) is cut short without an error.
   */
  lemma {:induction false} GuardTruncatesLongHistories(s: Server, begin: nat, window: nat, end: nat, guard: nat)
    requires begin <= end && window >= 1 && guard <= GUARD
    requires forall b: nat, e: nat :: begin <= b <= e <= end ==> |Between(s.updates, b, e)| >= e - b
    requires end - begin > Rows(s.limit, GUARD - guard)
    ensures var w := Walk(s, begin, window, end, guard);
            w.Fetched? ==> |w.rows| < |Between(s.updates, begin, end)|
    decreases GUARD - guard
  {
    hide Between, Ordered;
    if guard < GUARD {
      var to := Min(end, begin + window);
      match Respond(s, guard, begin, to) {
        case Page(rows) =>
          assert to - begin <= |rows| <= s.limit;
          var window' := Grown(window, |rows|, to, end);
          GuardTruncatesLongHistories(s, to, window', end, guard + 1);
          var w := Walk(s, to, window', end, guard + 1);
          if w.Fetched? {
            Splits(s.updates, begin, to, end);
          }
        case TooLarge =>
          if window > 1 {
            GuardTruncatesLongHistories(s, begin, window / 2, end, guard + 1);
          }
        case Failed =>
      }
    }
  }

  /** With an update at each offset, a history longer than limit * GUARD comes back short, and nothing is thrown. */
  lemma LongHistoryIsCutSilently(s: Server, end: nat)
    requires end > s.limit * 100000 && Serves(s, 1) && forall r :: !s.failing(r)
    requires forall b: nat, e: nat :: b <= e <= end ==> |Between(s.updates, b, e)| >= e - b
    ensures var w := Walk(s, 0, Max(1, end), end, 0);
            w.Fetched? && |w.rows| < |Between(s.updates, 0, end)|
  {
    RowsIsProduct(s.limit, GUARD);
    GuardTruncatesLongHistories(s, 0, Max(1, end), end, 0);
    if Walk(s, 0, Max(1, end), end, 0).Thrown? {
      var o := ThrowsOnlyOnOversizedOffset(s, 0, Max(1, end), end, 0);
      OversizedIsNotServed(s, o);
    }
  }

  lemma {:induction false} Splits(us: seq<Update>, a: nat, b: nat, c: nat)
    requires a <= b <= c
    ensures |Between(us, a, b)| + |Between(us, b, c)| == |Between(us, a, c)|
  {
    if |us| > 0 {
      Splits(us[..|us| - 1], a, b, c);
    }
  }
}
