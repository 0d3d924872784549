/** Finding the instant at which an accrual had reached an amount already paid. */
module WithdrawTime {
  import opened Common

  /** Steps the fallback scan takes past its first instant. */
  const MAX_SCAN: nat := 1000

  /** The withdrawable amount never falls over a range of instants. */
  ghost predicate Rises(w: int -> int, from: int, to: int) {
    forall s, t :: from <= s <= t <= to ==> w(s) <= w(t)
  }

  /** t is an instant the search may return: the latest allowed one, or one in the accruing range. */
  predicate Allowed(t: int, latest: int, lower: int, end: int) {
    t == latest || lower <= t <= Min(latest, end)
  }

  /**
   * The result, when there is one, is an allowed instant with exactly this amount, for any withdrawable at all.
   * For a withdrawable that never falls, None means that no allowed instant has the amount; when the latest
   * instant does not have it and no closed form is tried, the first instant that has it is the one found.
   * `guess` is the closed form's instant for a linear vesting, and may be wrong by any distance.
   */
  method ResolveWithdrawTime(w: int -> int, amount: int, latest: int, lower: int, end: int, guess: Option<int>)
    returns (at: Option<int>)
    ensures at.Some? ==> Allowed(at.value, latest, lower, end) && w(at.value) == amount
    ensures Rises(w, lower, Min(latest, end)) ==>
              (at.None? <==> forall t :: Allowed(t, latest, lower, end) ==> w(t) != amount)
    ensures Rises(w, lower, Min(latest, end)) && at.Some? && w(latest) != amount && guess.None? ==>
              forall t :: lower <= t < at.value ==> w(t) != amount
  {
    if w(latest) == amount {
      return Some(latest);
    }
    var upper := Min(latest, end);
    var candidate := LeastReaching(w, amount, lower, upper);
    if candidate.None? {
      return None;
    }
    at := FindExact(w, amount, candidate.value, upper, guess);
  }

  /** The least instant of the range whose amount reaches the target, or None when none does. */
  method LeastReaching(w: int -> int, amount: int, lower: int, upper: int) returns (candidate: Option<int>)
    ensures candidate.Some? ==> lower <= candidate.value <= upper && w(candidate.value) >= amount
    ensures Rises(w, lower, upper) && candidate.Some? ==> forall t :: lower <= t < candidate.value ==> w(t) < amount
    ensures Rises(w, lower, upper) && candidate.None? ==> forall t :: lower <= t <= upper ==> w(t) < amount
  {
    var low, high := lower, upper;
    candidate := None;
    while low <= high
      invariant lower <= low && high <= upper && (low <= high + 1 || candidate.None?)
      invariant candidate.Some? ==> candidate.value == high + 1 && lower <= candidate.value <= upper && w(candidate.value) >= amount
      invariant candidate.None? ==> high == upper
      invariant Rises(w, lower, upper) ==> forall t :: lower <= t < low && t <= upper ==> w(t) < amount
      decreases high - low
    {
      var mid := (low + high) / 2;
      if w(mid) < amount {
        low := mid + 1;
      } else {
        candidate := Some(mid);
        high := mid - 1;
      }
    }
  }

  /** The first instant of from..last with exactly this amount. */
  function FirstExact(w: int -> int, amount: int, from: int, last: int): Option<int>
    decreases last - from
  {
    if from > last then None else if w(from) == amount then Some(from) else FirstExact(w, amount, from + 1, last)
  }

  /** The instants the closed form tries: its own, moved into the range, then its neighbours. */
  function Tries(from: int, to: int, guess: Option<int>): seq<int> {
    if guess.None? then []
    else
      var near := Max(from, Min(to, guess.value));
      [near, near - 1, near + 1, near - 2, near + 2]
  }

  predicate Fits(w: int -> int, amount: int, from: int, to: int, t: int) {
    from <= t <= to && w(t) == amount
  }

  function FirstTry(w: int -> int, amount: int, from: int, to: int, tries: seq<int>): Option<int> {
    if |tries| == 0 then None
    else if Fits(w, amount, from, to, tries[0]) then Some(tries[0])
    else FirstTry(w, amount, from, to, tries[1..])
  }

  /** What the search returns: the first try that fits, or else the first instant the capped scan finds. */
  function Exact(w: int -> int, amount: int, from: int, to: int, guess: Option<int>): Option<int> {
    var tried := FirstTry(w, amount, from, to, Tries(from, to, guess));
    if tried.Some? then tried else FirstExact(w, amount, from, Min(to, from + MAX_SCAN))
  }

  lemma {:induction false} FirstExactIs(w: int -> int, amount: int, from: int, last: int)
    ensures var r := FirstExact(w, amount, from, last);
            && (r.Some? ==> from <= r.value <= last && w(r.value) == amount && forall t :: from <= t < r.value ==> w(t) != amount)
            && (r.None? ==> forall t :: from <= t <= last ==> w(t) != amount)
    decreases last - from
  {
    if from <= last {
      FirstExactIs(w, amount, from + 1, last);
    }
  }

  lemma {:induction false} FirstTryIs(w: int -> int, amount: int, from: int, to: int, tries: seq<int>)
    ensures var r := FirstTry(w, amount, from, to, tries);
            && (r.Some? ==> r.value in tries && Fits(w, amount, from, to, r.value))
            && (r.None? <==> forall t :: t in tries ==> !Fits(w, amount, from, to, t))
  {
    if |tries| > 0 {
      FirstTryIs(w, amount, from, to, tries[1..]);
      assert tries == [tries[0]] + tries[1..];
    }
  }

  /** An instant of from..to with exactly this amount; the scan gives up after MAX_SCAN steps. */
  method FindExact(w: int -> int, amount: int, from: int, to: int, guess: Option<int>) returns (at: Option<int>)
    requires from <= to
    ensures at == Exact(w, amount, from, to, guess)
    ensures at.Some? ==> from <= at.value <= to && w(at.value) == amount
    ensures at.None? <==>
              && (forall t :: from <= t <= Min(to, from + MAX_SCAN) ==> w(t) != amount)
              && (forall t :: t in Tries(from, to, guess) ==> !Fits(w, amount, from, to, t))
    ensures at.Some? && guess.None? ==> forall t :: from <= t < at.value ==> w(t) != amount
  {
    var scanEnd := Min(to, from + MAX_SCAN);
    FirstExactIs(w, amount, from, scanEnd);
    FirstTryIs(w, amount, from, to, Tries(from, to, guess));
    if guess.Some? {
      var near := Max(from, Min(to, guess.value));
      if w(near) == amount {
        return Some(near);
      }
      var deltas := [-1, 1, -2, 2];
      var tries := Tries(from, to, guess);
      for i := 0 to |deltas|
        invariant FirstTry(w, amount, from, to, tries) == FirstTry(w, amount, from, to, tries[i + 1..])
      {
        var t := near + deltas[i];
        assert tries[i + 1] == t && tries[i + 1..][0] == t && tries[i + 1..][1..] == tries[i + 2..];
        if from <= t <= to && w(t) == amount {
          return Some(t);
        }
      }
    }
    var t := from;
    while t <= scanEnd
      invariant from <= t <= scanEnd + 1
      invariant FirstExact(w, amount, t, scanEnd) == FirstExact(w, amount, from, scanEnd)
    {
      if w(t) == amount {
        return Some(t);
      }
      t := t + 1;
    }
    return None;
  }

  /**
   * For any withdrawable, falling or not: an answer that exists in from..to is lost exactly when every instant that
   * has the amount is beyond the scan's cap and more than two milliseconds from the closed form's, moved into range.
   */
  lemma AnswerIsLostIff(w: int -> int, amount: int, from: int, to: int, guess: Option<int>)
    requires exists t :: Fits(w, amount, from, to, t)
    ensures Exact(w, amount, from, to, guess).None? <==>
              forall t :: Fits(w, amount, from, to, t) ==>
                && t > from + 1000
                && (guess.Some? ==>
                      var near := if guess.value < from then from else if guess.value > to then to else guess.value;
                      t < near - 2 || near + 2 < t)
  {
    WithinTwo(from, to, guess);
    FirstExactIs(w, amount, from, Min(to, from + MAX_SCAN));
    FirstTryIs(w, amount, from, to, Tries(from, to, guess));
    var first := FirstExact(w, amount, from, Min(to, from + MAX_SCAN));
    assert first.Some? ==> Fits(w, amount, from, to, first.value);
    var tried := FirstTry(w, amount, from, to, Tries(from, to, guess));
    assert tried.Some? ==> Fits(w, amount, from, to, tried.value);
  }

  lemma WithinTwo(from: int, to: int, guess: Option<int>)
    requires from <= to
    ensures guess.None? ==> Tries(from, to, guess) == []
    ensures guess.Some? ==>
              var near := if guess.value < from then from else if guess.value > to then to else guess.value;
              forall t :: t in Tries(from, to, guess) <==> near - 2 <= t <= near + 2
  {
    if guess.Some? {
      var near := if guess.value < from then from else if guess.value > to then to else guess.value;
      assert Tries(from, to, guess) == [near, near - 1, near + 1, near - 2, near + 2];
    }
  }

  /** It happens: a withdrawable that falls only beyond the cap has its one answer lost, with no closed form to try. */
  lemma ScanLosesWhatFalls(amount: int, from: int)
    ensures exists w: int -> int, to: int ::
              && Fits(w, amount, from, to, to) && w(from) > amount
              && Exact(w, amount, from, to, None).None?
  {
    var to := from + MAX_SCAN + 1;
    var w := (t: int) => if t == to then amount else amount + 1;
    assert Fits(w, amount, from, to, to);
    AnswerIsLostIff(w, amount, from, to, None);
  }
}
