/** Shared vocabulary: optional values, small arithmetic and finite sums. */
module Common {

  datatype Option<+T> = None | Some(value: T)

  function Min(a: int, b: int): int {
    if a < b then a else b
  }

  function Max(a: int, b: int): int {
    if a > b then a else b
  }

  lemma {:induction false} QuotientIs(d: nat, q: nat, r: nat)
    requires r < d
    ensures (q * d + r) / d == q
  {
    if q > 0 {
      QuotientIs(d, q - 1, r);
      assert q * d == (q - 1) * d + d;
      StepDown((q - 1) * d + r, d);
    }
  }

  lemma StepDown(m: nat, d: nat)
    requires 0 < d
    ensures (m + d) / d == m / d + 1
  {
    var x := m / d + 1 - (m + d) / d;
    assert d * x == (m + d) % d - m % d;
    MultipleIsFar(d, x);
  }

  lemma MultipleIsFar(d: int, x: int)
    requires 0 <= d
    ensures x >= 1 ==> d * x >= d
    ensures x <= -1 ==> d * x <= -d
  {
    assert d * x == d * (x - 1) + d == d * (x + 1) - d;
    if x >= 1 {
      assert d * (x - 1) >= 0;
    } else if x <= -1 {
      assert d * (-(x + 1)) >= 0;
    }
  }

  lemma {:induction false} QuotientBound(n: nat, d: nat, q: nat)
    requires 0 < d && q * d <= n
    ensures q <= n / d
  {
    if q > 0 {
      assert q * d == (q - 1) * d + d;
      assert 0 <= (q - 1) * d;
      QuotientBound(n - d, d, q - 1);
      StepDown(n - d, d);
    }
  }

  /** q is ceil(n / d) when q steps of d reach n and one fewer does not. */
  lemma CeilIs(n: nat, d: nat, q: nat)
    requires 0 < d && n <= q * d && (q == 0 || (q - 1) * d < n)
    ensures (n + d - 1) / d == q
  {
    if q == 0 {
      QuotientIs(d, 0, d - 1);
    } else {
      assert q * d == (q - 1) * d + d;
      QuotientIs(d, q, n - 1 - (q - 1) * d);
    }
  }

  /** The sum of f over a sequence, taken from the left, as the source's loops accumulate it. */
  function Sum<T>(xs: seq<T>, f: T -> int): int {
    if |xs| == 0 then 0 else Sum(xs[..|xs| - 1], f) + f(xs[|xs| - 1])
  }

  lemma SumAppend<T>(xs: seq<T>, x: T, f: T -> int)
    ensures Sum(xs + [x], f) == Sum(xs, f) + f(x)
  {
    assert (xs + [x])[..|xs|] == xs;
  }

  lemma {:induction false} SumUpdate<T>(xs: seq<T>, i: nat, x: T, f: T -> int)
    requires i < |xs|
    ensures Sum(xs[i := x], f) == Sum(xs, f) - f(xs[i]) + f(x)
  {
    var n := |xs| - 1;
    if i == n {
      assert xs[i := x][..n] == xs[..n];
    } else {
      assert xs[i := x][..n] == xs[..n][i := x];
      SumUpdate(xs[..n], i, x, f);
    }
  }

  lemma {:induction false} SumHead<T>(xs: seq<T>, f: T -> int)
    requires |xs| > 0
    ensures Sum(xs, f) == f(xs[0]) + Sum(xs[1..], f)
  {
    var n := |xs| - 1;
    if n > 0 {
      SumHead(xs[..n], f);
      assert xs[1..][..n - 1] == xs[..n][1..];
    }
  }

  lemma SumCongruence<T>(xs: seq<T>, f: T -> int, g: T -> int)
    requires forall i :: 0 <= i < |xs| ==> f(xs[i]) == g(xs[i])
    ensures Sum(xs, f) == Sum(xs, g)
  {
    SumMonotone(xs, f, g);
    SumMonotone(xs, g, f);
  }

  /** Equal weights give equal sums; pointwise larger weights give a larger sum. */
  lemma {:induction false} SumMonotone<T>(xs: seq<T>, f: T -> int, g: T -> int)
    requires forall i :: 0 <= i < |xs| ==> f(xs[i]) <= g(xs[i])
    ensures Sum(xs, f) <= Sum(xs, g)
  {
    if |xs| != 0 {
      SumMonotone(xs[..|xs| - 1], f, g);
    }
  }

  lemma {:induction false} SumNonNegative<T>(xs: seq<T>, f: T -> int)
    requires forall i :: 0 <= i < |xs| ==> 0 <= f(xs[i])
    ensures 0 <= Sum(xs, f)
  {
    if |xs| != 0 {
      SumNonNegative(xs[..|xs| - 1], f);
    }
  }

  /** With no negative weight, one element never weighs more than the whole. */
  lemma {:induction false} SumAtLeastOne<T>(xs: seq<T>, i: nat, f: T -> int)
    requires i < |xs|
    requires forall j :: 0 <= j < |xs| ==> 0 <= f(xs[j])
    ensures f(xs[i]) <= Sum(xs, f)
  {
    var n := |xs| - 1;
    if i == n {
      SumNonNegative(xs[..n], f);
    } else {
      SumAtLeastOne(xs[..n], i, f);
    }
  }

  lemma {:induction false} SumAdd<T>(xs: seq<T>, f: T -> int, g: T -> int, h: T -> int)
    requires forall i :: 0 <= i < |xs| ==> h(xs[i]) == f(xs[i]) + g(xs[i])
    ensures Sum(xs, h) == Sum(xs, f) + Sum(xs, g)
  {
    if |xs| != 0 {
      SumAdd(xs[..|xs| - 1], f, g, h);
    }
  }

  lemma RemoveShrinks<K, V>(m: map<K, V>, k: K)
    requires k in m
    ensures |m - {k}| < |m|
  {
    assert m.Keys == (m - {k}).Keys + {k};
    assert |m| == |m.Keys| && |m - {k}| == |(m - {k}).Keys|;
  }

  lemma MoveOne<K, V>(done: map<K, V>, todo: map<K, V>, k: K)
    requires k in todo && done.Keys !! todo.Keys
    ensures done[k := todo[k]] + (todo - {k}) == done + todo
    ensures done[k := todo[k]].Keys !! (todo - {k}).Keys
  {
  }

  /** The sum of the values of a finite map. */
  ghost function Total<K>(m: map<K, int>): int
    decreases |m|
  {
    if m == map[] then 0 else
      var k :| k in m;
      RemoveShrinks(m, k);
      m[k] + Total(m - {k})
  }

  lemma {:induction false} TotalRemove<K>(m: map<K, int>, k: K)
    requires k in m
    ensures Total(m) == m[k] + Total(m - {k})
    decreases |m|, 1
  {
    var j :| j in m && Total(m) == m[j] + Total(m - {j});
    if j != k {
      TotalSwap(m, j, k);
    }
  }

  lemma {:induction false} TotalSwap<K>(m: map<K, int>, j: K, k: K)
    requires j in m && k in m && j != k
    ensures m[j] + Total(m - {j}) == m[k] + Total(m - {k})
    decreases |m|, 0
  {
    RemoveShrinks(m, j);
    RemoveShrinks(m, k);
    TotalRemove(m - {j}, k);
    TotalRemove(m - {k}, j);
    assert m - {j} - {k} == m - {k} - {j};
  }

  lemma TotalUpdate<K>(m: map<K, int>, k: K, v: int)
    ensures Total(m[k := v]) == Total(m) - (if k in m then m[k] else 0) + v
  {
    TotalRemove(m[k := v], k);
    if k in m {
      TotalRemove(m, k);
      assert m[k := v] - {k} == m - {k};
    } else {
      assert m[k := v] - {k} == m;
    }
  }

  lemma {:induction false} TotalMonotone<K>(m: map<K, int>, n: map<K, int>)
    requires m.Keys == n.Keys
    requires forall k :: k in m ==> m[k] <= n[k]
    ensures Total(m) <= Total(n)
    decreases |m|
  {
    if m.Keys != {} {
      var k :| k in m;
      TotalRemove(m, k);
      TotalRemove(n, k);
      TotalMonotone(m - {k}, n - {k});
    } else {
      assert |m.Keys| == 0 && |n.Keys| == 0;
    }
  }
}
