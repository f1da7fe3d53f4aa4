/** The summary figures computed once the workers have finished: mean, maximum and
    90th-percentile latency, and the error rate. Latencies are exact reals. */
module Statistics {
  import opened Results

  /** Python's `sum`, a left fold from 0. */
  function Sum(xs: seq<real>): real
  {
    if xs == [] then 0.0 else Sum(xs[..|xs| - 1]) + xs[|xs| - 1]
  }

  /** `sum(xs) / len(xs) if xs else 0`. */
  function Average(xs: seq<real>): (avg: real)
    ensures xs == [] ==> avg == 0.0
    ensures xs != [] ==> avg * (|xs| as real) == Sum(xs)
  {
    if xs == [] then 0.0 else Sum(xs) / (|xs| as real)
  }

  /** `max(xs) if xs else 0`. */
  function MaxTime(xs: seq<real>): (m: real)
    ensures xs == [] ==> m == 0.0
    ensures xs != [] ==> m in xs
    ensures forall i :: 0 <= i < |xs| ==> xs[i] <= m
  {
    if xs == [] then 0.0
    else if |xs| == 1 then xs[0]
    else
      var m' := MaxTime(xs[..|xs| - 1]);
      assert xs == xs[..|xs| - 1] + [xs[|xs| - 1]];
      if xs[|xs| - 1] > m' then xs[|xs| - 1] else m'
  }

  predicate SortedAscending(s: seq<real>) {
    forall i, j :: 0 <= i < j < |s| ==> s[i] <= s[j]
  }

  lemma ConsSorted(a: real, s: seq<real>)
    requires SortedAscending(s) && (s == [] || a <= s[0])
    ensures SortedAscending([a] + s)
  {
    var r := [a] + s;
    forall i, j | 0 <= i < j < |r| ensures r[i] <= r[j] {
      if i > 0 {
        assert r[i] == s[i - 1] && r[j] == s[j - 1];
      } else {
        assert r[j] == s[j - 1];
      }
    }
  }

  /** Places `x` into the ascending sequence `s`. */
  function Insert(x: real, s: seq<real>): (r: seq<real>)
    requires SortedAscending(s)
    ensures |r| == |s| + 1
    ensures r[0] == x || (s != [] && r[0] == s[0])
    ensures SortedAscending(r)
    ensures multiset(r) == multiset(s) + multiset{x}
  {
    if s == [] then [x]
    else if x <= s[0] then ConsSorted(x, s); [x] + s
    else
      var t := s[1..];
      assert s == [s[0]] + t;
      var r' := Insert(x, t);
      assert s[0] <= r'[0];
      ConsSorted(s[0], r');
      [s[0]] + r'
  }

  /** Python's `sorted`: the ascending rearrangement of `xs`. */
  function Sort(xs: seq<real>): (r: seq<real>)
    ensures |r| == |xs|
    ensures SortedAscending(r)
    ensures multiset(r) == multiset(xs)
  {
    if xs == [] then []
    else
      assert xs == xs[..|xs| - 1] + [xs[|xs| - 1]];
      Insert(xs[|xs| - 1], Sort(xs[..|xs| - 1]))
  }

  /** The first element of an ascending sequence is its least. */
  lemma SortedHeadIsLeast(s: seq<real>, x: real)
    requires SortedAscending(s) && x in multiset(s)
    ensures s[0] <= x
  {
    var j :| 0 <= j < |s| && s[j] == x;
  }

  /** There is only one ascending rearrangement of a sequence, so `Sort` is
      `sorted` whatever algorithm the latter uses. */
  lemma {:induction false} SortedPermutationUnique(a: seq<real>, b: seq<real>)
    requires SortedAscending(a) && SortedAscending(b)
    requires multiset(a) == multiset(b)
    ensures a == b
  {
    if a == [] {
      assert |multiset(b)| == 0;
    } else {
      assert |b| == |multiset(b)| == |multiset(a)| == |a|;
      SortedHeadIsLeast(b, a[0]);
      SortedHeadIsLeast(a, b[0]);
      var x := a[0];
      assert b[0] == x;
      assert a == [x] + a[1..] && b == [x] + b[1..];
      var ta, tb := multiset(a[1..]), multiset(b[1..]);
      assert multiset{x} + ta == multiset{x} + tb;
      forall y ensures ta[y] == tb[y] {
        assert (multiset{x} + ta)[y] == (multiset{x} + tb)[y];
      }
      assert ta == tb;
      SortedPermutationUnique(a[1..], b[1..]);
    }
  }

  /** The index `int(0.9 * n)` of the 90th percentile in the sorted latencies. The
      double 0.9 lies just above 9/10 and `0.9 * n` is at least 0.1 away from an
      integer unless 10 divides `n`, so this is `(9 * n) / 10`. */
  function P90Index(n: nat): (k: nat)
    ensures n >= 1 ==> k < n
    ensures k * 10 <= 9 * n < (k + 1) * 10
  {
    (9 * n) / 10
  }

  /** `sorted(xs)[int(0.9 * len(xs))] if xs else 0`: nearest rank, no interpolation. */
  function P90(xs: seq<real>): real
  {
    if xs == [] then 0.0 else Sort(xs)[P90Index(|xs|)]
  }

  /** A one-sided bound on a latency. */
  datatype Bound = AtMost(v: real) | AtLeast(v: real)

  predicate Within(t: real, p: Bound) {
    match p
    case AtMost(v) => t <= v
    case AtLeast(v) => t >= v
  }

  /** The number of elements of `xs` within the bound `p`. */
  function Count(xs: seq<real>, p: Bound): nat
  {
    if xs == [] then 0 else (if Within(xs[0], p) then 1 else 0) + Count(xs[1..], p)
  }

  lemma {:induction false} CountConcat(a: seq<real>, b: seq<real>, p: Bound)
    ensures Count(a + b, p) == Count(a, p) + Count(b, p)
  {
    if a == [] {
      assert a + b == b;
    } else {
      assert (a + b)[1..] == a[1..] + b;
      CountConcat(a[1..], b, p);
    }
  }

  lemma {:induction false} CountInsert(x: real, s: seq<real>, p: Bound)
    requires SortedAscending(s)
    ensures Count(Insert(x, s), p) == Count(s, p) + (if Within(x, p) then 1 else 0)
  {
    if s != [] && x > s[0] {
      CountInsert(x, s[1..], p);
    }
  }

  /** Sorting does not change how many elements satisfy `p`. */
  lemma {:induction false} CountSort(xs: seq<real>, p: Bound)
    ensures Count(Sort(xs), p) == Count(xs, p)
  {
    if xs != [] {
      var init := xs[..|xs| - 1];
      var last := xs[|xs| - 1];
      assert xs == init + [last];
      assert Sort(xs) == Insert(last, Sort(init));
      CountSort(init, p);
      CountInsert(last, Sort(init), p);
      CountConcat(init, [last], p);
      assert Count([last], p) == (if Within(last, p) then 1 else 0);
    }
  }

  lemma {:induction false} CountEvery(xs: seq<real>, p: Bound)
    requires forall i :: 0 <= i < |xs| ==> Within(xs[i], p)
    ensures Count(xs, p) == |xs|
  {
    if xs != [] {
      CountEvery(xs[1..], p);
    }
  }

  /** In an ascending sequence, at least `k + 1` elements are at most the one at
      index `k` and at least `|s| - k` are at least it. */
  lemma {:induction false} CountSortedRank(s: seq<real>, k: nat)
    requires SortedAscending(s) && k < |s|
    ensures Count(s, AtMost(s[k])) >= k + 1
    ensures Count(s, AtLeast(s[k])) >= |s| - k
  {
    if k == 0 {
      CountEvery(s, AtLeast(s[0]));
    } else {
      assert s[1..][k - 1] == s[k];
      CountSortedRank(s[1..], k - 1);
    }
  }

  /** The 90th percentile is a nearest rank: at least `P90Index(n) + 1` of the
      latencies are at most it and at least `n - P90Index(n)` are at least it. */
  lemma P90IsNearestRank(xs: seq<real>)
    requires xs != []
    ensures var v := P90(xs);
      Count(xs, AtMost(v)) >= P90Index(|xs|) + 1 &&
      Count(xs, AtLeast(v)) >= |xs| - P90Index(|xs|)
  {
    var s := Sort(xs);
    var k := P90Index(|xs|);
    var v := s[k];
    assert P90(xs) == v;
    CountSortedRank(s, k);
    CountSort(xs, AtMost(v));
    CountSort(xs, AtLeast(v));
  }

  /** The last element of an ascending rearrangement of `xs` is the maximum. */
  lemma SortedLastIsMax(s: seq<real>, xs: seq<real>)
    requires xs != [] && SortedAscending(s) && multiset(s) == multiset(xs)
    ensures |s| == |xs| && s[|s| - 1] == MaxTime(xs)
  {
    assert |s| == |multiset(s)| == |xs|;
    var last, m := s[|s| - 1], MaxTime(xs);
    assert last in multiset(xs);
    assert m in multiset(s);
  }

  /** For up to ten latencies `int(0.9 * n)` is `n - 1`, so the 90th percentile is
      the maximum; with ten sorted latencies `1, ..., 10` it is `10`. */
  lemma P90OfSmallSampleIsMax(xs: seq<real>)
    requires 1 <= |xs| <= 10
    ensures P90(xs) == MaxTime(xs)
  {
    var n := |xs|;
    assert P90Index(n) == n - 1;
    SortedLastIsMax(Sort(xs), xs);
  }

  /** The 90th percentile is one of the latencies and never exceeds the maximum. */
  lemma P90InSample(xs: seq<real>)
    ensures xs != [] ==> P90(xs) in xs
    ensures P90(xs) <= MaxTime(xs)
  {
    if xs != [] {
      var s := Sort(xs);
      assert |s| == |multiset(s)| == |xs|;
      assert s[P90Index(|xs|)] in multiset(xs);
    }
  }

  /** The sum of latencies that are all at most `bound` is at most their number
      times `bound`. */
  lemma {:induction false} SumAtMost(xs: seq<real>, bound: real)
    requires forall i :: 0 <= i < |xs| ==> xs[i] <= bound
    ensures Sum(xs) <= (|xs| as real) * bound
  {
    if xs != [] {
      var init := xs[..|xs| - 1];
      SumAtMost(init, bound);
      var n := |init| as real;
      assert (|xs| as real) == n + 1.0;
      assert (n + 1.0) * bound == n * bound + bound;
    }
  }

  lemma MultiplyMonotone(n: real, a: real, b: real)
    requires n >= 0.0 && a <= b
    ensures n * a <= n * b
    ensures n > 0.0 && a < b ==> n * a < n * b
  {
  }

  /** The mean never exceeds the maximum. */
  lemma AverageAtMostMax(xs: seq<real>)
    ensures Average(xs) <= MaxTime(xs)
  {
    if xs != [] {
      SumAtMost(xs, MaxTime(xs));
      var n := |xs| as real;
      var avg, m := Average(xs), MaxTime(xs);
      assert avg * n <= m * n;
      if avg > m {
        MultiplyMonotone(n, m, avg);
        assert false;
      }
    }
  }

  /** The mean of `n` equal latencies `c` is `c`. */
  lemma {:induction false} AverageOfConstant(xs: seq<real>, c: real)
    requires forall i :: 0 <= i < |xs| ==> xs[i] == c
    ensures Sum(xs) == (|xs| as real) * c
    ensures xs != [] ==> Average(xs) == c
  {
    if xs != [] {
      AverageOfConstant(xs[..|xs| - 1], c);
    }
  }

  /** `(total_errors / total_requests_made) * 100`, a ZeroDivisionError when no
      request was scheduled. */
  function ErrorRate(totalErrors: nat, totalRequests: int): (r: Result<real>)
    ensures r.Err? <==> totalRequests == 0
    ensures r.Err? ==> r.error == ZeroDivision
    ensures r.Ok? ==> r.value * (totalRequests as real) == (totalErrors as real) * 100.0
  {
    if totalRequests == 0 then Err(ZeroDivision)
    else Ok((totalErrors as real) / (totalRequests as real) * 100.0)
  }

  /** With `errors <= total`, the error rate is a percentage: 0 with no error and
      100 when every scheduled request failed. */
  lemma ErrorRateIsPercentage(totalErrors: nat, totalRequests: int)
    requires 0 <= totalErrors <= totalRequests && totalRequests > 0
    ensures ErrorRate(totalErrors, totalRequests).Ok?
    ensures 0.0 <= ErrorRate(totalErrors, totalRequests).value <= 100.0
    ensures totalErrors == 0 ==> ErrorRate(totalErrors, totalRequests).value == 0.0
    ensures totalErrors == totalRequests ==> ErrorRate(totalErrors, totalRequests).value == 100.0
  {
    var e, n := totalErrors as real, totalRequests as real;
    assert e / n <= 1.0;
  }

  datatype Summary = Summary(averageTime: real, maxTime: real, p90Time: real, errorRate: real)

  /** `calculate_statistics` without the report file: the mean, maximum and 90th
      percentile of the recorded latencies and the error rate against the number
      of requests originally scheduled. Only the error rate can fail. */
  function CalculateStatistics(responseTimes: seq<real>, totalErrors: nat, totalRequestsMade: int): (r: Result<Summary>)
    ensures r.Err? <==> totalRequestsMade == 0
    ensures r.Err? ==> r.error == ZeroDivision
    ensures r.Ok? ==> r.value.errorRate * (totalRequestsMade as real) == (totalErrors as real) * 100.0
    ensures r.Ok? && responseTimes == [] ==>
      r.value.averageTime == 0.0 && r.value.maxTime == 0.0 && r.value.p90Time == 0.0
    ensures r.Ok? && responseTimes != [] ==>
      r.value.maxTime in responseTimes && r.value.p90Time in responseTimes
    ensures r.Ok? ==> r.value.averageTime <= r.value.maxTime && r.value.p90Time <= r.value.maxTime
    ensures r.Ok? ==> forall i :: 0 <= i < |responseTimes| ==> responseTimes[i] <= r.value.maxTime
    ensures r.Ok? && responseTimes != [] ==>
      && Count(responseTimes, AtMost(r.value.p90Time)) >= P90Index(|responseTimes|) + 1
      && Count(responseTimes, AtLeast(r.value.p90Time)) >= |responseTimes| - P90Index(|responseTimes|)
  {
    var averageTime := Average(responseTimes);
    var maxTime := MaxTime(responseTimes);
    var p90Time := P90(responseTimes);
    AverageAtMostMax(responseTimes);
    P90InSample(responseTimes);
    assert responseTimes != [] ==>
      && Count(responseTimes, AtMost(p90Time)) >= P90Index(|responseTimes|) + 1
      && Count(responseTimes, AtLeast(p90Time)) >= |responseTimes| - P90Index(|responseTimes|)
    by {
      if responseTimes != [] {
        P90IsNearestRank(responseTimes);
      }
    }
    match ErrorRate(totalErrors, totalRequestsMade)
    case Err(e) => Err(e)
    case Ok(errorRate) => Ok(Summary(averageTime, maxTime, p90Time, errorRate))
  }
}
