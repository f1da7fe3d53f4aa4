/** What one HTTP request can come back with, and how the worker folds a
    sequence of such outcomes into its latency list and its error counter. */
module Outcomes {

  /** The network client is outside the model: each request's result is an input.
      `Answered` is a response with its status code, the measured elapsed time and
      whether `response.json()` succeeds on its body; `TransportFailure` is any
      other `requests.RequestException` (connection refused, DNS failure, timeout). */
  datatype Outcome =
    | Answered(status: int, elapsed: real, bodyIsJson: bool)
    | TransportFailure

  /** True exactly when the worker appends a latency: status 200 and a body that
      parses. A 200 whose body does not parse raises a decoding error, which is a
      `RequestException`, and is counted as an error instead. */
  predicate RecordsLatency(o: Outcome) {
    o.Answered? && o.status == 200 && o.bodyIsJson
  }

  /** The latencies that the outcomes `os`, in order, append to `response_times`. */
  function Latencies(os: seq<Outcome>): seq<real>
  {
    if os == [] then []
    else
      var o := os[|os| - 1];
      Latencies(os[..|os| - 1]) + (if RecordsLatency(o) then [o.elapsed] else [])
  }

  /** How much the outcomes `os` add to `total_errors`. */
  function ErrorCount(os: seq<Outcome>): nat
  {
    if os == [] then 0
    else ErrorCount(os[..|os| - 1]) + (if RecordsLatency(os[|os| - 1]) then 0 else 1)
  }

  /** Every outcome is recorded exactly once: as a latency or as an error. */
  lemma {:induction false} LatencyErrorBalance(os: seq<Outcome>)
    ensures |Latencies(os)| + ErrorCount(os) == |os|
  {
    if os != [] {
      LatencyErrorBalance(os[..|os| - 1]);
    }
  }

  /** Recording one more outcome. */
  lemma LatenciesSnoc(os: seq<Outcome>, o: Outcome)
    ensures Latencies(os + [o]) == Latencies(os) + (if RecordsLatency(o) then [o.elapsed] else [])
    ensures ErrorCount(os + [o]) == ErrorCount(os) + (if RecordsLatency(o) then 0 else 1)
  {
    assert (os + [o])[..|os|] == os;
  }

  /** Folding outcomes one after another is the same as folding their concatenation. */
  lemma {:induction false} LatenciesConcat(a: seq<Outcome>, b: seq<Outcome>)
    ensures Latencies(a + b) == Latencies(a) + Latencies(b)
    ensures ErrorCount(a + b) == ErrorCount(a) + ErrorCount(b)
  {
    if b == [] {
      assert a + b == a;
    } else {
      var b' := b[..|b| - 1];
      assert (a + b)[..|a + b| - 1] == a + b';
      assert (a + b)[|a + b| - 1] == b[|b| - 1];
      LatenciesConcat(a, b');
    }
  }

  /** Only successful outcomes contribute latencies, and each contributes its own
      elapsed time: the `k`-th recorded latency is that of the request `i`. */
  lemma {:induction false} LatencySource(os: seq<Outcome>, k: nat) returns (i: nat)
    requires k < |Latencies(os)|
    ensures i < |os| && RecordsLatency(os[i]) && os[i].elapsed == Latencies(os)[k]
  {
    var init, last := os[..|os| - 1], os[|os| - 1];
    assert Latencies(os) == Latencies(init) + (if RecordsLatency(last) then [last.elapsed] else []);
    if k < |Latencies(init)| {
      i := LatencySource(init, k);
    } else {
      i := |os| - 1;
    }
  }

  /** When no request succeeds, no latency is recorded and every outcome is an error. */
  lemma {:induction false} AllFailed(os: seq<Outcome>)
    requires forall i :: 0 <= i < |os| ==> !RecordsLatency(os[i])
    ensures Latencies(os) == []
    ensures ErrorCount(os) == |os|
  {
    if os != [] {
      AllFailed(os[..|os| - 1]);
    }
  }

  /** When every request succeeds in time `c`, the latency list is `|os|` copies of
      `c` and no error is counted. */
  lemma {:induction false} AllSucceeded(os: seq<Outcome>, c: real)
    requires forall i :: 0 <= i < |os| ==> RecordsLatency(os[i]) && os[i].elapsed == c
    ensures |Latencies(os)| == |os|
    ensures forall k :: 0 <= k < |os| ==> Latencies(os)[k] == c
    ensures ErrorCount(os) == 0
  {
    if os != [] {
      AllSucceeded(os[..|os| - 1], c);
    }
  }
}
