/** Whole-run consequences of the model: what the summary says when every request
    fails, when every request succeeds in the same time, and how alternating draws
    over two domains are queued and listed. */
module Scenarios {
  import opened Results
  import opened Outcomes
  import opened Statistics
  import opened StressTesting

  /** Every scheduled request fails (a non-200 status, an undecodable body or a
      transport error): no latency, and the report shows zero times and a 100%
      error rate. */
  lemma AllRequestsFail(os: seq<Outcome>, totalRequests: int)
    requires totalRequests == |os| > 0
    requires forall i :: 0 <= i < |os| ==> !RecordsLatency(os[i])
    ensures CalculateStatistics(Latencies(os), ErrorCount(os), totalRequests) == Ok(Summary(0.0, 0.0, 0.0, 100.0))
  {
    AllFailed(os);
    ErrorRateIsPercentage(ErrorCount(os), totalRequests);
  }

  /** Every scheduled request succeeds in time `c`: mean, maximum and 90th
      percentile are all `c` and the error rate is 0. */
  lemma AllRequestsSucceed(os: seq<Outcome>, totalRequests: int, c: real)
    requires totalRequests == |os| > 0
    requires forall i :: 0 <= i < |os| ==> RecordsLatency(os[i]) && os[i].elapsed == c
    ensures CalculateStatistics(Latencies(os), ErrorCount(os), totalRequests) == Ok(Summary(c, c, c, 0.0))
  {
    AllSucceeded(os, c);
    var ts := Latencies(os);
    AverageOfConstant(ts, c);
    P90InSample(ts);
    ErrorRateIsPercentage(ErrorCount(os), totalRequests);
  }

  /** Draws 0, 1, 2, 3 over two domains queue them alternately. */
  lemma AlternatingPicks(a: string, b: string)
    ensures Picks([a, b], [0, 1, 2, 3]) == [a, b, a, b]
  {
    var picks := Picks([a, b], [0, 1, 2, 3]);
    assert picks[0] == a && picks[1] == b && picks[2] == a && picks[3] == b;
  }

  /** Requests alternating between two distinct domains list each domain once,
      in the order first requested. */
  lemma TwoDomainsListedOnce(a: string, b: string)
    requires a != b
    ensures DomainList.AddAll([], [a, b, a, b]) == [a, b]
  {
    var ab, aba, abab := [a, b], [a, b, a], [a, b, a, b];
    assert [] + [a] == [a] && [a] + [b] == ab && ab + [a] == aba && aba + [b] == abab;
    DomainList.AddAllSnoc([], [], a);
    assert DomainList.AddAll([], [a]) == [a];
    DomainList.AddAllSnoc([], [a], b);
    assert DomainList.AddAll([], ab) == ab;
    DomainList.AddAllSnoc([], ab, a);
    assert DomainList.AddAll([], aba) == ab;
    DomainList.AddAllSnoc([], aba, b);
  }

  /** A whole run in which every request fails: the queue is drained, every
      requested domain is listed exactly once, and the summary reports zero times
      and a 100% error rate. */
  method RunWhereEveryRequestFails(domains: seq<string>, numThreads: int, totalRequests: int,
                                   choices: seq<nat>, outcomes: seq<Outcome>)
      returns (r: Result<Summary>, listed: seq<string>)
    requires domains != [] && numThreads > 0 && totalRequests > 0
    requires |choices| == totalRequests && |outcomes| == totalRequests
    requires forall i :: 0 <= i < |outcomes| ==> !RecordsLatency(outcomes[i])
    ensures r == Ok(Summary(0.0, 0.0, 0.0, 100.0))
    ensures DomainList.NoDuplicates(listed)
    ensures forall d :: d in listed <==> d in Picks(domains, choices)
  {
    var t := new StressTest(domains, numThreads, totalRequests);
    assert [] + Picks(domains, choices) == Picks(domains, choices);
    r := t.Run(choices, outcomes);
    assert t.responseTimes == Latencies(outcomes) && t.totalErrors == ErrorCount(outcomes);
    AllRequestsFail(outcomes, totalRequests);
    DomainList.AddAllElements([], Picks(domains, choices));
    listed := t.domainArray;
  }
}
