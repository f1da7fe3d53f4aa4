/** The sequential bookkeeping of `StressTest`: seeding the request queue, the
    workers' recording of each request's outcome, and the final statistics. */
module StressTesting {
  import opened Results
  import opened Outcomes
  import opened DomainList
  import Statistics

  /** How many times `for counter in range(n)` runs its body. */
  function RangeLength(n: int): (k: nat)
    ensures n <= k && (k == 0 || k == n)
  {
    if n < 0 then 0 else n
  }

  /** The domains that `random.choice(domains)` returns for the draws `choices`:
      each draw picks the element at its index reduced modulo the length. */
  function Picks(domains: seq<string>, choices: seq<nat>): (q: seq<string>)
    requires domains != [] || choices == []
    ensures |q| == |choices|
    ensures forall k :: 0 <= k < |q| ==> q[k] in domains
  {
    seq(|choices|, k requires 0 <= k < |choices| => domains[choices[k] % |domains|])
  }

  lemma PicksPrefix(domains: seq<string>, choices: seq<nat>, k: nat)
    requires domains != [] && k < |choices|
    ensures Picks(domains, choices[..k + 1]) == Picks(domains, choices[..k]) + [domains[choices[k] % |domains|]]
  {
  }

  class StressTest {
    const domains: seq<string>
    const numThreads: int
    const totalRequestsMade: int

    /** `request_queue`: domains waiting to be requested, oldest first. */
    var requestQueue: seq<string>
    /** `domain_array`: the distinct domains taken from the queue so far. */
    var domainArray: seq<string>
    /** `response_times`: the latency of every successful request. */
    var responseTimes: seq<real>
    var totalErrors: nat

    /** The domains taken from the queue so far and the outcome of each request. */
    ghost var completed: seq<string>
    ghost var outcomesSeen: seq<Outcome>

    /** The aggregate state is exactly the fold of the requests made so far: one
        latency per success, one error per failure, every contacted domain listed
        once in first-seen order. */
    ghost predicate Valid()
      reads this
    {
      && |completed| == |outcomesSeen|
      && responseTimes == Latencies(outcomesSeen)
      && totalErrors == ErrorCount(outcomesSeen)
      && domainArray == AddAll([], completed)
      && |responseTimes| + totalErrors == |completed|
      && NoDuplicates(domainArray)
    }

    /** `__init__`, without the logging, directory and report-file setup. */
    constructor (domains: seq<string>, numThreads: int, totalRequests: int)
      ensures Valid()
      ensures this.domains == domains && this.numThreads == numThreads
      ensures totalRequestsMade == totalRequests
      ensures requestQueue == [] && domainArray == [] && responseTimes == [] && totalErrors == 0
      ensures completed == [] && outcomesSeen == []
    {
      this.domains := domains;
      this.numThreads := numThreads;
      totalRequestsMade := totalRequests;
      requestQueue := [];
      domainArray := [];
      responseTimes := [];
      totalErrors := 0;
      completed := [];
      outcomesSeen := [];
    }

    /** The seeding loop of `stress_test`: one random domain per scheduled request.
        With an empty domain list the first draw raises and nothing is enqueued. */
    method Seed(choices: seq<nat>) returns (ok: bool)
      requires |choices| == RangeLength(totalRequestsMade)
      modifies this`requestQueue
      ensures ok <==> domains != [] || choices == []
      ensures ok ==> requestQueue == old(requestQueue) + Picks(domains, choices)
      ensures !ok ==> requestQueue == old(requestQueue)
    {
      if choices != [] && domains == [] {
        return false;
      }
      for counter := 0 to |choices|
        invariant requestQueue == old(requestQueue) + Picks(domains, choices[..counter])
      {
        PicksPrefix(domains, choices, counter);
        requestQueue := requestQueue + [domains[choices[counter] % |domains|]];
      }
      assert choices[..|choices|] == choices;
      return true;
    }

    /** The `try` block of the worker loop once the response is in: a 200 whose
        body decodes appends its latency, anything else adds one error. */
    method RecordOutcome(outcome: Outcome)
      modifies this`responseTimes, this`totalErrors
      ensures RecordsLatency(outcome) ==>
        responseTimes == old(responseTimes) + [outcome.elapsed] && totalErrors == old(totalErrors)
      ensures !RecordsLatency(outcome) ==>
        responseTimes == old(responseTimes) && totalErrors == old(totalErrors) + 1
    {
      match outcome {
        case Answered(status, elapsed, bodyIsJson) =>
          if status == 200 {
            if bodyIsJson {
              responseTimes := responseTimes + [elapsed];
            } else {
              // the body fails to decode: a RequestException, counted as an error
              totalErrors := totalErrors + 1;
            }
          } else {
            totalErrors := totalErrors + 1;
          }
        case TransportFailure =>
          totalErrors := totalErrors + 1;
      }
    }

    /** One pass of the worker loop: take the oldest domain, list it if it is new,
        then record the request's outcome. */
    method HandleTask(outcome: Outcome)
      requires Valid() && requestQueue != []
      modifies this`requestQueue, this`domainArray, this`responseTimes, this`totalErrors,
        this`completed, this`outcomesSeen
      ensures Valid()
      ensures requestQueue == old(requestQueue)[1..]
      ensures completed == old(completed) + [old(requestQueue)[0]]
      ensures outcomesSeen == old(outcomesSeen) + [outcome]
      ensures domainArray == AddIfAbsent(old(domainArray), old(requestQueue)[0])
      ensures RecordsLatency(outcome) ==>
        responseTimes == old(responseTimes) + [outcome.elapsed] && totalErrors == old(totalErrors)
      ensures !RecordsLatency(outcome) ==>
        responseTimes == old(responseTimes) && totalErrors == old(totalErrors) + 1
    {
      var domain := requestQueue[0];
      requestQueue := requestQueue[1..];
      if domain !in domainArray {
        domainArray := domainArray + [domain];
      }
      RecordOutcome(outcome);
      completed := completed + [domain];
      outcomesSeen := outcomesSeen + [outcome];
      LatenciesSnoc(old(outcomesSeen), outcome);
      AddAllSnoc([], old(completed), domain);
      LatencyErrorBalance(outcomesSeen);
    }

    /** `worker`: drain the queue; `outcomes[k]` is what the `k`-th request returns. */
    method Worker(outcomes: seq<Outcome>)
      requires Valid() && |outcomes| == |requestQueue|
      modifies this`requestQueue, this`domainArray, this`responseTimes, this`totalErrors,
        this`completed, this`outcomesSeen
      ensures Valid()
      ensures requestQueue == []
      ensures completed == old(completed) + old(requestQueue)
      ensures outcomesSeen == old(outcomesSeen) + outcomes
      ensures domainArray == AddAll(old(domainArray), old(requestQueue))
      ensures responseTimes == old(responseTimes) + Latencies(outcomes)
      ensures totalErrors == old(totalErrors) + ErrorCount(outcomes)
    {
      ghost var queue0, completed0, outcomes0 := requestQueue, completed, outcomesSeen;
      assert domainArray == AddAll([], completed0);
      assert responseTimes == Latencies(outcomes0) && totalErrors == ErrorCount(outcomes0);
      var k := 0;
      while requestQueue != []
        invariant Valid()
        invariant 0 <= k <= |queue0| && requestQueue == queue0[k..]
        invariant completed == completed0 + queue0[..k]
        invariant outcomesSeen == outcomes0 + outcomes[..k]
        decreases |requestQueue|
      {
        assert queue0[..k + 1] == queue0[..k] + [queue0[k]];
        assert outcomes[..k + 1] == outcomes[..k] + [outcomes[k]];
        assert requestQueue[0] == queue0[k] && requestQueue[1..] == queue0[k + 1..];
        HandleTask(outcomes[k]);
        k := k + 1;
      }
      assert queue0[..k] == queue0 && outcomes[..k] == outcomes;
      AddAllConcat([], completed0, queue0);
      LatenciesConcat(outcomes0, outcomes);
    }

    /** `stress_test` run sequentially: seed the queue, let the workers drain it,
        compute the statistics. In a sequential interleaving the first worker
        empties the queue and the others find it empty; with no worker nothing is
        drained. `outcomes` answers every request the queue will hold. */
    method Run(choices: seq<nat>, outcomes: seq<Outcome>) returns (r: Result<Statistics.Summary>)
      requires Valid()
      requires |choices| == RangeLength(totalRequestsMade)
      requires |outcomes| == |requestQueue| + |choices|
      modifies this`requestQueue, this`domainArray, this`responseTimes, this`totalErrors,
        this`completed, this`outcomesSeen
      ensures Valid()
      ensures domains == [] && choices != [] ==> r == Err(ChoiceFromEmpty) && unchanged(this)
      ensures domains != [] || choices == [] ==>
        var queued := old(requestQueue) + Picks(domains, choices);
        && r == Statistics.CalculateStatistics(responseTimes, totalErrors, totalRequestsMade)
        && (numThreads > 0 ==>
             && requestQueue == []
             && completed == old(completed) + queued
             && outcomesSeen == old(outcomesSeen) + outcomes
             && domainArray == AddAll(old(domainArray), queued)
             && responseTimes == old(responseTimes) + Latencies(outcomes)
             && totalErrors == old(totalErrors) + ErrorCount(outcomes))
        && (numThreads <= 0 ==>
             && requestQueue == queued
             && completed == old(completed) && outcomesSeen == old(outcomesSeen))
    {
      var ok := Seed(choices);
      if !ok {
        return Err(ChoiceFromEmpty);
      }
      if numThreads > 0 {
        Worker(outcomes);
      }
      r := Statistics.CalculateStatistics(responseTimes, totalErrors, totalRequestsMade);
    }
  }
}
