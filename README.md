# Stress-test bookkeeping, verified

`stress_test.py` is a threaded HTTP load generator for a domain-reputation
service. This project models its sequential bookkeeping core:

- **Seeding.** `stress_test` fills a FIFO request queue with
  `total_requests_made` domains. Each domain is drawn by `random.choice` from the
  configured list.
- **Recording.** `worker` drains the queue one domain at a time. It adds each
  domain to `domain_array` if that domain is not already there. It then folds
  the request's outcome into either `response_times` or `total_errors`.
- **Statistics.** `calculate_statistics` computes:
  - the mean, the maximum and a nearest-rank 90th percentile of the recorded
    latencies;
  - the error rate as a percentage of the scheduled requests.

The files:

| file | contents |
|---|---|
| `results.dfy` | The `Result` type. Its two run errors are the `IndexError` from `random.choice` on an empty list and the `ZeroDivisionError` of the error-rate formula. |
| `outcomes.dfy` | The outcome of one request, given as an input. `Latencies`/`ErrorCount` fold a sequence of outcomes, with their balance and concatenation lemmas. |
| `domain_list.dfy` | The first-seen, duplicate-free domain list: `AddIfAbsent`, its fold `AddAll`, and the proofs that the list holds exactly the popped domains, once each, in first-seen order. |
| `statistics.dfy` | Mean, maximum, sort, 90th-percentile index and value, error rate, and `CalculateStatistics`, with their lemmas. |
| `stress_test.dfy` | The `StressTest` class. Its fields are the queue, the domain list, the latency list and the error counter. `Seed`, `RecordOutcome`, `HandleTask`, `Worker` and `Run` update them in place. |
| `scenarios.dfy` | Whole-run consequences: the summary reported when every request fails or every request succeeds in the same time, and alternating draws over two domains. |

Choices made in modelling:

- **Requests.** Each request's outcome is an input of type `Outcome`:
  - `Answered(status, elapsed, bodyIsJson)` for a response;
  - `TransportFailure` for a `requests.RequestException`.
- **Undecodable 200 response.** A status-200 response whose body does not
  decode counts as one error and records no latency. This follows the code.
  `response_times.append` (line 98) runs only after `response.json()` (line 96)
  returns. From requests 2.27 on, the decode error is a `RequestException`, so
  it is caught at line 107 and counted.
- **Random draws.** The draws of `random.choice` are an input sequence of
  naturals. Each natural is reduced modulo the number of domains. So an empty
  domain list with at least one draw reaches the `IndexError` path, which is
  `Err(ChoiceFromEmpty)`.
- **Number of draws.** `range(total_requests_made)` with a negative count runs
  no iterations (`RangeLength`).
- **Percentile index.** `int(0.9 * n)` is modelled as `(9 * n) / 10`. The double
  `0.9` is slightly above 9/10, and `9n/10` is either an integer or at least 0.1
  away from one, so the two agree for every realistic sample size.
- **Threads.** Workers are modelled in their sequential interleaving. The first
  worker drains the whole queue, and every later worker finds it empty. With no
  worker threads (`num_threads <= 0`), nothing is drained.
- **Ghost history.** The class keeps two ghost histories: the domains popped so
  far and the outcomes seen so far. Its invariant `Valid()` ties the real fields
  to them:
  - `response_times` is `Latencies(history)`;
  - `total_errors` is `ErrorCount(history)`;
  - `|response_times| + total_errors` equals the number of popped tasks;
  - the domain list is `AddAll([], popped)` and has no duplicates.

## Model

| member | source | states |
|---|---|---|
| `StressTesting.RangeLength` | stress_test.py:121 | `range(total_requests_made)` runs its body `max(n, 0)` times: at least `n` times, and either `n` or no times; `Seed` takes exactly that many draws |
| `StressTesting.Picks` | stress_test.py:121-123 | the queue gains exactly one domain per draw, and every queued domain is a member of `domains` |
| `StressTesting.StressTest.constructor` | stress_test.py:20-38 | a fresh tester has an empty queue, empty latency list, empty domain list and zero errors, and satisfies the bookkeeping invariant |
| `StressTesting.StressTest.Seed` | stress_test.py:121-123 | succeeds exactly when `domains` is non-empty or no draw is made; on success the queue is the old queue followed by the picked domains, in draw order; on failure (`random.choice` on an empty list) nothing changes |
| `StressTesting.StressTest.RecordOutcome` | stress_test.py:95-110 | a 200 response with a decodable body appends exactly its elapsed time and leaves the errors unchanged; a non-200 status, an undecodable body or a transport failure adds exactly one error and leaves the latencies unchanged |
| `StressTesting.StressTest.HandleTask` | stress_test.py:83-114 | pops the queue's head, adds it to the domain list only if absent (whatever the outcome), records the outcome as above, and keeps the balance and no-duplicates invariant |
| `StressTesting.StressTest.Worker` | stress_test.py:82-114 | drains the queue; the domain list becomes the first-seen fold of the old list over the old queue; latencies grow by exactly the successful outcomes' times and errors by exactly the failed ones' count; the invariant is kept |
| `StressTesting.StressTest.Run` | stress_test.py:116-142 | an empty domain list with draws fails with the `random.choice` error and changes nothing; otherwise it seeds, drains the queue when at least one worker runs, and returns the statistics of the final latency list, error count and scheduled total |
| `Outcomes.Latencies` | stress_test.py:95-98 | the times that a sequence of outcomes appends to `response_times`, in order; its lemmas below state that it holds one entry per decodable 200 response and each entry is such a response's elapsed time |
| `Outcomes.ErrorCount` | stress_test.py:102-110 | how many of a sequence of outcomes add to `total_errors`; its lemmas below state that it counts exactly the outcomes that are not decodable 200 responses |
| `Outcomes.LatencyErrorBalance` | stress_test.py:82-113 | every outcome contributes exactly one latency or exactly one error: `|latencies| + errors == |outcomes|` |
| `Outcomes.LatenciesSnoc` | stress_test.py:95-110 | folding one more outcome extends latencies by its time or errors by one, as the branch it takes says |
| `Outcomes.LatenciesConcat` | stress_test.py:82-110 | the latencies and errors of two consecutive runs of tasks are the concatenation and sum of each run's |
| `Outcomes.LatencySource` | stress_test.py:95-98 | each recorded latency is the elapsed time of some 200 response with a decodable body |
| `Outcomes.AllFailed` | stress_test.py:102-110 | when no outcome is a decodable 200 response, no latency is recorded and every outcome is an error |
| `Outcomes.AllSucceeded` | stress_test.py:95-98 | when every outcome is a decodable 200 response taking time `c`, every outcome records `c` and there are no errors |
| `DomainList.AddIfAbsent` | stress_test.py:84-85 | the list either stays as it was or gains the domain at its end; afterwards it contains the domain, and a duplicate-free list stays duplicate-free |
| `DomainList.AddAll` | stress_test.py:82-85 | folding a sequence of popped domains only extends the list and keeps it duplicate-free |
| `DomainList.AddAllElements` | stress_test.py:82-85 | the folded list contains exactly the old list's domains and the popped domains |
| `DomainList.AddAllSnoc` | stress_test.py:82-85 | popping one more domain is one more first-seen insertion |
| `DomainList.AddAllConcat` | stress_test.py:82-85 | folding two consecutive runs of pops equals folding the first and then the second |
| `DomainList.FirstIndex` | stress_test.py:84-85 | the index of a domain's first occurrence holds that domain and no earlier position does |
| `DomainList.FirstIndexPrefix` | stress_test.py:84-85 | a domain's first occurrence does not move when further domains are popped |
| `DomainList.InFirstSeenOrderSnoc` | stress_test.py:84-85 | appending a newly seen domain keeps a list in first-seen order |
| `DomainList.AddAllFirstSeenOrder` | stress_test.py:82-85 | the domain list orders its domains by first occurrence in the pop history |
| `Statistics.Sum` | stress_test.py:159 | Python's `sum` as a left fold from 0; `Average` is stated through it, and `SumAtMost` and `AverageOfConstant` bound and evaluate it |
| `Statistics.Average` | stress_test.py:159 | zero for no latencies; otherwise mean times count equals the sum |
| `Statistics.MaxTime` | stress_test.py:160 | zero for no latencies; otherwise an element of the latencies that is at least every element |
| `Statistics.Insert` | stress_test.py:161 | inserting into a sorted list gives a sorted list with one more element and the same elements plus the new one |
| `Statistics.Sort` | stress_test.py:161 | `sorted` yields an ascending permutation of the latencies |
| `Statistics.SortedPermutationUnique` | stress_test.py:161 | any two ascending permutations of the same latencies are equal, so `Sort` is the sorted list |
| `Statistics.P90` | stress_test.py:161-162 | 0 without latencies, otherwise the sorted latencies at index `P90Index(n)`; `P90InSample`, `P90IsNearestRank` and `P90OfSmallSampleIsMax` state that it is a latency, a nearest rank, and the maximum for up to ten latencies |
| `Statistics.P90Index` | stress_test.py:161-162 | the index is `floor(9n/10)` and lies below `n` for every non-empty sample, so the lookup is in range |
| `Statistics.CountSortedRank` | stress_test.py:161-162 | in a sorted list, at least `k+1` elements are at most the `k`-th and at least `n-k` are at least it |
| `Statistics.CountSort` | stress_test.py:161 | sorting does not change how many latencies lie below or above a bound |
| `Statistics.P90IsNearestRank` | stress_test.py:161-162 | the 90th percentile is at least `floor(9n/10)+1` of the latencies and at most `n - floor(9n/10)` of them |
| `Statistics.P90InSample` | stress_test.py:161-162 | the 90th percentile of a non-empty sample is one of its latencies and is at most the maximum |
| `Statistics.P90OfSmallSampleIsMax` | stress_test.py:161-162 | for 1 to 10 latencies the 90th percentile is the maximum |
| `Statistics.SumAtMost` | stress_test.py:159 | a sum of latencies each at most a bound is at most count times that bound |
| `Statistics.AverageAtMostMax` | stress_test.py:159-160 | the mean never exceeds the maximum |
| `Statistics.AverageOfConstant` | stress_test.py:159 | the mean of latencies all equal to `c` is `c` |
| `Statistics.ErrorRate` | stress_test.py:163 | fails with a division by zero exactly when no request was scheduled; otherwise rate times total equals errors times 100 |
| `Statistics.ErrorRateIsPercentage` | stress_test.py:163 | with at most as many errors as scheduled requests the rate lies in [0, 100]; it is 0 with no errors and 100 when every request errored |
| `Statistics.CalculateStatistics` | stress_test.py:153-163 | fails exactly when no request was scheduled; mean, maximum and percentile are 0 without latencies; otherwise maximum and percentile are latencies, the maximum bounds every latency, the mean and the percentile, and the percentile is a nearest rank: at least `P90Index(n)+1` latencies are at most it and at least `n - P90Index(n)` are at least it; the error rate times the total equals the errors times 100 |
| `Scenarios.AllRequestsFail` | stress_test.py:95-110 | when every request fails, the summary is zero times and a 100% error rate |
| `Scenarios.AllRequestsSucceed` | stress_test.py:95-98 | when every request succeeds in time `c`, mean, maximum and percentile are `c` and the error rate is 0 |
| `Scenarios.AlternatingPicks` | stress_test.py:121-123 | draws 0, 1, 2, 3 over two domains queue them alternately |
| `Scenarios.TwoDomainsListedOnce` | stress_test.py:84-85 | pops alternating between two distinct domains list each one once, in first-requested order |
| `Scenarios.RunWhereEveryRequestFails` | stress_test.py:116-163 | a whole run where every request fails reports zero times and a 100% error rate, with a duplicate-free domain list holding exactly the drawn domains |

## Left out

- Threads, the `Lock` and `thread.join(timeout)` with its "timeout reached" break (stress_test.py:97, 127-139) are left out: their point is concurrency and wall-clock timing. The model is the sequential interleaving in which one worker drains the queue. The unlocked update of `domain_array` (lines 84-85) is a race between threads and has no sequential counterpart.
- A run cut short by the join timeout is not modelled: every worker that runs drains the queue before the statistics are computed.
- The `KeyboardInterrupt` handler (stress_test.py:144-151) is signal handling and is left out.
- `requests.get`, the URL and headers, and the `time.time()` measurement (stress_test.py:86-93) are the network client and the clock. They are replaced by the `Outcome` input and its `elapsed` field.
- `random.choice` is replaced by given draws reduced modulo the list length. The distribution is not modelled.
- `request_queue.task_done()` (line 113) only serves `Queue.join`, which the program never calls, so it is not modelled.
- `total_time`, the wall-clock time passed to `calculate_statistics` (line 142), appears only in the output, and is left out.
- Logging, directory setup, the CSV header and the CSV summary (stress_test.py:40-73, 164-184) are output I/O and are left out.
- YAML loading and argument parsing (stress_test.py:187-212) are input I/O and are left out.
- Floating point: latencies and rates are exact reals, and `int(0.9 * n)` is `(9 * n) / 10`. Rounding in `sum`, in the division and in the output format is not modelled.
- With requests older than 2.27, an undecodable 200 body raises a `ValueError` that escapes the `except` and ends that worker thread. Only the behaviour from 2.27 on is modelled: the response counts as one error.
- `Statistics.CalculateStatistics`: its contract does not restate that the mean times the count equals the sum. `Statistics.Average` states that separately.
