# A verified model of the rotating download proxy

The repository is a caching download proxy. A large file is cut into byte ranges, the ranges are fetched
through a pool of upstream proxies, and the pieces are put together again, either in memory or while they
stream to the client. This project models the parts of it that carry real algorithms and proves what they
guarantee in every run.

| file | models |
|---|---|
| `Ranges.dfy` | splitting a window into ranges, rebalancing them over the proxies, joining the chunks, resuming |
| `Pipeline.dfy`, `PipelineSafety.dfy`, `PipelineProgress.dfy`, `PipelineDeadlock.dfy`, `PipelineOutcomes.dfy` | the streaming pipeline as a transition system, what all its runs keep, exactly when it can hang, and what the events of a run decide |
| `ProgressiveStream.dfy` | the same pipeline as the shared variables of one object: every method is one step of the system, and `Send` runs them under any scheduler |
| `RetryBudget.dfy` | one chunk fetch with its attempts, and the retry budget all fetches of a request share |
| `CircuitBreaker.dfy`, `BreakerThreads.dfy`, `Coupling.dfy` | the circuit breaker, its use by many threads, and how the failure streak drives it |
| `Score.dfy`, `ScoreValues.dfy`, `ProxyStats.dfy` | the proxy score, how it follows counts and samples, its memo, and the counters behind it |
| `Registry.dfy` | the proxy list, the weighted and random choice, and the assignment of proxies to chunks |
| `ResponseCache.dfy`, `DiskCache.dfy` | the in-memory LRU cache with expiry, and the size-bounded disk cache |
| `TokenBucket.dfy`, `ChunkSizer.dfy` | the rate limiter and the adaptive chunk size |
| `Basics.dfy` | options and finite sums |

## What the main theorems say

* **The stream is what it should be.** In every interleaving of fetches, race, failures and writes the client has
  received a prefix of the requested window, and a run that ends without a failure sends exactly what gather
  mode would have assembled.
* **It hangs exactly when the buffer is too small.** A stream can get stuck if and only if there is no worker, or
  no gate is ever opened, or for some chunk the chunks that may overtake it do not fit into the buffer together
  with it. Every run is finite, and under the condition every run gets through its loop. The quota is taken while a worker
  slot is held and is given back only in order, so this condition is what a configuration has to satisfy.
* **One probe per half-open episode, and no lost wake-up**, whatever the threads do.
* **The score memo never lies**, although the score depends on the clock: letting time pass multiplies every
  weight by the same factor, which cancels in the mean and in the quantile.
* **Bigger LRU caches hit at least as often**, entry by entry, with lazy expiry included.

## Where the code does less than its text or a first guess suggests

* The smaller of two LRU caches is *not* always a suffix of the larger: a hit that only the larger one has moves
  that entry behind all others (`SuffixFailsSomewhere`). It is always a subsequence with equal entries, which is
  enough for equal hits (`LruInclusion`). It stays a suffix through a whole run exactly when the run has no such
  hit (`SuffixInRunsExactly`).
* "Twice the rate plus one full bucket" bounds the token bucket exactly when `rps <= 1/2` (`NaiveBoundExactly`),
  and in runs whose sleeps end on time exactly when `rps <= 1/2` or `rps >= 2` (`PunctualBoundExactly`). Slept time is
  credited twice, so a sleeper leaves a token behind, and more if it oversleeps: with sleeps at most `eps`
  late and `rps >= 1` the burst is `1 + max(rps - 1, min(rps, 1 + rps*eps))` (`LateRateBound`), and its whole part is
  reached (`LateBurstIsReached`).
* A failed probe request does not always reopen the breaker: a success that arrives while it is open zeroes the
  streak, the next probe's failure is then ignored, and the URL stays half-open and refused
  (`LateSuccessSticks`, `AlwaysReopensExactly`).
* Line 317 of the repository's own README says that a failed background retest adds a strike. The health checker
  (proxy/fetchers/health.py:127-140) reports at least the threshold, so the streak plays no part, but
  it retests open URLs, and `record_failure` ignores those (proxy/circuit_breaker.py:58): a strike is added if and
  only if the URL has meanwhile stopped being open (`FailedRetestExactly`).
* `chunk_retries` counts all attempts, not the retries after the first as line 120 of that README reads; with the default
  budget no fetch waits for a slot without the race, and with the race one can as soon as `chunk_retries >= 2`,
  whatever the prefetch gates (`DefaultBudgetAndTheRace`).
* Resuming with `bytes=k-` completes the file exactly for `k` inside it (or 0); at or beyond the end the proxy
  answers with the whole file (`ResumeCompletesTheFile`).
* With an exclude window of 0 the slice `assigned[-0:]` is the whole list, so all earlier proxies are avoided until
  the pool is used up (`DistributeProxies`).
* A body larger than the whole disk cache, stored as the newest row, empties the table
  (`NewestSurvivesExactly`), and a wall clock that steps back makes a new row the first to go
  (`ClockStepDropsTheNewRow`).
* progressive.py:200 declares `nonlocal` a name of its own scope, which Python rejects. The model has the evident
  intent, one byte counter shared by the write loop and the fetch tasks.

## Modelling decisions

* A step of the pipeline is what one task does between two awaits; asyncio runs one task at a time. A fetch fails
  or returns exactly its range, and asks for buffer space in the same step. The size check that backs this is
  `FetchChunk`. An await that need not wait ends a step too, so the system has some interleavings that the code
  does not; the hanging runs do not depend on them.
* `Config.inOrder` says that the worker semaphore serves its tasks first come first served, as newer asyncio versions
  do. Without it the condition covers any scheduler. With one worker its hanging run lets all later chunks
  through while chunk k stands at an open gate, which is a bound for arbitrary schedulers and not the order of
  any asyncio version, since tasks are started in index order.
* For the breaker, a lock section is one step, and `evt.set()`, waking up, timing out and the second look are
  steps of their own. Clock readings are arbitrary; nothing in the breaker theorems needs them to be ordered.
* Clock readings, random draws, answers of the network and parsed header values are parameters.
* Arithmetic is exact: reals for times, scores and weights. The decay is any positive function with
  `w(a + b) = w(a) * w(b)`; the half-life is not used.

Remarks proved beside the main results, by unfolding definitions: `CircuitBreaking.BlockedMeansRefused` (the blocked
URLs are those `allow_request` refuses on the spot), `BreakerThreads.PassesOnly` (True is answered only for a URL
that was closed, or open with its ban over), `CircuitBreaking.FailedRetestExactly` (above) and
`Score.QuantileIsUnique` (weighted samples have one 95% quantile).

## Model

| member | source | states |
|---|---|---|
| `Ranges.TilingCoversOnce` | proxy/handlers/inner.py:56-73 | ranges that tile a window put each position of it into exactly one range, and no position outside |
| `Ranges.BuildRanges` | proxy/handlers/inner.py:56-73 | for a chunk size of at least 1 the ranges tile the window, are numbered 0..n-1, and all but the last have the chunk size |
| `Ranges.CutPerProxy` | proxy/handlers/inner.py:93-105 | the first loop gives range i the size its proxy i is due, an empty range for size 0, and stops early only at the end of the window |
| `Ranges.FillWithLast` | proxy/handlers/inner.py:107-117 | the second loop completes the tiling with base-size ranges for the last proxy; range i keeps proxy i |
| `Ranges.ApplyPerProxyChunkSizes` | proxy/handlers/inner.py:76-119 | the rebalanced ranges tile the same window with the proxies' own sizes, the lists have equal length and range i keeps proxy i; no range is empty if and only if no size used is 0; with one proxy nothing changes |
| `Ranges.OneProxyExactly` | proxy/handlers/inner.py:90-91 | the test that skips rebalancing holds if and only if no two chunks have different proxies |
| `Ranges.Gather` | proxy/handlers/inner.py:310-337 | gather mode answers the joined chunks exactly when no fetch failed and all sizes and the total are right, and says which check failed otherwise |
| `Ranges.JoinedIsPrefix` | proxy/handlers/inner.py:331 | the first k chunks of a tiling are the resource from the window's start to where chunk k begins |
| `Ranges.GatheredBytesAreTheWindow` | proxy/handlers/inner.py:310-337 | when every fetch returns its range, the assembled body is the requested window and passes every size check |
| `Ranges.EffectiveWindow` | proxy/handlers/inner.py:186-205 | the served window is never empty, lies inside the file, and is the whole file unless the answer is partial |
| `Ranges.WindowExactly` | proxy/handlers/inner.py:186-205 | the answer is partial if and only if the range starts inside the file and not after its own end, and then it is that range cut off at the end of the file |
| `Ranges.ResumeCompletesTheFile` | proxy/handlers/inner.py:186-205 | k bytes plus the answer to `bytes=k-` are the whole file if and only if k is 0 or lies inside the file; otherwise the request falls back to a full answer |
| `PipelineSafety.InvStep` | proxy/streaming/progressive.py:98-207 | every step keeps the invariant that ties phases, gates, ready events, results, quota, write index and output together |
| `PipelineSafety.AccountsStep` | proxy/streaming/progressive.py:115-130 | every step keeps the books: counter and stored unwritten bytes agree up to the uncounted race result, free and held slots make up max_workers |
| `PipelineSafety.OutputIsPrefix` | proxy/streaming/progressive.py:188-207 | in every reachable state the client has received a prefix of the window, chunk by chunk in order |
| `PipelineSafety.FinishedRunEqualsGather` | proxy/streaming/progressive.py:188-207 | a run that finishes has sent exactly what gather mode concatenates from the same fetches, which is the window |
| `PipelineSafety.BufferIsBounded` | proxy/streaming/progressive.py:117-130 | the byte counter never passes the cap; it equals the stored unwritten bytes without the race, and falls short of them by at most chunk 0 with it |
| `PipelineSafety.PrefetchWindow` | proxy/streaming/progressive.py:98-114 | at most max_workers slots are held, and a task past its gate has index at most max(2P-1, written+P) |
| `PipelineOutcomes.FailuresExactly` | proxy/streaming/progressive.py:115-173 | over the events of any run: the raced chunk 0 fails if and only if both racers failed and is there if and only if one won; any other chunk fails if and only if its fetch raised |
| `PipelineOutcomes.OneRacerIsEnough` | proxy/streaming/progressive.py:142-148 | after at most one failed racer and no winner, chunk 0 is undecided, and until the loop ends the other racer can win |
| `PipelineOutcomes.EndingsExactly` | proxy/streaming/progressive.py:188-210 | the number of finished writes is the number of chunks released; the loop breaks off at a chunk only if it failed, leaving the client exactly the chunks before it; a broken write leaves exactly the bytes that went out |
| `PipelineOutcomes.SpaceEventExactly` | proxy/streaming/progressive.py:123-129 | in every run the space event is clear exactly while some task is parked on it |
| `PipelineProgress.MeasureFalls` | proxy/streaming/progressive.py:112-207 | every step lowers a measure over task phases, write index and write loop, although a write wakes parked tasks |
| `PipelineProgress.RunsAreBounded` | proxy/streaming/progressive.py:112-207 | so no run has more steps than the measure of its first state |
| `PipelineProgress.UnwrittenWithinWindow` | proxy/streaming/progressive.py:112-130 | the stored unwritten bytes plus any one chunk past its gate and not stored are at most the sizes of the awaited chunk and those that may overtake it |
| `PipelineProgress.WaitingChunk` | proxy/streaming/progressive.py:112-134 | in a stuck state the awaited chunk is parked, or waits for a slot while a later chunk is parked holding one |
| `PipelineProgress.NeverStuck` | proxy/streaming/progressive.py:98-207 | under the condition on workers, prefetch and buffer no reachable state is stuck |
| `PipelineDeadlock.HangsSomewhere` | proxy/streaming/progressive.py:98-134 | a configuration that breaks the condition at one chunk has a run into a stuck state |
| `PipelineDeadlock.HangFreeExactly` | proxy/streaming/progressive.py:98-207 | no run hangs if and only if there is a worker, the first gate opens and each chunk fits into the buffer with those that may overtake it |
| `PipelineDeadlock.EveryRunEnds` | proxy/streaming/progressive.py:188-215 | under the condition every run is finite and, once nothing moves, the loop has ended, with the whole window sent or at a failed chunk or write |
| `PipelineDeadlock.DoubleWindowSuffices` | proxy/streaming/progressive.py:98-130 | a worker, P >= 1 and room for 2P chunks of the largest size imply the condition |
| `ProgressiveStreaming.ProgressiveStream.Send` | proxy/streaming/progressive.py:175-215 | under any scheduler the steps of the object end where nothing can move, having sent a prefix of the window; if the chunks flow freely the loop has ended, and with the whole window unless a fetch or the client failed |
| `ProgressiveStreaming.ProgressiveStream.constructor` | proxy/streaming/progressive.py:84-100 | the shared variables start in the initial state, which is valid |
| `ProgressiveStreaming.ProgressiveStream.PassGate` | proxy/streaming/progressive.py:113-114 | passing the gate is the TakeGate step |
| `ProgressiveStreaming.ProgressiveStream.EnterSemaphore` | proxy/streaming/progressive.py:115-115 | entering the semaphore is the TakeSlot step |
| `ProgressiveStreaming.ProgressiveStream.FetchDone` | proxy/streaming/progressive.py:117-134 | a fetch that returns its range goes through the quota loop at once, the FetchReturns step; the chunk is stored exactly when it fits |
| `ProgressiveStreaming.ProgressiveStream.FetchFailed` | proxy/streaming/progressive.py:131-134 | the except and finally branches are the FetchRaises step: exception stored, ready set, slot given back |
| `ProgressiveStreaming.ProgressiveStream.TryReserve` | proxy/streaming/progressive.py:123-134 | a woken task goes round the quota loop again, the Reserve step; the chunk is stored exactly when it fits |
| `ProgressiveStreaming.ProgressiveStream.RaceDone` | proxy/streaming/progressive.py:142-173 | the first racer to answer decides chunk 0 without touching slot or quota |
| `ProgressiveStreaming.ProgressiveStream.RacerFailed` | proxy/streaming/progressive.py:142-173 | a failed racer leaves the race running until both have failed |
| `ProgressiveStreaming.ProgressiveStream.TakeResult` | proxy/streaming/progressive.py:190-197 | the write loop starts writing the next chunk, or breaks off at an exception |
| `ProgressiveStreaming.ProgressiveStream.FinishWrite` | proxy/streaming/progressive.py:197-207 | after a write the quota is released with the clamp at 0, every parked task is woken and the next gate opened: the EndWrite step |
| `ProgressiveStreaming.ProgressiveStream.WriteFailed` | proxy/streaming/progressive.py:208-210 | a broken write ends the loop with a part of the chunk sent |
| `RetryBudgets.FetchChunk` | proxy/fetchers/chunk.py:42-141 | a returned body has exactly the bytes asked for; every other attempt failed or brought a body of another length and was reported as a failure of its own proxy; each retry took one slot; otherwise the budget or the attempts ran out |
| `RetryBudgets.RetriesAreConserved` | proxy/fetchers/chunk.py:72-85 | in every reachable state of all fetches, whatever gates hold them back, slots left plus retries granted is the budget, and no fetch exceeds chunk_retries - 1 |
| `RetryBudgets.NoSlotComesBack` | proxy/fetchers/chunk.py:72-85 | on an empty budget a waiting fetch only ever times out or is cancelled |
| `RetryBudgets.WaitsSomewhereExactly` | proxy/fetchers/chunk.py:66-85 | under any gates that let in the next chunk in order, some run makes a fetch wait on an empty budget if and only if the fetches together may retry more often than the budget allows |
| `RetryBudgets.BudgetExactly` | proxy/handlers/inner.py:265-270 | the same in the configured numbers: against the configured budget, or max(chunk_retries - 1, 1) slots per chunk |
| `RetryBudgets.DefaultBudgetAndTheRace` | proxy/handlers/inner.py:265-270 | under any such gates, with the default budget no fetch ever waits when each chunk is fetched once; with the second fetch of the race one can if and only if chunk_retries >= 2 |
| `CircuitBreaking.CircuitBreaker.RecordFailure` | proxy/circuit_breaker.py:41-62 | below the threshold or when open nothing changes; else the URL opens with one more strike and its probe event is handed out to be set; other URLs stay |
| `CircuitBreaking.CircuitBreaker.RecordSuccess` | proxy/circuit_breaker.py:64-77 | only a half-open URL closes, losing its strikes, its probe event and its failure streak |
| `CircuitBreaking.CircuitBreaker.AllowRequest` | proxy/circuit_breaker.py:79-110 | closed passes, open refuses until its ban is over and then makes this caller the probe, half-open parks |
| `CircuitBreaking.CircuitBreaker.ReleaseUrl` | proxy/circuit_breaker.py:141-153 | the manual reset closes the URL, clears its strikes and its failure streak and hands out its probe event |
| `BreakerThreads.HalfOpenSafety` | proxy/circuit_breaker.py:52-119 | in every interleaving a URL has a probe event exactly when it is half-open, and exactly one answer per half-open episode is True |
| `BreakerThreads.NoLostWakeUp` | proxy/circuit_breaker.py:104-119 | a parked thread whose episode is over can wake, now or after some other thread sets the event it holds |
| `BreakerThreads.ProbeHoldsTheDoor` | proxy/circuit_breaker.py:64-110 | while an episode lasts its event is not set and in nobody's hands |
| `Coupling.StreakOutlivesBan` | proxy/session_pool.py:62-77 | in runs of failures, successes, requests and manual resets without a success while open, the failure streak stays at the threshold or above until the URL closes |
| `Coupling.FailedProbeReopensExactly` | proxy/circuit_breaker.py:52-62 | a failed probe reopens the URL if and only if the streak with it reaches the threshold; without a late success it always does |
| `Coupling.BanSchedule` | proxy/circuit_breaker.py:41-50 | in every run the s-th opening since the last close bans for min(base * 2^(s-1), max) from the moment of that opening |
| `Coupling.BansDouble` | proxy/circuit_breaker.py:41-50 | in every run the first opening since the last close bans for min(base, max) and every further one for min(twice the ban before, max) |
| `Coupling.LateSuccessSticks` | proxy/session_pool.py:71-77 | for every threshold of 2 or more a run in which a late success makes the failed probe have no effect |
| `Coupling.HalfOpenRefusesForEver` | proxy/circuit_breaker.py:79-119 | from a half-open state asking alone never changes it, and every answer is no |
| `Coupling.AlwaysReopensExactly` | proxy/circuit_breaker.py:52-62 | failed probes reopen the URL in every run if and only if the threshold is at most 1 |
| `Score.WeightedP95` | proxy/stats/proxy_stats.py:84-94 | sorting and accumulating finds the least latency at or below which 95% of the weight lies |
| `Score.ScoreBetweenZeroAndOne` | proxy/stats/proxy_stats.py:57-101 | the score lies between 0 and the success rate, hence at most 1 |
| `Score.ScoreIsAntitoneInLatency` | proxy/stats/proxy_stats.py:57-101 | raising any latencies, with stamps and counts fixed, never raises the score |
| `ScoreValues.ScoreFollowsCounts` | proxy/stats/proxy_stats.py:65-101 | with the same samples one more success never lowers the score and one more failure never raises it, and exactly when each moves it |
| `ScoreValues.ScoreWithoutSamples` | proxy/stats/proxy_stats.py:65-72 | without samples the score is half of successes over total, 1/4 with no counts |
| `ScoreValues.MeanBalances` | proxy/stats/proxy_stats.py:75-83 | the samples, weighted by the decay of their ages, lie evenly about the mean |
| `ScoreValues.QuantileOfEqualWeights` | proxy/stats/proxy_stats.py:84-94 | of n samples of equal weight the quantile is number ceil(0.95 n) in ascending order |
| `ScoreValues.ScoreOfEqualLatencies` | proxy/stats/proxy_stats.py:95-99 | samples that all took the same time divide the rate by 1 plus that time in seconds |
| `ScoreValues.ScoreOfOneSlowSample` | proxy/stats/proxy_stats.py:84-99 | one slow sample among five counts for 0.6 of its fifth plus 0.4 of itself, among four for its fourth |
| `Score.ScoreDoesNotAge` | proxy/stats/proxy_stats.py:52-101 | the score of the same samples is the same at any later time |
| `ProxyStatistics.MemoIsCoherent` | proxy/stats/proxy_stats.py:57-141 | after any run of writes and reads a memoised score equals the score recomputed from scratch at any later moment |
| `ProxyStatistics.RunCounts` | proxy/stats/proxy_stats.py:109-141 | after any run the counters are the counts of what happened, the streak is the failures since the last success or reset, and the windows hold the last 100 samples and 1000 events in order |
| `ProxyStatistics.ProxyStats.ReadScore` | proxy/stats/proxy_stats.py:149-154 | a read returns the score of this very moment, memoised or not, and changes nothing but the memo |
| `ProxyStatistics.ProxyStats.ComputeScore` | proxy/stats/proxy_stats.py:65-99 | the calculation with its p95 loop is the score function |
| `ProxyStatistics.ProxyStats.RecordSuccess` | proxy/stats/proxy_stats.py:109-118 | counts, bytes, sample and event are added, the streak is zeroed, the memo cleared; other URLs stay |
| `ProxyStatistics.ProxyStats.RecordFailure` | proxy/stats/proxy_stats.py:120-127 | failure and streak go up by one, the event is added, the memo cleared, the new streak returned |
| `ProxyStatistics.ProxyStats.SeedLatency` | proxy/stats/proxy_stats.py:129-137 | a seeded sample and its event count as a success but leave the streak |
| `ProxyStatistics.ProxyStats.ResetConsecutiveFailures` | proxy/stats/proxy_stats.py:139-141 | only the streak is zeroed; keeping the memo is sound |
| `ProxyStatistics.ProxyStats.SortedScores` | proxy/stats/proxy_stats.py:189-190 | all scores of this moment, one per known proxy, in ascending order; only memos change |
| `ProxyStatistics.ProxyStats.PerProxyChunkSize` | proxy/stats/proxy_stats.py:176-204 | the size is that of the proxy's score against the median of all scores of this moment, a new proxy getting an entry first; only memos change |
| `ProxyStatistics.BetterScoreBiggerChunk` | proxy/stats/proxy_stats.py:192-204 | against the same scores a better one never gets a smaller chunk, bounds are kept when the median is positive, sizes are at least 1, the median gets the base size |
| `ProxyStatistics.MedianInTheMiddle` | proxy/stats/proxy_stats.py:194-199 | the median is the mean of the two middle scores, with half of the scores on each side |
| `ProxyStatistics.ScaledProportionally` | proxy/stats/proxy_stats.py:202-204 | inside the bounds the size is base times own score over median, rounded down; at a bound the formula asks for no less or no more |
| `ProxyChoice.SomethingIsLeft` | proxy/registry.py:80-86 | with more URLs than exclusions and no duplicates, the candidates are not empty and avoid the exclusions |
| `ProxyChoice.WhatIsOpen` | proxy/registry.py:83-84 | with more URLs than exclusions the candidates are exactly the URLs outside them, otherwise all |
| `ProxyChoice.FindOwner` | proxy/registry.py:92-97 | the cumulative loop returns the candidate whose interval holds the draw; the return after it is not reached |
| `ProxyChoice.ScoreChoice` | proxy/registry.py:76-97 | the choice is the owner of the scaled draw among the candidates, None exactly without candidates |
| `ProxyChoice.EveryDrawHasOneOwner` | proxy/registry.py:87-97 | the candidates' intervals tile the draws: each draw has exactly one owner |
| `ProxyChoice.FairShare` | proxy/registry.py:87-97 | each interval is as long as its weight, and with scores of at most 1 each share is at least 0.01/n |
| `ProxyChoice.ShareOfRandom` | proxy/registry.py:90-96 | the random numbers that select a candidate form an interval of exactly its share of the total weight |
| `ProxyChoice.RandomChoice` | proxy/registry.py:99-106 | the uniform choice is the drawn element of the same candidates |
| `ProxyChoice.PickProxy` | proxy/session_pool.py:45-59 | either choice finds a URL outside the exclusions when the pool is larger than they are |
| `ProxyChoice.DistributeProxies` | proxy/session_pool.py:80-134 | each chunk gets the owner of the scaled draw, or without weights the drawn element, of what is open outside the last win assignments, and the best URL exactly if nothing is, which `fallbacks` counts; in a pool of 2 or more that does not shrink, win+1 assignments in a row are pairwise distinct and no fallback occurs; pinned, single and empty pools as coded |
| `ProxyChoice.ProxyRegistry.Add` | proxy/registry.py:48-56 | a new URL is appended with its tags, a known one changes nothing; no duplicates arise |
| `ProxyChoice.ProxyRegistry.Remove` | proxy/registry.py:58-68 | one occurrence goes, with the Tor entry, tags, rate limiter and statistics of the URL; without duplicates the URL is gone |
| `ProxyChoice.ProxyRegistry.Available` | proxy/registry.py:41-46 | exactly the listed URLs that are not blocked and belong to the pool, in their order |
| `ResponseCaching.LruInclusion` | proxy/cache.py:57-139 | over the same operations the smaller cache's entries are the larger one's, equal and in order, and each of its hits is the same hit there |
| `ResponseCaching.SuffixKeptExactly` | proxy/cache.py:57-74 | a step keeps the smaller store a suffix of the larger if and only if it is no hit on an entry that only the larger one holds (the smaller not empty) |
| `ResponseCaching.SuffixInRunsExactly` | proxy/cache.py:57-139 | the smaller store is a suffix of the larger after every operation of a run if and only if no operation is a hit of the larger cache alone while the smaller is not empty |
| `ResponseCaching.SuffixFailsSomewhere` | proxy/cache.py:57-74 | a concrete run after which the smaller store is no suffix |
| `ResponseCaching.HitIsLastStored` | proxy/cache.py:57-133 | in every run a hit returns what the last storing put gave, unexpired, and the size never exceeds the capacity |
| `ResponseCaching.PutThenGet` | proxy/cache.py:88-129 | a put stores exactly if size, header and lifetime allow; the answer is then found until its lifetime is over and not after, and a put that does not store changes nothing |
| `ResponseCaching.EntrySurvives` | proxy/cache.py:88-133 | an entry is still there while fewer than max_size other URLs were stored or hit since it was |
| `ResponseCaching.ResponseCache.GetResponse` | proxy/cache.py:57-74 | a lookup is one step of the specification: hit moves to the end, expired is deleted, counters follow |
| `ResponseCaching.ResponseCache.PutResponse` | proxy/cache.py:88-129 | a put is one step: refused by size, directive or ttl, else stored last with the eviction loop trimming the front |
| `ResponseCaching.ResponseCache.InvalidateUrl` | proxy/cache.py:131-133 | the URL's entry and no other is removed |
| `DiskCaching.DiskCache.EnforceLimit` | proxy/disk_cache.py:166-185 | the running total is the table's sum throughout; a row goes only if it did not fit with the rows as new as itself, and stays only if it fits with the newer ones |
| `DiskCaching.DiskCache.PutRow` | proxy/disk_cache.py:128-164 | a storable body replaces the URL's row, then the limit is enforced; the total is at most max_size after every store |
| `DiskCaching.DiskCache.GetRow` | proxy/disk_cache.py:93-126 | a hit is the URL's unexpired row; an expired one is deleted |
| `DiskCaching.DeleteExactly` | proxy/disk_cache.py:187-193 | deleting a URL removes its row and no other |
| `DiskCaching.SizesAddUp` | proxy/disk_cache.py:153-170 | the table sizes are sums of body bytes |
| `DiskCaching.SurvivorsExactly` | proxy/disk_cache.py:166-185 | without equal stamps a row survives if and only if it fits together with everything newer |
| `DiskCaching.SurvivorsAreNewest` | proxy/disk_cache.py:166-185 | a row survives only together with all that are newer |
| `DiskCaching.NewestSurvivesExactly` | proxy/disk_cache.py:153-185 | the row just stored as the newest survives if and only if it fits at all; otherwise the table ends up empty |
| `DiskCaching.ClockStepDropsTheNewRow` | proxy/disk_cache.py:153-161 | with the wall clock behind all stamps, a new row that does not fit beside the others is dropped at once and the others stay |
| `TokenBuckets.RateBound` | proxy/rate_limiter.py:22-34 | in every run any stretch of time T has at most 2 * rps * T plus a fixed burst of grants |
| `TokenBuckets.LateRateBound` | proxy/rate_limiter.py:22-34 | in runs whose sleeps end at most eps late the burst is 1 + max(rps-1, min(rps, 1+rps*eps)) for rps >= 1 |
| `TokenBuckets.LateBurstIsReached` | proxy/rate_limiter.py:22-34 | for rps >= 1 a run with such sleeps and the whole part of that burst granted at one moment |
| `TokenBuckets.BurstIsReached` | proxy/rate_limiter.py:22-34 | for rps >= 1 a run with floor(rps) + 1 grants at one moment |
| `TokenBuckets.SlowBurstIsReached` | proxy/rate_limiter.py:22-34 | for rps between 1/2 and 1 a run, with sleeps on time, that meets the bound with equality |
| `TokenBuckets.NaiveBoundExactly` | proxy/rate_limiter.py:16-34 | a burst of one full bucket suffices in all runs if and only if rps is at most 1/2 |
| `TokenBuckets.PunctualBoundExactly` | proxy/rate_limiter.py:16-34 | it suffices in all runs whose sleeps end on time if and only if rps is at most 1/2 or at least 2 |
| `TokenBuckets.BackToBack` | proxy/rate_limiter.py:26-34 | at one request a second, callers that never pause and sleep on time get 2k more grants in k seconds, so the factor 2 is real |
| `TokenBuckets.TokenBucket.Acquire` | proxy/rate_limiter.py:22-34 | an acquire refills, sleeps and spends as one grant of the run; without a limit it changes nothing |
| `ChunkSizing.StaysInRange` | proxy/stats/chunk_sizer.py:33-58 | the size never leaves [minimum, maximum], whatever is recorded |
| `ChunkSizing.AverageMoves` | proxy/stats/chunk_sizer.py:37-40 | the average starts at the first sample and moves a quarter of the way to each new one |
| `ChunkSizing.AdjustsExactly` | proxy/stats/chunk_sizer.py:43-58 | in whole bytes: half more below target/1.5, three fifths above target/0.6, within the limits, and unchanged in between |
| `ChunkSizing.GapCloses` | proxy/stats/chunk_sizer.py:37-40 | the average's distance above samples bounded by a level shrinks like (3/4)^n |
| `ChunkSizing.GrowsExactly` | proxy/stats/chunk_sizer.py:47-48 | integer growth by 1.5 makes progress if and only if the size is at least 2 |
| `ChunkSizing.ReachesMaximum` | proxy/stats/chunk_sizer.py:33-58 | samples below target/1.5 by a margin drive the size to the maximum within a computed number of records, and it stays |
| `ChunkSizing.ReachesMinimum` | proxy/stats/chunk_sizer.py:33-58 | samples above target/0.6 by a margin drive it to the minimum likewise |
| `ChunkSizing.AdaptiveChunkSizer.RecordElapsed` | proxy/stats/chunk_sizer.py:33-58 | a record smooths the average and adjusts the size as the specification says, staying in range |

## Left out

- Input and output: sockets, HTTP sessions, SOCKS connectors, SQLite itself, Tor processes, logging, metrics, configuration. A SQL statement of the disk cache is modelled by its effect on the rows.
- Parsing of the Range, Cache-Control and Content-Length headers: the parsed value is a parameter, None also standing for an origin without range support.
- Floating point: rounding, the underflow of all decay weights to 0 and with it the unweighted branch at proxy/stats/proxy_stats.py:79-81, which exact positive weights never take.
- proxy/stats/proxy_stats.py: the reports, `_windowed` and throughput among them.
- Fields that only reports read: `banned_at`, `cached_at` of the memory cache, trace parts, response status and headers of a chunk.
- Cancellation and clean-up after the write loop has ended (proxy/streaming/progressive.py:211-220), and the inside of the race's sub-tasks: a race is two fetches of which the first answer counts.
- The retry budget and the pipeline are two systems; `RetryBudgets` stands in for gates and worker slots by any function that lets the next chunk in once those before it are there.
- A blocked event loop: `allow_request` waits on a thread event for up to 30 seconds; the interleaving model lets other threads go on meanwhile.
- Coupling: the health checker's retests are not among its operations; the streak theorems are about recorded outcomes, requests and manual resets.
- proxy/pool_breaker.py, proxy/dedup.py, the health checker, CONNECT and WebSocket relays, HEAD probing, geo lookup: simpler or mostly byte pipes.
- The choice whether a response may enter the caches (proxy/handlers/request.py), and disk-cache expiry across restarts.
- `_adaptive_timeout` (proxy/fetchers/chunk.py:27-39): one clamped expression, whose result only bounds a network call.
- BuildRanges and FillWithLast: chunk sizes below 1, for which the source's while loops would not end. A per-proxy size of 0 is modelled; it gives an empty range, and what a fetch makes of one is not modelled. Negative sizes are not.
- EffectiveWindow: the Range header is parsed outside and its two numbers are a parameter.
- PutResponse: the Cache-Control text is parsed outside; what it asks for is a parameter.
- PutRow: the Cache-Control text is parsed outside; what it asks for is a parameter.
- BetterScoreBiggerChunk: compares two scores against one list of scores; the list itself is modelled by PerProxyChunkSize.
- DistributeProxies: the spread guarantee is for a pool that lists no URL twice and does not shrink between the picks; each single pick is determined for any pool.
