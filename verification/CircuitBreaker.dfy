/** proxy/circuit_breaker.py: the breaker entries and probe events, one lock section at a time. */
module CircuitBreaking {
  import opened Wrappers
  import opened Ranges
  import PS = ProxyStatistics

  datatype Mode = Closed | Open | HalfOpen

  datatype Entry = Entry(mode: Mode, strike: nat, openUntil: real)

  datatype Params = Params(threshold: int, baseDelay: real, maxDelay: real)

  /** What the lock protects. A probe event is known by a number; `unused` is the next unused one. */
  datatype Breaker = Breaker(entries: map<Url, Entry>, probes: map<Url, nat>, unused: nat)

  const NewBreaker := Breaker(map[], map[], 0)

  function Pow2(n: nat): nat { if n == 0 then 1 else 2 * Pow2(n - 1) }

  function ModeOf(b: Breaker, url: Url): Mode {
    if url in b.entries then b.entries[url].mode else Closed
  }

  function StrikeOf(b: Breaker, url: Url): nat {
    if url in b.entries then b.entries[url].strike else 0
  }

  /** The ban for the s-th opening in a row. */
  function BanDelay(p: Params, s: nat): real
    requires s >= 1
  {
    var d := p.baseDelay * (Pow2(s - 1) as real);
    if d <= p.maxDelay then d else p.maxDelay
  }

  function Smaller(x: real, y: real): real { if x <= y then x else y }

  lemma FirstBan(p: Params)
    ensures BanDelay(p, 1) == Smaller(p.baseDelay, p.maxDelay)
  {
    assert Pow2(0) == 1;
  }

  lemma NextBan(p: Params, s: nat)
    requires s >= 1 && p.baseDelay >= 0.0 && p.maxDelay >= 0.0
    ensures BanDelay(p, s + 1) == Smaller(2.0 * BanDelay(p, s), p.maxDelay)
  {
    var x := Pow2(s - 1) as real;
    assert Pow2(s) as real == 2.0 * x;
    assert p.baseDelay * (2.0 * x) == 2.0 * (p.baseDelay * x);
    assert x >= 0.0;
    assert p.baseDelay * x >= 0.0;
  }

  function Opened(p: Params, e: Entry, now: real): Entry {
    Entry(Open, e.strike + 1, now + BanDelay(p, e.strike + 1))
  }

  /** The lock section of `record_failure`, and the event it popped, to be set outside the lock. */
  function Failure(p: Params, b: Breaker, url: Url, consecutive: int, now: real): (Breaker, Option<nat>) {
    if consecutive < p.threshold then (b, None)
    else
      var e := if url in b.entries then b.entries[url] else Entry(Closed, 0, 0.0);
      if e.mode.Open? then (b, None)
      else (b.(entries := b.entries[url := Opened(p, e, now)], probes := b.probes - {url}), Popped(b, url))
  }

  function Popped(b: Breaker, url: Url): Option<nat> {
    if url in b.probes then Some(b.probes[url]) else None
  }

  /** The lock section of `record_success`. */
  function Success(b: Breaker, url: Url): (Breaker, Option<nat>) {
    if ModeOf(b, url).HalfOpen? then
      (b.(entries := b.entries[url := b.entries[url].(mode := Closed, strike := 0)], probes := b.probes - {url}),
       Popped(b, url))
    else (b, None)
  }

  /** The lock section of `release`, the manual reset. */
  function Release(b: Breaker, url: Url): (Breaker, Option<nat>) {
    (b.(entries := if url in b.entries then b.entries[url := b.entries[url].(mode := Closed, strike := 0)] else b.entries,
        probes := b.probes - {url}),
     Popped(b, url))
  }

  datatype Verdict = Answer(allowed: bool) | WaitFor(event: nat)

  /** The first lock section of `allow_request`. */
  function Admit(b: Breaker, url: Url, now: real): (Breaker, Verdict) {
    match ModeOf(b, url)
    case Closed => (b, Answer(true))
    case Open =>
      if now < b.entries[url].openUntil then (b, Answer(false))
      else (Breaker(b.entries[url := b.entries[url].(mode := HalfOpen)], b.probes[url := b.unused], b.unused + 1),
            Answer(true))
    case HalfOpen =>
      if url in b.probes then (b, WaitFor(b.probes[url])) else (b, Answer(false))
  }

  /** Its second lock section, after the wait. */
  function Recheck(b: Breaker, url: Url): bool { ModeOf(b, url).Closed? }

  function BlockedUrls(b: Breaker, now: real): set<Url> {
    set url | url in b.entries && b.entries[url].mode.Open? && now < b.entries[url].openUntil
  }

  // ------------------------------------------------------------------ the invariant

  /** A URL has a probe event exactly when it is half-open; events are numbered apart. */
  ghost predicate Consistent(b: Breaker) {
    && (forall url :: url in b.probes <==> url in b.entries && b.entries[url].mode.HalfOpen?)
    && (forall url :: url in b.probes ==> b.probes[url] < b.unused)
    && (forall u, v :: u in b.probes && v in b.probes && b.probes[u] == b.probes[v] ==> u == v)
  }

  /** Every lock section keeps it. */
  lemma FailureKeepsConsistent(p: Params, b: Breaker, url: Url, consecutive: int, now: real)
    requires Consistent(b)
    ensures Consistent(Failure(p, b, url, consecutive, now).0)
  {
  }

  lemma SuccessKeepsConsistent(b: Breaker, url: Url)
    requires Consistent(b)
    ensures Consistent(Success(b, url).0)
  {
  }

  lemma ReleaseKeepsConsistent(b: Breaker, url: Url)
    requires Consistent(b)
    ensures Consistent(Release(b, url).0)
  {
  }

  lemma AdmitKeepsConsistent(b: Breaker, url: Url, now: real)
    requires Consistent(b)
    ensures Consistent(Admit(b, url, now).0)
  {
  }

  /** `blocked_urls` is exactly the set of URLs that `allow_request` refuses on the spot; for
      every other URL it lets the caller pass or park. */
  lemma BlockedMeansRefused(b: Breaker, url: Url, now: real)
    requires Consistent(b)
    ensures url in BlockedUrls(b, now) <==> Admit(b, url, now).1 == Answer(false)
    ensures Admit(b, url, now).1.WaitFor? <==> ModeOf(b, url).HalfOpen?
  {
  }

  // ------------------------------------------------------------------ the object

  /** `expired_open`: what the health checker tests again. */
  function ExpiredOpen(b: Breaker, now: real): set<Url> {
    set url | url in b.entries && b.entries[url].mode.Open? && now >= b.entries[url].openUntil
  }

  /** A failed retest reports max(streak, threshold) failures. It adds a strike if and only if the
      URL is not open by then, whatever the streak; while it is open, as the health checker
      found it, nothing changes at all. */
  lemma FailedRetestExactly(p: Params, b: Breaker, url: Url, streak: int, found: real, now: real)
    ensures var reported := if streak >= p.threshold then streak else p.threshold;
            && (StrikeOf(Failure(p, b, url, reported, now).0, url) == StrikeOf(b, url) + 1 <==> !ModeOf(b, url).Open?)
            && (url in ExpiredOpen(b, found) ==> Failure(p, b, url, reported, now) == (b, None))
  {
  }

  /** An open URL is either blocked or due for a retest. */
  lemma BlockedOrExpired(b: Breaker, url: Url, now: real)
    ensures ModeOf(b, url).Open? <==> (url in BlockedUrls(b, now)) != (url in ExpiredOpen(b, now))
    ensures url in ExpiredOpen(b, now) ==> b.entries[url].openUntil <= now
  {
  }

  /** Nothing has changed for this URL. */
  predicate SameFor(before: Breaker, after: Breaker, u: Url) {
    && (u in before.entries <==> u in after.entries) && (u in before.entries ==> before.entries[u] == after.entries[u])
    && (u in before.probes <==> u in after.probes) && (u in before.probes ==> before.probes[u] == after.probes[u])
  }

  lemma FailureFacts(p: Params, b: Breaker, url: Url, consecutive: int, now: real)
    ensures var (after, event) := Failure(p, b, url, consecutive, now);
            var opens := consecutive >= p.threshold && !ModeOf(b, url).Open?;
            && (!opens ==> after == b && event == None)
            && (opens ==> ModeOf(after, url).Open? && StrikeOf(after, url) == StrikeOf(b, url) + 1 && url !in after.probes
                          && event == if url in b.probes then Some(b.probes[url]) else None)
            && forall u :: u != url ==> SameFor(b, after, u)
  {
  }

  class CircuitBreaker {
    const params: Params
    const stats: PS.ProxyStats
    var breakers: map<Url, Entry>
    var probeEvents: map<Url, nat>
    var freshEvent: nat

    ghost function View(): Breaker
      reads this
    {
      Breaker(breakers, probeEvents, freshEvent)
    }

    ghost predicate Valid()
      reads this
    {
      Consistent(View())
    }

    constructor (params: Params, stats: PS.ProxyStats)
      ensures Valid() && this.params == params && this.stats == stats && View() == NewBreaker
    {
      this.params, this.stats := params, stats;
      breakers, probeEvents, freshEvent := map[], map[], 0;
    }

    /** `_entry`: create a closed entry when there is none. */
    method EnsureEntry(url: Url)
      modifies this`breakers
      ensures breakers == if url in old(breakers) then old(breakers) else old(breakers)[url := Entry(Closed, 0, 0.0)]
    {
      if url !in breakers {
        breakers := breakers[url := Entry(Closed, 0, 0.0)];
      }
    }

    /** `_open`. */
    method OpenBreaker(url: Url, now: real)
      requires url in breakers
      modifies this`breakers
      ensures breakers == old(breakers)[url := Opened(params, old(breakers)[url], now)]
    {
      var strike := breakers[url].strike + 1;
      var delay := params.baseDelay * (Pow2(strike - 1) as real);
      if delay > params.maxDelay {
        delay := params.maxDelay;
      }
      breakers := breakers[url := Entry(Open, strike, now + delay)];
    }

    method PopProbe(url: Url) returns (event: Option<nat>)
      modifies this`probeEvents
      ensures probeEvents == old(probeEvents) - {url} && event == Popped(old(View()), url)
    {
      event := if url in probeEvents then Some(probeEvents[url]) else None;
      probeEvents := probeEvents - {url};
    }

    /** Returns the event the caller has to set after leaving the lock. */
    method RecordFailure(url: Url, consecutive: int, now: real) returns (event: Option<nat>)
      requires Valid()
      modifies this
      ensures Valid() && (View(), event) == Failure(params, old(View()), url, consecutive, now)
      ensures var opens := consecutive >= params.threshold && !ModeOf(old(View()), url).Open?;
              && (!opens ==> View() == old(View()) && event == None)
              && (opens ==> ModeOf(View(), url).Open? && StrikeOf(View(), url) == StrikeOf(old(View()), url) + 1
                            && url !in probeEvents
                            && event == if url in old(probeEvents) then Some(old(probeEvents)[url]) else None)
      ensures forall u :: u != url ==> SameFor(old(View()), View(), u)
    {
      FailureKeepsConsistent(params, View(), url, consecutive, now);
      FailureFacts(params, View(), url, consecutive, now);
      event := None;
      if consecutive < params.threshold {
        return;
      }
      EnsureEntry(url);
      ghost var e := breakers[url];
      if breakers[url].mode.Closed? || breakers[url].mode.HalfOpen? {
        OpenBreaker(url, now);
        assert breakers == old(breakers)[url := Opened(params, e, now)];
        event := PopProbe(url);
      }
    }

    /** Closing the breaker also ends the failure streak. */
    method RecordSuccess(url: Url) returns (event: Option<nat>)
      requires Valid() && stats.Valid()
      modifies this, stats`data
      ensures Valid() && (View(), event) == Success(old(View()), url)
      ensures if url in old(probeEvents)
              then ModeOf(View(), url).Closed? && StrikeOf(View(), url) == 0 && url !in probeEvents
                   && event == Some(old(probeEvents)[url])
              else View() == old(View()) && event == None
      ensures forall u :: u != url ==> SameFor(old(View()), View(), u)
      ensures stats.Valid() && stats.data == if ModeOf(old(View()), url).HalfOpen?
                then old(stats.data)[url := old(stats.Known(url)).(streak := 0)] else old(stats.data)
    {
      SuccessKeepsConsistent(View(), url);
      event := None;
      if url in breakers && breakers[url].mode.HalfOpen? {
        breakers := breakers[url := breakers[url].(mode := Closed, strike := 0)];
        event := PopProbe(url);
        stats.ResetConsecutiveFailures(url);
      }
    }

    method AllowRequest(url: Url, now: real) returns (verdict: Verdict)
      requires Valid()
      modifies this
      ensures Valid() && (View(), verdict) == Admit(old(View()), url, now)
      ensures var e := if url in old(breakers) then old(breakers)[url] else Entry(Closed, 0, now);
              && (e.mode.Closed? ==> verdict == Answer(true))
              && (e.mode.Open? ==> verdict == Answer(now >= e.openUntil))
              && (e.mode.HalfOpen? ==> url in probeEvents && verdict == WaitFor(probeEvents[url]))
              && (e.mode.Open? && now >= e.openUntil ==>
                    View() == Breaker(old(breakers)[url := Entry(HalfOpen, e.strike, e.openUntil)],
                                      old(probeEvents)[url := old(freshEvent)], old(freshEvent) + 1))
              && (!(e.mode.Open? && now >= e.openUntil) ==> View() == old(View()))
    {
      AdmitKeepsConsistent(View(), url, now);
      if url !in breakers || breakers[url].mode.Closed? {
        return Answer(true);
      }
      var breaker := breakers[url];
      if breaker.mode.Open? {
        if now < breaker.openUntil {
          return Answer(false);
        }
        breakers := breakers[url := breaker.(mode := HalfOpen)];
        probeEvents := probeEvents[url := freshEvent];
        freshEvent := freshEvent + 1;
        return Answer(true);
      }
      if url !in probeEvents {
        return Answer(breaker.mode.Closed?);
      }
      return WaitFor(probeEvents[url]);
    }

    method RecheckAfterWait(url: Url) returns (allowed: bool)
      ensures allowed == Recheck(View(), url)
    {
      allowed := url !in breakers || breakers[url].mode.Closed?;
    }

    method ReleaseUrl(url: Url) returns (event: Option<nat>)
      requires Valid() && stats.Valid()
      modifies this, stats`data
      ensures Valid() && (View(), event) == Release(old(View()), url)
      ensures ModeOf(View(), url).Closed? && StrikeOf(View(), url) == 0 && url !in probeEvents
      ensures event == if url in old(probeEvents) then Some(old(probeEvents)[url]) else None
      ensures forall u :: u != url ==> SameFor(old(View()), View(), u)
      ensures stats.Valid() && stats.data == old(stats.data)[url := old(stats.Known(url)).(streak := 0)]
    {
      ReleaseKeepsConsistent(View(), url);
      if url in breakers {
        breakers := breakers[url := breakers[url].(mode := Closed, strike := 0)];
      }
      event := PopProbe(url);
      stats.ResetConsecutiveFailures(url);
    }
  }
}
