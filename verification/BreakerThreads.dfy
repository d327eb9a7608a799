/** The circuit breaker under any interleaving of threads. A lock section is one step; setting an
    event after leaving the lock, waking from `evt.wait(timeout=30)` and reading the state again
    are steps of their own. */
module BreakerThreads {
  import opened Wrappers
  import opened Ranges
  import opened CircuitBreaking

  type ThreadId = nat

  datatype Thread =
    | Idle
    | Parked(url: Url, event: nat)
    | Woken(url: Url)
    | Signalling(event: nat)

  /** One answer of `allow_request`; `episode` is the probe event registered for the URL when the
      answer was decided, so the half-open episode it belongs to. */
  datatype Decision = Decision(thread: ThreadId, url: Url, episode: Option<nat>, allowed: bool)

  /** `signalled` are the events that have been set; `log` lists the answers in order. */
  datatype World = World(breaker: Breaker, threads: map<ThreadId, Thread>, signalled: set<nat>, log: seq<Decision>)

  const Start := World(NewBreaker, map[], {}, [])

  datatype Action =
    | RecordFailure(url: Url, consecutive: int)
    | RecordSuccess(url: Url)
    | ReleaseUrl(url: Url)
    | AllowRequest(url: Url)
    | SetEvent
    | WakeUp
    | TimeOut
    | ReadAgain

  function At(w: World, t: ThreadId): Thread { if t in w.threads then w.threads[t] else Idle }

  predicate Enabled(w: World, t: ThreadId, a: Action) {
    match a
    case SetEvent => At(w, t).Signalling?
    case WakeUp => At(w, t).Parked? && At(w, t).event in w.signalled
    case TimeOut => At(w, t).Parked?
    case ReadAgain => At(w, t).Woken?
    case _ => At(w, t).Idle?
  }

  /** Leave a lock section that may have popped an event. */
  function Leave(w: World, t: ThreadId, result: (Breaker, Option<nat>)): World {
    w.(breaker := result.0, threads := w.threads[t := if result.1.Some? then Signalling(result.1.value) else Idle])
  }

  function Episode(b: Breaker, url: Url): Option<nat> { Popped(b, url) }

  function Apply(p: Params, w: World, t: ThreadId, a: Action, now: real): World
    requires Enabled(w, t, a)
  {
    match a
    case RecordFailure(url, consecutive) => Leave(w, t, Failure(p, w.breaker, url, consecutive, now))
    case RecordSuccess(url) => Leave(w, t, Success(w.breaker, url))
    case ReleaseUrl(url) => Leave(w, t, Release(w.breaker, url))
    case AllowRequest(url) =>
      var (b, verdict) := Admit(w.breaker, url, now);
      if verdict.WaitFor? then w.(breaker := b, threads := w.threads[t := Parked(url, verdict.event)])
      else w.(breaker := b, log := w.log + [Decision(t, url, Episode(b, url), verdict.allowed)])
    case SetEvent => w.(threads := w.threads[t := Idle], signalled := w.signalled + {w.threads[t].event})
    case WakeUp => w.(threads := w.threads[t := Woken(w.threads[t].url)])
    case TimeOut => w.(threads := w.threads[t := Woken(w.threads[t].url)])
    case ReadAgain =>
      var url := w.threads[t].url;
      w.(threads := w.threads[t := Idle],
         log := w.log + [Decision(t, url, Episode(w.breaker, url), Recheck(w.breaker, url))])
  }

  datatype Move = Move(thread: ThreadId, action: Action, now: real)

  predicate Runs(p: Params, w: World, moves: seq<Move>, v: World)
    decreases |moves|
  {
    if moves == [] then w == v
    else
      var m := moves[0];
      Enabled(w, m.thread, m.action) && Runs(p, Apply(p, w, m.thread, m.action, m.now), moves[1..], v)
  }

  ghost predicate Reachable(p: Params, w: World) {
    exists moves :: Runs(p, Start, moves, w)
  }

  // ------------------------------------------------------------------ no wake-up is lost

  /** The event is registered, has been set, or is in the hands of a thread about to set it. */
  ghost predicate Covered(w: World, url: Url, event: nat) {
    || (url in w.breaker.probes && w.breaker.probes[url] == event)
    || event in w.signalled
    || (exists s :: s in w.threads && w.threads[s] == Signalling(event))
  }

  ghost predicate ParkedOk(w: World) {
    forall t :: t in w.threads && w.threads[t].Parked? ==>
      w.threads[t].event < w.breaker.unused && Covered(w, w.threads[t].url, w.threads[t].event)
  }

  /** A registered event has not been set and is in nobody's hands. */
  ghost predicate TableOk(w: World) { EventsKnown(w) && EventsApart(w) }

  ghost predicate EventsKnown(w: World) {
    && (forall t :: t in w.threads && w.threads[t].Signalling? ==> w.threads[t].event < w.breaker.unused)
    && (forall e :: e in w.signalled ==> e < w.breaker.unused)
  }

  ghost predicate EventsApart(w: World) {
    && (forall t, url :: t in w.threads && url in w.breaker.probes ==> w.threads[t] != Signalling(w.breaker.probes[url]))
    && (forall url :: url in w.breaker.probes ==> w.breaker.probes[url] !in w.signalled)
  }

  // ------------------------------------------------------------------ one probe per episode

  predicate IsPass(d: Decision, episode: nat) { d.episode == Some(episode) && d.allowed }

  /** Exactly one answer of the log lets a request pass during this episode. */
  ghost predicate OnePass(log: seq<Decision>, episode: nat) {
    exists i: nat :: OnlyPass(log, episode, i)
  }

  ghost predicate OnlyPass(log: seq<Decision>, episode: nat, i: nat) {
    i < |log| && IsPass(log[i], episode) && forall j :: 0 <= j < |log| && IsPass(log[j], episode) ==> j == i
  }

  ghost predicate LogOk(w: World) {
    && (forall n: nat :: n < w.breaker.unused ==> OnePass(w.log, n))
    && (forall i, n: nat :: 0 <= i < |w.log| && IsPass(w.log[i], n) ==> n < w.breaker.unused)
  }

  lemma OnePassExtends(log: seq<Decision>, d: Decision, n: nat)
    requires OnePass(log, n) && !IsPass(d, n)
    ensures OnePass(log + [d], n)
  {
    var i: nat :| OnlyPass(log, n, i);
    assert OnlyPass(log + [d], n, i);
  }

  /** The only answer that lets a request pass in a half-open state is the one opening it. */
  lemma LogStep(p: Params, w: World, t: ThreadId, a: Action, now: real)
    requires Consistent(w.breaker) && LogOk(w) && Enabled(w, t, a)
    ensures LogOk(Apply(p, w, t, a, now))
  {
    var v := Apply(p, w, t, a, now);
    if v.log == w.log {
    } else {
      var d := v.log[|w.log|];
      assert v.log == w.log + [d];
      forall n: nat | n < v.breaker.unused
        ensures OnePass(v.log, n)
      {
        if n < w.breaker.unused {
          assert !IsPass(d, n);
          OnePassExtends(w.log, d, n);
        } else {
          assert OnlyPass(v.log, n, |w.log|);
        }
      }
    }
  }

  /** A thread parked before and after the step stays covered: whoever takes its event out of the
      table holds it, and whoever held it has set it. */
  lemma CoveredStep(p: Params, w: World, t: ThreadId, a: Action, now: real, url: Url, event: nat)
    requires Consistent(w.breaker) && Enabled(w, t, a) && Covered(w, url, event)
    ensures Covered(Apply(p, w, t, a, now), url, event)
  {
    var v := Apply(p, w, t, a, now);
    if event in w.signalled {
      assert event in v.signalled;
    } else if s :| s in w.threads && w.threads[s] == Signalling(event) {
      if s != t {
        assert v.threads[s] == Signalling(event);
      }
    } else if !(url in v.breaker.probes && v.breaker.probes[url] == event) {
      assert v.threads[t] == Signalling(event);
    }
  }

  lemma TableStep(p: Params, w: World, t: ThreadId, a: Action, now: real)
    requires Consistent(w.breaker) && TableOk(w) && Enabled(w, t, a)
    ensures TableOk(Apply(p, w, t, a, now))
  {
    KnownStep(p, w, t, a, now);
    if a.RecordFailure? || a.RecordSuccess? || a.ReleaseUrl? {
      LeavingKeepsApart(p, w, t, a, now);
    } else if a.AllowRequest? {
      AskingKeepsApart(p, w, t, a.url, now);
    } else {
      ApartStep(p, w, t, a, now);
    }
  }

  lemma KnownStep(p: Params, w: World, t: ThreadId, a: Action, now: real)
    requires Consistent(w.breaker) && EventsKnown(w) && Enabled(w, t, a)
    ensures EventsKnown(Apply(p, w, t, a, now))
  {
  }

  lemma LeavingKeepsApart(p: Params, w: World, t: ThreadId, a: Action, now: real)
    requires Consistent(w.breaker) && EventsKnown(w) && EventsApart(w) && Enabled(w, t, a)
    requires a.RecordFailure? || a.RecordSuccess? || a.ReleaseUrl?
    ensures EventsApart(Apply(p, w, t, a, now))
  {
  }

  lemma ApartStep(p: Params, w: World, t: ThreadId, a: Action, now: real)
    requires Consistent(w.breaker) && EventsKnown(w) && EventsApart(w) && Enabled(w, t, a)
    requires !(a.RecordFailure? || a.RecordSuccess? || a.ReleaseUrl? || a.AllowRequest?)
    ensures EventsApart(Apply(p, w, t, a, now))
  {
  }

  lemma AskingKeepsApart(p: Params, w: World, t: ThreadId, url: Url, now: real)
    requires Consistent(w.breaker) && EventsKnown(w) && EventsApart(w) && Enabled(w, t, AllowRequest(url))
    ensures EventsApart(Apply(p, w, t, AllowRequest(url), now))
  {
  }

  lemma ParkedStep(p: Params, w: World, t: ThreadId, a: Action, now: real)
    requires Consistent(w.breaker) && ParkedOk(w) && Enabled(w, t, a)
    ensures ParkedOk(Apply(p, w, t, a, now))
  {
    var v := Apply(p, w, t, a, now);
    forall s | s in v.threads && v.threads[s].Parked?
      ensures v.threads[s].event < v.breaker.unused && Covered(v, v.threads[s].url, v.threads[s].event)
    {
      if s in w.threads && w.threads[s] == v.threads[s] {
        CoveredStep(p, w, t, a, now, v.threads[s].url, v.threads[s].event);
      }
    }
  }

  lemma {:induction false} RunsKeep(p: Params, w: World, moves: seq<Move>, v: World)
    requires Consistent(w.breaker) && ParkedOk(w) && TableOk(w) && LogOk(w) && Runs(p, w, moves, v)
    ensures Consistent(v.breaker) && ParkedOk(v) && TableOk(v) && LogOk(v)
    decreases |moves|
  {
    if moves != [] {
      var m := moves[0];
      var next := Apply(p, w, m.thread, m.action, m.now);
      TableStep(p, w, m.thread, m.action, m.now);
      ParkedStep(p, w, m.thread, m.action, m.now);
      LogStep(p, w, m.thread, m.action, m.now);
      StepKeepsConsistent(p, w, m.thread, m.action, m.now);
      RunsKeep(p, next, moves[1..], v);
    }
  }

  lemma StepKeepsConsistent(p: Params, w: World, t: ThreadId, a: Action, now: real)
    requires Consistent(w.breaker) && Enabled(w, t, a)
    ensures Consistent(Apply(p, w, t, a, now).breaker)
  {
    match a
    case RecordFailure(url, consecutive) => FailureKeepsConsistent(p, w.breaker, url, consecutive, now);
    case RecordSuccess(url) => SuccessKeepsConsistent(w.breaker, url);
    case ReleaseUrl(url) => ReleaseKeepsConsistent(w.breaker, url);
    case AllowRequest(url) => AdmitKeepsConsistent(w.breaker, url, now);
    case _ =>
  }

  // ------------------------------------------------------------------ the results

  /** Half-open safety: in every reachable world exactly the half-open URLs have a probe event, and
      for every episode there ever was exactly one `allow_request` has answered True. */
  lemma HalfOpenSafety(p: Params, w: World)
    requires Reachable(p, w)
    ensures forall url :: url in w.breaker.probes <==> ModeOf(w.breaker, url).HalfOpen?
    ensures forall n: nat :: n < w.breaker.unused ==> OnePass(w.log, n)
    ensures forall url :: url in w.breaker.probes ==> w.breaker.probes[url] < w.breaker.unused
  {
    var moves :| Runs(p, Start, moves, w);
    RunsKeep(p, Start, moves, w);
  }

  /** No lost wake-up: a parked thread whose episode is over can wake now, or after the thread
      that ended the episode has set the event. */
  lemma NoLostWakeUp(p: Params, w: World, t: ThreadId) returns (s: ThreadId)
    requires Reachable(p, w) && At(w, t).Parked?
    requires Episode(w.breaker, w.threads[t].url) != Some(w.threads[t].event)
    ensures Enabled(w, t, WakeUp)
            || (Enabled(w, s, SetEvent) && s != t && Enabled(Apply(p, w, s, SetEvent, 0.0), t, WakeUp))
  {
    var moves :| Runs(p, Start, moves, w);
    RunsKeep(p, Start, moves, w);
    s := t;
    var event := w.threads[t].event;
    assert Covered(w, w.threads[t].url, event);
    if event !in w.signalled {
      s :| s in w.threads && w.threads[s] == Signalling(event);
    }
  }

  /** No early wake-up either: while the episode lasts its event is not set and nobody is about to. */
  lemma ProbeHoldsTheDoor(p: Params, w: World, url: Url)
    requires Reachable(p, w) && url in w.breaker.probes
    ensures w.breaker.probes[url] !in w.signalled
    ensures forall s :: At(w, s) != Signalling(w.breaker.probes[url])
    ensures forall s :: At(w, s) == Parked(url, w.breaker.probes[url]) ==> !Enabled(w, s, WakeUp) && Enabled(w, s, TimeOut)
  {
    var moves :| Runs(p, Start, moves, w);
    RunsKeep(p, Start, moves, w);
  }

  /** Who may pass: a step answers True for a URL only if the breaker was closed for it, or open
      with the ban over; in the second case it becomes the probe. */
  lemma PassesOnly(p: Params, w: World, t: ThreadId, a: Action, now: real)
    requires Reachable(p, w) && Enabled(w, t, a)
    ensures var v := Apply(p, w, t, a, now);
            v.log != w.log ==>
              var d := v.log[|w.log|];
              && v.log == w.log + [d] && d.thread == t
              && (d.allowed ==> ModeOf(w.breaker, d.url).Closed?
                                || (a.AllowRequest? && ModeOf(w.breaker, d.url).Open?
                                    && w.breaker.entries[d.url].openUntil <= now
                                    && ModeOf(v.breaker, d.url).HalfOpen?))
              && (a.AllowRequest? && ModeOf(w.breaker, d.url).Closed? ==> d.allowed)
              && (a.ReadAgain? ==> (d.allowed <==> ModeOf(w.breaker, d.url).Closed?))
  {
    HalfOpenSafety(p, w);
  }
}
