/** How the failure streak of the statistics drives the circuit breaker (proxy/session_pool.py).
    `record_failure` and `record_success` contain no await, so on the event loop each one is a
    single step that updates the streak and then the breaker. */
module Coupling {
  import opened Ranges
  import opened CircuitBreaking

  datatype Tracker = Tracker(breaker: Breaker, streaks: map<Url, nat>)

  /** `Reset` is the manual release, which clears breaker and streak together. */
  datatype Op = Fail(url: Url, now: real) | Succeed(url: Url) | Ask(url: Url, now: real) | Reset(url: Url)

  function Streak(s: Tracker, url: Url): nat { if url in s.streaks then s.streaks[url] else 0 }

  function Mode(s: Tracker, url: Url): Mode { ModeOf(s.breaker, url) }

  function Step(p: Params, s: Tracker, op: Op): Tracker {
    match op
    case Fail(url, now) =>
      var streak := Streak(s, url) + 1;
      Tracker(Failure(p, s.breaker, url, streak, now).0, s.streaks[url := streak])
    case Succeed(url) => Tracker(Success(s.breaker, url).0, s.streaks[url := 0])
    case Ask(url, now) => s.(breaker := Admit(s.breaker, url, now).0)
    case Reset(url) => Tracker(Release(s.breaker, url).0, s.streaks[url := 0])
  }

  /** What `allow_request` answers; a caller that finds a probe under way gets its answer from
      the second look, with nothing having changed when no other step came between. */
  function Answered(s: Tracker, url: Url, now: real): bool {
    match Admit(s.breaker, url, now).1
    case Answer(allowed) => allowed
    case WaitFor(_) => Recheck(s.breaker, url)
  }

  function After(p: Params, ops: seq<Op>): Tracker {
    if ops == [] then Tracker(NewBreaker, map[])
    else Step(p, After(p, ops[..|ops| - 1]), ops[|ops| - 1])
  }

  lemma AfterSnoc(p: Params, ops: seq<Op>, op: Op)
    ensures After(p, ops + [op]) == Step(p, After(p, ops), op)
  {
    assert (ops + [op])[..|ops|] == ops;
  }

  /** A success and a manual reset end the streak. The reset closes the breaker, the success does so
      only for a half-open one, and neither touches another URL. */
  lemma EndsTheStreak(p: Params, s: Tracker, url: Url, other: Url)
    ensures var t := Step(p, s, Succeed(url));
            && Streak(t, url) == 0 && Mode(t, url) == (if Mode(s, url).HalfOpen? then Closed else Mode(s, url))
            && (other != url ==> Streak(t, other) == Streak(s, other) && Mode(t, other) == Mode(s, other))
    ensures var t := Step(p, s, Reset(url));
            && Streak(t, url) == 0 && Mode(t, url).Closed?
            && (other != url ==> Streak(t, other) == Streak(s, other) && Mode(t, other) == Mode(s, other))
  {
  }

  // ------------------------------------------------------------------ the streak outlives the ban

  /** No success comes in for the URL while its breaker is open. */
  ghost predicate NoLateSuccess(p: Params, ops: seq<Op>, url: Url) {
    forall i :: 0 <= i < |ops| && ops[i] == Succeed(url) ==> !Mode(After(p, ops[..i]), url).Open?
  }

  /** From opening to closing the streak stays at the threshold or above. */
  lemma {:induction false} StreakOutlivesBan(p: Params, ops: seq<Op>, url: Url)
    requires NoLateSuccess(p, ops, url)
    ensures var s := After(p, ops); !Mode(s, url).Closed? ==> Streak(s, url) >= p.threshold
  {
    if ops != [] {
      var n := |ops| - 1;
      forall i | 0 <= i < n && ops[..n][i] == Succeed(url)
        ensures !Mode(After(p, ops[..n][..i]), url).Open?
      {
        assert ops[..n][..i] == ops[..i];
      }
      StreakOutlivesBan(p, ops[..n], url);
    }
  }

  /** A failed probe reopens the breaker exactly when the streak, with this failure, reaches the
      threshold; otherwise nothing changes and the URL stays half-open. */
  lemma FailedProbeReopensExactly(p: Params, ops: seq<Op>, url: Url, now: real)
    requires Mode(After(p, ops), url).HalfOpen?
    ensures var s, t := After(p, ops), After(p, ops + [Fail(url, now)]);
            && (Mode(t, url).Open? <==> Streak(s, url) + 1 >= p.threshold)
            && (!Mode(t, url).Open? ==> t.breaker == s.breaker)
    ensures NoLateSuccess(p, ops, url) ==> Mode(After(p, ops + [Fail(url, now)]), url).Open?
  {
    AfterSnoc(p, ops, Fail(url, now));
    if NoLateSuccess(p, ops, url) {
      StreakOutlivesBan(p, ops, url);
    }
  }

  // ------------------------------------------------------------------ the ban schedule

  /** How often the breaker has opened for the URL since it was last closed. */
  function Openings(p: Params, ops: seq<Op>, url: Url): nat {
    if ops == [] || Mode(After(p, ops), url).Closed? then 0
    else
      var before := ops[..|ops| - 1];
      Openings(p, before, url)
      + if Mode(After(p, ops), url).Open? && !Mode(After(p, before), url).Open? then 1 else 0
  }

  /** When it opened last. */
  function LastOpening(p: Params, ops: seq<Op>, url: Url): real {
    if ops == [] then 0.0
    else
      var before, op := ops[..|ops| - 1], ops[|ops| - 1];
      if op.Fail? && Mode(After(p, ops), url).Open? && !Mode(After(p, before), url).Open? then op.now
      else LastOpening(p, before, url)
  }

  /** In every run: the s-th opening since the last close bans until min(base * 2^(s-1), max)
      after it happened. */
  lemma {:induction false} BanSchedule(p: Params, ops: seq<Op>, url: Url)
    ensures var s := After(p, ops);
            && StrikeOf(s.breaker, url) == Openings(p, ops, url)
            && (!Mode(s, url).Closed? ==> Openings(p, ops, url) >= 1)
            && (!Mode(s, url).Closed? ==>
                  s.breaker.entries[url].openUntil == LastOpening(p, ops, url) + BanDelay(p, Openings(p, ops, url)))
  {
    if ops != [] {
      var before := ops[..|ops| - 1];
      BanSchedule(p, before, url);
      ClosedMeansNoStrikes(p, before, url);
      BanStep(p, After(p, before), ops[|ops| - 1], url, Openings(p, before, url), LastOpening(p, before, url));
    }
  }

  /** One step of the schedule: o openings so far, the last one at l. */
  lemma BanStep(p: Params, s: Tracker, op: Op, url: Url, o: nat, l: real)
    requires StrikeOf(s.breaker, url) == o && (Mode(s, url).Closed? ==> o == 0)
    requires !Mode(s, url).Closed? ==> o >= 1 && s.breaker.entries[url].openUntil == l + BanDelay(p, o)
    ensures var t := Step(p, s, op);
            var reopens := Mode(t, url).Open? && !Mode(s, url).Open?;
            var openings := if Mode(t, url).Closed? then 0 else if reopens then o + 1 else o;
            && (reopens ==> op.Fail?) && StrikeOf(t.breaker, url) == openings
            && (!Mode(t, url).Closed? ==>
                  openings >= 1
                  && t.breaker.entries[url].openUntil == (if reopens then op.now else l) + BanDelay(p, openings))
  {
  }

  /** The bans themselves. The first opening since the URL was last closed bans for min(base, max), and
      every further one for twice as long as the one before, up to max. The length of the one
      before is the end it was given minus the moment it was given. */
  lemma BansDouble(p: Params, ops: seq<Op>, url: Url, now: real)
    requires p.baseDelay >= 0.0 && p.maxDelay >= 0.0
    requires !Mode(After(p, ops), url).Open? && Mode(After(p, ops + [Fail(url, now)]), url).Open?
    ensures var s, t := After(p, ops), After(p, ops + [Fail(url, now)]);
            var ban := t.breaker.entries[url].openUntil - now;
            if Mode(s, url).Closed? then ban == Smaller(p.baseDelay, p.maxDelay)
            else ban == Smaller(2.0 * (s.breaker.entries[url].openUntil - LastOpening(p, ops, url)), p.maxDelay)
  {
    BanSchedule(p, ops, url);
    ClosedMeansNoStrikes(p, ops, url);
    AfterSnoc(p, ops, Fail(url, now));
    OpeningBan(p, After(p, ops), url, now);
    FirstBan(p);
    if !Mode(After(p, ops), url).Closed? {
      NextBan(p, Openings(p, ops, url));
    }
  }

  lemma OpeningBan(p: Params, s: Tracker, url: Url, now: real)
    requires !Mode(s, url).Open? && Mode(Step(p, s, Fail(url, now)), url).Open?
    ensures Step(p, s, Fail(url, now)).breaker.entries[url].openUntil - now == BanDelay(p, StrikeOf(s.breaker, url) + 1)
  {
  }

  lemma {:induction false} ClosedMeansNoStrikes(p: Params, ops: seq<Op>, url: Url)
    ensures Mode(After(p, ops), url).Closed? ==> StrikeOf(After(p, ops).breaker, url) == 0
  {
    if ops != [] {
      ClosedMeansNoStrikes(p, ops[..|ops| - 1], url);
    }
  }

  // ------------------------------------------------------------------ the late success

  function Fails(url: Url, k: nat): seq<Op> {
    if k == 0 then [] else Fails(url, k - 1) + [Fail(url, 0.0)]
  }

  lemma FailsSnoc(p: Params, url: Url, k: nat)
    requires k > 0
    ensures After(p, Fails(url, k)) == Step(p, After(p, Fails(url, k - 1)), Fail(url, 0.0))
  {
    AfterSnoc(p, Fails(url, k - 1), Fail(url, 0.0));
  }

  lemma {:induction false} FailsInARow(p: Params, url: Url, k: nat)
    ensures Streak(After(p, Fails(url, k)), url) == k
    ensures k < p.threshold ==> After(p, Fails(url, k)).breaker == NewBreaker
  {
    if k > 0 {
      var before := After(p, Fails(url, k - 1));
      FailsInARow(p, url, k - 1);
      FailsSnoc(p, url, k);
      OneFailure(p, before, url, 0.0);
    }
  }

  /** A failure adds one to the streak, and below the threshold the breaker takes no notice. */
  lemma OneFailure(p: Params, s: Tracker, url: Url, now: real)
    ensures Streak(Step(p, s, Fail(url, now)), url) == Streak(s, url) + 1
    ensures Streak(s, url) + 1 < p.threshold ==> Step(p, s, Fail(url, now)).breaker == s.breaker
  {
  }

  /** A success that was under way when the breaker opened zeroes the streak; after the ban the
      next probe fails, and with a threshold of 2 or more nothing moves any more: the URL is
      half-open with its probe gone. */
  lemma {:induction false} LateSuccessSticks(p: Params, url: Url) returns (ops: seq<Op>)
    requires p.threshold >= 2
    ensures Mode(After(p, ops), url).HalfOpen? && Streak(After(p, ops), url) == 1
    ensures exists now :: ops != [] && ops[|ops| - 1] == Fail(url, now)
                          && Mode(After(p, ops[..|ops| - 1]), url).HalfOpen?
  {
    var opening := Fails(url, p.threshold);
    var ask := OpensAtThreshold(p, url);
    AfterSnoc(p, opening, Succeed(url));
    var zeroed := opening + [Succeed(url)];
    AfterSnoc(p, zeroed, Ask(url, ask));
    var probing := zeroed + [Ask(url, ask)];
    AfterSnoc(p, probing, Fail(url, ask));
    LateSuccessStates(p, After(p, opening), url, ask);
    ops := probing + [Fail(url, ask)];
    assert ops[..|ops| - 1] == probing;
  }

  /** As many failures as the threshold open the breaker; the ban is over at `ask`. */
  lemma OpensAtThreshold(p: Params, url: Url) returns (ask: real)
    requires p.threshold >= 1
    ensures var s := After(p, Fails(url, p.threshold));
            Mode(s, url).Open? && s.breaker.entries[url].openUntil <= ask
  {
    FailsInARow(p, url, p.threshold - 1);
    AfterSnoc(p, Fails(url, p.threshold - 1), Fail(url, 0.0));
    FailsInARow(p, url, p.threshold);
    ask := After(p, Fails(url, p.threshold)).breaker.entries[url].openUntil;
  }

  /** A success, the next probe and its failure, from an open breaker. */
  lemma LateSuccessStates(p: Params, s: Tracker, url: Url, ask: real)
    requires p.threshold >= 2 && Mode(s, url).Open? && s.breaker.entries[url].openUntil <= ask
    ensures var probing := Step(p, Step(p, s, Succeed(url)), Ask(url, ask));
            && Mode(probing, url).HalfOpen? && Streak(probing, url) == 0
            && Mode(Step(p, probing, Fail(url, ask)), url).HalfOpen? && Streak(Step(p, probing, Fail(url, ask)), url) == 1
  {
  }

  lemma AskKeepsHalfOpen(p: Params, s: Tracker, op: Op, url: Url)
    requires Mode(s, url).HalfOpen? && op.Ask?
    ensures Mode(Step(p, s, op), url).HalfOpen?
  {
  }

  lemma HalfOpenRefuses(s: Tracker, url: Url, now: real)
    requires Mode(s, url).HalfOpen?
    ensures !Answered(s, url, now)
  {
  }

  ghost predicate OnlyAsks(ops: seq<Op>) { forall i :: 0 <= i < |ops| ==> ops[i].Ask? }

  /** From a half-open state, asking alone never changes it and every answer is no. */
  lemma {:induction false} HalfOpenRefusesForEver(p: Params, ops: seq<Op>, more: seq<Op>, url: Url, now: real)
    requires Mode(After(p, ops), url).HalfOpen? && OnlyAsks(more)
    ensures Mode(After(p, ops + more), url).HalfOpen? && !Answered(After(p, ops + more), url, now)
    decreases |more|
  {
    if more == [] {
      assert ops + more == ops;
    } else {
      var n := |more| - 1;
      HalfOpenRefusesForEver(p, ops, more[..n], url, now);
      assert ops + more == (ops + more[..n]) + [more[n]];
      AfterSnoc(p, ops + more[..n], more[n]);
      AskKeepsHalfOpen(p, After(p, ops + more[..n]), more[n], url);
    }
    HalfOpenRefuses(After(p, ops + more), url, now);
  }

  /** If a probe is under way after the run, its failure reopens the breaker. */
  ghost predicate ProbeReopens(p: Params, url: Url, ops: seq<Op>, now: real) {
    Mode(After(p, ops), url).HalfOpen? ==> Mode(Step(p, After(p, ops), Fail(url, now)), url).Open?
  }

  /** So a failed probe reopens the breaker in every run if and only if the threshold is at most 1. */
  lemma {:induction false} AlwaysReopensExactly(p: Params, url: Url)
    ensures p.threshold <= 1 <==> forall ops, now :: ProbeReopens(p, url, ops, now)
  {
    if p.threshold <= 1 {
      forall ops, now
        ensures ProbeReopens(p, url, ops, now)
      {
        if Mode(After(p, ops), url).HalfOpen? {
          FailedProbeReopensExactly(p, ops, url, now);
          AfterSnoc(p, ops, Fail(url, now));
        }
      }
    } else {
      var ops := LateSuccessSticks(p, url);
      var now :| ops != [] && ops[|ops| - 1] == Fail(url, now) && Mode(After(p, ops[..|ops| - 1]), url).HalfOpen?;
      var probing := ops[..|ops| - 1];
      assert !ProbeReopens(p, url, probing, now);
    }
  }
}
