/** What the events of a run decide: which chunks fail, how far the write loop gets, and what the
    client has received when it ends. */
module PipelineOutcomes {
  import opened Ranges
  import opened Pipeline
  import opened PipelineSafety

  /** How often an event occurs. */
  function Count(evs: seq<Event>, ev: Event): nat {
    if evs == [] then 0
    else Count(evs[..|evs| - 1], ev) + if evs[|evs| - 1] == ev then 1 else 0
  }

  lemma CountSnoc(evs: seq<Event>, e: Event, ev: Event)
    ensures Count(evs + [e], ev) == Count(evs, ev) + if e == ev then 1 else 0
  {
    assert (evs + [e])[..|evs|] == evs;
  }

  // ------------------------------------------------------------------ what the trace says of a state

  /** The raced chunk 0: one racer that answers decides it, and only two failures lose it. */
  ghost predicate RaceTraced(cfg: Config, evs: seq<Event>, s: State)
    requires Shaped(cfg, s)
  {
    cfg.race && cfg.N() > 0 ==>
      if s.phase[0].Racing?
      then 0 !in s.results && RaceWon !in evs && s.phase[0].pending + Count(evs, RacerFails) == 2 && s.phase[0].pending > 0
      else s.phase[0].Done? && 0 in s.results
           && (s.results[0].Failed? <==> Count(evs, RacerFails) == 2) && (s.results[0].Data? <==> RaceWon in evs)
           && Count(evs, RacerFails) <= 2
  }

  /** Any other chunk fails exactly if its fetch raised, and is there only if its fetch returned. */
  ghost predicate ChunkTraced(cfg: Config, evs: seq<Event>, s: State, i: nat)
    requires Shaped(cfg, s) && i < cfg.N()
  {
    && (s.phase[i].Done? <==> i in s.results)
    && (FetchRaises(i) in evs <==> i in s.results && s.results[i].Failed?)
    && (FetchReturns(i) in evs <==> s.phase[i].Parked? || s.phase[i].WantsSpace? || (i in s.results && s.results[i].Data?))
  }

  ghost predicate WriterTraced(cfg: Config, evs: seq<Event>, s: State)
    requires cfg.WellFormed() && Shaped(cfg, s)
  {
    && s.next == Count(evs, EndWrite) <= cfg.N()
    && (SeeFailure in evs <==> s.writer.Aborted? && s.writer.failedAt == s.next)
    && (s.writer.Aborted? ==> s.next < cfg.N() && (s.writer.failedAt == s.next || s.writer.failedAt == -1))
    && (s.writer.Aborted? && s.writer.failedAt == -1 ==> exists sent: nat :: WriteRaises(sent) in evs)
    && (forall sent: nat :: WriteRaises(sent) in evs ==>
          s.writer == Aborted(-1) && sent <= cfg.Size(s.next)
          && s.output == Joined(cfg.resource, cfg.ranges, s.next) + cfg.Chunk(s.next)[..sent])
    && (s.writer != Aborted(-1) ==> s.output == Joined(cfg.resource, cfg.ranges, s.next))
    && (s.writer.Writing? ==> s.next < cfg.N() && s.writer.data == cfg.Chunk(s.next))
  }

  ghost predicate Traced(cfg: Config, evs: seq<Event>, s: State)
    requires cfg.WellFormed()
  {
    && Shaped(cfg, s) && Inv(cfg, s)
    && RaceTraced(cfg, evs, s) && WriterTraced(cfg, evs, s)
    && forall i: nat :: cfg.FirstFetch() <= i < cfg.N() ==> ChunkTraced(cfg, evs, s, i)
  }

  lemma RaceStep(cfg: Config, evs: seq<Event>, s: State, ev: Event)
    requires cfg.WellFormed() && Traced(cfg, evs, s) && Enabled(cfg, s, ev)
    ensures Shaped(cfg, Apply(cfg, s, ev)) && RaceTraced(cfg, evs + [ev], Apply(cfg, s, ev))
  {
    InvStep(cfg, s, ev);
    CountSnoc(evs, ev, RacerFails);
    assert TaskOk(cfg, s, 0);
    if cfg.race && ev != RaceWon && ev != RacerFails {
      RaceUntouched(cfg, s, ev);
    }
  }

  /** No other event touches the raced chunk. */
  lemma RaceUntouched(cfg: Config, s: State, ev: Event)
    requires cfg.WellFormed() && Shaped(cfg, s) && Enabled(cfg, s, ev) && TaskOk(cfg, s, 0)
    requires cfg.race && ev != RaceWon && ev != RacerFails
    ensures var t := Apply(cfg, s, ev);
            && Shaped(cfg, t) && t.phase[0] == s.phase[0] && (0 in t.results <==> 0 in s.results)
            && (0 in s.results ==> t.results[0] == s.results[0])
  {
  }

  /** The events of the task of chunk i. */
  predicate Concerns(ev: Event, i: nat) {
    ev == TakeGate(i) || ev == TakeSlot(i) || ev == FetchReturns(i) || ev == FetchRaises(i) || ev == Reserve(i)
  }

  /** No other event touches its result, and it can only be woken. */
  lemma ChunkUntouched(cfg: Config, s: State, ev: Event, i: nat)
    requires cfg.WellFormed() && Shaped(cfg, s) && Enabled(cfg, s, ev) && cfg.FirstFetch() <= i < cfg.N() && !Concerns(ev, i)
    ensures var t := Apply(cfg, s, ev);
            && Shaped(cfg, t) && (i in t.results <==> i in s.results)
            && (i in s.results ==> t.results[i] == s.results[i])
            && (t.phase[i] == s.phase[i] || (s.phase[i].Parked? && t.phase[i].WantsSpace?))
  {
  }

  lemma ChunkStep(cfg: Config, evs: seq<Event>, s: State, ev: Event, i: nat)
    requires cfg.WellFormed() && Traced(cfg, evs, s) && Enabled(cfg, s, ev) && cfg.FirstFetch() <= i < cfg.N()
    ensures Shaped(cfg, Apply(cfg, s, ev)) && ChunkTraced(cfg, evs + [ev], Apply(cfg, s, ev), i)
  {
    InvStep(cfg, s, ev);
    assert ChunkTraced(cfg, evs, s, i);
    if Concerns(ev, i) {
      OwnStep(cfg, evs, s, ev, i);
    } else {
      ChunkUntouched(cfg, s, ev, i);
    }
  }

  lemma OwnStep(cfg: Config, evs: seq<Event>, s: State, ev: Event, i: nat)
    requires cfg.WellFormed() && Shaped(cfg, s) && Enabled(cfg, s, ev) && cfg.FirstFetch() <= i < cfg.N() && Concerns(ev, i)
    requires ChunkTraced(cfg, evs, s, i)
    ensures Shaped(cfg, Apply(cfg, s, ev)) && ChunkTraced(cfg, evs + [ev], Apply(cfg, s, ev), i)
  {
  }

  lemma WriterStep(cfg: Config, evs: seq<Event>, s: State, ev: Event)
    requires cfg.WellFormed() && Traced(cfg, evs, s) && Enabled(cfg, s, ev)
    ensures Shaped(cfg, Apply(cfg, s, ev)) && WriterTraced(cfg, evs + [ev], Apply(cfg, s, ev))
  {
    InvStep(cfg, s, ev);
    CountSnoc(evs, ev, EndWrite);
    if ev.BeginWrite? || ev.EndWrite? || ev.WriteRaises? || ev.SeeFailure? {
      OwnWriterStep(cfg, evs, s, ev);
    } else {
      WriterUntouched(cfg, s, ev);
      SameWriterTraced(cfg, evs, s, ev, Apply(cfg, s, ev));
    }
  }

  lemma OwnWriterStep(cfg: Config, evs: seq<Event>, s: State, ev: Event)
    requires cfg.WellFormed() && Inv(cfg, s) && WriterTraced(cfg, evs, s) && Enabled(cfg, s, ev)
    requires ev.BeginWrite? || ev.EndWrite? || ev.WriteRaises? || ev.SeeFailure?
    requires Count(evs + [ev], EndWrite) == Count(evs, EndWrite) + if ev == EndWrite then 1 else 0
    ensures Shaped(cfg, Apply(cfg, s, ev)) && WriterTraced(cfg, evs + [ev], Apply(cfg, s, ev))
  {
    if s.next < cfg.N() {
      assert TaskOk(cfg, s, s.next);
    }
    assert s.writer != Aborted(-1) && !(exists sent: nat :: WriteRaises(sent) in evs);
    if ev.WriteRaises? {
      assert ev in evs + [ev];
    }
  }

  lemma WriterUntouched(cfg: Config, s: State, ev: Event)
    requires cfg.WellFormed() && Shaped(cfg, s) && Enabled(cfg, s, ev)
    requires !(ev.BeginWrite? || ev.EndWrite? || ev.WriteRaises? || ev.SeeFailure?)
    ensures var t := Apply(cfg, s, ev); Shaped(cfg, t) && t.next == s.next && t.writer == s.writer && t.output == s.output
  {
  }

  lemma SameWriterTraced(cfg: Config, evs: seq<Event>, s: State, ev: Event, t: State)
    requires cfg.WellFormed() && Shaped(cfg, s) && Shaped(cfg, t) && WriterTraced(cfg, evs, s)
    requires !(ev.BeginWrite? || ev.EndWrite? || ev.WriteRaises? || ev.SeeFailure?)
    requires t.next == s.next && t.writer == s.writer && t.output == s.output
    ensures WriterTraced(cfg, evs + [ev], t)
  {
    CountSnoc(evs, ev, EndWrite);
    forall sent: nat
      ensures WriteRaises(sent) in evs + [ev] <==> WriteRaises(sent) in evs
    {
    }
  }

  lemma TracedStep(cfg: Config, evs: seq<Event>, s: State, ev: Event)
    requires cfg.WellFormed() && Traced(cfg, evs, s) && Enabled(cfg, s, ev)
    ensures Traced(cfg, evs + [ev], Apply(cfg, s, ev))
  {
    InvStep(cfg, s, ev);
    RaceStep(cfg, evs, s, ev);
    WriterStep(cfg, evs, s, ev);
    forall i: nat | cfg.FirstFetch() <= i < cfg.N()
      ensures ChunkTraced(cfg, evs + [ev], Apply(cfg, s, ev), i)
    {
      ChunkStep(cfg, evs, s, ev, i);
    }
  }

  lemma {:induction false} TracedRuns(cfg: Config, past: seq<Event>, s: State, evs: seq<Event>, t: State)
    requires cfg.WellFormed() && Traced(cfg, past, s) && Runs(cfg, s, evs, t)
    ensures Traced(cfg, past + evs, t)
    decreases |evs|
  {
    if evs == [] {
      assert past + evs == past;
    } else {
      assert past + evs == (past + [evs[0]]) + evs[1..];
      TracedStep(cfg, past, s, evs[0]);
      TracedRuns(cfg, past + [evs[0]], Apply(cfg, s, evs[0]), evs[1..], t);
    }
  }

  lemma RunIsTraced(cfg: Config, evs: seq<Event>, s: State)
    requires cfg.WellFormed() && Runs(cfg, Init(cfg), evs, s)
    ensures Traced(cfg, evs, s)
  {
    InvInit(cfg);
    assert Traced(cfg, [], Init(cfg));
    TracedRuns(cfg, [], Init(cfg), evs, s);
    assert [] + evs == evs;
  }

  // ------------------------------------------------------------------ the space event

  /** `_buf_has_space` is clear exactly while some task is parked on it. */
  ghost predicate SignalOk(s: State) {
    s.hasSpace <==> forall i :: 0 <= i < |s.phase| ==> !s.phase[i].Parked?
  }

  lemma SignalStep(cfg: Config, s: State, ev: Event)
    requires cfg.WellFormed() && Shaped(cfg, s) && Enabled(cfg, s, ev) && SignalOk(s)
    ensures SignalOk(Apply(cfg, s, ev))
  {
    var t := Apply(cfg, s, ev);
    if ev.FetchReturns? || ev.Reserve? {
      AskingSignals(cfg, s, ev.i, if ev.Reserve? then s.phase[ev.i].data else cfg.Chunk(ev.i));
    } else if !ev.EndWrite? {
      assert forall i :: 0 <= i < |s.phase| ==> t.phase[i].Parked? == s.phase[i].Parked?;
    }
  }

  lemma AskingSignals(cfg: Config, s: State, i: nat, data: Bytes)
    requires Shaped(cfg, s) && i < cfg.N() && SignalOk(s) && !s.phase[i].Parked?
    ensures SignalOk(AskForSpace(cfg, s, i, data))
  {
    var t := AskForSpace(cfg, s, i, data);
    assert forall k :: 0 <= k < |s.phase| && k != i ==> t.phase[k] == s.phase[k];
    if t.phase[i].Done? {
      assert forall k :: 0 <= k < |s.phase| ==> t.phase[k].Parked? == s.phase[k].Parked?;
    } else {
      assert t.phase[i].Parked?;
    }
  }

  lemma {:induction false} SignalRuns(cfg: Config, s: State, evs: seq<Event>, t: State)
    requires cfg.WellFormed() && SignalOk(s) && Runs(cfg, s, evs, t)
    ensures SignalOk(t)
    decreases |evs|
  {
    if evs != [] {
      SignalStep(cfg, s, evs[0]);
      SignalRuns(cfg, Apply(cfg, s, evs[0]), evs[1..], t);
    }
  }

  lemma SpaceEventExactly(cfg: Config, evs: seq<Event>, s: State)
    requires cfg.WellFormed() && Runs(cfg, Init(cfg), evs, s)
    ensures s.hasSpace <==> forall i :: 0 <= i < |s.phase| ==> !s.phase[i].Parked?
  {
    SignalRuns(cfg, Init(cfg), evs, s);
  }

  // ------------------------------------------------------------------ the results

  /** While the loop goes on, a fetch under way may return or raise, a racer may win or fail, and a
      write may end or break off anywhere. */
  lemma AnythingMayHappen(cfg: Config, s: State, i: nat, sent: nat)
    requires cfg.WellFormed() && Reachable(cfg, s) && Shaped(cfg, s) && i < cfg.N() && !s.Final()
    ensures s.phase[i].Fetching? ==> Enabled(cfg, s, FetchReturns(i)) && Enabled(cfg, s, FetchRaises(i))
    ensures s.phase[i].Racing? ==> i == 0 && Enabled(cfg, s, RaceWon) && Enabled(cfg, s, RacerFails)
    ensures s.writer.Writing? ==> Enabled(cfg, s, EndWrite) && (Enabled(cfg, s, WriteRaises(sent)) <==> sent <= |s.writer.data|)
  {
    ReachableKeeps(cfg, s);
    assert TaskOk(cfg, s, i);
  }

  /** Which chunks fail: the raced chunk 0 if and only if both its racers failed, any other chunk if
      and only if its fetch did. The first racer to answer delivers chunk 0. */
  lemma FailuresExactly(cfg: Config, evs: seq<Event>, s: State, i: nat)
    requires cfg.WellFormed() && Runs(cfg, Init(cfg), evs, s) && i < cfg.N()
    ensures cfg.race && i == 0 ==>
              && (i in s.results && s.results[i].Failed? <==> Count(evs, RacerFails) == 2)
              && (i in s.results && s.results[i] == Data(cfg.Chunk(i)) <==> RaceWon in evs)
    ensures !(cfg.race && i == 0) ==>
              && (i in s.results && s.results[i].Failed? <==> FetchRaises(i) in evs)
              && (i in s.results && s.results[i].Data? ==> FetchReturns(i) in evs && s.results[i] == Data(cfg.Chunk(i)))
  {
    RunIsTraced(cfg, evs, s);
    assert TaskOk(cfg, s, i);
    if cfg.FirstFetch() <= i {
      assert ChunkTraced(cfg, evs, s, i);
    }
  }

  /** One failed racer does not decide the race: until the loop ends, the other one can still win. */
  lemma OneRacerIsEnough(cfg: Config, evs: seq<Event>, s: State)
    requires cfg.WellFormed() && Runs(cfg, Init(cfg), evs, s) && cfg.race
    requires Count(evs, RacerFails) < 2 && RaceWon !in evs
    ensures Shaped(cfg, s) && 0 !in s.results && (!s.Final() ==> Enabled(cfg, s, RaceWon))
  {
    RunIsTraced(cfg, evs, s);
  }

  /** How a run ends. Each finished write has released the next chunk in order. The loop breaks off
      at a chunk only if that chunk failed and all before it were sent, and then the client has
      exactly those; a broken write leaves exactly the bytes that went out. */
  lemma EndingsExactly(cfg: Config, evs: seq<Event>, s: State)
    requires cfg.WellFormed() && Runs(cfg, Init(cfg), evs, s)
    ensures s.next == Count(evs, EndWrite) <= cfg.N()
    ensures (exists at: nat :: s.writer == Aborted(at)) <==> SeeFailure in evs
    ensures SeeFailure in evs ==>
              s.writer == Aborted(s.next) && s.next in s.results && s.results[s.next].Failed?
              && s.output == Joined(cfg.resource, cfg.ranges, s.next)
    ensures s.writer == Aborted(-1) <==> exists sent: nat :: WriteRaises(sent) in evs
    ensures forall sent: nat :: WriteRaises(sent) in evs ==>
              s.next < cfg.N() && sent <= cfg.Size(s.next)
              && s.output == Joined(cfg.resource, cfg.ranges, s.next) + cfg.Chunk(s.next)[..sent]
    ensures s.writer.Finished? <==> Count(evs, EndWrite) == cfg.N()
  {
    RunIsTraced(cfg, evs, s);
  }
}
