/** What every reachable state of the streaming pipeline keeps. */
module PipelineSafety {
  import opened Sums
  import opened Ranges
  import opened Pipeline

  // ------------------------------------------------------------------ the basic invariant

  ghost predicate TaskOk(cfg: Config, s: State, i: nat)
    requires cfg.WellFormed() && Shaped(cfg, s) && i < cfg.N()
  {
    && (s.phase[i].Racing? ==> s.phase[i].pending > 0)
    && (cfg.race && i == 0 <==> s.phase[i].Racing? || (s.phase[i].Done? && cfg.race && i == 0))
    && (s.phase[i].Done? <==> s.ready[i])
    && (s.phase[i].Done? <==> i in s.results)
    && (s.phase[i].WantsSpace? || s.phase[i].Parked? ==> s.phase[i].data == cfg.Chunk(i))
    && (i in s.results && s.results[i].Data? ==> s.results[i] == Data(cfg.Chunk(i)))
    && (i < s.next ==> i in s.results && s.results[i].Data?)
    && (s.gate[i] <==> i < cfg.prefetchAhead || 1 <= i <= s.next)
    && (s.phase[i].AtGate? || (cfg.race && i == 0) || s.gate[cfg.GateIndex(i)])
    && (s.phase[i].Parked? ==> !s.hasSpace && s.bufBytes + |s.phase[i].data| > cfg.maxBufferBytes)
  }

  ghost predicate WriterOk(cfg: Config, s: State)
    requires cfg.WellFormed() && Shaped(cfg, s)
  {
    && s.next <= cfg.N()
    && (s.writer.Finished? <==> s.next == cfg.N())
    && (s.writer.Writing? ==> s.next in s.results && s.results[s.next] == Data(s.writer.data))
    && (s.writer.Aborted? ==> s.writer.failedAt >= -1)
    && (s.writer.Aborted? && s.writer.failedAt >= 0 ==>
          s.writer.failedAt == s.next && s.next in s.results && s.results[s.next].Failed?)
    && (!s.writer.Aborted? ==> s.output == Joined(cfg.resource, cfg.ranges, s.next))
    && (s.writer.Aborted? ==> Joined(cfg.resource, cfg.ranges, s.next) <= s.output
                              && s.output <= Joined(cfg.resource, cfg.ranges, s.next) + cfg.Chunk(s.next))
  }

  ghost predicate Inv(cfg: Config, s: State)
    requires cfg.WellFormed()
  {
    && Shaped(cfg, s)
    && s.bufBytes <= cfg.maxBufferBytes
    && (forall i :: i in s.results ==> i < cfg.N())
    && (forall i: nat :: i < cfg.N() ==> TaskOk(cfg, s, i))
    && WriterOk(cfg, s)
  }

  lemma InvInit(cfg: Config)
    requires cfg.WellFormed()
    ensures Inv(cfg, Init(cfg))
  {
  }

  /** A task moving towards its data leaves the conditions on task i intact. */
  lemma TaskStepMoves(cfg: Config, s: State, ev: Event, i: nat)
    requires cfg.WellFormed() && Shaped(cfg, s) && Enabled(cfg, s, ev) && i < cfg.N()
    requires ev.TakeGate? || ev.TakeSlot?
    requires TaskOk(cfg, s, i)
    ensures Shaped(cfg, Apply(cfg, s, ev)) && TaskOk(cfg, Apply(cfg, s, ev), i)
  {
  }

  /** So does a task that stores its outcome. */
  lemma TaskStepStores(cfg: Config, s: State, ev: Event, i: nat)
    requires cfg.WellFormed() && Shaped(cfg, s) && Enabled(cfg, s, ev) && i < cfg.N()
    requires ev.FetchRaises? || ev.RaceWon? || ev.RacerFails?
    requires TaskOk(cfg, s, i)
    ensures Shaped(cfg, Apply(cfg, s, ev)) && TaskOk(cfg, Apply(cfg, s, ev), i)
  {
    if i != if ev.FetchRaises? then ev.i else 0 {
      OtherTaskStays(cfg, s, Apply(cfg, s, ev), i);
    }
  }

  /** So does a task that asks for buffer space. */
  lemma TaskStepAsks(cfg: Config, s: State, j: nat, i: nat)
    requires cfg.WellFormed() && Shaped(cfg, s) && j < cfg.N() && i < cfg.N()
    requires (s.phase[j].Fetching? || s.phase[j].WantsSpace?) && TaskOk(cfg, s, i) && TaskOk(cfg, s, j)
    ensures var t := AskForSpace(cfg, s, j, cfg.Chunk(j)); Shaped(cfg, t) && TaskOk(cfg, t, i)
  {
    var t := AskForSpace(cfg, s, j, cfg.Chunk(j));
    if i != j {
      OtherTaskStays(cfg, s, t, i);
    }
  }

  /** A step that changes neither a task's own phase, gate, ready event and result nor the write
      index leaves its conditions alone, as long as it does not make room for a parked one. */
  lemma OtherTaskStays(cfg: Config, s: State, t: State, i: nat)
    requires cfg.WellFormed() && Shaped(cfg, s) && Shaped(cfg, t) && i < cfg.N() && TaskOk(cfg, s, i)
    requires t.phase[i] == s.phase[i] && t.ready[i] == s.ready[i] && t.gate == s.gate && t.next == s.next
    requires i in s.results <==> i in t.results
    requires i in s.results ==> s.results[i] == t.results[i]
    requires t.bufBytes >= s.bufBytes && (t.hasSpace ==> s.hasSpace)
    ensures TaskOk(cfg, t, i)
  {
  }

  /** So does a step of the write loop. */
  lemma TaskStepByWriter(cfg: Config, s: State, ev: Event, i: nat)
    requires cfg.WellFormed() && Shaped(cfg, s) && Enabled(cfg, s, ev) && i < cfg.N()
    requires ev.BeginWrite? || ev.EndWrite? || ev.WriteRaises? || ev.SeeFailure?
    requires TaskOk(cfg, s, i) && WriterOk(cfg, s)
    ensures Shaped(cfg, Apply(cfg, s, ev)) && TaskOk(cfg, Apply(cfg, s, ev), i)
  {
  }

  lemma InvTasks(cfg: Config, s: State, ev: Event)
    requires cfg.WellFormed() && Inv(cfg, s) && Enabled(cfg, s, ev)
    ensures Shaped(cfg, Apply(cfg, s, ev))
    ensures forall i: nat :: i < cfg.N() ==> TaskOk(cfg, Apply(cfg, s, ev), i)
  {
    forall i: nat | i < cfg.N()
      ensures Shaped(cfg, Apply(cfg, s, ev)) && TaskOk(cfg, Apply(cfg, s, ev), i)
    {
      if ev.BeginWrite? || ev.EndWrite? || ev.WriteRaises? || ev.SeeFailure? {
        TaskStepByWriter(cfg, s, ev, i);
      } else if ev.Reserve? || ev.FetchReturns? {
        assert TaskOk(cfg, s, ev.i);
        TaskStepAsks(cfg, s, ev.i, i);
      } else if ev.TakeGate? || ev.TakeSlot? {
        TaskStepMoves(cfg, s, ev, i);
      } else {
        TaskStepStores(cfg, s, ev, i);
      }
    }
  }

  lemma WriterStepByTask(cfg: Config, s: State, ev: Event)
    requires cfg.WellFormed() && Shaped(cfg, s) && WriterOk(cfg, s) && Enabled(cfg, s, ev)
    requires s.next < cfg.N() ==> TaskOk(cfg, s, s.next)
    requires !(ev.BeginWrite? || ev.EndWrite? || ev.WriteRaises? || ev.SeeFailure?)
    ensures Shaped(cfg, Apply(cfg, s, ev)) && WriterOk(cfg, Apply(cfg, s, ev))
  {
    if ev.FetchReturns? {
      AskingKeepsResults(cfg, s, ev.i, cfg.Chunk(ev.i));
    } else if ev.Reserve? {
      AskingKeepsResults(cfg, s, ev.i, s.phase[ev.i].data);
    }
    WriterUnmoved(cfg, s, Apply(cfg, s, ev));
  }

  lemma AskingKeepsResults(cfg: Config, s: State, i: nat, data: Bytes)
    requires Shaped(cfg, s) && i < cfg.N()
    ensures var t := AskForSpace(cfg, s, i, data);
            && Shaped(cfg, t) && t.next == s.next && t.writer == s.writer && t.output == s.output
            && (s.next != i && s.next in s.results ==> s.next in t.results && t.results[s.next] == s.results[s.next])
  {
  }

  /** The write loop does not notice a step that leaves its own variables and result alone. */
  lemma WriterUnmoved(cfg: Config, s: State, t: State)
    requires cfg.WellFormed() && Shaped(cfg, s) && Shaped(cfg, t) && WriterOk(cfg, s)
    requires t.next == s.next && t.writer == s.writer && t.output == s.output
    requires s.next in s.results ==> s.next in t.results && t.results[s.next] == s.results[s.next]
    ensures WriterOk(cfg, t)
  {
  }

  lemma WriterStepByWriter(cfg: Config, s: State, ev: Event)
    requires cfg.WellFormed() && Shaped(cfg, s) && WriterOk(cfg, s) && Enabled(cfg, s, ev)
    requires s.next < cfg.N() ==> TaskOk(cfg, s, s.next)
    requires ev.BeginWrite? || ev.EndWrite? || ev.WriteRaises? || ev.SeeFailure?
    ensures Shaped(cfg, Apply(cfg, s, ev)) && WriterOk(cfg, Apply(cfg, s, ev))
  {
    if ev.WriteRaises? {
      assert s.writer.data[..ev.sent] <= cfg.Chunk(s.next);
    }
  }

  lemma ResultsInRange(cfg: Config, s: State, ev: Event)
    requires cfg.WellFormed() && Shaped(cfg, s) && Enabled(cfg, s, ev) && s.bufBytes <= cfg.maxBufferBytes
    requires forall i :: i in s.results ==> i < cfg.N()
    ensures Apply(cfg, s, ev).bufBytes <= cfg.maxBufferBytes
    ensures forall i :: i in Apply(cfg, s, ev).results ==> i < cfg.N()
  {
  }

  lemma InvStep(cfg: Config, s: State, ev: Event)
    requires cfg.WellFormed() && Inv(cfg, s) && Enabled(cfg, s, ev)
    ensures Inv(cfg, Apply(cfg, s, ev))
  {
    InvTasks(cfg, s, ev);
    ResultsInRange(cfg, s, ev);
    if s.next < cfg.N() {
      assert TaskOk(cfg, s, s.next);
    }
    if ev.BeginWrite? || ev.EndWrite? || ev.WriteRaises? || ev.SeeFailure? {
      WriterStepByWriter(cfg, s, ev);
    } else {
      WriterStepByTask(cfg, s, ev);
    }
  }

  lemma {:induction false} InvRuns(cfg: Config, s: State, evs: seq<Event>, t: State)
    requires cfg.WellFormed() && Inv(cfg, s) && Runs(cfg, s, evs, t)
    ensures Inv(cfg, t)
    decreases |evs|
  {
    if evs != [] {
      InvStep(cfg, s, evs[0]);
      InvRuns(cfg, Apply(cfg, s, evs[0]), evs[1..], t);
    }
  }

  // ------------------------------------------------------------------ buffer and slot accounting

  /** The stored bytes the write loop has not sent and released yet, chunk by chunk. */
  function UnwrittenSizes(s: State): seq<nat> {
    seq(|s.phase|, i => if s.next <= i && i in s.results && s.results[i].Data? then |s.results[i].bytes| else 0)
  }

  function Unwritten(s: State): nat { Sum(UnwrittenSizes(s)) }

  function SlotMarks(phase: seq<Phase>): seq<nat> {
    seq(|phase|, i requires 0 <= i < |phase| => if phase[i].HoldsSlot() then 1 else 0)
  }

  function SlotsHeld(s: State): nat { Sum(SlotMarks(s.phase)) }

  /** What the byte counter may miss: the raced chunk 0 is stored without being counted. */
  function Slack(cfg: Config): nat { if cfg.race && cfg.N() > 0 then cfg.Size(0) else 0 }

  ghost predicate Accounts(cfg: Config, s: State) {
    && Shaped(cfg, s)
    && s.bufBytes <= Unwritten(s) <= s.bufBytes + Slack(cfg)
    && (cfg.race && s.next == 0 ==>
          Unwritten(s) == s.bufBytes + if 0 in s.results && s.results[0].Data? then |s.results[0].bytes| else 0)
    && s.slots + SlotsHeld(s) == cfg.maxWorkers
  }

  lemma AccountsInit(cfg: Config)
    requires cfg.WellFormed()
    ensures Accounts(cfg, Init(cfg))
  {
    SumZero(UnwrittenSizes(Init(cfg)));
    SumZero(SlotMarks(Init(cfg).phase));
  }

  lemma SlotStepAsks(cfg: Config, s: State, i: nat, data: Bytes)
    requires Shaped(cfg, s) && i < cfg.N() && s.phase[i].HoldsSlot()
    ensures var t := AskForSpace(cfg, s, i, data); t.slots + SlotsHeld(t) == s.slots + SlotsHeld(s)
  {
    var t := AskForSpace(cfg, s, i, data);
    var marks := SlotMarks(s.phase);
    SumUpdate(marks, i, if t.phase[i].HoldsSlot() then 1 else 0);
    assert SlotMarks(t.phase) == marks[i := if t.phase[i].HoldsSlot() then 1 else 0];
  }

  lemma SlotStep(cfg: Config, s: State, ev: Event)
    requires cfg.WellFormed() && Shaped(cfg, s) && Enabled(cfg, s, ev)
    ensures var t := Apply(cfg, s, ev); t.slots + SlotsHeld(t) == s.slots + SlotsHeld(s)
  {
    var t := Apply(cfg, s, ev);
    var marks := SlotMarks(s.phase);
    match ev
    case TakeGate(i) => assert SlotMarks(t.phase) == marks;
    case TakeSlot(i) => SumUpdate(marks, i, 1); assert SlotMarks(t.phase) == marks[i := 1];
    case FetchRaises(i) => SumUpdate(marks, i, 0); assert SlotMarks(t.phase) == marks[i := 0];
    case FetchReturns(i) => SlotStepAsks(cfg, s, i, cfg.Chunk(i));
    case Reserve(i) => SlotStepAsks(cfg, s, i, s.phase[i].data);
    case RaceWon => assert SlotMarks(t.phase) == marks;
    case RacerFails => assert SlotMarks(t.phase) == marks;
    case BeginWrite =>
    case SeeFailure =>
    case EndWrite => assert SlotMarks(t.phase) == marks;
    case WriteRaises(_) =>
  }

  lemma BufferStepByTask(cfg: Config, s: State, ev: Event)
    requires cfg.WellFormed() && Inv(cfg, s) && Enabled(cfg, s, ev) && Accounts(cfg, s)
    requires !ev.EndWrite? && !ev.RaceWon?
    ensures var t := Apply(cfg, s, ev);
            && t.next == s.next
            && Unwritten(t) - t.bufBytes == Unwritten(s) - s.bufBytes
            && (cfg.race && 0 in t.results && t.results[0].Data? ==> 0 in s.results && s.results[0] == t.results[0])
            && (cfg.race && 0 in s.results && s.results[0].Data? ==> 0 in t.results && s.results[0] == t.results[0])
  {
    if ev.Reserve? || ev.FetchReturns? {
      assert TaskOk(cfg, s, ev.i);
      BufferStepAsks(cfg, s, ev.i);
    } else {
      if ev.FetchRaises? { assert TaskOk(cfg, s, ev.i); }
      if ev.RacerFails? { assert TaskOk(cfg, s, 0); }
      assert UnwrittenSizes(Apply(cfg, s, ev)) == UnwrittenSizes(s);
    }
  }

  /** A chunk that is stored is counted; one that is not leaves counter and results alone. */
  lemma BufferStepAsks(cfg: Config, s: State, i: nat)
    requires cfg.WellFormed() && Shaped(cfg, s) && i < cfg.N() && TaskOk(cfg, s, i)
    requires s.phase[i].Fetching? || s.phase[i].WantsSpace?
    ensures var t := AskForSpace(cfg, s, i, cfg.Chunk(i));
            && t.next == s.next && Unwritten(t) - t.bufBytes == Unwritten(s) - s.bufBytes
            && (cfg.race ==> i > 0 && (0 in t.results <==> 0 in s.results))
            && (cfg.race && 0 in s.results ==> s.results[0] == t.results[0])
  {
    var t := AskForSpace(cfg, s, i, cfg.Chunk(i));
    if t.phase[i].Done? {
      SumUpdate(UnwrittenSizes(s), i, cfg.Size(i));
      assert UnwrittenSizes(t) == UnwrittenSizes(s)[i := cfg.Size(i)];
    } else {
      assert UnwrittenSizes(t) == UnwrittenSizes(s);
    }
  }

  lemma BufferStepRaceWon(cfg: Config, s: State)
    requires cfg.WellFormed() && Inv(cfg, s) && Enabled(cfg, s, RaceWon) && Accounts(cfg, s)
    ensures var t := Apply(cfg, s, RaceWon);
            Unwritten(s) == s.bufBytes && Unwritten(t) == t.bufBytes + cfg.Size(0)
            && t.results[0] == Data(cfg.Chunk(0))
  {
    var t := Apply(cfg, s, RaceWon);
    assert TaskOk(cfg, s, 0);
    SumUpdate(UnwrittenSizes(s), 0, cfg.Size(0));
    assert UnwrittenSizes(t) == UnwrittenSizes(s)[0 := cfg.Size(0)];
  }

  lemma BufferStepEndWrite(cfg: Config, s: State)
    requires cfg.WellFormed() && Inv(cfg, s) && Enabled(cfg, s, EndWrite) && Accounts(cfg, s)
    ensures var t := Apply(cfg, s, EndWrite);
            t.next > 0 && t.bufBytes <= Unwritten(t) <= t.bufBytes + Slack(cfg)
  {
    var t := Apply(cfg, s, EndWrite);
    var k := s.next;
    assert TaskOk(cfg, s, k);
    SumUpdate(UnwrittenSizes(s), k, 0);
    SumContains(UnwrittenSizes(s), k);
    assert UnwrittenSizes(t) == UnwrittenSizes(s)[k := 0];
    assert Unwritten(t) == Unwritten(s) - |s.writer.data|;
  }

  lemma AccountsStep(cfg: Config, s: State, ev: Event)
    requires cfg.WellFormed() && Inv(cfg, s) && Enabled(cfg, s, ev) && Accounts(cfg, s)
    ensures Accounts(cfg, Apply(cfg, s, ev))
  {
    InvStep(cfg, s, ev);
    SlotStep(cfg, s, ev);
    if ev.EndWrite? {
      BufferStepEndWrite(cfg, s);
    } else if ev.RaceWon? {
      BufferStepRaceWon(cfg, s);
    } else {
      BufferStepByTask(cfg, s, ev);
    }
  }

  lemma {:induction false} AccountsRuns(cfg: Config, s: State, evs: seq<Event>, t: State)
    requires cfg.WellFormed() && Inv(cfg, s) && Accounts(cfg, s) && Runs(cfg, s, evs, t)
    ensures Inv(cfg, t) && Accounts(cfg, t)
    decreases |evs|
  {
    if evs != [] {
      InvStep(cfg, s, evs[0]);
      AccountsStep(cfg, s, evs[0]);
      AccountsRuns(cfg, Apply(cfg, s, evs[0]), evs[1..], t);
    }
  }

  lemma ReachableKeeps(cfg: Config, s: State)
    requires cfg.WellFormed() && Reachable(cfg, s)
    ensures Inv(cfg, s) && Accounts(cfg, s)
  {
    InvInit(cfg);
    AccountsInit(cfg);
    var evs :| Runs(cfg, Init(cfg), evs, s);
    AccountsRuns(cfg, Init(cfg), evs, s);
  }

  // ------------------------------------------------------------------ the results

  /** In every interleaving the client has received a prefix of the requested window, namely the
      chunks released so far in order (plus a part of the next one when its write broke off). */
  lemma OutputIsPrefix(cfg: Config, s: State)
    requires cfg.WellFormed() && Reachable(cfg, s)
    ensures s.next <= cfg.N()
    ensures !s.writer.Aborted? ==> s.output == Joined(cfg.resource, cfg.ranges, s.next)
    ensures s.output <= cfg.resource[cfg.lo..cfg.hi + 1]
  {
    ReachableKeeps(cfg, s);
    var k := if s.writer.Aborted? then s.next + 1 else s.next;
    assert s.output <= Joined(cfg.resource, cfg.ranges, k);
    JoinedInWindow(cfg, k);
  }

  lemma JoinedInWindow(cfg: Config, k: nat)
    requires cfg.WellFormed() && k <= cfg.N()
    ensures Joined(cfg.resource, cfg.ranges, k) <= cfg.resource[cfg.lo..cfg.hi + 1]
  {
    JoinedIsPrefix(cfg.resource, cfg.ranges, cfg.lo, cfg.hi, k);
    SlicesMeet(cfg.resource, cfg.lo, CutPoint(cfg.ranges, cfg.lo, k), cfg.hi + 1);
  }

  /** A run that ends without a failure has sent exactly what gather mode assembles from the
      same fetches, which is the whole window. */
  lemma FinishedRunEqualsGather(cfg: Config, s: State, gathered: seq<Outcome>)
    requires cfg.WellFormed() && Reachable(cfg, s) && s.writer.Finished?
    requires AllFetched(cfg.resource, cfg.ranges, gathered)
    ensures s.output == Concat(gathered) == cfg.resource[cfg.lo..cfg.hi + 1]
    ensures forall i :: 0 <= i < cfg.N() ==> i in s.results && s.results[i] == gathered[i]
  {
    FinishedOutput(cfg, s);
    GatheredBytesAreTheWindow(cfg.resource, cfg.ranges, cfg.lo, cfg.hi, gathered);
    forall i: nat | i < cfg.N()
      ensures i in s.results && s.results[i] == gathered[i]
    {
      FinishedResult(cfg, s, i);
    }
  }

  lemma FinishedOutput(cfg: Config, s: State)
    requires cfg.WellFormed() && Reachable(cfg, s) && s.writer.Finished?
    ensures s.output == cfg.resource[cfg.lo..cfg.hi + 1]
  {
    ReachableKeeps(cfg, s);
    JoinedIsPrefix(cfg.resource, cfg.ranges, cfg.lo, cfg.hi, cfg.N());
  }

  lemma FinishedResult(cfg: Config, s: State, i: nat)
    requires cfg.WellFormed() && Reachable(cfg, s) && s.writer.Finished? && i < cfg.N()
    ensures i in s.results && s.results[i] == Data(cfg.Chunk(i))
  {
    ReachableKeeps(cfg, s);
    assert TaskOk(cfg, s, i);
  }

  /** The buffer cap. Without the race the counter is exactly the stored unwritten bytes, so
      these never exceed the cap; with it they exceed the counter by at most chunk 0. */
  lemma BufferIsBounded(cfg: Config, s: State)
    requires cfg.WellFormed() && Reachable(cfg, s)
    ensures s.bufBytes <= cfg.maxBufferBytes
    ensures !cfg.race ==> Unwritten(s) == s.bufBytes
    ensures cfg.race ==> s.bufBytes <= Unwritten(s) <= s.bufBytes + cfg.Size(0)
    ensures Unwritten(s) <= cfg.maxBufferBytes + Slack(cfg)
  {
    ReachableKeeps(cfg, s);
  }

  /** At most `maxWorkers` fetches are under way, and a task past its gate is near the write loop:
      the sliding prefetch window. */
  lemma PrefetchWindow(cfg: Config, s: State, i: nat)
    requires cfg.WellFormed() && Reachable(cfg, s) && cfg.FirstFetch() <= i < cfg.N()
    ensures Shaped(cfg, s) && SlotsHeld(s) <= cfg.maxWorkers
    ensures !s.phase[i].AtGate? ==> i <= cfg.Bound(s.next)
  {
    ReachableKeeps(cfg, s);
    assert TaskOk(cfg, s, i);
    assert TaskOk(cfg, s, cfg.GateIndex(i));
  }
}
