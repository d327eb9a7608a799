/** The step-by-step code of `_ProgressiveStream.send`: each method is the stretch a task or the
    write loop executes between two awaits, on the variables the tasks share. `Send` runs them
    under any scheduler until nothing moves. */
module ProgressiveStreaming {
  import opened Wrappers
  import opened Ranges
  import opened Pipeline
  import opened PipelineSafety
  import opened PipelineProgress
  import opened PipelineDeadlock

  class ProgressiveStream {
    const cfg: Config
    var phase: seq<Phase>
    var prefetchGate: seq<bool>
    var ready: seq<bool>
    var fetchSem: nat
    var bufBytes: nat
    var bufHasSpace: bool
    var results: map<nat, Outcome>
    var next: nat
    var writer: Writer
    var output: Bytes

    function View(): State
      reads this
    {
      State(phase, prefetchGate, ready, fetchSem, bufBytes, bufHasSpace, results, next, writer, output)
    }

    /** The shared variables are in a state some interleaving leads to, so all invariants hold. */
    ghost predicate Valid()
      reads this
    {
      cfg.WellFormed() && Inv(cfg, View()) && Accounts(cfg, View()) && Reachable(cfg, View())
    }

    ghost predicate Can(ev: Event)
      reads this
    {
      Valid() && Enabled(cfg, View(), ev)
    }

    constructor (cfg: Config)
      requires cfg.WellFormed()
      ensures Valid() && this.cfg == cfg && View() == Init(cfg)
    {
      InitIsReachable(cfg);
      this.cfg := cfg;
      var race, ahead := cfg.race, cfg.prefetchAhead;
      phase := seq(|cfg.ranges|, i => if race && i == 0 then Racing(2) else AtGate);
      prefetchGate := seq(|cfg.ranges|, i => i < ahead);
      ready := seq(|cfg.ranges|, i => false);
      fetchSem, bufBytes, bufHasSpace := cfg.maxWorkers, 0, true;
      results, next, writer, output := map[], 0, Awaiting, [];
    }

    /** `await prefetch_gate[gate_idx].wait()` returns. */
    method PassGate(i: nat)
      requires Can(TakeGate(i))
      modifies this`phase
      ensures Valid() && View() == Apply(cfg, old(View()), TakeGate(i))
    {
      StepKeeps(cfg, View(), TakeGate(i));
      phase := phase[i := AtSemaphore];
    }

    /** `async with fetch_sem` is entered. */
    method EnterSemaphore(i: nat)
      requires Can(TakeSlot(i))
      modifies this`phase, this`fetchSem
      ensures Valid() && View() == Apply(cfg, old(View()), TakeSlot(i))
    {
      StepKeeps(cfg, View(), TakeSlot(i));
      fetchSem := fetchSem - 1;
      phase := phase[i := Fetching];
    }

    /** `_do_fetch` returns the bytes of the range, and the task asks for buffer space at once. */
    method FetchDone(i: nat, data: Bytes) returns (stored: bool)
      requires Can(FetchReturns(i)) && data == cfg.Chunk(i)
      modifies this
      ensures Valid() && View() == Apply(cfg, old(View()), FetchReturns(i))
      ensures stored <==> old(bufBytes) + |data| <= cfg.maxBufferBytes
    {
      StepKeeps(cfg, View(), FetchReturns(i));
      stored := Ask(i, data);
    }

    /** A task woken by `_buf_has_space` goes through the quota loop again. */
    method TryReserve(i: nat) returns (stored: bool)
      requires Can(Reserve(i))
      modifies this
      ensures Valid() && View() == Apply(cfg, old(View()), Reserve(i))
      ensures stored <==> old(bufBytes) + |old(phase[i]).data| <= cfg.maxBufferBytes
    {
      StepKeeps(cfg, View(), Reserve(i));
      stored := Ask(i, phase[i].data);
    }

    /** One round of the quota loop: store the chunk if it fits, else wait for space. */
    method Ask(i: nat, data: Bytes) returns (stored: bool)
      requires i < |phase| == |ready| && phase[i].HoldsSlot()
      modifies this
      ensures View() == AskForSpace(cfg, old(View()), i, data)
      ensures stored <==> old(bufBytes) + |data| <= cfg.maxBufferBytes
    {
      if bufBytes + |data| <= cfg.maxBufferBytes {
        bufBytes := bufBytes + |data|;
        StoreResult(i, Data(data));
        stored := true;
      } else {
        bufHasSpace := false;
        phase := phase[i := Parked(data)];
        stored := false;
      }
    }

    /** `results[i] = ...; ready[i].set()`, and out of the semaphore if the task is in it. */
    method StoreResult(i: nat, outcome: Outcome)
      requires i < |phase| == |ready|
      modifies this`results, this`ready, this`fetchSem, this`phase
      ensures View() == Store(old(View()), i, outcome)
    {
      results := results[i := outcome];
      ready := ready[i := true];
      if phase[i].HoldsSlot() {
        fetchSem := fetchSem + 1;
      }
      phase := phase[i := Done];
    }

    /** The except and finally branches of `_fetch_task`. */
    method FetchFailed(i: nat)
      requires Can(FetchRaises(i))
      modifies this
      ensures Valid() && View() == Apply(cfg, old(View()), FetchRaises(i))
    {
      StepKeeps(cfg, View(), FetchRaises(i));
      StoreResult(i, Failed);
    }

    /** A racer of chunk 0 answers first. */
    method RaceDone(data: Bytes)
      requires Can(RaceWon) && data == cfg.Chunk(0)
      modifies this
      ensures Valid() && View() == Apply(cfg, old(View()), RaceWon)
    {
      StepKeeps(cfg, View(), RaceWon);
      StoreResult(0, Data(data));
    }

    /** A racer of chunk 0 fails; the race is lost when both have. */
    method RacerFailed()
      requires Can(RacerFails)
      modifies this
      ensures Valid() && View() == Apply(cfg, old(View()), RacerFails)
    {
      StepKeeps(cfg, View(), RacerFails);
      if phase[0].pending > 1 {
        phase := phase[0 := Racing(phase[0].pending - 1)];
      } else {
        StoreResult(0, Failed);
      }
    }

    /** `await ready[i].wait()` returns: write the chunk, or leave the loop at a failed one. */
    method TakeResult()
      requires Can(BeginWrite) || Can(SeeFailure)
      modifies this`writer
      ensures Valid() && View() == Apply(cfg, old(View()), if old(results[next]).Data? then BeginWrite else SeeFailure)
    {
      StepKeeps(cfg, View(), if results[next].Data? then BeginWrite else SeeFailure);
      match results[next]
      case Data(data) => writer := Writing(data);
      case Failed => writer := Aborted(next);
    }

    /** `await resp.write(data)` returns: count, release the quota, wake the parked tasks, open
        the next gate. */
    method FinishWrite()
      requires Can(EndWrite)
      modifies this
      ensures Valid() && View() == Apply(cfg, old(View()), EndWrite)
    {
      StepKeeps(cfg, View(), EndWrite);
      AfterWrite();
    }

    method AfterWrite()
      requires cfg.WellFormed() && Shaped(cfg, View()) && Enabled(cfg, View(), EndWrite)
      modifies this
      ensures View() == Apply(cfg, old(View()), EndWrite)
    {
      output := output + writer.data;
      ReleaseQuota(|writer.data|);
      OpenNextGate();
    }

    /** The end of an iteration of the write loop. */
    method OpenNextGate()
      requires |prefetchGate| == |cfg.ranges|
      modifies this`next, this`prefetchGate, this`writer
      ensures next == old(next) + 1
      ensures prefetchGate == if next < |cfg.ranges| then old(prefetchGate)[next := true] else old(prefetchGate)
      ensures writer == if next < |cfg.ranges| then Awaiting else Finished
    {
      next := next + 1;
      if next < |cfg.ranges| {
        prefetchGate := prefetchGate[next := true];
        writer := Awaiting;
      } else {
        writer := Finished;
      }
    }

    /** The section of the write loop under `_buf_lock`. */
    method ReleaseQuota(size: nat)
      modifies this`bufBytes, this`bufHasSpace, this`phase
      ensures bufBytes == (if old(bufBytes) >= size then old(bufBytes) - size else 0) && bufHasSpace && phase == Wake(old(phase))
    {
      bufBytes := if bufBytes >= size then bufBytes - size else 0;
      bufHasSpace := true;
      phase := Wake(phase);
    }

    /** `resp.write` raises after part of the chunk went out. */
    method WriteFailed(sent: nat)
      requires Can(WriteRaises(sent))
      modifies this`output, this`writer
      ensures Valid() && View() == Apply(cfg, old(View()), WriteRaises(sent))
    {
      StepKeeps(cfg, View(), WriteRaises(sent));
      output := output + writer.data[..sent];
      writer := Aborted(-1);
    }

    /** The event loop resumes the task or the write loop that the event is about. */
    method Perform(ev: Event)
      requires Can(ev)
      modifies this
      ensures Valid() && View() == Apply(cfg, old(View()), ev)
    {
      match ev
      case TakeGate(i) => PassGate(i);
      case TakeSlot(i) => EnterSemaphore(i);
      case FetchReturns(i) => var _ := FetchDone(i, cfg.Chunk(i));
      case FetchRaises(i) => FetchFailed(i);
      case Reserve(i) => var _ := TryReserve(i);
      case RaceWon => RaceDone(cfg.Chunk(0));
      case RacerFails => RacerFailed();
      case BeginWrite => TakeResult();
      case SeeFailure => TakeResult();
      case EndWrite => FinishWrite();
      case WriteRaises(sent) => WriteFailed(sent);
    }

    /** Something that can happen next, if anything can. */
    method SomeEvent() returns (found: Option<Event>)
      requires Valid()
      ensures found.Some? ==> Can(found.value)
      ensures found.None? ==> Quiescent(cfg, View())
    {
      var s := View();
      if s.Final() {
        return None;
      }
      if Enabled(cfg, s, BeginWrite) { return Some(BeginWrite); }
      if Enabled(cfg, s, SeeFailure) { return Some(SeeFailure); }
      if Enabled(cfg, s, EndWrite) { return Some(EndWrite); }
      if Enabled(cfg, s, RaceWon) { return Some(RaceWon); }
      for i := 0 to |phase|
        invariant forall k: nat :: k < i ==> TaskIdle(cfg, s, k)
      {
        if Enabled(cfg, s, TakeGate(i)) { return Some(TakeGate(i)); }
        if Enabled(cfg, s, TakeSlot(i)) { return Some(TakeSlot(i)); }
        if Enabled(cfg, s, FetchReturns(i)) { return Some(FetchReturns(i)); }
        if Enabled(cfg, s, Reserve(i)) { return Some(Reserve(i)); }
      }
      AllIdle(cfg, s);
      return None;
    }

    /** The stream under any scheduler: it ends where nothing can happen any more. If the chunks
        flow freely that is the end of the loop, and unless a fetch or the client failed, the
        client has the whole window. */
    method Send(scheduler: State -> Event)
      requires Valid()
      modifies this
      ensures Valid() && Quiescent(cfg, View()) && output <= cfg.resource[cfg.lo..cfg.hi + 1]
      ensures FlowsFreely(cfg) ==> writer.Finished? || writer.Aborted?
      ensures FlowsFreely(cfg) && writer != Aborted(-1) && (forall i :: i in results ==> results[i].Data?) ==>
                writer.Finished? && output == cfg.resource[cfg.lo..cfg.hi + 1]
    {
      while true
        invariant Valid()
        decreases Measure(cfg, View())
      {
        var ev := scheduler(View());
        if !Enabled(cfg, View(), ev) {
          var found := SomeEvent();
          if found.None? {
            break;
          }
          ev := found.value;
        }
        MeasureFalls(cfg, View(), ev);
        Perform(ev);
      }
      WhereItEnds(cfg, View());
    }
  }

  lemma InitIsReachable(cfg: Config)
    requires cfg.WellFormed()
    ensures Reachable(cfg, Init(cfg)) && Inv(cfg, Init(cfg)) && Accounts(cfg, Init(cfg))
  {
    assert Runs(cfg, Init(cfg), [], Init(cfg));
    ReachableKeeps(cfg, Init(cfg));
  }

  lemma StepKeeps(cfg: Config, s: State, ev: Event)
    requires cfg.WellFormed() && Inv(cfg, s) && Accounts(cfg, s) && Reachable(cfg, s) && Enabled(cfg, s, ev)
    ensures var t := Apply(cfg, s, ev); Inv(cfg, t) && Accounts(cfg, t) && Reachable(cfg, t)
  {
    InvStep(cfg, s, ev);
    AccountsStep(cfg, s, ev);
    ReachableStep(cfg, s, ev);
  }

  ghost predicate TaskIdle(cfg: Config, s: State, i: nat)
    requires Shaped(cfg, s)
  {
    && !Enabled(cfg, s, TakeGate(i)) && !Enabled(cfg, s, TakeSlot(i))
    && !Enabled(cfg, s, FetchReturns(i)) && !Enabled(cfg, s, Reserve(i))
  }

  lemma AllIdle(cfg: Config, s: State)
    requires cfg.WellFormed() && Inv(cfg, s)
    requires !Enabled(cfg, s, BeginWrite) && !Enabled(cfg, s, SeeFailure) && !Enabled(cfg, s, EndWrite) && !Enabled(cfg, s, RaceWon)
    requires forall i: nat :: i < cfg.N() ==> TaskIdle(cfg, s, i)
    ensures Quiescent(cfg, s)
  {
    forall ev
      ensures !Enabled(cfg, s, ev)
    {
      if (ev.TakeGate? || ev.TakeSlot? || ev.FetchReturns? || ev.FetchRaises? || ev.Reserve?) && ev.i < cfg.N() {
        assert TaskIdle(cfg, s, ev.i);
      }
    }
  }

  lemma WhereItEnds(cfg: Config, s: State)
    requires cfg.WellFormed() && Reachable(cfg, s) && Shaped(cfg, s) && Quiescent(cfg, s)
    ensures s.output <= cfg.resource[cfg.lo..cfg.hi + 1]
    ensures FlowsFreely(cfg) ==> s.Final()
    ensures FlowsFreely(cfg) && s.writer != Aborted(-1) && (forall i :: i in s.results ==> s.results[i].Data?) ==>
              s.writer.Finished? && s.output == cfg.resource[cfg.lo..cfg.hi + 1]
  {
    OutputIsPrefix(cfg, s);
    if FlowsFreely(cfg) {
      var evs :| Runs(cfg, Init(cfg), evs, s);
      EveryRunEnds(cfg, evs, s);
      ReachableKeeps(cfg, s);
    }
  }
}
