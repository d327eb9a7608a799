/** When the streaming pipeline always gets to its end, and when it can hang. */
module PipelineProgress {
  import opened Sums
  import opened Pipeline
  import opened PipelineSafety

  // ------------------------------------------------------------------ every run is finite

  function Rank(p: Phase): nat {
    match p
    case AtGate => 6
    case AtSemaphore => 5
    case Fetching => 4
    case WantsSpace(_) => 3
    case Parked(_) => 2
    case Racing(pending) => pending
    case Done => 0
  }

  function Ranks(phase: seq<Phase>): seq<nat> {
    seq(|phase|, i requires 0 <= i < |phase| => Rank(phase[i]))
  }

  function WriterRank(w: Writer): nat {
    match w
    case Awaiting => 2
    case Writing(_) => 1
    case _ => 0
  }

  /** Falls with every step: waking the parked tasks raises their ranks, but only when a chunk
      has been written. */
  function Measure(cfg: Config, s: State): nat {
    Credit(cfg.N(), s.next) + Sum(Ranks(s.phase)) + WriterRank(s.writer)
  }

  lemma {:induction false} WakeRaisesRanks(p: seq<Phase>)
    ensures Sum(Ranks(Wake(p))) <= Sum(Ranks(p)) + |p|
  {
    if p != [] {
      assert Ranks(p)[1..] == Ranks(p[1..]);
      assert Wake(p)[1..] == Wake(p[1..]);
      assert Ranks(Wake(p))[1..] == Ranks(Wake(p)[1..]);
      WakeRaisesRanks(p[1..]);
    }
  }

  /** A task step lowers its own rank and touches no other. */
  lemma TaskRankFalls(cfg: Config, s: State, ev: Event)
    requires cfg.WellFormed() && Shaped(cfg, s) && Enabled(cfg, s, ev)
    requires !(ev.BeginWrite? || ev.EndWrite? || ev.WriteRaises? || ev.SeeFailure?)
    requires s.phase[0].Racing? ==> s.phase[0].pending > 0
    ensures Sum(Ranks(Apply(cfg, s, ev).phase)) < Sum(Ranks(s.phase))
  {
    var t := Apply(cfg, s, ev);
    var i := if ev.RaceWon? || ev.RacerFails? then 0 else ev.i;
    assert t.phase == s.phase[i := t.phase[i]];
    RanksFall(s.phase, i, t.phase[i]);
  }

  lemma RanksFall(phase: seq<Phase>, i: nat, p: Phase)
    requires i < |phase| && Rank(p) < Rank(phase[i])
    ensures Sum(Ranks(phase[i := p])) < Sum(Ranks(phase))
  {
    SumUpdate(Ranks(phase), i, Rank(p));
    assert Ranks(phase[i := p]) == Ranks(phase)[i := Rank(p)];
  }

  /** What the chunks from k on still have to give. */
  function Credit(n: nat, k: nat): nat { if k < n then (n - k) * (n + 2) else 0 }

  lemma CreditFalls(n: nat, k: nat)
    requires k < n
    ensures Credit(n, k) == Credit(n, k + 1) + n + 2
  {
  }

  /** A write pays for the ranks it raises. */
  lemma EndWriteMeasureFalls(cfg: Config, s: State)
    requires cfg.WellFormed() && Shaped(cfg, s) && Enabled(cfg, s, EndWrite)
    ensures Measure(cfg, Apply(cfg, s, EndWrite)) < Measure(cfg, s)
  {
    WakeRaisesRanks(s.phase);
    CreditFalls(cfg.N(), s.next);
  }

  lemma WriterMeasureFalls(cfg: Config, s: State, ev: Event)
    requires cfg.WellFormed() && Shaped(cfg, s) && Enabled(cfg, s, ev)
    requires ev.BeginWrite? || ev.WriteRaises? || ev.SeeFailure?
    ensures Measure(cfg, Apply(cfg, s, ev)) < Measure(cfg, s)
  {
  }

  lemma MeasureFalls(cfg: Config, s: State, ev: Event)
    requires cfg.WellFormed() && Inv(cfg, s) && Enabled(cfg, s, ev)
    ensures Measure(cfg, Apply(cfg, s, ev)) < Measure(cfg, s)
  {
    assert TaskOk(cfg, s, 0);
    if ev.EndWrite? {
      EndWriteMeasureFalls(cfg, s);
    } else if ev.BeginWrite? || ev.WriteRaises? || ev.SeeFailure? {
      WriterMeasureFalls(cfg, s, ev);
    } else {
      TaskRankFalls(cfg, s, ev);
      assert Apply(cfg, s, ev).next == s.next && Apply(cfg, s, ev).writer == s.writer;
    }
  }

  /** No run makes more steps than the measure of the state it starts in. */
  lemma {:induction false} RunsAreBounded(cfg: Config, s: State, evs: seq<Event>, t: State)
    requires cfg.WellFormed() && Inv(cfg, s) && Runs(cfg, s, evs, t)
    ensures |evs| + Measure(cfg, t) <= Measure(cfg, s)
    decreases |evs|
  {
    if evs != [] {
      MeasureFalls(cfg, s, evs[0]);
      InvStep(cfg, s, evs[0]);
      RunsAreBounded(cfg, Apply(cfg, s, evs[0]), evs[1..], t);
    }
  }

  /** A run cannot go on for ever: from every state some run reaches one where nothing moves. */
  lemma {:induction false} RunToQuiescence(cfg: Config, s: State) returns (evs: seq<Event>, t: State)
    requires cfg.WellFormed() && Inv(cfg, s)
    ensures Runs(cfg, s, evs, t) && Inv(cfg, t) && Quiescent(cfg, t)
    decreases Measure(cfg, s)
  {
    if ev :| Enabled(cfg, s, ev) {
      MeasureFalls(cfg, s, ev);
      InvStep(cfg, s, ev);
      var rest;
      rest, t := RunToQuiescence(cfg, Apply(cfg, s, ev));
      evs := [ev] + rest;
      assert evs[1..] == rest;
    } else {
      evs, t := [], s;
    }
  }

  // ------------------------------------------------------------------ the condition

  /** The sizes of chunks k..m, the other chunks counting 0. */
  function SizesBetween(cfg: Config, k: nat, m: int): seq<nat> {
    seq(cfg.N(), i requires 0 <= i < cfg.N() => if k <= i <= m then cfg.Size(i) else 0)
  }

  /** The chunks that can be under way while the write loop waits for chunk k. */
  function WindowBytes(cfg: Config, k: nat): nat { Sum(SizesBetween(cfg, k, cfg.Bound(k))) }

  /** The buffer space chunk k may have to share: with one worker served in order, no later
      chunk is fetched before chunk k is stored. */
  function Load(cfg: Config, k: nat): nat
    requires k < cfg.N()
  {
    if cfg.maxWorkers == 1 && cfg.inOrder then cfg.Size(k) else WindowBytes(cfg, k)
  }

  /** What a caller can check before starting the stream. */
  predicate FlowsFreely(cfg: Config) {
    forall k :: cfg.FirstFetch() <= k < cfg.N() ==>
      cfg.maxWorkers >= 1 && (cfg.prefetchAhead >= 1 || cfg.race) && Load(cfg, k) <= cfg.maxBufferBytes
  }

  // ------------------------------------------------------------------ the condition suffices

  /** Slots are taken in index order when the semaphore is first come first served. */
  ghost predicate InOrder(cfg: Config, s: State)
    requires Shaped(cfg, s)
  {
    cfg.inOrder ==>
      forall i, j :: cfg.FirstFetch() <= i < j < cfg.N() && !s.phase[j].BeforeSlot() ==>
        !s.phase[i].BeforeSlot() && (cfg.maxWorkers == 1 ==> s.phase[i].Done?)
  }

  /** With one worker, a free slot in front of task j means that every task before it is done. */
  lemma EarlierAreDone(cfg: Config, s: State, i: nat, j: nat)
    requires cfg.WellFormed() && Inv(cfg, s) && Accounts(cfg, s) && Enabled(cfg, s, TakeSlot(j))
    requires cfg.inOrder && cfg.maxWorkers == 1 && cfg.FirstFetch() <= i < j
    ensures s.phase[i].Done?
  {
    assert TaskOk(cfg, s, i);
    SumContains(SlotMarks(s.phase), i);
    assert SlotMarks(s.phase)[i] == 0;
  }

  lemma InOrderStep(cfg: Config, s: State, ev: Event)
    requires cfg.WellFormed() && Inv(cfg, s) && Accounts(cfg, s) && Enabled(cfg, s, ev) && InOrder(cfg, s)
    ensures Shaped(cfg, Apply(cfg, s, ev)) && InOrder(cfg, Apply(cfg, s, ev))
  {
    if ev.TakeSlot? {
      InOrderTakeSlot(cfg, s, ev.i);
    } else {
      InOrderKept(cfg, s, Apply(cfg, s, ev));
    }
  }

  /** A step that lets nobody through the semaphore and undoes no result keeps the order. */
  lemma InOrderKept(cfg: Config, s: State, t: State)
    requires Shaped(cfg, s) && Shaped(cfg, t) && InOrder(cfg, s)
    requires forall i :: 0 <= i < cfg.N() ==> t.phase[i].BeforeSlot() == s.phase[i].BeforeSlot()
    requires forall i :: 0 <= i < cfg.N() && s.phase[i].Done? ==> t.phase[i].Done?
    ensures InOrder(cfg, t)
  {
  }

  lemma InOrderTakeSlot(cfg: Config, s: State, j: nat)
    requires cfg.WellFormed() && Inv(cfg, s) && Accounts(cfg, s) && Enabled(cfg, s, TakeSlot(j)) && InOrder(cfg, s)
    ensures Shaped(cfg, Apply(cfg, s, TakeSlot(j))) && InOrder(cfg, Apply(cfg, s, TakeSlot(j)))
  {
    if cfg.inOrder && cfg.maxWorkers == 1 {
      forall i | cfg.FirstFetch() <= i < j
        ensures s.phase[i].Done?
      {
        EarlierAreDone(cfg, s, i, j);
      }
    }
  }

  lemma {:induction false} InOrderRuns(cfg: Config, s: State, evs: seq<Event>, t: State)
    requires cfg.WellFormed() && Inv(cfg, s) && Accounts(cfg, s) && InOrder(cfg, s) && Runs(cfg, s, evs, t)
    ensures Shaped(cfg, t) && InOrder(cfg, t)
    decreases |evs|
  {
    if evs != [] {
      InvStep(cfg, s, evs[0]);
      AccountsStep(cfg, s, evs[0]);
      InOrderStep(cfg, s, evs[0]);
      InOrderRuns(cfg, Apply(cfg, s, evs[0]), evs[1..], t);
    }
  }

  /** A chunk past its gate lies in the window of the awaited one; what is stored of it is the chunk. */
  lemma InsideWindow(cfg: Config, s: State, i: nat)
    requires cfg.WellFormed() && Inv(cfg, s) && cfg.FirstFetch() <= s.next && i < cfg.N()
    ensures s.next <= i && !s.phase[i].AtGate? ==> i <= cfg.Bound(s.next)
    ensures UnwrittenSizes(s)[i] <= cfg.Size(i)
    ensures UnwrittenSizes(s)[i] > 0 ==> s.next <= i && !s.phase[i].AtGate?
  {
    assert TaskOk(cfg, s, i);
    assert TaskOk(cfg, s, cfg.GateIndex(i));
  }

  /** All that is stored and unwritten, plus chunk q that is not stored yet, fits into the window. */
  lemma UnwrittenWithinWindow(cfg: Config, s: State, q: nat)
    requires cfg.WellFormed() && Inv(cfg, s) && cfg.FirstFetch() <= s.next <= q < cfg.N()
    requires !s.phase[q].Done? && !s.phase[q].AtGate?
    ensures Unwritten(s) + cfg.Size(q) <= WindowBytes(cfg, s.next)
  {
    var sizes := UnwrittenSizes(s);
    assert TaskOk(cfg, s, q);
    SumUpdate(sizes, q, cfg.Size(q));
    var window := SizesBetween(cfg, s.next, cfg.Bound(s.next));
    forall i: nat | i < cfg.N()
      ensures sizes[q := cfg.Size(q)][i] <= window[i]
    {
      InsideWindow(cfg, s, i);
    }
    SumMonotone(sizes[q := cfg.Size(q)], window);
  }

  /** In a stuck state the chunk the write loop waits for is parked or waits for a slot. */
  lemma AwaitedChunk(cfg: Config, s: State)
    requires cfg.WellFormed() && Inv(cfg, s) && Stuck(cfg, s)
    requires cfg.prefetchAhead >= 1 || cfg.race
    ensures cfg.FirstFetch() <= s.next < cfg.N() && (s.phase[s.next].Parked? || s.phase[s.next].AtSemaphore?)
  {
    var k := s.next;
    assert s.writer.Awaiting? by {
      assert !Enabled(cfg, s, EndWrite);
    }
    assert TaskOk(cfg, s, k);
    assert !Enabled(cfg, s, BeginWrite) && !Enabled(cfg, s, SeeFailure);
    assert !s.phase[k].Done?;
    assert !Enabled(cfg, s, RaceWon);
    assert !Enabled(cfg, s, FetchRaises(k)) && !Enabled(cfg, s, Reserve(k));
    assert !s.phase[k].AtGate? by {
      assert !Enabled(cfg, s, TakeGate(k));
      assert TaskOk(cfg, s, cfg.GateIndex(k));
    }
  }

  /** In a quiescent state the chunk the write loop waits for is parked, or waits for a slot
      while a parked task holds one. */
  lemma WaitingChunk(cfg: Config, s: State) returns (q: nat)
    requires cfg.WellFormed() && Inv(cfg, s) && Accounts(cfg, s) && InOrder(cfg, s) && Stuck(cfg, s)
    requires cfg.maxWorkers >= 1 || s.next < cfg.FirstFetch()
    requires cfg.prefetchAhead >= 1 || cfg.race
    ensures cfg.FirstFetch() <= s.next <= q < cfg.N() && s.phase[q].Parked?
    ensures q == s.next || (s.phase[s.next].AtSemaphore? && !(cfg.maxWorkers == 1 && cfg.inOrder))
  {
    AwaitedChunk(cfg, s);
    var k := s.next;
    if s.phase[k].Parked? {
      q := k;
    } else {
      assert !Enabled(cfg, s, TakeSlot(k));
      forall j | 0 <= j < k
        ensures !s.phase[j].BeforeSlot()
      {
        assert TaskOk(cfg, s, j);
      }
      var i := SumPositive(SlotMarks(s.phase));
      assert TaskOk(cfg, s, i);
      assert !Enabled(cfg, s, FetchRaises(i)) && !Enabled(cfg, s, Reserve(i));
      q := i;
      assert q > k;
    }
  }

  lemma ReachableInOrder(cfg: Config, s: State)
    requires cfg.WellFormed() && Reachable(cfg, s)
    ensures Shaped(cfg, s) && InOrder(cfg, s)
  {
    var evs :| Runs(cfg, Init(cfg), evs, s);
    InvInit(cfg);
    AccountsInit(cfg);
    InOrderRuns(cfg, Init(cfg), evs, s);
  }

  /** One worker, served in order, stores nothing beyond the chunk the write loop waits for. */
  lemma NothingStoredAhead(cfg: Config, s: State)
    requires cfg.WellFormed() && Inv(cfg, s) && InOrder(cfg, s) && cfg.maxWorkers == 1 && cfg.inOrder
    requires cfg.FirstFetch() <= s.next < cfg.N() && !s.phase[s.next].Done?
    ensures Unwritten(s) == 0
  {
    assert TaskOk(cfg, s, s.next);
    forall i: nat | i < |UnwrittenSizes(s)|
      ensures UnwrittenSizes(s)[i] == 0
    {
      assert TaskOk(cfg, s, i);
    }
    SumZero(UnwrittenSizes(s));
  }

  /** Under the condition no reachable state is stuck. */
  lemma NeverStuck(cfg: Config, s: State)
    requires cfg.WellFormed() && FlowsFreely(cfg) && Reachable(cfg, s)
    ensures Shaped(cfg, s) && !Stuck(cfg, s)
  {
    ReachableKeeps(cfg, s);
    ReachableInOrder(cfg, s);
    if Stuck(cfg, s) {
      assert s.next < cfg.N();
      if cfg.FirstFetch() < cfg.N() {
        assert Load(cfg, cfg.FirstFetch()) <= cfg.maxBufferBytes;
      }
      var q := WaitingChunk(cfg, s);
      assert TaskOk(cfg, s, q);
      assert Load(cfg, s.next) <= cfg.maxBufferBytes;
      if cfg.maxWorkers == 1 && cfg.inOrder {
        NothingStoredAhead(cfg, s);
      } else {
        UnwrittenWithinWindow(cfg, s, q);
      }
    }
  }
}
