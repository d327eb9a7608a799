/** The other half: a configuration that breaks the condition has a run that hangs. */
module PipelineDeadlock {
  import opened Sums
  import opened Ranges
  import opened Pipeline
  import opened PipelineSafety
  import opened PipelineProgress

  // ------------------------------------------------------------------ a doomed run stays doomed

  /** The write loop waits for a chunk that can never be stored: it is parked while only the
      write loop itself could free buffer space, there is no worker at all, or its gate is one
      nobody opens. */
  ghost predicate Doomed(cfg: Config, s: State)
    requires cfg.WellFormed()
  {
    Inv(cfg, s) && Accounts(cfg, s) && s.writer.Awaiting? && Blocked(cfg, s)
  }

  ghost predicate Blocked(cfg: Config, s: State)
    requires Shaped(cfg, s) && s.next < cfg.N()
  {
    || s.phase[s.next].Parked?
    || (cfg.maxWorkers == 0 && s.phase[s.next].BeforeSlot())
    || (cfg.prefetchAhead == 0 && !cfg.race && s.next == 0 && s.phase[0].AtGate?)
  }

  lemma StaysBlocked(cfg: Config, s: State, ev: Event)
    requires cfg.WellFormed() && Inv(cfg, s) && Accounts(cfg, s) && s.writer.Awaiting? && Blocked(cfg, s)
    requires Enabled(cfg, s, ev) && Shaped(cfg, Apply(cfg, s, ev))
    ensures var t := Apply(cfg, s, ev); t.writer.Awaiting? && t.next == s.next && Blocked(cfg, t)
  {
    assert TaskOk(cfg, s, s.next);
    WriterWaits(cfg, s, ev);
    if !s.phase[s.next].Parked? {
      StaysBeforeSlot(cfg, s, ev);
    }
  }

  /** While the awaited chunk is not stored the write loop does not move. */
  lemma WriterWaits(cfg: Config, s: State, ev: Event)
    requires cfg.WellFormed() && Shaped(cfg, s) && Enabled(cfg, s, ev)
    requires s.writer.Awaiting? && s.next < cfg.N() && !s.ready[s.next]
    ensures !ev.BeginWrite? && !ev.EndWrite? && !ev.WriteRaises? && !ev.SeeFailure?
    ensures Apply(cfg, s, ev).writer == s.writer && Apply(cfg, s, ev).next == s.next
  {
  }

  lemma StaysBeforeSlot(cfg: Config, s: State, ev: Event)
    requires cfg.WellFormed() && Inv(cfg, s) && Accounts(cfg, s) && s.next < cfg.N() && s.writer.Awaiting?
    requires !s.phase[s.next].Parked? && Blocked(cfg, s) && Enabled(cfg, s, ev)
    ensures var t := Apply(cfg, s, ev); Shaped(cfg, t) && (t.next == s.next ==> !t.phase[s.next].Parked? && Blocked(cfg, t))
  {
    assert TaskOk(cfg, s, s.next);
    assert TaskOk(cfg, s, 0);
    WriterWaits(cfg, s, ev);
    if s.phase[s.next].AtGate? {
      ClosedGateStays(cfg, s, ev);
    }
  }

  /** A task at its gate stays there or goes on to the semaphore, and no gate opens meanwhile. */
  lemma ClosedGateStays(cfg: Config, s: State, ev: Event)
    requires cfg.WellFormed() && Shaped(cfg, s) && Enabled(cfg, s, ev) && s.next < cfg.N() && s.phase[s.next].AtGate?
    requires !ev.BeginWrite? && !ev.EndWrite? && !ev.WriteRaises? && !ev.SeeFailure?
    ensures var t := Apply(cfg, s, ev);
            && Shaped(cfg, t) && t.phase[s.next].BeforeSlot() && t.gate == s.gate
            && (!s.gate[cfg.GateIndex(s.next)] ==> t.phase[s.next].AtGate?)
  {
  }

  lemma DoomedStep(cfg: Config, s: State, ev: Event)
    requires cfg.WellFormed() && Doomed(cfg, s) && Enabled(cfg, s, ev)
    ensures Doomed(cfg, Apply(cfg, s, ev))
  {
    InvStep(cfg, s, ev);
    AccountsStep(cfg, s, ev);
    StaysBlocked(cfg, s, ev);
  }

  lemma {:induction false} DoomedRuns(cfg: Config, s: State, evs: seq<Event>, t: State)
    requires cfg.WellFormed() && Doomed(cfg, s) && Runs(cfg, s, evs, t)
    ensures Doomed(cfg, t)
    decreases |evs|
  {
    if evs != [] {
      DoomedStep(cfg, s, evs[0]);
      DoomedRuns(cfg, Apply(cfg, s, evs[0]), evs[1..], t);
    }
  }

  /** Once doomed, every way to go on ends in a stuck state. */
  lemma DoomedGetsStuck(cfg: Config, s: State) returns (t: State)
    requires cfg.WellFormed() && Reachable(cfg, s) && Doomed(cfg, s)
    ensures Reachable(cfg, t) && Shaped(cfg, t) && Stuck(cfg, t)
  {
    var before :| Runs(cfg, Init(cfg), before, s);
    var after;
    after, t := RunToQuiescence(cfg, s);
    DoomedRuns(cfg, s, after, t);
    RunsCompose(cfg, Init(cfg), before, s, after, t);
  }

  // ------------------------------------------------------------------ particular runs

  /** The bytes of chunks a..b-1. */
  function BytesBetween(cfg: Config, a: nat, b: nat): nat
    requires b <= cfg.N()
  {
    if b <= a then 0 else BytesBetween(cfg, a, b - 1) + cfg.Size(b - 1)
  }

  predicate Stored(k: nat, i: nat, x: int) { x < k || k < x < i }

  /** Chunks below k are written, chunk k stands at p, chunks k+1..i-1 are stored and unwritten,
      and no later chunk has started. */
  ghost function Filled(cfg: Config, k: nat, i: nat, p: Phase): State
    requires cfg.WellFormed() && k < i <= cfg.N() + 1
  {
    State(
      seq(cfg.N(), x => if Stored(k, i, x) then Done else if x == k then p else AtGate),
      seq(cfg.N(), x => x < cfg.prefetchAhead || 1 <= x <= k),
      seq(cfg.N(), x => Stored(k, i, x)),
      if p.HoldsSlot() && cfg.maxWorkers > 0 then cfg.maxWorkers - 1 else cfg.maxWorkers,
      if i <= cfg.N() then BytesBetween(cfg, k + 1, i) else 0,
      true,
      map x: nat | 0 <= x < cfg.N() && Stored(k, i, x) :: Data(cfg.Chunk(x)),
      k,
      if k < cfg.N() then Awaiting else Finished,
      Joined(cfg.resource, cfg.ranges, k))
  }

  ghost function StartPhase(cfg: Config, k: nat): Phase {
    if cfg.race && k == 0 then Racing(2) else AtGate
  }

  /** Chunks below k are written and nothing else has happened. */
  ghost function Quiet(cfg: Config, k: nat): State
    requires cfg.WellFormed() && k <= cfg.N()
  {
    Filled(cfg, k, k + 1, StartPhase(cfg, k))
  }

  lemma InitIsQuiet(cfg: Config)
    requires cfg.WellFormed()
    ensures Init(cfg) == Quiet(cfg, 0)
  {
    var q := Quiet(cfg, 0);
    assert Init(cfg).phase == q.phase;
    assert Init(cfg).gate == q.gate;
    assert Init(cfg).ready == q.ready;
    assert Init(cfg).results == q.results;
  }

  ghost predicate CanReach(cfg: Config, s: State, t: State)
    requires cfg.WellFormed()
  {
    exists evs :: Runs(cfg, s, evs, t)
  }

  lemma Step(cfg: Config, s: State, ev: Event, t: State)
    requires cfg.WellFormed() && Shaped(cfg, s) && Enabled(cfg, s, ev) && Shaped(cfg, t)
    requires Apply(cfg, s, ev) == t
    ensures CanReach(cfg, s, t)
  {
    assert [ev][1..] == [];
    assert Runs(cfg, s, [ev], t);
  }

  lemma Then(cfg: Config, s: State, t: State, u: State)
    requires cfg.WellFormed() && CanReach(cfg, s, t) && CanReach(cfg, t, u)
    ensures CanReach(cfg, s, u)
  {
    var e1 :| Runs(cfg, s, e1, t);
    var e2 :| Runs(cfg, t, e2, u);
    RunsCompose(cfg, s, e1, t, e2, u);
  }

  /** Chunk k gets through gate and semaphore and is being fetched. */
  lemma FetchChunk(cfg: Config, k: nat, i: nat)
    requires cfg.WellFormed() && cfg.FirstFetch() <= k < i <= cfg.N()
    requires cfg.maxWorkers >= 1 && (cfg.prefetchAhead >= 1 || cfg.race)
    ensures CanReach(cfg, Filled(cfg, k, i, AtGate), Filled(cfg, k, i, Fetching))
  {
    var s, t := Filled(cfg, k, i, AtGate), Filled(cfg, k, i, AtSemaphore);
    assert Apply(cfg, s, TakeGate(k)).phase == t.phase;
    Step(cfg, s, TakeGate(k), t);
    var u := Filled(cfg, k, i, Fetching);
    assert Apply(cfg, t, TakeSlot(k)).phase == u.phase;
    Step(cfg, t, TakeSlot(k), u);
    Then(cfg, s, t, u);
  }

  /** The chunks k+1..m can be stored while chunk k stands at p. */
  ghost predicate CanOvertake(cfg: Config, k: nat, m: nat, p: Phase) {
    && cfg.FirstFetch() <= k <= m < cfg.N() && m <= cfg.Bound(k)
    && (cfg.prefetchAhead >= 1 || cfg.race)
    && (p.AtGate? || p.Fetching?)
    && cfg.maxWorkers > (if p.AtGate? then 0 else 1) && (cfg.inOrder ==> !p.AtGate?)
    && BytesBetween(cfg, k + 1, m + 1) <= cfg.maxBufferBytes
  }

  /** A later chunk overtakes: it is fetched and stored while chunk k stands at p. */
  lemma StoreAhead(cfg: Config, k: nat, i: nat, p: Phase)
    requires cfg.WellFormed() && k < i && CanOvertake(cfg, k, i, p)
    ensures CanReach(cfg, Filled(cfg, k, i, p), Filled(cfg, k, i + 1, p))
  {
    var s0 := Filled(cfg, k, i, p);
    var s1 := s0.(phase := s0.phase[i := AtSemaphore]);
    Step(cfg, s0, TakeGate(i), s1);
    var s2 := s1.(phase := s1.phase[i := Fetching], slots := s1.slots - 1);
    Step(cfg, s1, TakeSlot(i), s2);
    var s3 := Filled(cfg, k, i + 1, p);
    StoreNext(cfg, k, i, p, s2);
    Step(cfg, s2, FetchReturns(i), s3);
    Then(cfg, s0, s1, s2);
    Then(cfg, s0, s2, s3);
  }

  lemma StoreNext(cfg: Config, k: nat, i: nat, p: Phase, s: State)
    requires cfg.WellFormed() && k < i < cfg.N()
    requires cfg.maxWorkers > (if p.HoldsSlot() then 1 else 0)
    requires BytesBetween(cfg, k + 1, i + 1) <= cfg.maxBufferBytes
    requires var f := Filled(cfg, k, i, p);
             s == f.(phase := f.phase[i := Fetching], slots := f.slots - 1)
    ensures Shaped(cfg, s) && Enabled(cfg, s, FetchReturns(i))
    ensures Apply(cfg, s, FetchReturns(i)) == Filled(cfg, k, i + 1, p)
  {
    var t := Filled(cfg, k, i + 1, p);
    var a := Apply(cfg, s, FetchReturns(i));
    assert a.phase == t.phase;
    assert a.ready == t.ready;
    assert a.results == t.results;
  }

  lemma {:induction false} StoreAllAhead(cfg: Config, k: nat, i: nat, m: nat, p: Phase)
    requires cfg.WellFormed() && k < i <= m + 1 && CanOvertake(cfg, k, m, p)
    ensures CanReach(cfg, Filled(cfg, k, i, p), Filled(cfg, k, m + 1, p))
    decreases m + 1 - i
  {
    if i == m + 1 {
      Stay(cfg, Filled(cfg, k, i, p));
    } else {
      StoreAllAhead(cfg, k, i + 1, m, p);
      StoreOneMore(cfg, k, i, m, p);
    }
  }

  lemma Stay(cfg: Config, s: State)
    requires cfg.WellFormed() && Shaped(cfg, s)
    ensures CanReach(cfg, s, s)
  {
    assert Runs(cfg, s, [], s);
  }

  lemma StoreOneMore(cfg: Config, k: nat, i: nat, m: nat, p: Phase)
    requires cfg.WellFormed() && k < i <= m && CanOvertake(cfg, k, m, p)
    requires CanReach(cfg, Filled(cfg, k, i + 1, p), Filled(cfg, k, m + 1, p))
    ensures CanReach(cfg, Filled(cfg, k, i, p), Filled(cfg, k, m + 1, p))
  {
    BytesGrow(cfg, k + 1, i + 1, m + 1);
    StoreAhead(cfg, k, i, p);
    Then(cfg, Filled(cfg, k, i, p), Filled(cfg, k, i + 1, p), Filled(cfg, k, m + 1, p));
  }

  lemma {:induction false} BytesGrow(cfg: Config, a: nat, b: nat, c: nat)
    requires b <= c <= cfg.N()
    ensures BytesBetween(cfg, a, b) <= BytesBetween(cfg, a, c)
    decreases c
  {
    if b < c { BytesGrow(cfg, a, b, c - 1); }
  }

  lemma {:induction false} BytesSplit(cfg: Config, a: nat, b: nat)
    requires a < b <= cfg.N()
    ensures BytesBetween(cfg, a, b) == cfg.Size(a) + BytesBetween(cfg, a + 1, b)
    decreases b
  {
    if a + 1 < b { BytesSplit(cfg, a, b - 1); }
  }

  lemma {:induction false} WindowIsBytes(cfg: Config, k: nat, m: nat)
    requires cfg.WellFormed() && k <= m < cfg.N()
    ensures Sum(SizesBetween(cfg, k, m)) == BytesBetween(cfg, k, m + 1)
    decreases m
  {
    if k == m {
      SumZero(SizesBetween(cfg, k, -1));
      SumUpdate(SizesBetween(cfg, k, -1), k, cfg.Size(k));
      assert SizesBetween(cfg, k, m) == SizesBetween(cfg, k, -1)[k := cfg.Size(k)];
    } else {
      WindowIsBytes(cfg, k, m - 1);
      SumUpdate(SizesBetween(cfg, k, m - 1), m, cfg.Size(m));
      assert SizesBetween(cfg, k, m) == SizesBetween(cfg, k, m - 1)[m := cfg.Size(m)];
    }
  }

  /** Chunk k goes through on its own and is written. */
  lemma AdvanceOne(cfg: Config, k: nat)
    requires cfg.WellFormed() && k < cfg.N()
    requires (cfg.race && k == 0) || (cfg.maxWorkers >= 1 && (cfg.prefetchAhead >= 1 || cfg.race)
                                      && cfg.Size(k) <= cfg.maxBufferBytes)
    ensures CanReach(cfg, Quiet(cfg, k), Quiet(cfg, k + 1))
  {
    if cfg.race && k == 0 {
      var s, store := Quiet(cfg, 0), RaceWon;
      var t := JustStored(cfg, 0);
      StoredByRace(cfg);
      Step(cfg, s, store, t);
      WriteOne(cfg, 0, t);
      Then(cfg, s, t, Quiet(cfg, 1));
    } else {
      var s := Quiet(cfg, k);
      FetchChunk(cfg, k, k + 1);
      var u := Filled(cfg, k, k + 1, Fetching);
      var t := JustStored(cfg, k);
      StoredByFetch(cfg, k);
      Step(cfg, u, FetchReturns(k), t);
      WriteOne(cfg, k, t);
      Then(cfg, s, u, t);
      Then(cfg, s, t, Quiet(cfg, k + 1));
    }
  }

  lemma StoredByRace(cfg: Config)
    requires cfg.WellFormed() && cfg.race
    ensures Enabled(cfg, Quiet(cfg, 0), RaceWon) && Apply(cfg, Quiet(cfg, 0), RaceWon) == JustStored(cfg, 0)
  {
    assert Apply(cfg, Quiet(cfg, 0), RaceWon).phase == JustStored(cfg, 0).phase;
  }

  lemma StoredByFetch(cfg: Config, k: nat)
    requires cfg.WellFormed() && cfg.FirstFetch() <= k < cfg.N() && cfg.maxWorkers >= 1
    requires cfg.Size(k) <= cfg.maxBufferBytes
    ensures var u := Filled(cfg, k, k + 1, Fetching);
            Enabled(cfg, u, FetchReturns(k)) && Apply(cfg, u, FetchReturns(k)) == JustStored(cfg, k)
  {
    var u := Filled(cfg, k, k + 1, Fetching);
    assert Apply(cfg, u, FetchReturns(k)).phase == JustStored(cfg, k).phase;
  }

  lemma WriteOne(cfg: Config, k: nat, t: State)
    requires cfg.WellFormed() && k < cfg.N()
    requires t == JustStored(cfg, k)
    ensures CanReach(cfg, t, Quiet(cfg, k + 1))
  {
    var u := t.(writer := Writing(cfg.Chunk(k)));
    Step(cfg, t, BeginWrite, u);
    EndWriteIsQuiet(cfg, k, u);
    Step(cfg, u, EndWrite, Quiet(cfg, k + 1));
    Then(cfg, t, u, Quiet(cfg, k + 1));
  }

  /** Chunk k is stored on its own; the raced chunk 0 is not counted. */
  ghost function JustStored(cfg: Config, k: nat): State
    requires cfg.WellFormed() && k < cfg.N()
  {
    var q := Filled(cfg, k, k + 1, Done);
    q.(ready := q.ready[k := true], results := q.results[k := Data(cfg.Chunk(k))],
       bufBytes := if cfg.race && k == 0 then 0 else cfg.Size(k))
  }

  lemma EndWriteIsQuiet(cfg: Config, k: nat, u: State)
    requires cfg.WellFormed() && k < cfg.N()
    requires u == JustStored(cfg, k).(writer := Writing(cfg.Chunk(k)))
    ensures Shaped(cfg, u) && Enabled(cfg, u, EndWrite) && Apply(cfg, u, EndWrite) == Quiet(cfg, k + 1)
  {
    EndWritePhases(cfg, k, u);
    EndWriteGates(cfg, k, u);
    EndWriteResults(cfg, k, u);
    EndWriteBytes(cfg, k, u);
  }

  lemma EndWriteResults(cfg: Config, k: nat, u: State)
    requires cfg.WellFormed() && k < cfg.N()
    requires u == JustStored(cfg, k).(writer := Writing(cfg.Chunk(k)))
    ensures Shaped(cfg, u) && Enabled(cfg, u, EndWrite)
    ensures Apply(cfg, u, EndWrite).results == Quiet(cfg, k + 1).results
  {
  }

  lemma EndWriteBytes(cfg: Config, k: nat, u: State)
    requires cfg.WellFormed() && k < cfg.N()
    requires u == JustStored(cfg, k).(writer := Writing(cfg.Chunk(k)))
    ensures Shaped(cfg, u) && Enabled(cfg, u, EndWrite)
    ensures Apply(cfg, u, EndWrite).output == Quiet(cfg, k + 1).output
    ensures Apply(cfg, u, EndWrite).bufBytes == Quiet(cfg, k + 1).bufBytes
  {
  }

  lemma EndWritePhases(cfg: Config, k: nat, u: State)
    requires cfg.WellFormed() && k < cfg.N()
    requires u == JustStored(cfg, k).(writer := Writing(cfg.Chunk(k)))
    ensures Shaped(cfg, u) && Enabled(cfg, u, EndWrite)
    ensures Apply(cfg, u, EndWrite).phase == Quiet(cfg, k + 1).phase
  {
    var p, q := Wake(u.phase), Quiet(cfg, k + 1).phase;
    assert |p| == |q| && forall x :: 0 <= x < |p| ==> p[x] == q[x];
  }

  lemma EndWriteGates(cfg: Config, k: nat, u: State)
    requires cfg.WellFormed() && k < cfg.N()
    requires u == JustStored(cfg, k).(writer := Writing(cfg.Chunk(k)))
    ensures Shaped(cfg, u) && Enabled(cfg, u, EndWrite)
    ensures Apply(cfg, u, EndWrite).gate == Quiet(cfg, k + 1).gate
    ensures Apply(cfg, u, EndWrite).ready == Quiet(cfg, k + 1).ready
  {
  }

  // ------------------------------------------------------------------ reaching a doomed state

  /** When chunk k comes in and the buffer is too full for it, it parks for ever. */
  lemma ParkForever(cfg: Config, k: nat, m: nat) returns (t: State)
    requires cfg.WellFormed() && cfg.FirstFetch() <= k <= m < cfg.N()
    requires Reachable(cfg, Filled(cfg, k, m + 1, Fetching))
    requires BytesBetween(cfg, k, m + 1) > cfg.maxBufferBytes
    ensures Reachable(cfg, t) && Doomed(cfg, t)
  {
    var s := Filled(cfg, k, m + 1, Fetching);
    t := s.(phase := s.phase[k := Parked(cfg.Chunk(k))], hasSpace := false);
    BytesSplit(cfg, k, m + 1);
    Step(cfg, s, FetchReturns(k), t);
    ExtendReach(cfg, s, t);
    ReachableKeeps(cfg, t);
  }

  lemma ExtendReach(cfg: Config, s: State, t: State)
    requires cfg.WellFormed() && Reachable(cfg, s) && CanReach(cfg, s, t)
    ensures Reachable(cfg, t)
  {
    assert CanReach(cfg, Init(cfg), s);
    Then(cfg, Init(cfg), s, t);
  }

  /** The chunks k+1..m fit into the buffer, chunk k does not fit beside them: let the later
      ones overtake while chunk k keeps its slot. */
  lemma OvertakeInOrder(cfg: Config, k: nat, m: nat)
    requires cfg.WellFormed() && cfg.FirstFetch() <= k <= m < cfg.N() && m <= cfg.Bound(k)
    requires cfg.maxWorkers >= 1 && (cfg.prefetchAhead >= 1 || cfg.race) && Reachable(cfg, Quiet(cfg, k))
    requires BytesBetween(cfg, k + 1, m + 1) <= cfg.maxBufferBytes
    requires m == k || cfg.maxWorkers > 1
    ensures Reachable(cfg, Filled(cfg, k, m + 1, Fetching))
  {
    FetchChunk(cfg, k, k + 1);
    var s := Filled(cfg, k, k + 1, Fetching);
    ExtendReach(cfg, Quiet(cfg, k), s);
    if m > k {
      StoreAllAhead(cfg, k, k + 1, m, Fetching);
      ExtendReach(cfg, s, Filled(cfg, k, m + 1, Fetching));
    }
  }

  lemma FetchLast(cfg: Config, k: nat, i: nat)
    requires cfg.WellFormed() && cfg.FirstFetch() <= k < i <= cfg.N()
    requires cfg.maxWorkers >= 1 && (cfg.prefetchAhead >= 1 || cfg.race)
    requires Reachable(cfg, Filled(cfg, k, i, AtGate))
    ensures Reachable(cfg, Filled(cfg, k, i, Fetching))
  {
    FetchChunk(cfg, k, i);
    ExtendReach(cfg, Filled(cfg, k, i, AtGate), Filled(cfg, k, i, Fetching));
  }

  /** The same with a single worker that serves chunk k last. */
  lemma AllButOne(cfg: Config, k: nat, m: nat)
    requires cfg.WellFormed() && cfg.FirstFetch() <= k < m < cfg.N() && m <= cfg.Bound(k)
    requires cfg.maxWorkers >= 1 && (cfg.prefetchAhead >= 1 || cfg.race) && Reachable(cfg, Quiet(cfg, k))
    requires BytesBetween(cfg, k + 1, m + 1) <= cfg.maxBufferBytes && !cfg.inOrder
    ensures Reachable(cfg, Filled(cfg, k, m + 1, AtGate))
  {
    StoreAllAhead(cfg, k, k + 1, m, AtGate);
    ExtendReach(cfg, Quiet(cfg, k), Filled(cfg, k, m + 1, AtGate));
  }

  lemma OvertakeAndPark(cfg: Config, k: nat, m: nat) returns (t: State)
    requires cfg.WellFormed() && cfg.FirstFetch() <= k <= m < cfg.N() && m <= cfg.Bound(k)
    requires cfg.maxWorkers >= 1 && (cfg.prefetchAhead >= 1 || cfg.race) && Reachable(cfg, Quiet(cfg, k))
    requires BytesBetween(cfg, k, m + 1) > cfg.maxBufferBytes >= BytesBetween(cfg, k + 1, m + 1)
    requires m == k || !(cfg.maxWorkers == 1 && cfg.inOrder)
    ensures Reachable(cfg, t) && Doomed(cfg, t)
  {
    if m == k || cfg.maxWorkers > 1 {
      OvertakeInOrder(cfg, k, m);
    } else {
      AllButOne(cfg, k, m);
      FetchLast(cfg, k, m + 1);
    }
    t := ParkForever(cfg, k, m);
  }

  /** Walk the write loop forward until the chunks j..m are the first that do not fit. */
  lemma {:induction false} WalkToDoom(cfg: Config, j: nat, k: nat, m: nat) returns (t: State)
    requires cfg.WellFormed() && j <= k <= m < cfg.N() && cfg.FirstFetch() <= k && m <= cfg.Bound(k)
    requires cfg.maxWorkers >= 1 && (cfg.prefetchAhead >= 1 || cfg.race) && Reachable(cfg, Quiet(cfg, j))
    requires BytesBetween(cfg, k, m + 1) > cfg.maxBufferBytes
    requires m == k || !(cfg.maxWorkers == 1 && cfg.inOrder)
    ensures Reachable(cfg, t) && Doomed(cfg, t)
    decreases cfg.N() - j
  {
    if cfg.FirstFetch() <= j && cfg.Size(j) > cfg.maxBufferBytes {
      BytesSplit(cfg, j, j + 1);
      t := OvertakeAndPark(cfg, j, j);
    } else if j == k && BytesBetween(cfg, k + 1, m + 1) <= cfg.maxBufferBytes {
      t := OvertakeAndPark(cfg, k, m);
    } else {
      AdvanceOne(cfg, j);
      ExtendReach(cfg, Quiet(cfg, j), Quiet(cfg, j + 1));
      t := WalkToDoom(cfg, j + 1, if j == k then k + 1 else k, m);
    }
  }

  lemma ReachFirstFetch(cfg: Config)
    requires cfg.WellFormed() && cfg.FirstFetch() < cfg.N()
    ensures Reachable(cfg, Quiet(cfg, cfg.FirstFetch()))
  {
    InitIsQuiet(cfg);
    assert Runs(cfg, Init(cfg), [], Quiet(cfg, 0));
    if cfg.race {
      AdvanceOne(cfg, 0);
      ExtendReach(cfg, Quiet(cfg, 0), Quiet(cfg, 1));
    }
  }

  /** A configuration that breaks the condition at chunk k has a run that hangs. */
  lemma HangsSomewhere(cfg: Config, k: nat) returns (t: State)
    requires cfg.WellFormed() && cfg.FirstFetch() <= k < cfg.N()
    requires cfg.maxWorkers == 0 || (cfg.prefetchAhead == 0 && !cfg.race) || Load(cfg, k) > cfg.maxBufferBytes
    ensures Reachable(cfg, t) && Shaped(cfg, t) && Stuck(cfg, t)
  {
    var f := cfg.FirstFetch();
    ReachFirstFetch(cfg);
    var doomed: State;
    if cfg.maxWorkers == 0 || (cfg.prefetchAhead == 0 && !cfg.race) {
      doomed := Quiet(cfg, f);
      ReachableKeeps(cfg, doomed);
    } else {
      var last: int := if cfg.maxWorkers == 1 && cfg.inOrder then k else cfg.Bound(k);
      var m: nat := if last < cfg.N() then last else cfg.N() - 1;
      WindowIsBytes(cfg, k, m);
      if last != k || !(cfg.maxWorkers == 1 && cfg.inOrder) {
        assert SizesBetween(cfg, k, cfg.Bound(k)) == SizesBetween(cfg, k, m);
      } else {
        BytesSplit(cfg, k, k + 1);
      }
      doomed := WalkToDoom(cfg, f, k, m);
    }
    t := DoomedGetsStuck(cfg, doomed);
  }

  // ------------------------------------------------------------------ the exact condition

  /** Deadlock freedom, exactly: no run of the pipeline hangs if and only if every chunk's
      window fits into the buffer, there is a worker, and the first gate opens. Fetches may fail
      or succeed and interleave in any way. */
  lemma {:induction false} HangFreeExactly(cfg: Config)
    requires cfg.WellFormed()
    ensures FlowsFreely(cfg) <==> forall s :: Reachable(cfg, s) ==> Shaped(cfg, s) && !Stuck(cfg, s)
  {
    if FlowsFreely(cfg) {
      forall s | Reachable(cfg, s)
        ensures Shaped(cfg, s) && !Stuck(cfg, s)
      {
        NeverStuck(cfg, s);
      }
    } else {
      var k :| cfg.FirstFetch() <= k < cfg.N() &&
               !(cfg.maxWorkers >= 1 && (cfg.prefetchAhead >= 1 || cfg.race) && Load(cfg, k) <= cfg.maxBufferBytes);
      var t := HangsSomewhere(cfg, k);
      assert Reachable(cfg, t) && Stuck(cfg, t);
    }
  }

  /** Total correctness: under the condition every run is finite, and one that cannot go on has
      ended its loop, either with the whole window delivered or because a fetch or the client
      failed. */
  lemma {:induction false} EveryRunEnds(cfg: Config, evs: seq<Event>, s: State)
    requires cfg.WellFormed() && FlowsFreely(cfg) && Runs(cfg, Init(cfg), evs, s)
    ensures |evs| <= Measure(cfg, Init(cfg))
    ensures Shaped(cfg, s) && (Quiescent(cfg, s) ==> s.Final())
    ensures s.writer.Finished? ==> s.output == cfg.resource[cfg.lo..cfg.hi + 1]
    ensures s.writer.Aborted? && s.writer.failedAt >= 0 ==>
              s.next in s.results && s.results[s.next].Failed? && s.writer.failedAt == s.next
  {
    InvInit(cfg);
    RunsAreBounded(cfg, Init(cfg), evs, s);
    NeverStuck(cfg, s);
    ReachableKeeps(cfg, s);
    JoinedIsPrefix(cfg.resource, cfg.ranges, cfg.lo, cfg.hi, cfg.N());
  }

  /** A rule of thumb that implies the condition: one worker at least, prefetch at least one
      ahead, and room for twice the prefetch distance in chunks of the largest size. */
  lemma DoubleWindowSuffices(cfg: Config, largest: nat)
    requires cfg.WellFormed() && cfg.maxWorkers >= 1 && cfg.prefetchAhead >= 1
    requires forall i :: 0 <= i < cfg.N() ==> cfg.Size(i) <= largest
    requires 2 * cfg.prefetchAhead * largest <= cfg.maxBufferBytes
    ensures FlowsFreely(cfg)
  {
    forall k | cfg.FirstFetch() <= k < cfg.N()
      ensures Load(cfg, k) <= cfg.maxBufferBytes
    {
      WindowAtMost(cfg, k, largest);
    }
  }

  lemma WindowAtMost(cfg: Config, k: nat, largest: nat)
    requires cfg.WellFormed() && k < cfg.N() && cfg.prefetchAhead >= 1
    requires forall i :: 0 <= i < cfg.N() ==> cfg.Size(i) <= largest
    ensures cfg.Size(k) <= 2 * cfg.prefetchAhead * largest
    ensures WindowBytes(cfg, k) <= 2 * cfg.prefetchAhead * largest
  {
    var m: nat := if cfg.Bound(k) < cfg.N() then cfg.Bound(k) else cfg.N() - 1;
    WindowIsBytes(cfg, k, m);
    assert SizesBetween(cfg, k, cfg.Bound(k)) == SizesBetween(cfg, k, m);
    BytesAtMost(cfg, k, m + 1, largest);
    ScaleUp(m + 1 - k, 2 * cfg.prefetchAhead, largest);
    ScaleUp(1, 2 * cfg.prefetchAhead, largest);
  }

  lemma ScaleUp(a: nat, b: nat, c: nat)
    requires a <= b
    ensures a * c <= b * c
  {
    assert b * c == a * c + (b - a) * c;
  }

  lemma {:induction false} BytesAtMost(cfg: Config, a: nat, b: nat, largest: nat)
    requires a <= b <= cfg.N() && forall i :: 0 <= i < cfg.N() ==> cfg.Size(i) <= largest
    ensures BytesBetween(cfg, a, b) <= (b - a) * largest
    decreases b
  {
    if a < b {
      BytesAtMost(cfg, a, b - 1, largest);
      assert (b - a) * largest == (b - 1 - a) * largest + largest;
    }
  }
}
