/** The streaming download pipeline (proxy/streaming/progressive.py): one write loop and one
    task per chunk, as a transition system whose steps run from one `await` to the next.
    asyncio runs one task at a time, so everything between two awaits is one step; the lock
    around the byte counter is never held across an await and needs no state of its own. An await
    that need not wait (an event already set, a free slot) ends a step all the same, so the
    system has all runs of the code and some in which another task comes in between. */
module Pipeline {
  import opened Ranges

  /** What `send` is called with. `race` is the chunk-0 race; `inOrder` says that the worker
      semaphore serves the tasks first come first served, so in index order (the event loop
      starts them in index order and the gates open in index order). Without it any waiting
      task may take a free slot: that covers every semaphore, and need not be any one. */
  datatype Config = Config(resource: Bytes, lo: nat, hi: nat, ranges: seq<Range>, prefetchAhead: nat,
                           maxWorkers: nat, maxBufferBytes: nat, race: bool, inOrder: bool)
  {
    function N(): nat { |ranges| }

    /** Tasks from here on use gate, slot and quota; the raced chunk 0 uses none of them. */
    function FirstFetch(): nat { if race then 1 else 0 }

    ghost predicate WellFormed() {
      && lo <= hi < |resource| && IsPartition(ranges, lo, hi) && |ranges| > 0
      && forall i :: 0 <= i < |ranges| ==> ranges[i].first <= ranges[i].last < |resource|
    }

    function Chunk(i: nat): Bytes
      requires i < N() && ranges[i].first <= ranges[i].last < |resource|
    {
      Slice(resource, ranges[i])
    }

    function Size(i: nat): nat
      requires i < N()
    {
      ranges[i].Size()
    }

    function GateIndex(i: nat): nat { if i < prefetchAhead then 0 else i - prefetchAhead }

    /** The last index whose gate is open once the chunks below k are written. */
    function Bound(k: nat): int {
      if 2 * prefetchAhead - 1 > k + prefetchAhead then 2 * prefetchAhead - 1 else k + prefetchAhead
    }
  }

  /** Where a chunk's task stands. A parked task holds its slot and waits for buffer space; one
      that wants space has been woken and is about to ask again. */
  datatype Phase =
    | AtGate
    | AtSemaphore
    | Fetching
    | WantsSpace(data: Bytes)
    | Parked(data: Bytes)
    | Racing(pending: nat)
    | Done
  {
    predicate HoldsSlot() { Fetching? || WantsSpace? || Parked? }

    predicate BeforeSlot() { AtGate? || AtSemaphore? }
  }

  /** Where the write loop stands: awaiting ready[next], awaiting the socket, or past the loop. */
  datatype Writer = Awaiting | Writing(data: Bytes) | Finished | Aborted(failedAt: int)

  datatype State = State(
    phase: seq<Phase>,
    gate: seq<bool>,
    ready: seq<bool>,
    slots: nat,
    bufBytes: nat,
    hasSpace: bool,
    results: map<nat, Outcome>,
    next: nat,
    writer: Writer,
    output: Bytes)
  {
    predicate Final() { writer.Finished? || writer.Aborted? }
  }

  datatype Event =
    | TakeGate(i: nat)
    | TakeSlot(i: nat)
    | FetchReturns(i: nat)
    | FetchRaises(i: nat)
    | Reserve(i: nat)
    | RaceWon
    | RacerFails
    | BeginWrite
    | EndWrite
    | WriteRaises(sent: nat)
    | SeeFailure

  function Init(cfg: Config): State {
    State(
      seq(cfg.N(), i => if cfg.race && i == 0 then Racing(2) else AtGate),
      seq(cfg.N(), i => i < cfg.prefetchAhead),
      seq(cfg.N(), i => false),
      cfg.maxWorkers, 0, true, map[], 0, if cfg.N() == 0 then Finished else Awaiting, [])
  }

  /** All lists have one entry per chunk. */
  ghost predicate Shaped(cfg: Config, s: State) {
    |s.phase| == |s.gate| == |s.ready| == cfg.N()
  }

  predicate Enabled(cfg: Config, s: State, ev: Event)
    requires Shaped(cfg, s)
  {
    !s.Final() &&
    match ev
    case TakeGate(i) => i < cfg.N() && s.phase[i].AtGate? && s.gate[cfg.GateIndex(i)]
    case TakeSlot(i) => i < cfg.N() && s.phase[i].AtSemaphore? && s.slots > 0
                        && (cfg.inOrder ==> forall j :: 0 <= j < i ==> !s.phase[j].BeforeSlot())
    case FetchReturns(i) => i < cfg.N() && s.phase[i].Fetching?
    case FetchRaises(i) => i < cfg.N() && s.phase[i].Fetching?
    case Reserve(i) => i < cfg.N() && s.phase[i].WantsSpace?
    case RaceWon => cfg.race && 0 < cfg.N() && s.phase[0].Racing?
    case RacerFails => cfg.race && 0 < cfg.N() && s.phase[0].Racing?
    case BeginWrite => s.writer.Awaiting? && s.next < cfg.N() && s.ready[s.next]
                       && s.next in s.results && s.results[s.next].Data?
    case SeeFailure => s.writer.Awaiting? && s.next < cfg.N() && s.ready[s.next]
                       && s.next in s.results && s.results[s.next].Failed?
    case EndWrite => s.writer.Writing? && s.next < cfg.N()
    case WriteRaises(sent) => s.writer.Writing? && sent <= |s.writer.data|
  }

  /** `results[i] = ...; ready[i].set()`, giving the slot back when the task held one. */
  function Store(s: State, i: nat, outcome: Outcome): State
    requires i < |s.phase| == |s.ready|
  {
    s.(phase := s.phase[i := Done],
       ready := s.ready[i := true],
       results := s.results[i := outcome],
       slots := if s.phase[i].HoldsSlot() then s.slots + 1 else s.slots)
  }

  /** One round of the quota loop: the chunk is stored if it fits, else its task parks. */
  function AskForSpace(cfg: Config, s: State, i: nat, data: Bytes): State
    requires i < |s.phase| == |s.ready|
  {
    if s.bufBytes + |data| <= cfg.maxBufferBytes then
      Store(s, i, Data(data)).(bufBytes := s.bufBytes + |data|)
    else
      s.(phase := s.phase[i := Parked(data)], hasSpace := false)
  }

  /** `_buf_has_space.set()` resumes every task waiting for it. */
  function Wake(phase: seq<Phase>): seq<Phase> {
    seq(|phase|, i requires 0 <= i < |phase| => if phase[i].Parked? then WantsSpace(phase[i].data) else phase[i])
  }

  ghost function Apply(cfg: Config, s: State, ev: Event): State
    requires cfg.WellFormed() && Shaped(cfg, s) && Enabled(cfg, s, ev)
  {
    match ev
    case TakeGate(i) => s.(phase := s.phase[i := AtSemaphore])
    case TakeSlot(i) => s.(phase := s.phase[i := Fetching], slots := s.slots - 1)
    case FetchReturns(i) => AskForSpace(cfg, s, i, cfg.Chunk(i))
    case FetchRaises(i) => Store(s, i, Failed)
    case Reserve(i) => AskForSpace(cfg, s, i, s.phase[i].data)
    case RaceWon => Store(s, 0, Data(cfg.Chunk(0)))
    case RacerFails =>
      if s.phase[0].pending > 1 then s.(phase := s.phase[0 := Racing(s.phase[0].pending - 1)])
      else Store(s, 0, Failed)
    case BeginWrite => s.(writer := Writing(s.results[s.next].bytes))
    case SeeFailure => s.(writer := Aborted(s.next))
    case EndWrite =>
      var data := s.writer.data;
      s.(output := s.output + data,
         bufBytes := if s.bufBytes >= |data| then s.bufBytes - |data| else 0,
         hasSpace := true,
         phase := Wake(s.phase),
         gate := if s.next + 1 < cfg.N() then s.gate[s.next + 1 := true] else s.gate,
         next := s.next + 1,
         writer := if s.next + 1 < cfg.N() then Awaiting else Finished)
    case WriteRaises(sent) => s.(output := s.output + s.writer.data[..sent], writer := Aborted(-1))
  }

  /** One run from s to t. */
  ghost predicate Runs(cfg: Config, s: State, evs: seq<Event>, t: State)
    requires cfg.WellFormed()
    decreases |evs|
  {
    Shaped(cfg, s) &&
    if evs == [] then s == t
    else Enabled(cfg, s, evs[0]) && Runs(cfg, Apply(cfg, s, evs[0]), evs[1..], t)
  }

  ghost predicate Reachable(cfg: Config, s: State)
    requires cfg.WellFormed()
  {
    exists evs :: Runs(cfg, Init(cfg), evs, s)
  }

  /** A run can be continued by any enabled step. */
  lemma ReachableStep(cfg: Config, s: State, ev: Event)
    requires cfg.WellFormed() && Shaped(cfg, s) && Reachable(cfg, s) && Enabled(cfg, s, ev)
    requires Shaped(cfg, Apply(cfg, s, ev))
    ensures Reachable(cfg, Apply(cfg, s, ev))
  {
    var evs :| Runs(cfg, Init(cfg), evs, s);
    var t := Apply(cfg, s, ev);
    assert [ev][1..] == [];
    assert Runs(cfg, s, [ev], t);
    RunsCompose(cfg, Init(cfg), evs, s, [ev], t);
  }

  ghost predicate Quiescent(cfg: Config, s: State)
    requires Shaped(cfg, s)
  {
    forall ev :: !Enabled(cfg, s, ev)
  }

  /** A stuck pipeline: the loop has not ended and nothing can move. */
  ghost predicate Stuck(cfg: Config, s: State)
    requires Shaped(cfg, s)
  {
    !s.Final() && Quiescent(cfg, s)
  }

  lemma {:induction false} RunsCompose(cfg: Config, s: State, e1: seq<Event>, t: State, e2: seq<Event>, u: State)
    requires cfg.WellFormed() && Runs(cfg, s, e1, t) && Runs(cfg, t, e2, u)
    ensures Runs(cfg, s, e1 + e2, u)
    decreases |e1|
  {
    if e1 == [] {
      assert e1 + e2 == e2;
    } else {
      assert (e1 + e2)[1..] == e1[1..] + e2;
      RunsCompose(cfg, Apply(cfg, s, e1[0]), e1[1..], t, e2, u);
    }
  }
}
