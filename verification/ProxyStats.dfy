/** The per-proxy counters (proxy/stats/proxy_stats.py) with the memoised score. */
module ProxyStatistics {
  import opened Wrappers
  import opened Ranges
  import opened Score

  /** One line of the event window. */
  datatype Happened = Happened(stamp: real, success: bool, latency: real)

  /** One entry of `_data`. */
  datatype Entry = Entry(success: nat, failure: nat, bytes: nat, streak: nat, latencies: seq<Sample>,
                         events: seq<Happened>, memo: Option<real>)

  const NewEntry := Entry(0, 0, 0, 0, [], [], None)

  const MaxSamples: nat := 100

  const MaxEvents: nat := 1000

  /** `deque(maxlen=cap).append`. */
  function Append<T>(items: seq<T>, x: T, cap: nat): seq<T>
    requires cap > 0
  {
    if |items| < cap then items + [x] else items[|items| - cap + 1..] + [x]
  }

  function AfterSuccess(e: Entry, now: real, latency: real, nbytes: nat): Entry {
    Entry(e.success + 1, e.failure, e.bytes + nbytes, 0, Append(e.latencies, Sample(now, latency), MaxSamples),
          Append(e.events, Happened(now, true, latency), MaxEvents), None)
  }

  function AfterSeed(e: Entry, now: real, latency: real, nbytes: nat): Entry {
    AfterSuccess(e, now, latency, nbytes).(streak := e.streak)
  }

  function AfterFailure(e: Entry, now: real): Entry {
    e.(failure := e.failure + 1, streak := e.streak + 1,
       events := Append(e.events, Happened(now, false, 0.0), MaxEvents), memo := None)
  }

  /** The score of an entry computed from scratch. */
  ghost function Fresh(decay: Decay, e: Entry, now: real): real
    requires IsDecay(decay) && NonNegative(e.latencies)
  {
    ScoreAt(decay, e.success, e.failure, e.latencies, now)
  }

  // ------------------------------------------------------------------ the memo

  /** Nothing is stamped in the future, and a memoised score is the score of this moment. */
  ghost predicate Coherent(decay: Decay, e: Entry, now: real)
    requires IsDecay(decay)
  {
    && NonNegative(e.latencies) && StampedBy(e.latencies, now)
    && (e.memo.Some? ==> e.memo.value == Fresh(decay, e, now))
  }

  /** Time alone does not make a memo stale. */
  lemma CoherenceLasts(decay: Decay, e: Entry, now: real, later: real)
    requires IsDecay(decay) && Coherent(decay, e, now) && now <= later
    ensures Coherent(decay, e, later)
  {
    ScoreDoesNotAge(decay, e.success, e.failure, e.latencies, now, later);
  }

  datatype Op =
    | Success(latency: real, nbytes: nat)
    | Failure
    | Seed(latency: real, nbytes: nat)
    | ResetStreak
    | ReadScore

  /** An operation and the clock reading it used. */
  datatype Timed = Timed(op: Op, now: real)

  ghost function StepEntry(decay: Decay, e: Entry, t: Timed): Entry
    requires IsDecay(decay) && NonNegative(e.latencies)
  {
    match t.op
    case Success(latency, nbytes) => AfterSuccess(e, t.now, latency, nbytes)
    case Failure => AfterFailure(e, t.now)
    case Seed(latency, nbytes) => AfterSeed(e, t.now, latency, nbytes)
    case ResetStreak => e.(streak := 0)
    case ReadScore => if e.memo.Some? then e else e.(memo := Some(Fresh(decay, e, t.now)))
  }

  /** Measured latencies are not negative. */
  predicate Measured(t: Timed) {
    match t.op
    case Success(latency, _) => latency >= 0.0
    case Seed(latency, _) => latency >= 0.0
    case _ => true
  }

  lemma StepKeepsCoherent(decay: Decay, e: Entry, t: Timed, before: real)
    requires IsDecay(decay) && Coherent(decay, e, before) && before <= t.now && Measured(t)
    ensures Coherent(decay, StepEntry(decay, e, t), t.now)
  {
    CoherenceLasts(decay, e, before, t.now);
  }

  /** A log of operations whose clock never steps back. */
  ghost predicate Chronological(ops: seq<Timed>) {
    && (forall i :: 0 <= i < |ops| ==> Measured(ops[i]))
    && (forall i, j :: 0 <= i < j < |ops| ==> ops[i].now <= ops[j].now)
  }

  ghost function Run(decay: Decay, ops: seq<Timed>): (e: Entry)
    requires IsDecay(decay) && Chronological(ops)
    ensures NonNegative(e.latencies)
  {
    if ops == [] then NewEntry else StepEntry(decay, Run(decay, ops[..|ops| - 1]), ops[|ops| - 1])
  }

  /** Memo coherence over all runs: whatever was recorded and read before, in any order, a memoised
      score equals the score recomputed from scratch at any later moment. */
  lemma {:induction false} MemoIsCoherent(decay: Decay, ops: seq<Timed>, later: real)
    requires IsDecay(decay) && Chronological(ops) && forall i :: 0 <= i < |ops| ==> ops[i].now <= later
    ensures var e := Run(decay, ops); Coherent(decay, e, later)
    ensures var e := Run(decay, ops); e.memo.Some? ==> e.memo.value == Fresh(decay, e, later)
  {
    if ops != [] {
      var n := |ops| - 1;
      MemoIsCoherent(decay, ops[..n], ops[n].now);
      StepKeepsCoherent(decay, Run(decay, ops[..n]), ops[n], ops[n].now);
      CoherenceLasts(decay, Run(decay, ops), ops[n].now, later);
    }
  }

  // ------------------------------------------------------------------ what the counters count

  function Successes(ops: seq<Timed>): nat {
    if ops == [] then 0
    else Successes(ops[..|ops| - 1]) + if ops[|ops| - 1].op.Success? || ops[|ops| - 1].op.Seed? then 1 else 0
  }

  function Failures(ops: seq<Timed>): nat {
    if ops == [] then 0 else Failures(ops[..|ops| - 1]) + if ops[|ops| - 1].op.Failure? then 1 else 0
  }

  function Bytes(ops: seq<Timed>): nat {
    if ops == [] then 0
    else Bytes(ops[..|ops| - 1]) + match ops[|ops| - 1].op case Success(_, n) => n case Seed(_, n) => n case _ => 0
  }

  /** The failures since the last success or reset; a seeded sample does not interrupt them. */
  function FailuresInARow(ops: seq<Timed>): nat {
    if ops == [] || ops[|ops| - 1].op.Success? || ops[|ops| - 1].op.ResetStreak? then 0
    else FailuresInARow(ops[..|ops| - 1]) + if ops[|ops| - 1].op.Failure? then 1 else 0
  }

  function Samples(ops: seq<Timed>): seq<Sample> {
    if ops == [] then []
    else
      var t := ops[|ops| - 1];
      Samples(ops[..|ops| - 1]) + match t.op case Success(l, _) => [Sample(t.now, l)] case Seed(l, _) => [Sample(t.now, l)] case _ => []
  }

  function Events(ops: seq<Timed>): seq<Happened> {
    if ops == [] then []
    else
      var t := ops[|ops| - 1];
      Events(ops[..|ops| - 1])
      + match t.op
        case Success(l, _) => [Happened(t.now, true, l)]
        case Seed(l, _) => [Happened(t.now, true, l)]
        case Failure => [Happened(t.now, false, 0.0)]
        case _ => []
  }

  function LastOf<T>(items: seq<T>, n: nat): seq<T> { if |items| <= n then items else items[|items| - n..] }

  lemma AppendToLast<T>(items: seq<T>, x: T, cap: nat)
    requires cap > 0
    ensures Append(LastOf(items, cap), x, cap) == LastOf(items + [x], cap)
  {
  }

  /** After any run the counters are the counts of what happened, the streak is the failures in a row,
      and the two windows hold the last 100 samples and the last 1000 events in order. */
  lemma {:induction false} RunCounts(decay: Decay, ops: seq<Timed>)
    requires IsDecay(decay) && Chronological(ops)
    ensures var e := Run(decay, ops);
            && e.success == Successes(ops) && e.failure == Failures(ops) && e.bytes == Bytes(ops)
            && e.streak == FailuresInARow(ops)
            && e.latencies == LastOf(Samples(ops), 100) && e.events == LastOf(Events(ops), 1000)
  {
    if ops != [] {
      var n := |ops| - 1;
      var before, t := Run(decay, ops[..n]), ops[n];
      RunCounts(decay, ops[..n]);
      match t.op
      case Success(l, _) =>
        AppendToLast(Samples(ops[..n]), Sample(t.now, l), 100);
        AppendToLast(Events(ops[..n]), Happened(t.now, true, l), 1000);
      case Seed(l, _) =>
        AppendToLast(Samples(ops[..n]), Sample(t.now, l), 100);
        AppendToLast(Events(ops[..n]), Happened(t.now, true, l), 1000);
      case Failure =>
        AppendToLast(Events(ops[..n]), Happened(t.now, false, 0.0), 1000);
      case _ =>
    }
  }

  // ------------------------------------------------------------------ the object

  // ------------------------------------------------------------------ all scores in order

  predicate Ascending(scores: seq<real>) {
    forall i, j :: 0 <= i < j < |scores| ==> scores[i] <= scores[j]
  }

  ghost predicate NonNegativeData(data: map<Url, Entry>) {
    forall u :: u in data ==> NonNegative(data[u].latencies)
  }

  /** Entry i of the list is the score of proxy order[i], and no proxy is listed twice. */
  ghost predicate ScoresOf(decay: Decay, data: map<Url, Entry>, order: seq<Url>, scores: seq<real>, now: real)
    requires IsDecay(decay) && NonNegativeData(data)
  {
    && |scores| == |order|
    && (forall i :: 0 <= i < |order| ==> order[i] in data && scores[i] == Fresh(decay, data[order[i]], now))
    && (forall i, j :: 0 <= i < j < |order| ==> order[i] != order[j])
  }

  predicate SameButMemos(before: map<Url, Entry>, after: map<Url, Entry>) {
    before.Keys == after.Keys && forall u :: u in before ==> before[u].(memo := None) == after[u].(memo := None)
  }

  /** Where a score belongs in an ascending list. */
  function Place(scores: seq<real>, s: real): (i: nat)
    ensures i <= |scores|
  {
    if scores == [] || scores[|scores| - 1] <= s then |scores| else Place(scores[..|scores| - 1], s)
  }

  function Placed(scores: seq<real>, s: real): seq<real> {
    scores[..Place(scores, s)] + [s] + scores[Place(scores, s)..]
  }

  lemma {:induction false} PlacedAscends(scores: seq<real>, s: real)
    requires Ascending(scores)
    ensures Ascending(Placed(scores, s))
  {
    if scores != [] && scores[|scores| - 1] > s {
      var n := |scores| - 1;
      PlacedAscends(scores[..n], s);
      var shorter := Placed(scores[..n], s);
      assert Placed(scores, s) == shorter + [scores[n]];
      PlacedWithin(scores[..n], s);
      assert forall x :: x in shorter ==> x <= scores[n];
      AppendAscends(shorter, scores[n]);
    }
  }

  lemma PlacedWithin(scores: seq<real>, s: real)
    ensures forall x :: x in Placed(scores, s) ==> x == s || x in scores
  {
  }

  lemma AppendAscends(scores: seq<real>, x: real)
    requires Ascending(scores) && forall y :: y in scores ==> y <= x
    ensures Ascending(scores + [x])
  {
    forall i | 0 <= i < |scores|
      ensures scores[i] <= x
    {
      assert scores[i] in scores;
    }
  }

  lemma SameWithEntry(before: map<Url, Entry>, after: map<Url, Entry>, url: Url, e: Entry, f: Entry)
    requires SameButMemos(before, after) && e.(memo := None) == f.(memo := None)
    ensures SameButMemos(before[url := e], after[url := f])
  {
  }

  lemma PlacedScore(decay: Decay, data: map<Url, Entry>, order: seq<Url>, scores: seq<real>, now: real, i: nat, u: Url)
    requires IsDecay(decay) && NonNegativeData(data) && ScoresOf(decay, data, order, scores, now)
    requires i <= |order| && u in data && u !in order
    ensures var s := Fresh(decay, data[u], now);
            ScoresOf(decay, data, order[..i] + [u] + order[i..], scores[..i] + [s] + scores[i..], now)
  {
    var longer := order[..i] + [u] + order[i..];
    assert forall k :: 0 <= k < |longer| ==> longer[k] == if k < i then order[k] else if k == i then u else order[k - 1];
  }

  function KnownIn(data: map<Url, Entry>, url: Url): Entry { if url in data then data[url] else NewEntry }

  class ProxyStats {
    const decay: Decay
    var data: map<Url, Entry>
    ghost var clock: real

    ghost predicate Valid()
      reads this
    {
      IsDecay(decay) && forall url :: url in data ==> Coherent(decay, data[url], clock)
    }

    /** The clock the next call reads has not stepped back. */
    ghost predicate Ready(now: real)
      reads this
    {
      Valid() && clock <= now
    }

    constructor (decay: Decay, ghost now: real)
      requires IsDecay(decay)
      ensures Valid() && this.decay == decay && data == map[] && clock == now
    {
      this.decay := decay;
      data := map[];
      clock := now;
    }

    ghost function Known(url: Url): Entry
      reads this
    {
      KnownIn(data, url)
    }

    lemma Advance(now: real)
      requires Ready(now)
      ensures forall url :: url in data ==> Coherent(decay, data[url], now)
    {
      forall url | url in data
        ensures Coherent(decay, data[url], now)
      {
        CoherenceLasts(decay, data[url], clock, now);
      }
    }

    /** `_entry`. */
    method EnsureEntry(url: Url)
      modifies this`data
      ensures data == old(data)[url := old(Known(url))]
    {
      if url !in data {
        data := data[url := NewEntry];
      } else {
        assert data == data[url := data[url]];
      }
    }

    method RecordSuccess(url: Url, nbytes: nat, latency: real, now: real)
      requires Ready(now) && latency >= 0.0
      modifies this
      ensures Valid() && clock == now
      ensures data == old(data)[url := AfterSuccess(old(Known(url)), now, latency, nbytes)]
    {
      Advance(now);
      EnsureEntry(url);
      clock := now;
      var e := data[url];
      e := e.(success := e.success + 1, bytes := e.bytes + nbytes);
      e := e.(latencies := Append(e.latencies, Sample(now, latency), MaxSamples), streak := 0);
      e := e.(events := Append(e.events, Happened(now, true, latency), MaxEvents), memo := None);
      data := data[url := e];
    }

    method SeedLatency(url: Url, latency: real, nbytes: nat, now: real)
      requires Ready(now) && latency >= 0.0
      modifies this
      ensures Valid() && clock == now
      ensures data == old(data)[url := AfterSeed(old(Known(url)), now, latency, nbytes)]
    {
      Advance(now);
      EnsureEntry(url);
      clock := now;
      var e := data[url];
      e := e.(latencies := Append(e.latencies, Sample(now, latency), MaxSamples), bytes := e.bytes + nbytes,
              success := e.success + 1);
      e := e.(events := Append(e.events, Happened(now, true, latency), MaxEvents), memo := None);
      data := data[url := e];
    }

    method RecordFailure(url: Url, now: real) returns (consecutive: nat)
      requires Ready(now)
      modifies this
      ensures Valid() && clock == now && consecutive == old(Known(url)).streak + 1
      ensures data == old(data)[url := AfterFailure(old(Known(url)), now)]
    {
      Advance(now);
      EnsureEntry(url);
      clock := now;
      var e := data[url];
      e := e.(failure := e.failure + 1, streak := e.streak + 1);
      data := data[url := e.(events := Append(e.events, Happened(now, false, 0.0), MaxEvents), memo := None)];
      consecutive := data[url].streak;
    }

    method ResetConsecutiveFailures(url: Url)
      requires Valid()
      modifies this`data
      ensures Valid() && data == old(data)[url := old(Known(url)).(streak := 0)]
    {
      EnsureEntry(url);
      data := data[url := data[url].(streak := 0)];
    }

    method Evict(url: Url)
      requires Valid()
      modifies this`data
      ensures Valid() && data == old(data) - {url}
    {
      data := data - {url};
    }

    /** `score`: the memo if there is one, else computed and memoised. Either way it is the score
        of this very moment, and nothing but the memo changes. */
    method ReadScore(url: Url, now: real) returns (s: real)
      requires Ready(now)
      modifies this
      ensures Valid() && clock == now
      ensures url !in old(data) ==> s == 0.5 && data == old(data)
      ensures url in old(data) ==> NonNegative(old(data)[url].latencies) && s == Fresh(decay, old(data)[url], now)
                                   && data == old(data)[url := old(data)[url].(memo := Some(s))]
    {
      Advance(now);
      clock := now;
      if url !in data {
        return 0.5;
      }
      var e := data[url];
      if e.memo.Some? {
        s := e.memo.value;
        assert data == data[url := e.(memo := Some(s))];
      } else {
        s := ComputeScore(e, now);
        data := data[url := e.(memo := Some(s))];
      }
    }

    /** One score among others: `before` is the data when the first of them was read. */
    method ScoreOfOne(url: Url, now: real, ghost before: map<Url, Entry>) returns (s: real)
      requires Ready(now) && SameButMemos(before, data) && NonNegativeData(before) && url in before
      modifies this
      ensures Valid() && clock == now && SameButMemos(before, data) && s == Fresh(decay, before[url], now)
    {
      ghost var e := data[url];
      assert e.(memo := None) == before[url].(memo := None);
      s := ReadScore(url, now);
      SameWithEntry(before, old(data), url, before[url], e.(memo := Some(s)));
      assert before[url := before[url]] == before;
    }

    /** Every score of this moment in ascending order; `order` names the proxies they belong to. */
    method SortedScores(now: real) returns (scores: seq<real>, ghost order: seq<Url>)
      requires Ready(now)
      modifies this
      ensures Valid() && clock == now && SameButMemos(old(data), data)
      ensures forall u :: u in order <==> u in old(data)
      ensures NonNegativeData(old(data)) && Ascending(scores) && ScoresOf(decay, old(data), order, scores, now)
    {
      Advance(now);
      clock := now;
      scores, order := [], [];
      assert NonNegativeData(data);
      var todo := data.Keys;
      while todo != {}
        invariant Valid() && clock == now && SameButMemos(old(data), data) && todo <= old(data).Keys
        invariant forall u :: u in order <==> u in old(data) && u !in todo
        invariant NonNegativeData(old(data)) && Ascending(scores) && ScoresOf(decay, old(data), order, scores, now)
      {
        var u :| u in todo;
        var s := ScoreOfOne(u, now, old(data));
        ghost var i := Place(scores, s);
        PlacedAscends(scores, s);
        PlacedScore(decay, old(data), order, scores, now, i, u);
        scores := Placed(scores, s);
        order := order[..i] + [u] + order[i..];
        todo := todo - {u};
      }
    }

    /** `per_proxy_chunk_size`: by this proxy's score against the median of all scores. */
    method PerProxyChunkSize(url: Url, base: nat, minimum: nat, maximum: nat, now: real)
      returns (size: nat, ghost scores: seq<real>, ghost order: seq<Url>)
      requires Ready(now)
      modifies this
      ensures Valid() && clock == now && SameButMemos(old(data)[url := old(Known(url))], data)
      ensures forall u :: u in order <==> u in old(data)
      ensures NonNegativeData(old(data)) && Ascending(scores) && ScoresOf(decay, old(data), order, scores, now)
      ensures NonNegative(old(Known(url)).latencies) && Fresh(decay, old(Known(url)), now) >= 0.0
      ensures size == ChunkSizeFor(scores, Fresh(decay, old(Known(url)), now), base, minimum, maximum)
    {
      var all;
      all, order := SortedScores(now);
      scores := all;
      var mine := OwnScore(url, now, old(data));
      size := ChunkSizeFor(all, mine, base, minimum, maximum);
    }

    /** `self._score(self._entry(url))`, after the scores of all entries in `before`. */
    method OwnScore(url: Url, now: real, ghost before: map<Url, Entry>) returns (s: real)
      requires Ready(now) && SameButMemos(before, data) && NonNegativeData(before)
      modifies this
      ensures Valid() && clock == now && SameButMemos(before[url := KnownIn(before, url)], data)
      ensures NonNegative(KnownIn(before, url).latencies) && s == Fresh(decay, KnownIn(before, url), now) >= 0.0
    {
      ghost var known := KnownIn(before, url);
      SameWithEntry(before, data, url, known, Known(url));
      EnsureEntry(url);
      s := ScoreOfOne(url, now, before[url := known]);
      ScoreBetweenZeroAndOne(decay, known.success, known.failure, known.latencies, now);
    }

    /** The calculation in `_score`. */
    method ComputeScore(e: Entry, now: real) returns (result: real)
      requires IsDecay(decay) && NonNegative(e.latencies)
      ensures result == Fresh(decay, e, now)
    {
      var sr := SuccessRate(e.success, e.failure);
      if e.latencies == [] {
        return sr / 2.0;
      }
      var ws := Weigh(decay, e.latencies, now);
      BlendNonNegative(decay, e.latencies, now);
      WeighPositive(decay, e.latencies, now);
      WeightUpToBounds(ws, 0.0);
      var avg := WeightedSum(ws) / TotalWeight(ws);
      var blend := avg;
      if |e.latencies| >= 5 {
        var p95 := WeightedP95(ws);
        QuantileIsUnique(ws, p95, P95(ws));
        blend := 0.6 * avg + 0.4 * p95;
      }
      result := sr / (1.0 + blend / 1000.0);
    }
  }

  // ------------------------------------------------------------------ chunk sizes by score

  /** The median of the scores in ascending order. */
  function Median(scores: seq<real>): real
    requires scores != []
  {
    var mid := |scores| / 2;
    if |scores| % 2 == 1 then scores[mid] else (scores[mid - 1] + scores[mid]) / 2.0
  }

  /** `per_proxy_chunk_size`, given all scores in ascending order and this proxy's own. */
  function ChunkSizeFor(scores: seq<real>, mine: real, base: nat, minimum: nat, maximum: nat): nat
    requires mine >= 0.0
  {
    if scores == [] || Median(scores) <= 0.0 then base else Scaled(base, mine, Median(scores), minimum, maximum)
  }

  function Scaled(base: nat, mine: real, median: real, minimum: nat, maximum: nat): nat
    requires mine >= 0.0 && median > 0.0
  {
    var scaled := (base as real * (mine / median)).Floor;
    var capped := if maximum < scaled then maximum else scaled;
    if minimum > capped then minimum else capped
  }

  /** The median lies between the two middle scores, which coincide for an odd number of them. */
  lemma MedianInTheMiddle(scores: seq<real>)
    requires scores != [] && Ascending(scores)
    ensures 2.0 * Median(scores) == scores[(|scores| - 1) / 2] + scores[|scores| / 2]
    ensures forall i :: 0 <= i <= (|scores| - 1) / 2 ==> scores[i] <= Median(scores)
    ensures forall i :: |scores| / 2 <= i < |scores| ==> Median(scores) <= scores[i]
  {
    assert |scores| % 2 == 1 ==> (|scores| - 1) / 2 == |scores| / 2;
    assert |scores| % 2 == 0 ==> (|scores| - 1) / 2 == |scores| / 2 - 1;
  }

  /** Inside the bounds the size is base * mine / median, rounded down; at a bound the formula asks for
      no less, or no more. */
  lemma ScaledProportionally(base: nat, mine: real, median: real, minimum: nat, maximum: nat)
    requires mine >= 0.0 && median > 0.0 && minimum <= maximum
    ensures var size := Scaled(base, mine, median, minimum, maximum);
            && minimum <= size <= maximum
            && (size > minimum ==> size as real * median <= base as real * mine)
            && (size < maximum ==> base as real * mine < (size + 1) as real * median)
  {
    var r := Ratio(base as real, mine, median);
    var size := Scaled(base, mine, median, minimum, maximum);
    assert r.Floor as real <= r < r.Floor as real + 1.0;
    Rescale(size as real, r, median, base as real * mine);
    Rescale((size + 1) as real, r, median, base as real * mine);
  }

  lemma Ratio(b: real, mine: real, median: real) returns (r: real)
    requires median > 0.0
    ensures r == b * (mine / median) && r * median == b * mine
  {
    var x := mine / median;
    assert x * median == mine;
    r := b * x;
    assert (b * x) * median == b * (x * median);
  }

  lemma Rescale(size: real, r: real, median: real, product: real)
    requires median > 0.0 && r * median == product
    ensures size <= r <==> size * median <= product
  {
    assert (r - size) * median == product - size * median;
    assert size <= r ==> (r - size) * median >= 0.0;
    assert size > r ==> (r - size) * median < 0.0;
  }

  lemma ScaledGrows(base: nat, worse: real, better: real, median: real, minimum: nat, maximum: nat)
    requires 0.0 <= worse <= better && median > 0.0
    ensures Scaled(base, worse, median, minimum, maximum) <= Scaled(base, better, median, minimum, maximum)
  {
    MeanGrows(worse, better, median);
    if base > 0 {
      Multiply(base as real, worse / median, better / median);
    }
    FloorGrows(base as real * (worse / median), base as real * (better / median));
  }

  lemma ScaledAtMedian(base: nat, median: real, minimum: nat, maximum: nat)
    requires median > 0.0 && minimum <= base <= maximum
    ensures Scaled(base, median, median, minimum, maximum) == base
  {
    QuotientUnique(median, median, 1.0);
    assert (base as real * 1.0).Floor == base;
  }

  /** A better score never gets a smaller chunk, and the result respects the bounds unless there
      is no usable median. In particular it is at least 1 when the base and minimum are. */
  lemma {:induction false} BetterScoreBiggerChunk(scores: seq<real>, worse: real, better: real, base: nat, minimum: nat, maximum: nat)
    requires 0.0 <= worse <= better
    ensures ChunkSizeFor(scores, worse, base, minimum, maximum) <= ChunkSizeFor(scores, better, base, minimum, maximum)
    ensures (scores != [] && Median(scores) > 0.0 && minimum <= maximum) ==>
              minimum <= ChunkSizeFor(scores, better, base, minimum, maximum) <= maximum
    ensures base >= 1 && minimum >= 1 ==> ChunkSizeFor(scores, worse, base, minimum, maximum) >= 1
    ensures scores != [] && worse == Median(scores) && minimum <= base <= maximum ==>
              ChunkSizeFor(scores, worse, base, minimum, maximum) == base
  {
    if scores != [] && Median(scores) > 0.0 {
      ScaledGrows(base, worse, better, Median(scores), minimum, maximum);
      if worse == Median(scores) && minimum <= base <= maximum {
        ScaledAtMedian(base, worse, minimum, maximum);
      }
    }
  }

  lemma FloorGrows(x: real, y: real)
    requires x <= y
    ensures x.Floor <= y.Floor
  {
  }
}
