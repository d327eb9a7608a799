/** The proxy score (proxy/stats/proxy_stats.py) in exact arithmetic: success rate over one plus
    a latency blended from a decayed mean and a decayed 95% quantile. */
module Score {
  /** One latency sample; the stamp is in seconds, the latency in milliseconds. */
  datatype Sample = Sample(stamp: real, latency: real)

  /** A sample with its weight at the moment of scoring. */
  datatype Weighted = Weighted(latency: real, weight: real)

  type Decay = real -> real

  /** The exponential decay of ages, as far as the score depends on it: positive, and adding to
      every age scales every weight by one factor. */
  ghost predicate IsDecay(decay: Decay) {
    && (forall a :: a >= 0.0 ==> decay(a) > 0.0)
    && (forall a, b :: a >= 0.0 && b >= 0.0 ==> Multiplies(decay, a, b))
  }

  ghost predicate Multiplies(decay: Decay, a: real, b: real) {
    decay(a + b) == decay(a) * decay(b)
  }

  function DecayWeight(decay: Decay, stamp: real, now: real): real {
    decay(if now - stamp > 0.0 then now - stamp else 0.0)
  }

  function Weigh(decay: Decay, samples: seq<Sample>, now: real): seq<Weighted> {
    if samples == [] then []
    else [Weighted(samples[0].latency, DecayWeight(decay, samples[0].stamp, now))] + Weigh(decay, samples[1..], now)
  }

  function TotalWeight(ws: seq<Weighted>): real {
    if ws == [] then 0.0 else ws[0].weight + TotalWeight(ws[1..])
  }

  function WeightedSum(ws: seq<Weighted>): real {
    if ws == [] then 0.0 else ws[0].weight * ws[0].latency + WeightedSum(ws[1..])
  }

  /** The weight of the samples at or below a latency. */
  function WeightUpTo(ws: seq<Weighted>, x: real): real {
    if ws == [] then 0.0 else (if ws[0].latency <= x then ws[0].weight else 0.0) + WeightUpTo(ws[1..], x)
  }

  // ------------------------------------------------------------------ the 95% quantile

  /** The least latency at or below which 95% of the weight lies. */
  ghost predicate IsQuantile(ws: seq<Weighted>, x: real) {
    && WeightUpTo(ws, x) >= 0.95 * TotalWeight(ws)
    && forall y :: y < x ==> WeightUpTo(ws, y) < 0.95 * TotalWeight(ws)
  }

  lemma QuantileIsUnique(ws: seq<Weighted>, x: real, y: real)
    requires IsQuantile(ws, x) && IsQuantile(ws, y)
    ensures x == y
  {
  }

  predicate SortedByLatency(ws: seq<Weighted>) {
    forall i, j :: 0 <= i < j < |ws| ==> ws[i].latency <= ws[j].latency
  }

  function Insert(w: Weighted, ws: seq<Weighted>): (r: seq<Weighted>)
    ensures |r| == |ws| + 1
  {
    if ws == [] || w.latency <= ws[0].latency then [w] + ws else [ws[0]] + Insert(w, ws[1..])
  }

  function SortByLatency(ws: seq<Weighted>): (r: seq<Weighted>)
    ensures |r| == |ws|
  {
    if ws == [] then [] else Insert(ws[0], SortByLatency(ws[1..]))
  }

  lemma {:induction false} InsertSorts(w: Weighted, ws: seq<Weighted>)
    requires SortedByLatency(ws)
    ensures SortedByLatency(Insert(w, ws))
    ensures forall p :: p in Insert(w, ws) ==> p == w || p in ws
  {
    if !(ws == [] || w.latency <= ws[0].latency) {
      InsertSorts(w, ws[1..]);
      var rest := Insert(w, ws[1..]);
      forall i | 0 <= i < |rest|
        ensures ws[0].latency <= rest[i].latency
      {
        assert rest[i] in rest;
      }
    }
  }

  lemma {:induction false} InsertKeepsWeights(w: Weighted, ws: seq<Weighted>, x: real)
    ensures TotalWeight(Insert(w, ws)) == w.weight + TotalWeight(ws)
    ensures WeightUpTo(Insert(w, ws), x) == (if w.latency <= x then w.weight else 0.0) + WeightUpTo(ws, x)
  {
    if ws == [] || w.latency <= ws[0].latency {
      assert ([w] + ws)[1..] == ws;
    } else {
      InsertKeepsWeights(w, ws[1..], x);
      assert ([ws[0]] + Insert(w, ws[1..]))[1..] == Insert(w, ws[1..]);
    }
  }

  lemma {:induction false} SortSorts(ws: seq<Weighted>)
    ensures SortedByLatency(SortByLatency(ws))
    ensures forall p :: p in SortByLatency(ws) ==> p in ws
  {
    if ws != [] {
      SortSorts(ws[1..]);
      InsertSorts(ws[0], SortByLatency(ws[1..]));
    }
  }

  /** Sorting changes neither the weights nor what lies below a latency. */
  lemma {:induction false} SortKeepsWeights(ws: seq<Weighted>, x: real)
    ensures TotalWeight(SortByLatency(ws)) == TotalWeight(ws)
    ensures WeightUpTo(SortByLatency(ws), x) == WeightUpTo(ws, x)
  {
    if ws != [] {
      SortKeepsWeights(ws[1..], x);
      InsertKeepsWeights(ws[0], SortByLatency(ws[1..]), x);
    }
  }

  ghost predicate PositiveWeights(ws: seq<Weighted>) {
    forall i :: 0 <= i < |ws| ==> ws[i].weight > 0.0
  }

  lemma {:induction false} SplitAt(ws: seq<Weighted>, i: nat, x: real)
    requires i <= |ws|
    ensures TotalWeight(ws) == TotalWeight(ws[..i]) + TotalWeight(ws[i..])
    ensures WeightUpTo(ws, x) == WeightUpTo(ws[..i], x) + WeightUpTo(ws[i..], x)
  {
    if i == 0 {
      assert ws[i..] == ws;
    } else {
      assert ws[..i][1..] == ws[1..][..i - 1];
      assert ws[i..] == ws[1..][i - 1..];
      SplitAt(ws[1..], i - 1, x);
    }
  }

  lemma {:induction false} WeightUpToBounds(ws: seq<Weighted>, x: real)
    requires PositiveWeights(ws)
    ensures 0.0 <= WeightUpTo(ws, x) <= TotalWeight(ws)
    ensures (forall i :: 0 <= i < |ws| ==> ws[i].latency <= x) ==> WeightUpTo(ws, x) == TotalWeight(ws)
    ensures (forall i :: 0 <= i < |ws| ==> ws[i].latency > x) ==> WeightUpTo(ws, x) == 0.0
    ensures ws != [] ==> TotalWeight(ws) > 0.0
  {
    if ws != [] {
      WeightUpToBounds(ws[1..], x);
    }
  }

  /** The accumulating loop of `_score`: walk the pairs in latency order until 95% of the weight is
      reached. It returns the quantile, and with exact weights it always breaks. */
  method WeightedP95(ws: seq<Weighted>) returns (p95: real)
    requires ws != [] && PositiveWeights(ws)
    ensures IsQuantile(ws, p95)
  {
    var pairs := SortByLatency(ws);
    ghost var total := TotalWeight(ws);
    var threshold := 0.95 * TotalWeight(ws);
    SortKeepsWeights(ws, 0.0);
    PositiveAfterSort(ws, pairs);
    WeightUpToBounds(ws, 0.0);
    var cumulative := 0.0;
    p95 := pairs[|pairs| - 1].latency;
    var i := 0;
    while i < |pairs|
      invariant i <= |pairs|
      invariant cumulative == TotalWeight(pairs[..i]) && (i == |pairs| ==> pairs[..i] == pairs)
      invariant (i < |pairs| ==> p95 == pairs[|pairs| - 1].latency)
      invariant cumulative < threshold
    {
      SplitAt(pairs[..i + 1], i, 0.0);
      assert i + 1 == |pairs| ==> pairs[..i + 1] == pairs;
      assert pairs[..i + 1][..i] == pairs[..i] && pairs[..i + 1][i..] == [pairs[i]];
      cumulative := cumulative + pairs[i].weight;
      if cumulative >= threshold {
        p95 := pairs[i].latency;
        BreakIsQuantile(ws, pairs, i);
        return;
      }
      i := i + 1;
    }
    assert false;
  }

  lemma PositiveAfterSort(ws: seq<Weighted>, pairs: seq<Weighted>)
    requires pairs == SortByLatency(ws) && PositiveWeights(ws)
    ensures PositiveWeights(pairs)
  {
    SortSorts(ws);
    forall i | 0 <= i < |pairs|
      ensures pairs[i].weight > 0.0
    {
      assert pairs[i] in ws;
    }
  }

  /** The pair at which the accumulated weight first reaches the threshold is the quantile. */
  lemma BreakIsQuantile(ws: seq<Weighted>, pairs: seq<Weighted>, i: nat)
    requires pairs == SortByLatency(ws) && PositiveWeights(ws) && i < |pairs|
    requires TotalWeight(pairs[..i]) < 0.95 * TotalWeight(ws) <= TotalWeight(pairs[..i + 1])
    ensures IsQuantile(ws, pairs[i].latency)
  {
    SortSorts(ws);
    PositiveAfterSort(ws, pairs);
    EnoughBelow(pairs, i);
    SortKeepsWeights(ws, pairs[i].latency);
    forall y | y < pairs[i].latency
      ensures WeightUpTo(ws, y) < 0.95 * TotalWeight(ws)
    {
      SortKeepsWeights(ws, y);
      LittleBelow(pairs, i, y);
    }
  }

  lemma EnoughBelow(pairs: seq<Weighted>, i: nat)
    requires SortedByLatency(pairs) && PositiveWeights(pairs) && i < |pairs|
    ensures WeightUpTo(pairs, pairs[i].latency) >= TotalWeight(pairs[..i + 1])
  {
    var head, tail, x := pairs[..i + 1], pairs[i + 1..], pairs[i].latency;
    SplitAt(pairs, i + 1, x);
    assert forall k :: 0 <= k < |head| ==> head[k].latency <= x;
    WeightUpToBounds(head, x);
    WeightUpToBounds(tail, x);
  }

  lemma LittleBelow(pairs: seq<Weighted>, i: nat, y: real)
    requires SortedByLatency(pairs) && PositiveWeights(pairs) && i < |pairs| && y < pairs[i].latency
    ensures WeightUpTo(pairs, y) <= TotalWeight(pairs[..i])
  {
    SplitAt(pairs, i, y);
    WeightUpToBounds(pairs[..i], y);
    WeightUpToBounds(pairs[i..], y);
  }

  lemma {:induction false} QuantileExists(ws: seq<Weighted>, i: nat) returns (x: real)
    requires ws != [] && PositiveWeights(ws) && i <= |ws|
    requires TotalWeight(SortByLatency(ws)[..i]) < 0.95 * TotalWeight(ws)
    ensures IsQuantile(ws, x)
    decreases |ws| - i
  {
    var pairs := SortByLatency(ws);
    SortKeepsWeights(ws, 0.0);
    WeightUpToBounds(ws, 0.0);
    assert pairs[..|pairs|] == pairs;
    if i == |ws| {
      assert false;
    } else if TotalWeight(pairs[..i + 1]) < 0.95 * TotalWeight(ws) {
      x := QuantileExists(ws, i + 1);
    } else {
      x := pairs[i].latency;
      BreakIsQuantile(ws, pairs, i);
    }
  }

  lemma SomeQuantile(ws: seq<Weighted>)
    requires ws != [] && PositiveWeights(ws)
    ensures exists x :: IsQuantile(ws, x)
  {
    WeightUpToBounds(ws, 0.0);
    var x := QuantileExists(ws, 0);
  }

  ghost function P95(ws: seq<Weighted>): (x: real)
    requires ws != [] && PositiveWeights(ws)
    ensures IsQuantile(ws, x)
  {
    SomeQuantile(ws);
    var x :| IsQuantile(ws, x);
    x
  }

  // ------------------------------------------------------------------ the score

  ghost function MeanMs(ws: seq<Weighted>): real
    requires ws != [] && PositiveWeights(ws)
  {
    WeightUpToBounds(ws, 0.0);
    WeightedSum(ws) / TotalWeight(ws)
  }

  ghost function BlendMs(ws: seq<Weighted>): real
    requires ws != [] && PositiveWeights(ws)
  {
    if |ws| >= 5 then 0.6 * MeanMs(ws) + 0.4 * P95(ws) else MeanMs(ws)
  }

  function SuccessRate(success: nat, failure: nat): (r: real)
    ensures 0.0 <= r <= 1.0
  {
    if success + failure > 0 then success as real / (success + failure) as real else 0.5
  }

  /** The score recomputed from scratch at `now`. */
  ghost function ScoreAt(decay: Decay, success: nat, failure: nat, samples: seq<Sample>, now: real): real
    requires IsDecay(decay) && NonNegative(samples)
  {
    var sr := SuccessRate(success, failure);
    if samples == [] then sr / 2.0
    else
      WeighPositive(decay, samples, now);
      BlendNonNegative(decay, samples, now);
      sr / (1.0 + BlendMs(Weigh(decay, samples, now)) / 1000.0)
  }

  ghost predicate NonNegative(samples: seq<Sample>) {
    forall i :: 0 <= i < |samples| ==> samples[i].latency >= 0.0
  }

  lemma {:induction false} WeighPositive(decay: Decay, samples: seq<Sample>, now: real)
    requires IsDecay(decay)
    ensures |Weigh(decay, samples, now)| == |samples| && PositiveWeights(Weigh(decay, samples, now))
    ensures forall i :: 0 <= i < |samples| ==>
      Weigh(decay, samples, now)[i] == Weighted(samples[i].latency, DecayWeight(decay, samples[i].stamp, now))
  {
    if samples != [] {
      WeighPositive(decay, samples[1..], now);
    }
  }

  lemma {:induction false} SumNonNegative(ws: seq<Weighted>)
    requires PositiveWeights(ws) && forall i :: 0 <= i < |ws| ==> ws[i].latency >= 0.0
    ensures WeightedSum(ws) >= 0.0
  {
    if ws != [] {
      SumNonNegative(ws[1..]);
      assert ws[0].weight * ws[0].latency >= 0.0;
    }
  }

  lemma BlendNonNegative(decay: Decay, samples: seq<Sample>, now: real)
    requires IsDecay(decay) && samples != [] && NonNegative(samples)
    ensures |Weigh(decay, samples, now)| > 0 && PositiveWeights(Weigh(decay, samples, now))
    ensures BlendMs(Weigh(decay, samples, now)) >= 0.0
  {
    WeighPositive(decay, samples, now);
    var ws := Weigh(decay, samples, now);
    SumNonNegative(ws);
    WeightUpToBounds(ws, 0.0);
    assert WeightedSum(ws) / TotalWeight(ws) >= 0.0;
    var x := P95(ws);
    WeightUpToBounds(ws, x);
    assert x < 0.0 ==> WeightUpTo(ws, x) == 0.0;
  }

  lemma ScoreBetweenZeroAndOne(decay: Decay, success: nat, failure: nat, samples: seq<Sample>, now: real)
    requires IsDecay(decay) && NonNegative(samples)
    ensures 0.0 <= ScoreAt(decay, success, failure, samples, now) <= SuccessRate(success, failure) <= 1.0
  {
    if samples != [] {
      BlendNonNegative(decay, samples, now);
      DivideByMore(SuccessRate(success, failure), 1.0, 1.0 + BlendMs(Weigh(decay, samples, now)) / 1000.0);
    }
  }

  lemma DivideByMore(a: real, b: real, c: real)
    requires a >= 0.0 && 0.0 < b <= c
    ensures 0.0 <= a / c <= a / b
  {
    var q, r := a / b, a / c;
    assert q * b == a && r * c == a;
    assert r < 0.0 ==> r * c < 0.0;
    assert r >= 0.0 ==> r * c >= r * b;
    assert r > q ==> r * b > q * b;
  }

  // ------------------------------------------------------------------ slower samples score lower

  /** The same stamps, and no sample faster than before. */
  ghost predicate Slower(slow: seq<Sample>, quick: seq<Sample>) {
    |slow| == |quick| && forall i :: 0 <= i < |slow| ==>
      slow[i].stamp == quick[i].stamp && slow[i].latency >= quick[i].latency
  }

  lemma {:induction false} SlowerSums(s: seq<Weighted>, q: seq<Weighted>, x: real)
    requires |s| == |q| && PositiveWeights(s)
    requires forall i :: 0 <= i < |s| ==> s[i].weight == q[i].weight && s[i].latency >= q[i].latency
    ensures TotalWeight(s) == TotalWeight(q)
    ensures WeightedSum(s) >= WeightedSum(q)
    ensures WeightUpTo(s, x) <= WeightUpTo(q, x)
  {
    if s != [] {
      SlowerSums(s[1..], q[1..], x);
      Multiply(s[0].weight, q[0].latency, s[0].latency);
    }
  }

  lemma Multiply(w: real, a: real, b: real)
    requires w > 0.0 && a <= b
    ensures w * a <= w * b
  {
  }

  lemma SlowerBlend(decay: Decay, slow: seq<Sample>, quick: seq<Sample>, now: real)
    requires IsDecay(decay) && Slower(slow, quick) && slow != []
    ensures PositiveWeights(Weigh(decay, slow, now)) && PositiveWeights(Weigh(decay, quick, now))
    ensures |Weigh(decay, slow, now)| == |Weigh(decay, quick, now)| == |slow|
    ensures BlendMs(Weigh(decay, slow, now)) >= BlendMs(Weigh(decay, quick, now))
  {
    WeighPositive(decay, slow, now);
    WeighPositive(decay, quick, now);
    var s, q := Weigh(decay, slow, now), Weigh(decay, quick, now);
    WeightUpToBounds(s, 0.0);
    SlowerSums(s, q, P95(s));
    MeanGrows(WeightedSum(q), WeightedSum(s), TotalWeight(s));
    assert P95(s) >= P95(q);
  }

  lemma MeanGrows(a: real, b: real, w: real)
    requires a <= b && w > 0.0
    ensures a / w <= b / w
  {
    var p, q := a / w, b / w;
    assert p * w == a && q * w == b;
    assert p > q ==> p * w > q * w;
  }

  /** Raising latencies, with stamps and counts fixed, never raises the score. */
  lemma ScoreIsAntitoneInLatency(decay: Decay, success: nat, failure: nat, slow: seq<Sample>, quick: seq<Sample>, now: real)
    requires IsDecay(decay) && Slower(slow, quick) && NonNegative(slow) && NonNegative(quick)
    ensures ScoreAt(decay, success, failure, slow, now) <= ScoreAt(decay, success, failure, quick, now)
  {
    if slow != [] {
      SlowerBlend(decay, slow, quick, now);
      BlendNonNegative(decay, quick, now);
      DivideByMore(SuccessRate(success, failure), 1.0 + BlendMs(Weigh(decay, quick, now)) / 1000.0,
                   1.0 + BlendMs(Weigh(decay, slow, now)) / 1000.0);
    }
  }

  // ------------------------------------------------------------------ the score does not age

  ghost predicate StampedBy(samples: seq<Sample>, now: real) {
    forall i :: 0 <= i < |samples| ==> samples[i].stamp <= now
  }

  /** The same latencies, every weight multiplied by one factor. */
  function Scale(f: real, ws: seq<Weighted>): (r: seq<Weighted>)
    ensures |r| == |ws|
  {
    if ws == [] then [] else [Weighted(ws[0].latency, f * ws[0].weight)] + Scale(f, ws[1..])
  }

  lemma {:induction false} ScaledTotal(f: real, ws: seq<Weighted>)
    ensures TotalWeight(Scale(f, ws)) == f * TotalWeight(ws)
  {
    if ws != [] {
      ScaledTotal(f, ws[1..]);
      assert Scale(f, ws)[1..] == Scale(f, ws[1..]);
      Distribute(f, ws[0].weight, TotalWeight(ws[1..]));
    }
  }

  lemma {:induction false} ScaledSum(f: real, ws: seq<Weighted>)
    ensures WeightedSum(Scale(f, ws)) == f * WeightedSum(ws)
  {
    if ws != [] {
      ScaledSum(f, ws[1..]);
      assert Scale(f, ws)[1..] == Scale(f, ws[1..]);
      Reassociate(f, ws[0].weight, ws[0].latency);
      Distribute(f, ws[0].weight * ws[0].latency, WeightedSum(ws[1..]));
    }
  }

  lemma {:induction false} ScaledUpTo(f: real, ws: seq<Weighted>, x: real)
    ensures WeightUpTo(Scale(f, ws), x) == f * WeightUpTo(ws, x)
  {
    if ws != [] {
      ScaledUpTo(f, ws[1..], x);
      assert Scale(f, ws)[1..] == Scale(f, ws[1..]);
      Distribute(f, if ws[0].latency <= x then ws[0].weight else 0.0, WeightUpTo(ws[1..], x));
    }
  }

  lemma Distribute(f: real, x: real, y: real)
    ensures f * (x + y) == f * x + f * y
  {
  }

  lemma Reassociate(f: real, x: real, y: real)
    ensures f * x * y == f * (x * y)
  {
  }

  lemma AgeingOneWeight(decay: Decay, stamp: real, now: real, later: real)
    requires IsDecay(decay) && stamp <= now <= later
    ensures DecayWeight(decay, stamp, later) == decay(later - now) * DecayWeight(decay, stamp, now)
  {
    var age, more := now - stamp, later - now;
    assert age + more == later - stamp;
    assert Multiplies(decay, age, more);
  }

  /** Letting time pass scales every weight by one factor. */
  lemma {:induction false} AgeingScales(decay: Decay, samples: seq<Sample>, now: real, later: real)
    requires IsDecay(decay) && StampedBy(samples, now) && now <= later
    ensures Weigh(decay, samples, later) == Scale(decay(later - now), Weigh(decay, samples, now))
  {
    if samples != [] {
      AgeingScales(decay, samples[1..], now, later);
      AgeingOneWeight(decay, samples[0].stamp, now, later);
      assert Weigh(decay, samples, now)[1..] == Weigh(decay, samples[1..], now);
    }
  }

  predicate Reaches(ws: seq<Weighted>, x: real) { WeightUpTo(ws, x) >= 0.95 * TotalWeight(ws) }

  lemma ScaledReaches(f: real, ws: seq<Weighted>, x: real)
    requires f > 0.0
    ensures Reaches(Scale(f, ws), x) <==> Reaches(ws, x)
  {
    ScaledUpTo(f, ws, x);
    ScaledTotal(f, ws);
    ScaledComparison(f, WeightUpTo(ws, x), TotalWeight(ws), WeightUpTo(Scale(f, ws), x), TotalWeight(Scale(f, ws)));
  }

  lemma ScaledComparison(f: real, u: real, t: real, fu: real, ft: real)
    requires f > 0.0 && fu == f * u && ft == f * t
    ensures u >= 0.95 * t <==> fu >= 0.95 * ft
  {
    var gap := u - 0.95 * t;
    assert f * gap == fu - 0.95 * ft;
    assert gap >= 0.0 ==> f * gap >= 0.0;
    assert gap < 0.0 ==> f * gap < 0.0;
  }

  lemma ScaledQuantile(f: real, ws: seq<Weighted>, x: real)
    requires f > 0.0 && IsQuantile(ws, x)
    ensures IsQuantile(Scale(f, ws), x)
  {
    assert Reaches(ws, x);
    ScaledReaches(f, ws, x);
    forall y | y < x
      ensures WeightUpTo(Scale(f, ws), y) < 0.95 * TotalWeight(Scale(f, ws))
    {
      assert !Reaches(ws, y);
      ScaledReaches(f, ws, y);
    }
  }

  lemma QuotientUnique(x: real, w: real, m: real)
    requires w > 0.0
    ensures m * w == x <==> m == x / w
  {
    var q := x / w;
    assert q * w == x;
    if m * w == x {
      assert (m - q) * w == 0.0;
    }
  }

  lemma ScaledMean(f: real, ws: seq<Weighted>)
    requires f > 0.0 && ws != [] && PositiveWeights(ws) && PositiveWeights(Scale(f, ws))
    ensures MeanMs(Scale(f, ws)) == MeanMs(ws)
  {
    var x, w := MeanParts(ws);
    var fx, fw := MeanParts(Scale(f, ws));
    ScaledParts(f, ws, x, w, fx, fw);
    QuotientScales(f, x, w, fx, fw);
  }

  lemma MeanParts(ws: seq<Weighted>) returns (x: real, w: real)
    requires ws != [] && PositiveWeights(ws)
    ensures x == WeightedSum(ws) && w == TotalWeight(ws) && w > 0.0 && MeanMs(ws) == x / w
  {
    WeightUpToBounds(ws, 0.0);
    x, w := WeightedSum(ws), TotalWeight(ws);
  }

  lemma ScaledParts(f: real, ws: seq<Weighted>, x: real, w: real, fx: real, fw: real)
    requires x == WeightedSum(ws) && w == TotalWeight(ws)
    requires fx == WeightedSum(Scale(f, ws)) && fw == TotalWeight(Scale(f, ws))
    ensures fx == f * x && fw == f * w
  {
    ScaledSum(f, ws);
    ScaledTotal(f, ws);
  }

  lemma QuotientScales(f: real, x: real, w: real, fx: real, fw: real)
    requires f > 0.0 && w > 0.0 && fw > 0.0 && fx == f * x && fw == f * w
    ensures fx / fw == x / w
  {
    var q := x / w;
    assert q * w == x;
    assert q * fw == f * (q * w);
    QuotientUnique(fx, fw, q);
  }

  lemma ScaledBlend(f: real, ws: seq<Weighted>)
    requires f > 0.0 && ws != [] && PositiveWeights(ws) && PositiveWeights(Scale(f, ws))
    ensures BlendMs(Scale(f, ws)) == BlendMs(ws)
  {
    ScaledMean(f, ws);
    ScaledQuantile(f, ws, P95(ws));
    QuantileIsUnique(Scale(f, ws), P95(Scale(f, ws)), P95(ws));
  }

  /** A score computed once stays right for as long as no sample or count changes: the decay
      cancels out of the mean and of the quantile alike. */
  lemma ScoreDoesNotAge(decay: Decay, success: nat, failure: nat, samples: seq<Sample>, now: real, later: real)
    requires IsDecay(decay) && NonNegative(samples) && StampedBy(samples, now) && now <= later
    ensures ScoreAt(decay, success, failure, samples, now) == ScoreAt(decay, success, failure, samples, later)
  {
    if samples != [] {
      WeighPositive(decay, samples, now);
      WeighPositive(decay, samples, later);
      AgeingScales(decay, samples, now, later);
      ScaledBlend(decay(later - now), Weigh(decay, samples, now));
    }
  }
}
