/** What the proxy score is worth: how it follows the counts, and its value on given samples. */
module ScoreValues {
  import opened Score

  // ------------------------------------------------------------------ the counts

  lemma RateTimesTotal(success: nat, failure: nat)
    requires success + failure > 0
    ensures SuccessRate(success, failure) * (success + failure) as real == success as real
  {
  }

  lemma FractionOrder(a: real, b: real, c: real, d: real)
    requires b > 0.0 && d > 0.0
    ensures a / b < c / d <==> a * d < c * b
  {
    var x, y := a / b, c / d;
    assert x * b == a && y * d == c;
    assert a * d == x * (b * d) && c * b == y * (b * d);
    assert b * d > 0.0;
    assert x < y ==> x * (b * d) < y * (b * d);
    assert x >= y ==> x * (b * d) >= y * (b * d);
  }

  /** One more success raises the rate exactly when there is a failure to make up for or no count
      yet, one more failure lowers it exactly when there is a success to spoil or no count yet. */
  lemma RateMoves(success: nat, failure: nat)
    ensures SuccessRate(success, failure) <= SuccessRate(success + 1, failure)
    ensures SuccessRate(success, failure) < SuccessRate(success + 1, failure) <==> failure > 0 || success == 0
    ensures SuccessRate(success, failure + 1) <= SuccessRate(success, failure)
    ensures SuccessRate(success, failure + 1) < SuccessRate(success, failure) <==> success > 0 || failure == 0
  {
    if success + failure > 0 {
      var s, n := success as real, (success + failure) as real;
      assert (success + 1 + failure) as real == n + 1.0 && (success + 1) as real == s + 1.0;
      FractionOrder(s, n, s + 1.0, n + 1.0);
      FractionOrder(s + 1.0, n + 1.0, s, n);
      FractionOrder(s, n + 1.0, s, n);
      FractionOrder(s, n, s, n + 1.0);
      assert s * (n + 1.0) == s * n + s && (s + 1.0) * n == s * n + n;
    }
  }

  /** The score is the rate over a number that does not depend on the counts. */
  ghost function Slowdown(decay: Decay, samples: seq<Sample>, now: real): (d: real)
    requires IsDecay(decay) && NonNegative(samples)
    ensures d >= 1.0
  {
    if samples == [] then 2.0
    else
      WeighPositive(decay, samples, now);
      BlendNonNegative(decay, samples, now);
      1.0 + BlendMs(Weigh(decay, samples, now)) / 1000.0
  }

  lemma ScoreIsRateOver(decay: Decay, success: nat, failure: nat, samples: seq<Sample>, now: real)
    requires IsDecay(decay) && NonNegative(samples)
    ensures ScoreAt(decay, success, failure, samples, now) == SuccessRate(success, failure) / Slowdown(decay, samples, now)
  {
  }

  lemma QuotientOrder(a: real, b: real, d: real)
    requires d > 0.0
    ensures a / d < b / d <==> a < b
  {
    FractionOrder(a, d, b, d);
    assert a < b <==> a * d < b * d by {
      assert b * d - a * d == (b - a) * d;
      assert a < b ==> (b - a) * d > 0.0;
      assert a >= b ==> (b - a) * d <= 0.0;
    }
  }

  /** With the same samples one more success never lowers the score and one more failure never raises
      it; it moves exactly when the rate does. */
  lemma ScoreFollowsCounts(decay: Decay, success: nat, failure: nat, samples: seq<Sample>, now: real)
    requires IsDecay(decay) && NonNegative(samples)
    ensures var score := ScoreAt(decay, success, failure, samples, now);
            var better := ScoreAt(decay, success + 1, failure, samples, now);
            var worse := ScoreAt(decay, success, failure + 1, samples, now);
            && worse <= score <= better
            && (score < better <==> failure > 0 || success == 0)
            && (worse < score <==> success > 0 || failure == 0)
  {
    var d := Slowdown(decay, samples, now);
    var r, up, down := SuccessRate(success, failure), SuccessRate(success + 1, failure), SuccessRate(success, failure + 1);
    ScoreIsRateOver(decay, success, failure, samples, now);
    ScoreIsRateOver(decay, success + 1, failure, samples, now);
    ScoreIsRateOver(decay, success, failure + 1, samples, now);
    RateMoves(success, failure);
    QuotientOrder(r, up, d);
    QuotientOrder(up, r, d);
    QuotientOrder(down, r, d);
    QuotientOrder(r, down, d);
  }

  /** Nothing but failures scores 0, nothing at all 1/4, and without samples a proxy gets half its rate. */
  lemma ScoreWithoutSamples(decay: Decay, success: nat, failure: nat, now: real)
    requires IsDecay(decay)
    ensures var score := ScoreAt(decay, success, failure, [], now);
            && (success + failure > 0 ==> score * (2 * (success + failure)) as real == success as real)
            && (success + failure == 0 ==> score == 0.25)
  {
    if success + failure > 0 {
      RateTimesTotal(success, failure);
      var n := (success + failure) as real;
      assert (2 * (success + failure)) as real == 2.0 * n;
      assert ScoreAt(decay, success, failure, [], now) * (2.0 * n) == SuccessRate(success, failure) * n;
    }
  }

  // ------------------------------------------------------------------ the mean

  /** How far the samples are from m on balance, each weighted by the decay of its age. */
  function Imbalance(decay: Decay, samples: seq<Sample>, now: real, m: real): real {
    if samples == [] then 0.0
    else decay(now - samples[0].stamp) * (samples[0].latency - m) + Imbalance(decay, samples[1..], now, m)
  }

  lemma {:induction false} ImbalanceIs(decay: Decay, samples: seq<Sample>, now: real, m: real)
    requires IsDecay(decay) && StampedBy(samples, now)
    ensures Imbalance(decay, samples, now, m) ==
            WeightedSum(Weigh(decay, samples, now)) - m * TotalWeight(Weigh(decay, samples, now))
  {
    if samples != [] {
      ImbalanceIs(decay, samples[1..], now, m);
      var ws, rest := Weigh(decay, samples, now), Weigh(decay, samples[1..], now);
      assert ws[1..] == rest && ws[0] == Weighted(samples[0].latency, decay(now - samples[0].stamp));
      BalanceStep(ws[0].weight, ws[0].latency, m, WeightedSum(rest), TotalWeight(rest));
    }
  }

  lemma BalanceStep(w: real, x: real, m: real, sum: real, total: real)
    ensures w * (x - m) + (sum - m * total) == (w * x + sum) - m * (w + total)
  {
  }

  /** The mean balances the samples: weighted by the decay of their ages they lie evenly about it. */
  lemma MeanBalances(decay: Decay, samples: seq<Sample>, now: real)
    requires IsDecay(decay) && samples != [] && StampedBy(samples, now)
    ensures PositiveWeights(Weigh(decay, samples, now)) && Weigh(decay, samples, now) != []
    ensures Imbalance(decay, samples, now, MeanMs(Weigh(decay, samples, now))) == 0.0
  {
    WeighPositive(decay, samples, now);
    var x, w := MeanParts(Weigh(decay, samples, now));
    var m := MeanMs(Weigh(decay, samples, now));
    ImbalanceIs(decay, samples, now, m);
    assert m * w == x;
  }

  // ------------------------------------------------------------------ the quantile

  lemma {:induction false} EqualWeights(ws: seq<Weighted>, w: real)
    requires forall i :: 0 <= i < |ws| ==> ws[i].weight == w
    ensures TotalWeight(ws) == w * |ws| as real
  {
    if ws != [] {
      EqualWeights(ws[1..], w);
      assert |ws| as real == |ws[1..]| as real + 1.0;
      Distribute(w, |ws[1..]| as real, 1.0);
    }
  }

  /** Of n samples of equal weight in ascending order the quantile is number ceil(0.95 n). */
  lemma QuantileOfEqualWeights(ws: seq<Weighted>, w: real, k: nat)
    requires w > 0.0 && forall i :: 0 <= i < |ws| ==> ws[i].weight == w
    requires SortedByLatency(ws) && k < |ws| && 20 * k < 19 * |ws| <= 20 * (k + 1)
    ensures IsQuantile(ws, ws[k].latency)
  {
    ReachesAt(ws, w, k);
    EnoughBelow(ws, k);
    forall y | y < ws[k].latency
      ensures WeightUpTo(ws, y) < 0.95 * TotalWeight(ws)
    {
      LittleBelow(ws, k, y);
    }
  }

  lemma ReachesAt(ws: seq<Weighted>, w: real, k: nat)
    requires w > 0.0 && forall i :: 0 <= i < |ws| ==> ws[i].weight == w
    requires k < |ws| && 20 * k < 19 * |ws| <= 20 * (k + 1)
    ensures TotalWeight(ws[..k]) < 0.95 * TotalWeight(ws) <= TotalWeight(ws[..k + 1])
  {
    var x, before := PrefixWeight(ws, w, k);
    var y, total := PrefixWeight(ws, w, |ws|);
    var z, upTo := PrefixWeight(ws, w, k + 1);
    assert ws[..|ws|] == ws;
    ThresholdAt(w, x, y, z, before, total, upTo);
  }

  lemma PrefixWeight(ws: seq<Weighted>, w: real, k: nat) returns (x: real, weight: real)
    requires k <= |ws| && forall i :: 0 <= i < |ws| ==> ws[i].weight == w
    ensures x == k as real && weight == TotalWeight(ws[..k]) && weight == w * x
  {
    EqualWeights(ws[..k], w);
    x, weight := k as real, TotalWeight(ws[..k]);
  }

  lemma ThresholdAt(w: real, x: real, y: real, z: real, before: real, total: real, upTo: real)
    requires w > 0.0 && x < 0.95 * y <= z
    requires before == w * x && total == w * y && upTo == w * z
    ensures before < 0.95 * total <= upTo
  {
    var g := 0.95 * y;
    MultiplyStrictly(w, x, g);
    Multiply(w, g, z);
    Commute(w, 0.95, y);
  }

  lemma MultiplyStrictly(w: real, a: real, b: real)
    requires w > 0.0 && a < b
    ensures w * a < w * b
  {
  }

  lemma Commute(w: real, a: real, y: real)
    ensures w * (a * y) == a * (w * y)
  {
  }

  // ------------------------------------------------------------------ values of the score

  /** When all samples took the same time, they slow the rate down by that time in seconds. */
  lemma ScoreOfEqualLatencies(decay: Decay, success: nat, failure: nat, samples: seq<Sample>, now: real, ms: real)
    requires IsDecay(decay) && samples != [] && StampedBy(samples, now) && ms >= 0.0
    requires forall i :: 0 <= i < |samples| ==> samples[i].latency == ms
    ensures NonNegative(samples)
    ensures ScoreAt(decay, success, failure, samples, now) == SuccessRate(success, failure) / (1.0 + ms / 1000.0)
  {
    WeighPositive(decay, samples, now);
    var ws := Weigh(decay, samples, now);
    MeanOfEqual(ws, ms);
    WeightUpToBounds(ws, ms);
    forall y | y < ms
      ensures WeightUpTo(ws, y) < 0.95 * TotalWeight(ws)
    {
      WeightUpToBounds(ws, y);
    }
    QuantileIsUnique(ws, P95(ws), ms);
    assert BlendMs(ws) == ms;
    ScoreIsRateOver(decay, success, failure, samples, now);
  }

  lemma MeanOfEqual(ws: seq<Weighted>, ms: real)
    requires ws != [] && PositiveWeights(ws) && forall i :: 0 <= i < |ws| ==> ws[i].latency == ms
    ensures MeanMs(ws) == ms
  {
    var x, w := MeanParts(ws);
    SumOfEqual(ws, ms);
    QuotientUnique(x, w, ms);
  }

  lemma {:induction false} SumOfEqual(ws: seq<Weighted>, ms: real)
    requires forall i :: 0 <= i < |ws| ==> ws[i].latency == ms
    ensures WeightedSum(ws) == ms * TotalWeight(ws)
  {
    if ws != [] {
      SumOfEqual(ws[1..], ms);
      Distribute(ms, ws[0].weight, TotalWeight(ws[1..]));
    }
  }

  function Sampled(stamp: real, latencies: seq<real>): (s: seq<Sample>)
    ensures |s| == |latencies| && forall i :: 0 <= i < |s| ==> s[i] == Sample(stamp, latencies[i])
  {
    seq(|latencies|, i requires 0 <= i < |latencies| => Sample(stamp, latencies[i]))
  }

  /** Mean and quantile differ: one sample of `ms` among five taken at the same time counts for
      0.6 * ms/5 + 0.4 * ms, one among four, where there is no quantile yet, for ms/4. */
  lemma ScoreOfOneSlowSample(decay: Decay, success: nat, failure: nat, stamp: real, now: real, ms: real)
    requires IsDecay(decay) && stamp <= now && ms >= 0.0
    ensures var five, four := Sampled(stamp, [0.0, 0.0, 0.0, 0.0, ms]), Sampled(stamp, [0.0, 0.0, 0.0, ms]);
            && NonNegative(five) && NonNegative(four)
            && ScoreAt(decay, success, failure, five, now) == SuccessRate(success, failure) / (1.0 + (0.6 * ms / 5.0 + 0.4 * ms) / 1000.0)
            && ScoreAt(decay, success, failure, four, now) == SuccessRate(success, failure) / (1.0 + ms / 4.0 / 1000.0)
  {
    var w := decay(now - stamp);
    var z, x := Weighted(0.0, w), Weighted(ms, w);
    var five, four := Sampled(stamp, [0.0, 0.0, 0.0, 0.0, ms]), Sampled(stamp, [0.0, 0.0, 0.0, ms]);
    WeighPositive(decay, five, now);
    WeighPositive(decay, four, now);
    assert Weigh(decay, five, now) == [z, z, z, z, x];
    assert Weigh(decay, four, now) == [z, z, z, x];
    BlendOfOneSlow(z, x);
    ScoreOfBlend(decay, success, failure, five, now, [z, z, z, z, x], 0.6 * ms / 5.0 + 0.4 * ms);
    ScoreOfBlend(decay, success, failure, four, now, [z, z, z, x], ms / 4.0);
  }

  lemma ScoreOfBlend(decay: Decay, success: nat, failure: nat, samples: seq<Sample>, now: real, ws: seq<Weighted>, blend: real)
    requires IsDecay(decay) && NonNegative(samples) && samples != [] && Weigh(decay, samples, now) == ws
    requires PositiveWeights(ws) && ws != [] && BlendMs(ws) == blend >= 0.0
    ensures ScoreAt(decay, success, failure, samples, now) == SuccessRate(success, failure) / (1.0 + blend / 1000.0)
  {
  }

  lemma BlendOfOneSlow(z: Weighted, x: Weighted)
    requires x.weight > 0.0 && x.latency >= 0.0 && z == Weighted(0.0, x.weight)
    ensures PositiveWeights([z, z, z, z, x]) && BlendMs([z, z, z, z, x]) == 0.6 * x.latency / 5.0 + 0.4 * x.latency
    ensures PositiveWeights([z, z, z, x]) && BlendMs([z, z, z, x]) == x.latency / 4.0
  {
    SlowMean([z, z, z, z], x);
    SlowMean([z, z, z], x);
    QuantileOfEqualWeights([z, z, z, z, x], x.weight, 4);
    QuantileIsUnique([z, z, z, z, x], P95([z, z, z, z, x]), x.latency);
    assert [z, z, z, z] + [x] == [z, z, z, z, x] && [z, z, z] + [x] == [z, z, z, x];
  }

  lemma SlowMean(zs: seq<Weighted>, x: Weighted)
    requires x.weight > 0.0 && forall i :: 0 <= i < |zs| ==> zs[i] == Weighted(0.0, x.weight)
    ensures PositiveWeights(zs + [x]) && MeanMs(zs + [x]) == x.latency / (|zs| + 1) as real
  {
    var ws := zs + [x];
    var sum, total := MeanParts(ws);
    SlowSum(zs, x);
    EqualWeights(ws, x.weight);
    var n := (|zs| + 1) as real;
    var m := x.latency / n;
    assert m * n == x.latency;
    assert m * (x.weight * n) == x.weight * (m * n);
    QuotientUnique(sum, total, m);
  }

  lemma {:induction false} SlowSum(zs: seq<Weighted>, x: Weighted)
    requires forall i :: 0 <= i < |zs| ==> zs[i].latency == 0.0
    ensures WeightedSum(zs + [x]) == x.weight * x.latency
  {
    if zs == [] {
      assert zs + [x] == [x] && [x][1..] == [];
    } else {
      assert (zs + [x])[1..] == zs[1..] + [x];
      SlowSum(zs[1..], x);
    }
  }
}
