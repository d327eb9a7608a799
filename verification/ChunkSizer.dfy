/** The adaptive chunk sizer (proxy/stats/chunk_sizer.py): an exponential moving average of the
    completion times steers the chunk size towards a target time. */
module ChunkSizing {
  import opened Wrappers

  datatype Sizer = Sizer(current: nat, minimum: nat, maximum: nat, target: real, ema: Option<real>)

  /** `int(x)` of a number that is not negative. */
  function Trunc(x: real): nat
    requires x >= 0.0
  {
    x.Floor
  }

  function Grown(c: nat): nat { Trunc(c as real * 1.5) }

  function Shrunk(c: nat): nat { Trunc(c as real * 0.6) }

  function Smooth(s: Sizer, elapsed: real): real {
    if s.ema.None? then elapsed else 0.25 * elapsed + 0.75 * s.ema.value
  }

  /** `_adjust`, once the average is known. */
  function Adjusted(s: Sizer, ema: real): nat {
    if ema <= 0.0 then s.current
    else if s.target / ema > 1.5 then (if Grown(s.current) <= s.maximum then Grown(s.current) else s.maximum)
    else if s.target / ema < 0.6 then (if Shrunk(s.current) >= s.minimum then Shrunk(s.current) else s.minimum)
    else s.current
  }

  function Record(s: Sizer, elapsed: real): Sizer {
    s.(ema := Some(Smooth(s, elapsed)), current := Adjusted(s, Smooth(s, elapsed)))
  }

  function After(s: Sizer, samples: seq<real>): Sizer {
    if samples == [] then s else Record(After(s, samples[..|samples| - 1]), samples[|samples| - 1])
  }

  predicate InRange(s: Sizer) { s.minimum <= s.current <= s.maximum }

  // ------------------------------------------------------------------ the thresholds

  lemma RatioHigh(target: real, ema: real)
    requires ema > 0.0
    ensures target / ema > 1.5 <==> 1.5 * ema < target
  {
    var q := target / ema;
    assert q * ema == target;
    assert (q - 1.5) * ema == target - 1.5 * ema;
    assert q > 1.5 ==> (q - 1.5) * ema > 0.0;
    assert q <= 1.5 ==> (q - 1.5) * ema <= 0.0;
  }

  lemma RatioLow(target: real, ema: real)
    requires ema > 0.0
    ensures target / ema < 0.6 <==> target < 0.6 * ema
  {
    var q := target / ema;
    assert q * ema == target;
    assert (q - 0.6) * ema == target - 0.6 * ema;
    assert q < 0.6 ==> (q - 0.6) * ema < 0.0;
    assert q >= 0.6 ==> (q - 0.6) * ema >= 0.0;
  }

  // ------------------------------------------------------------------ the exact steps

  /** The average starts at the first sample, and then moves a quarter of the way to each new one. */
  lemma AverageMoves(s: Sizer, elapsed: real)
    ensures Record(s, elapsed).ema.Some?
    ensures s.ema.None? ==> Record(s, elapsed).ema == Some(elapsed)
    ensures s.ema.Some? ==> 4.0 * (Record(s, elapsed).ema.value - s.ema.value) == elapsed - s.ema.value
  {
  }

  /** In whole bytes: the size grows by half when the average is below target/1.5, shrinks to three
      fifths when it is above target/0.6, both within the limits, and stays in between, and also
      while the average is not positive. */
  lemma AdjustsExactly(s: Sizer, elapsed: real)
    ensures var t := Record(s, elapsed);
            var ema := t.ema.value;
            && t.minimum == s.minimum && t.maximum == s.maximum && t.target == s.target
            && t.current == if ema <= 0.0 || 0.6 * ema <= s.target <= 1.5 * ema then s.current
                            else if 1.5 * ema < s.target then (if 3 * s.current / 2 <= s.maximum then 3 * s.current / 2 else s.maximum)
                            else (if 3 * s.current / 5 >= s.minimum then 3 * s.current / 5 else s.minimum)
  {
    var ema := Smooth(s, elapsed);
    if ema > 0.0 {
      RatioHigh(s.target, ema);
      RatioLow(s.target, ema);
      WholeSteps(s.current);
    }
  }

  lemma WholeSteps(c: nat)
    ensures Grown(c) == 3 * c / 2 && Shrunk(c) == 3 * c / 5
  {
    var g, h := 3 * c / 2, 3 * c / 5;
    assert 2 * g <= 3 * c < 2 * (g + 1) && 5 * h <= 3 * c < 5 * (h + 1);
    var x := c as real;
    assert g as real <= x * 1.5 < g as real + 1.0;
    assert h as real <= x * 0.6 < h as real + 1.0;
  }

  // ------------------------------------------------------------------ staying in range

  /** Every record keeps the size in range, whatever was measured. */
  lemma RecordStaysInRange(s: Sizer, elapsed: real)
    requires InRange(s)
    ensures InRange(Record(s, elapsed))
  {
    var c := s.current as real;
    assert c * 0.6 <= c <= c * 1.5;
    assert Grown(s.current) >= s.current >= Shrunk(s.current);
  }

  lemma {:induction false} StaysInRange(s: Sizer, samples: seq<real>)
    requires InRange(s)
    ensures var t := After(s, samples);
            InRange(t) && t.minimum == s.minimum && t.maximum == s.maximum && t.target == s.target
  {
    if samples != [] {
      StaysInRange(s, samples[..|samples| - 1]);
      RecordStaysInRange(After(s, samples[..|samples| - 1]), samples[|samples| - 1]);
    }
  }

  // ------------------------------------------------------------------ convergence of the average

  /** (3/4)^n, how much of an old average is left after n records. */
  function Remains(n: nat): real { if n == 0 then 1.0 else 0.75 * Remains(n - 1) }

  lemma {:induction false} RemainsShrinks(n: nat)
    ensures 0.0 < Remains(n) && Remains(n) * (n as real + 3.0) <= 3.0
  {
    if n > 0 {
      RemainsShrinks(n - 1);
      var x := n as real;
      assert (n - 1) as real == x - 1.0;
      assert Remains(n) * (x + 3.0) == 0.75 * (Remains(n - 1) * (x + 3.0));
      assert Remains(n - 1) * (x + 3.0) <= Remains(n - 1) * ((x + 2.0) * 4.0 / 3.0);
      assert Remains(n - 1) * ((x + 2.0) * 4.0 / 3.0) == (Remains(n - 1) * (x + 2.0)) * 4.0 / 3.0;
    }
  }

  ghost predicate AllAtMost(samples: seq<real>, level: real) {
    forall i :: 0 <= i < |samples| ==> 0.0 < samples[i] <= level
  }

  ghost predicate AllAtLeast(samples: seq<real>, level: real) {
    forall i :: 0 <= i < |samples| ==> samples[i] >= level > 0.0
  }

  /** The gap between the average and the level the samples stay below closes like (3/4)^n. */
  lemma {:induction false} GapCloses(s: Sizer, samples: seq<real>, level: real)
    requires s.ema.Some? && AllAtMost(samples, level)
    ensures var t := After(s, samples);
            t.ema.Some? && (s.ema.value >= level ==> t.ema.value - level <= Remains(|samples|) * (s.ema.value - level))
            && (s.ema.value <= level ==> t.ema.value <= level)
            && (s.ema.value > 0.0 ==> t.ema.value > 0.0)
  {
    if samples != [] {
      var n := |samples|;
      GapCloses(s, samples[..n - 1], level);
      RemainsShrinks(n - 1);
      var gap := s.ema.value - level;
      assert 0.75 * (Remains(n - 1) * gap) == Remains(n) * gap;
    }
  }

  /** The same from below, for samples that stay above a level. */
  lemma {:induction false} GapClosesUp(s: Sizer, samples: seq<real>, level: real)
    requires s.ema.Some? && AllAtLeast(samples, level)
    ensures var t := After(s, samples);
            t.ema.Some? && (s.ema.value <= level ==> level - t.ema.value <= Remains(|samples|) * (level - s.ema.value))
            && (s.ema.value >= level ==> t.ema.value >= level)
  {
    if samples != [] {
      var n := |samples|;
      GapClosesUp(s, samples[..n - 1], level);
      RemainsShrinks(n - 1);
      var gap := level - s.ema.value;
      assert 0.75 * (Remains(n - 1) * gap) == Remains(n) * gap;
    }
  }

  lemma {:induction false} AfterSplit(s: Sizer, a: seq<real>, b: seq<real>)
    ensures After(s, a + b) == After(After(s, a), b)
  {
    if b == [] {
      assert a + b == a;
    } else {
      assert (a + b)[..|a + b| - 1] == a + b[..|b| - 1];
      AfterSplit(s, a, b[..|b| - 1]);
    }
  }

  // ------------------------------------------------------------------ convergence of the size

  lemma PositiveQuotient(x: real, y: real)
    requires x >= 0.0 && y > 0.0
    ensures x / y >= 0.0
  {
  }

  /** After this many records the average is within `margin` of the level, wherever it started. */
  function WarmUp(gap: real, margin: real): nat
    requires margin > 0.0
  {
    if gap <= 0.0 then 1 else (PositiveQuotient(3.0 * gap, margin); Trunc(3.0 * gap / margin)) + 1
  }

  lemma TimesAtMost(a: real, b: real, c: real)
    requires a <= b && c >= 0.0
    ensures a * c <= b * c
  {
    assert (b - a) * c >= 0.0;
  }

  lemma QuotientBelow(x: real, margin: real, m: real)
    requires margin > 0.0 && x / margin < m
    ensures x < margin * m
  {
    assert (x / margin) * margin == x;
    assert (m - x / margin) * margin > 0.0;
  }

  lemma ProductBelow(r: real, m: real, margin: real)
    requires m > 0.0 && r * m < margin * m
    ensures r < margin
  {
    assert r >= margin ==> (r - margin) * m >= 0.0;
  }

  lemma WarmUpIsEnough(gap: real, margin: real, n: nat)
    requires margin > 0.0 && gap >= 0.0 && n >= WarmUp(gap, margin)
    ensures Remains(n) * gap < margin
  {
    RemainsShrinks(n);
    if gap > 0.0 {
      var m := n as real + 3.0;
      QuotientBelow(3.0 * gap, margin, m);
      TimesAtMost(Remains(n) * m, 3.0, gap);
      assert (Remains(n) * gap) * m == (Remains(n) * m) * gap;
      ProductBelow(Remains(n) * gap, m, margin);
    }
  }

  /** How far the average is from a level before the first of the new records. */
  function Gap(s: Sizer, level: real): real {
    match s.ema
    case None => 0.0
    case Some(v) => if v >= level then v - level else level - v
  }

  /** From the warm-up on, the average is on the side of the threshold the samples are on. */
  lemma AverageBelow(s: Sizer, samples: seq<real>, level: real, threshold: real)
    requires level < threshold && AllAtMost(samples, level) && (s.ema.Some? ==> s.ema.value > 0.0)
    requires |samples| >= WarmUp(Gap(s, level), threshold - level)
    ensures var t := After(s, samples); t.ema.Some? && 0.0 < t.ema.value < threshold
  {
    if s.ema.Some? {
      GapCloses(s, samples, level);
      if s.ema.value > level {
        var gap := s.ema.value - level;
        assert gap == Gap(s, level);
        WarmUpIsEnough(gap, threshold - level, |samples|);
      }
    } else {
      FirstRecord(s, samples);
      GapCloses(Record(s, samples[0]), samples[1..], level);
    }
  }

  /** The first record of a new sizer is its average. */
  lemma FirstRecord(s: Sizer, samples: seq<real>)
    requires s.ema.None? && samples != []
    ensures After(s, samples) == After(Record(s, samples[0]), samples[1..])
    ensures Record(s, samples[0]).ema == Some(samples[0])
  {
    assert samples == samples[..1] + samples[1..];
    AfterSplit(s, samples[..1], samples[1..]);
    assert samples[..1][..0] == [];
  }

  lemma AverageAbove(s: Sizer, samples: seq<real>, level: real, threshold: real)
    requires threshold < level && AllAtLeast(samples, level)
    requires |samples| >= WarmUp(Gap(s, level), level - threshold)
    ensures var t := After(s, samples); t.ema.Some? && t.ema.value > threshold
  {
    if s.ema.Some? {
      GapClosesUp(s, samples, level);
      WarmUpIsEnough(Gap(s, level), level - threshold, |samples|);
    } else {
      FirstRecord(s, samples);
      GapClosesUp(Record(s, samples[0]), samples[1..], level);
    }
  }

  /** Integer growth: a size of 2 or more grows with every step; 0 and 1 never do. */
  lemma GrowsExactly(c: nat)
    ensures Grown(c) > c <==> c >= 2
  {
    if c < 2 {
      assert c == 0 || c == 1;
      assert (0 as real * 1.5).Floor == 0 && (1 as real * 1.5).Floor == 1;
    } else {
      assert c as real * 1.5 >= c as real + 1.0;
    }
  }

  lemma ShrinksExactly(c: nat)
    ensures Shrunk(c) < c <==> c >= 1
  {
    assert c as real * 0.6 <= c as real;
  }

  /** Samples below target/1.5 by a fixed margin: the size reaches the maximum within the warm-up
      and one record per unit of the range, and stays there. */
  lemma {:induction false} ReachesMaximum(s: Sizer, samples: seq<real>, level: real)
    requires InRange(s) && s.minimum >= 2 && (s.ema.Some? ==> s.ema.value > 0.0)
    requires level < s.target / 1.5 && AllAtMost(samples, level)
    ensures var warm := WarmUp(Gap(s, level), s.target / 1.5 - level);
            var t := After(s, samples);
            |samples| >= warm ==> t.current == s.maximum || t.current >= s.minimum + (|samples| - warm)
    ensures |samples| >= WarmUp(Gap(s, level), s.target / 1.5 - level) + (s.maximum - s.minimum) ==>
              After(s, samples).current == s.maximum
  {
    var warm := WarmUp(Gap(s, level), s.target / 1.5 - level);
    StaysInRange(s, samples);
    if |samples| > warm {
      var before := samples[..|samples| - 1];
      StaysInRange(s, before);
      ReachesMaximum(s, before, level);
      AverageBelow(s, samples, level, s.target / 1.5);
      var ema := After(s, samples).ema.value;
      RatioHigh(s.target, ema);
      GrowsExactly(After(s, before).current);
    }
  }

  /** Samples above target/0.6 by a fixed margin: the size reaches the minimum in the same way. */
  lemma {:induction false} ReachesMinimum(s: Sizer, samples: seq<real>, level: real)
    requires InRange(s) && s.minimum >= 1
    requires level > s.target / 0.6 > 0.0 && AllAtLeast(samples, level)
    ensures var warm := WarmUp(Gap(s, level), level - s.target / 0.6);
            var t := After(s, samples);
            |samples| >= warm ==> t.current == s.minimum || t.current <= s.maximum - (|samples| - warm)
    ensures |samples| >= WarmUp(Gap(s, level), level - s.target / 0.6) + (s.maximum - s.minimum) ==>
              After(s, samples).current == s.minimum
  {
    var warm := WarmUp(Gap(s, level), level - s.target / 0.6);
    StaysInRange(s, samples);
    if |samples| > warm {
      var before := samples[..|samples| - 1];
      StaysInRange(s, before);
      ReachesMinimum(s, before, level);
      AverageAbove(s, samples, level, s.target / 0.6);
      var ema := After(s, samples).ema.value;
      RatioLow(s.target, ema);
      RatioHigh(s.target, ema);
      ShrinksExactly(After(s, before).current);
    }
  }

  // ------------------------------------------------------------------ the object

  class AdaptiveChunkSizer {
    var current: nat
    const minimum: nat
    const maximum: nat
    const targetMs: real
    var emaMs: Option<real>

    ghost function View(): Sizer
      reads this
    {
      Sizer(current, minimum, maximum, targetMs, emaMs)
    }

    constructor (initial: nat, minimum: nat, maximum: nat, targetMs: real)
      ensures View() == Sizer(initial, minimum, maximum, targetMs, None)
    {
      current := initial;
      this.minimum := minimum;
      this.maximum := maximum;
      this.targetMs := targetMs;
      emaMs := None;
    }

    method RecordElapsed(elapsedMs: real)
      modifies this
      ensures View() == Record(old(View()), elapsedMs)
      ensures old(InRange(View())) ==> InRange(View())
    {
      RecordStaysInRangeIf(View(), elapsedMs);
      if emaMs.None? {
        emaMs := Some(elapsedMs);
      } else {
        emaMs := Some(0.25 * elapsedMs + (1.0 - 0.25) * emaMs.value);
      }
      Adjust();
    }

    method Adjust()
      requires emaMs.Some?
      modifies this`current
      ensures current == Adjusted(old(View()), emaMs.value)
    {
      if emaMs.value <= 0.0 {
        return;
      }
      var ratio := targetMs / emaMs.value;
      var size := current;
      if ratio > 1.5 {
        size := if Trunc(current as real * 1.5) <= maximum then Trunc(current as real * 1.5) else maximum;
      } else if ratio < 0.6 {
        size := if Trunc(current as real * 0.6) >= minimum then Trunc(current as real * 0.6) else minimum;
      }
      if size != current {
        current := size;
      }
    }
  }

  lemma RecordStaysInRangeIf(s: Sizer, elapsed: real)
    ensures InRange(s) ==> InRange(Record(s, elapsed))
  {
    if InRange(s) {
      RecordStaysInRange(s, elapsed);
    }
  }
}
