/** The per-proxy rate limiter (proxy/rate_limiter.py): a token bucket whose lock serialises the
    callers. A caller that finds less than one token sleeps with the lock held. */
module TokenBuckets {
  datatype Bucket = Bucket(tokens: real, last: real)

  /** One `acquire`: when it read the clock under the lock, and when it was granted. A sleep
      lasts at least as long as asked for. */
  datatype Grant = Grant(asked: real, granted: real)

  function Min(x: real, y: real): real { if x <= y then x else y }

  function Max(x: real, y: real): real { if x >= y then x else y }

  /** The tokens at a clock reading. */
  function Refill(r: real, b: Bucket, now: real): real {
    Min(r, b.tokens + (now - b.last) * r)
  }

  function Next(r: real, b: Bucket, g: Grant): Bucket {
    if Refill(r, b, g.asked) < 1.0 then Bucket(0.0, g.asked) else Bucket(Refill(r, b, g.asked) - 1.0, g.asked)
  }

  /** A caller with less than one token sleeps at least (1 - tokens)/rps; `Acquire` below has it in
      this form, here both sides are multiplied by rps. */
  predicate Waits(r: real, level: real, free: real, g: Grant) {
    && free <= g.asked
    && if level < 1.0 then (g.granted - g.asked) * r >= 1.0 - level else g.granted == g.asked
  }

  predicate LegalGrant(r: real, b: Bucket, free: real, g: Grant) {
    Waits(r, Refill(r, b, g.asked), free, g)
  }

  function BucketAfter(r: real, gs: seq<Grant>): Bucket {
    if gs == [] then Bucket(r, 0.0) else Next(r, BucketAfter(r, gs[..|gs| - 1]), gs[|gs| - 1])
  }

  function FreeAfter(gs: seq<Grant>): real {
    if gs == [] then 0.0 else gs[|gs| - 1].granted
  }

  predicate LegalAt(r: real, gs: seq<Grant>, i: nat)
    requires i < |gs|
  {
    LegalGrant(r, BucketAfter(r, gs[..i]), FreeAfter(gs[..i]), gs[i])
  }

  /** A run of the bucket, full at time 0: every acquire starts after the one before was granted. */
  predicate Run(r: real, gs: seq<Grant>) {
    forall i: nat :: i < |gs| ==> LegalAt(r, gs, i)
  }

  /** A sleep lasts at most `late` tokens' worth of time longer than asked for. */
  predicate SleepsAtMost(r: real, level: real, late: real, g: Grant) {
    level < 1.0 ==> (g.granted - g.asked) * r <= 1.0 - level + late
  }

  predicate SleptAt(r: real, gs: seq<Grant>, late: real, i: nat)
    requires i < |gs|
  {
    SleepsAtMost(r, Refill(r, BucketAfter(r, gs[..i]), gs[i].asked), late, gs[i])
  }

  predicate SleptAll(r: real, gs: seq<Grant>, late: real) {
    forall i: nat :: i < |gs| ==> SleptAt(r, gs, late, i)
  }

  /** Every sleep of the run ends at most `eps` after it should. */
  predicate Late(r: real, eps: real, gs: seq<Grant>) { SleptAll(r, gs, r * eps) }

  // ------------------------------------------------------------------ time counted in tokens

  /** The same bucket with every time multiplied by rps: one unit of time is worth one token, and
      all its conditions are linear. `cap` is rps, the size of the bucket. */
  function Level(cap: real, b: Bucket, now: real): real {
    Min(cap, b.tokens + (now - b.last))
  }

  function After(cap: real, b: Bucket, g: Grant): Bucket {
    if Level(cap, b, g.asked) < 1.0 then Bucket(0.0, g.asked) else Bucket(Level(cap, b, g.asked) - 1.0, g.asked)
  }

  predicate Legal(cap: real, b: Bucket, free: real, g: Grant) {
    Waits(1.0, Level(cap, b, g.asked), free, g)
  }

  function State(cap: real, gs: seq<Grant>): Bucket {
    if gs == [] then Bucket(cap, 0.0) else After(cap, State(cap, gs[..|gs| - 1]), gs[|gs| - 1])
  }

  predicate UnrollsAt(cap: real, gs: seq<Grant>, i: nat)
    requires i < |gs|
  {
    Legal(cap, State(cap, gs[..i]), FreeAfter(gs[..i]), gs[i])
  }

  predicate Unrolls(cap: real, gs: seq<Grant>) {
    forall i: nat :: i < |gs| ==> UnrollsAt(cap, gs, i)
  }

  predicate PromptAt(cap: real, gs: seq<Grant>, late: real, i: nat)
    requires i < |gs|
  {
    SleepsAtMost(1.0, Level(cap, State(cap, gs[..i]), gs[i].asked), late, gs[i])
  }

  predicate Prompt(cap: real, gs: seq<Grant>, late: real) {
    forall i: nat :: i < |gs| ==> PromptAt(cap, gs, late, i)
  }

  function Scale(r: real, g: Grant): Grant { Grant(r * g.asked, r * g.granted) }

  function ScaleAll(r: real, gs: seq<Grant>): (s: seq<Grant>)
    ensures |s| == |gs| && forall i :: 0 <= i < |gs| ==> s[i] == Scale(r, gs[i])
  {
    seq(|gs|, i requires 0 <= i < |gs| => Scale(r, gs[i]))
  }

  lemma ScaleOrder(r: real, x: real, y: real)
    requires r > 0.0
    ensures x <= y <==> r * x <= r * y
  {
    assert r * y - r * x == r * (y - x);
    assert x <= y ==> r * (y - x) >= 0.0;
    assert x > y ==> r * (y - x) < 0.0;
  }

  function ScaleBucket(r: real, b: Bucket): Bucket { Bucket(b.tokens, r * b.last) }

  lemma LevelScales(r: real, b: Bucket, now: real)
    ensures Level(r, ScaleBucket(r, b), r * now) == Refill(r, b, now)
  {
    assert (now - b.last) * r == r * now - r * b.last;
  }

  lemma NextScales(r: real, b: Bucket, g: Grant)
    ensures After(r, ScaleBucket(r, b), Scale(r, g)) == ScaleBucket(r, Next(r, b, g))
  {
    LevelScales(r, b, g.asked);
  }

  lemma NextScalesAs(r: real, b: Bucket, g: Grant, c: Bucket, h: Grant)
    requires c == ScaleBucket(r, b) && h == Scale(r, g)
    ensures After(r, c, h) == ScaleBucket(r, Next(r, b, g))
  {
    NextScales(r, b, g);
  }

  lemma LegalScales(r: real, b: Bucket, free: real, g: Grant)
    requires r > 0.0
    ensures LegalGrant(r, b, free, g) <==> Legal(r, ScaleBucket(r, b), r * free, Scale(r, g))
  {
    LevelScales(r, b, g.asked);
    WaitScales(r, Refill(r, b, g.asked), free, g);
  }

  lemma WaitScales(r: real, level: real, free: real, g: Grant)
    requires r > 0.0
    ensures Waits(r, level, free, g) <==> Waits(1.0, level, r * free, Scale(r, g))
  {
    ScaleOrder(r, free, g.asked);
    ScaleOrder(r, g.granted, g.asked);
    ScaleOrder(r, g.asked, g.granted);
    assert (g.granted - g.asked) * r == r * g.granted - r * g.asked;
  }

  lemma LegalScalesAs(r: real, b: Bucket, free: real, g: Grant, c: Bucket, f: real, h: Grant)
    requires r > 0.0 && c == ScaleBucket(r, b) && f == r * free && h == Scale(r, g)
    ensures LegalGrant(r, b, free, g) <==> Legal(r, c, f, h)
  {
    LegalScales(r, b, free, g);
  }

  lemma ScaleAllSplits(r: real, gs: seq<Grant>, i: nat)
    requires i < |gs|
    ensures ScaleAll(r, gs)[..i] == ScaleAll(r, gs[..i])
    ensures ScaleAll(r, gs)[i] == Scale(r, gs[i])
  {
  }

  lemma {:induction false} StateScales(r: real, gs: seq<Grant>)
    ensures State(r, ScaleAll(r, gs)) == ScaleBucket(r, BucketAfter(r, gs))
  {
    if gs != [] {
      var n := |gs| - 1;
      ScaleAllSplits(r, gs, n);
      StateScales(r, gs[..n]);
      NextScalesAs(r, BucketAfter(r, gs[..n]), gs[n], State(r, ScaleAll(r, gs)[..n]), ScaleAll(r, gs)[n]);
    }
  }

  lemma FreeScales(r: real, gs: seq<Grant>)
    ensures FreeAfter(ScaleAll(r, gs)) == r * FreeAfter(gs)
  {
  }

  lemma LegalAtScales(r: real, gs: seq<Grant>, i: nat)
    requires r > 0.0 && i < |gs|
    ensures LegalAt(r, gs, i) <==> UnrollsAt(r, ScaleAll(r, gs), i)
  {
    ScaleAllSplits(r, gs, i);
    StateScales(r, gs[..i]);
    FreeScales(r, gs[..i]);
    var s := ScaleAll(r, gs);
    LegalScalesAs(r, BucketAfter(r, gs[..i]), FreeAfter(gs[..i]), gs[i], State(r, s[..i]), FreeAfter(s[..i]), s[i]);
  }

  /** Counting time in tokens changes nothing: a sequence is a run of the bucket exactly when the
      scaled sequence is one of the linear bucket. */
  lemma RunScales(r: real, gs: seq<Grant>)
    requires r > 0.0
    ensures Run(r, gs) <==> Unrolls(r, ScaleAll(r, gs))
  {
    forall i: nat | i < |gs|
      ensures LegalAt(r, gs, i) <==> UnrollsAt(r, ScaleAll(r, gs), i)
    {
      LegalAtScales(r, gs, i);
    }
  }

  lemma SleepScales(r: real, level: real, late: real, g: Grant)
    ensures SleepsAtMost(r, level, late, g) <==> SleepsAtMost(1.0, level, late, Scale(r, g))
  {
    assert (g.granted - g.asked) * r == r * g.granted - r * g.asked;
  }

  lemma PromptScales(r: real, gs: seq<Grant>, late: real, i: nat)
    requires i < |gs|
    ensures SleptAt(r, gs, late, i) <==> PromptAt(r, ScaleAll(r, gs), late, i)
  {
    ScaleAllSplits(r, gs, i);
    StateScales(r, gs[..i]);
    LevelScales(r, BucketAfter(r, gs[..i]), gs[i].asked);
    SleepScales(r, Refill(r, BucketAfter(r, gs[..i]), gs[i].asked), late, gs[i]);
  }

  lemma LateScales(r: real, gs: seq<Grant>, late: real)
    ensures SleptAll(r, gs, late) <==> Prompt(r, ScaleAll(r, gs), late)
  {
    forall i: nat | i < |gs|
      ensures SleptAt(r, gs, late, i) <==> PromptAt(r, ScaleAll(r, gs), late, i)
    {
      PromptScales(r, gs, late, i);
    }
  }

  lemma ExtendPrompt(cap: real, gs: seq<Grant>, g: Grant, late: real)
    requires Prompt(cap, gs, late) && SleepsAtMost(1.0, Level(cap, State(cap, gs), g.asked), late, g)
    ensures Prompt(cap, gs + [g], late)
  {
    assert (gs + [g])[..|gs|] == gs;
    forall i: nat | i < |gs|
      ensures PromptAt(cap, gs + [g], late, i)
    {
      assert PromptAt(cap, gs, late, i);
      assert (gs + [g])[..i] == gs[..i];
    }
  }

  lemma Extend(cap: real, gs: seq<Grant>, g: Grant)
    requires Unrolls(cap, gs) && Legal(cap, State(cap, gs), FreeAfter(gs), g)
    ensures Unrolls(cap, gs + [g]) && State(cap, gs + [g]) == After(cap, State(cap, gs), g)
    ensures FreeAfter(gs + [g]) == g.granted
  {
    assert (gs + [g])[..|gs|] == gs;
    forall i: nat | i < |gs|
      ensures UnrollsAt(cap, gs + [g], i)
    {
      assert UnrollsAt(cap, gs, i);
      assert (gs + [g])[..i] == gs[..i];
    }
  }

  // ------------------------------------------------------------------ the potential

  /** What the bucket is worth just after grant i: its tokens plus the time slept and not yet
      accounted for. */
  function Credit(cap: real, gs: seq<Grant>, i: nat): real
    requires i < |gs|
  {
    Level(cap, State(cap, gs[..i + 1]), gs[i].granted)
  }

  lemma Prefix(cap: real, gs: seq<Grant>, n: nat)
    requires Unrolls(cap, gs) && n <= |gs|
    ensures Unrolls(cap, gs[..n])
  {
    forall i: nat | i < n
      ensures UnrollsAt(cap, gs[..n], i)
    {
      assert UnrollsAt(cap, gs, i);
      assert gs[..n][..i] == gs[..i];
    }
  }

  lemma {:induction false} StateFacts(cap: real, gs: seq<Grant>)
    requires cap > 0.0 && Unrolls(cap, gs)
    ensures var b := State(cap, gs); 0.0 <= b.tokens <= cap && b.last <= FreeAfter(gs)
  {
    if gs != [] {
      Prefix(cap, gs, |gs| - 1);
      StateFacts(cap, gs[..|gs| - 1]);
      assert UnrollsAt(cap, gs, |gs| - 1);
    }
  }

  /** One grant costs a token; a unit of time is worth at most two, because a sleep is paid for
      when it ends and credited again at the next refill. */
  lemma GrantPays(cap: real, b: Bucket, free: real, g: Grant)
    requires cap > 0.0 && Legal(cap, b, free, g) && 0.0 <= b.tokens <= cap && b.last <= free
    ensures free <= g.asked <= g.granted
    ensures Level(cap, After(cap, b, g), g.granted) <= Level(cap, b, free) + 2.0 * (g.granted - free) - 1.0
    ensures 0.0 <= Level(cap, After(cap, b, g), g.granted) <= cap
    ensures cap < 1.0 ==> Level(cap, After(cap, b, g), g.granted) >= Min(cap, 1.0 - cap)
  {
  }

  /** Between two grants the credit pays for every grant. */
  lemma {:induction false} CreditPays(cap: real, gs: seq<Grant>, i: nat, j: nat)
    requires cap > 0.0 && Unrolls(cap, gs) && i <= j < |gs|
    ensures Credit(cap, gs, j) <= Credit(cap, gs, i) + 2.0 * (gs[j].granted - gs[i].granted) - (j - i) as real
    decreases j
  {
    if i < j {
      CreditPays(cap, gs, i, j - 1);
      Prefix(cap, gs, j);
      Prefix(cap, gs, j + 1);
      assert gs[..j + 1][..j] == gs[..j];
      StateFacts(cap, gs[..j]);
      assert UnrollsAt(cap, gs, j);
      GrantPays(cap, State(cap, gs[..j]), FreeAfter(gs[..j]), gs[j]);
    }
  }

  lemma CreditBounds(cap: real, gs: seq<Grant>, i: nat)
    requires cap > 0.0 && Unrolls(cap, gs) && i < |gs|
    ensures 0.0 <= Credit(cap, gs, i) <= cap
    ensures cap < 1.0 ==> Credit(cap, gs, i) >= Min(cap, 1.0 - cap)
  {
    Prefix(cap, gs, i);
    Prefix(cap, gs, i + 1);
    assert gs[..i + 1][..i] == gs[..i];
    StateFacts(cap, gs[..i]);
    assert UnrollsAt(cap, gs, i);
    GrantPays(cap, State(cap, gs[..i]), FreeAfter(gs[..i]), gs[i]);
  }

  // ------------------------------------------------------------------ the rate bound

  /** The burst on top of the rate. */
  function Burst(r: real): real { if r >= 1.0 then 1.0 + r else Max(1.0, 2.0 * r) }

  /** The grants i..j, made within a time T, number at most 2 * rps * T plus a burst. */
  predicate Within(r: real, gs: seq<Grant>, i: nat, j: nat, burst: real)
    requires i <= j < |gs|
  {
    (j - i + 1) as real <= 2.0 * (r * (gs[j].granted - gs[i].granted)) + burst
  }

  lemma WithinScales(r: real, gs: seq<Grant>, i: nat, j: nat, burst: real)
    requires i <= j < |gs|
    ensures Within(r, gs, i, j, burst) <==>
            (j - i + 1) as real <= 2.0 * (ScaleAll(r, gs)[j].granted - ScaleAll(r, gs)[i].granted) + burst
  {
    assert r * (gs[j].granted - gs[i].granted) == r * gs[j].granted - r * gs[i].granted;
  }

  /** The rate bound, for every run and every stretch of it. */
  lemma RateBound(r: real, gs: seq<Grant>, i: nat, j: nat)
    requires r > 0.0 && Run(r, gs) && i <= j < |gs|
    ensures Within(r, gs, i, j, Burst(r))
  {
    RunScales(r, gs);
    var s := ScaleAll(r, gs);
    CreditPays(r, s, i, j);
    CreditBounds(r, s, i);
    CreditBounds(r, s, j);
    WithinScales(r, gs, i, j, Burst(r));
  }

  // ------------------------------------------------------------------ the bound when sleeps end in time

  /** The burst when every sleep ends at most `eps` late: what is left of a full bucket after a
      grant, or what a sleeper is credited for the time slept, whichever is more. */
  function LateBurst(r: real, eps: real): real {
    if r >= 1.0 then 1.0 + Max(r - 1.0, Min(r, 1.0 + r * eps)) else Max(1.0, 2.0 * r)
  }

  lemma PromptCredit(cap: real, gs: seq<Grant>, late: real, i: nat)
    requires cap >= 1.0 && Unrolls(cap, gs) && i < |gs| && PromptAt(cap, gs, late, i)
    ensures Credit(cap, gs, i) <= Max(cap - 1.0, Min(cap, 1.0 + late))
  {
    Prefix(cap, gs, i);
    assert gs[..i + 1][..i] == gs[..i];
    StateFacts(cap, gs[..i]);
    assert UnrollsAt(cap, gs, i);
    GrantPays(cap, State(cap, gs[..i]), FreeAfter(gs[..i]), gs[i]);
  }

  /** The rate bound for runs whose sleeps end at most `eps` late; without a limit on lateness the
      burst is the one of `RateBound`. */
  lemma LateRateBound(r: real, eps: real, gs: seq<Grant>, i: nat, j: nat)
    requires r > 0.0 && Run(r, gs) && Late(r, eps, gs) && i <= j < |gs|
    ensures Within(r, gs, i, j, LateBurst(r, eps))
  {
    if r >= 1.0 {
      RunScales(r, gs);
      LateScales(r, gs, r * eps);
      var s := ScaleAll(r, gs);
      CreditPays(r, s, i, j);
      assert PromptAt(r, s, r * eps, i);
      PromptCredit(r, s, r * eps, i);
      CreditBounds(r, s, j);
      WithinScales(r, gs, i, j, LateBurst(r, eps));
    } else {
      RateBound(r, gs, i, j);
    }
  }

  // ------------------------------------------------------------------ runs that reach it

  /** An acquire at moment t with a token to spend. */
  lemma TakeOne(cap: real, gs: seq<Grant>, t: real, late: real)
    requires Unrolls(cap, gs) && Prompt(cap, gs, late) && FreeAfter(gs) <= t && Level(cap, State(cap, gs), t) >= 1.0
    ensures Unrolls(cap, gs + [Grant(t, t)]) && Prompt(cap, gs + [Grant(t, t)], late)
    ensures FreeAfter(gs + [Grant(t, t)]) == t
    ensures Level(cap, State(cap, gs + [Grant(t, t)]), t) == Level(cap, State(cap, gs), t) - 1.0
    ensures State(cap, gs + [Grant(t, t)]) == Bucket(Level(cap, State(cap, gs), t) - 1.0, t)
  {
    Extend(cap, gs, Grant(t, t));
    ExtendPrompt(cap, gs, Grant(t, t), late);
  }

  /** k acquires at one moment t, all granted at once. */
  lemma {:induction false} TakeMany(cap: real, gs: seq<Grant>, t: real, k: nat, late: real) returns (hs: seq<Grant>)
    requires Unrolls(cap, gs) && Prompt(cap, gs, late) && FreeAfter(gs) <= t && Level(cap, State(cap, gs), t) >= k as real
    ensures Unrolls(cap, hs) && Prompt(cap, hs, late) && FreeAfter(hs) <= t
    ensures Level(cap, State(cap, hs), t) == Level(cap, State(cap, gs), t) - k as real
    ensures |hs| == |gs| + k && (forall i :: 0 <= i < |gs| ==> hs[i] == gs[i])
    ensures forall i :: |gs| <= i < |hs| ==> hs[i] == Grant(t, t)
    ensures k > 0 ==> State(cap, hs).last == t
    decreases k
  {
    if k == 0 {
      hs := gs;
    } else {
      TakeOne(cap, gs, t, late);
      assert (k - 1) as real == k as real - 1.0;
      hs := TakeMany(cap, gs + [Grant(t, t)], t, k - 1, late);
    }
  }

  lemma UnscaleRun(r: real, s: seq<Grant>, late: real) returns (gs: seq<Grant>)
    requires r > 0.0 && Unrolls(r, s) && Prompt(r, s, r * late)
    ensures Run(r, gs) && Late(r, late, gs) && ScaleAll(r, gs) == s && |gs| == |s|
    ensures forall i :: 0 <= i < |s| ==> gs[i] == Unscale(r, s[i])
  {
    gs := seq(|s|, i requires 0 <= i < |s| => Unscale(r, s[i]));
    assert ScaleAll(r, gs) == s;
    RunScales(r, gs);
    LateScales(r, gs, r * late);
  }

  /** With rps of at least 1: use up the full bucket at time 0 and the next token as it comes, let
      one caller sleep as late as allowed, then take everything. */
  lemma SleeperThenAll(cap: real, late: real) returns (s: seq<Grant>, i: nat, j: nat)
    requires cap >= 1.0 && late >= 0.0
    ensures Unrolls(cap, s) && Prompt(cap, s, late) && i <= j < |s| && s[i].granted == s[j].granted
    ensures j - i == Min(cap, 1.0 + late).Floor
  {
    var k := cap.Floor;
    var t, m := 1.0 - (cap - k as real), Min(cap, 1.0 + late);
    var full := TakeMany(cap, [], 0.0, k, late);
    TakeOne(cap, full, t, late);
    var empty := full + [Grant(t, t)];
    var slept := SleepFor(cap, empty, t, m, late);
    s := TakeMany(cap, slept, t + m, m.Floor, late);
    i, j := |empty|, |empty| + m.Floor;
    assert s[i] == slept[i];
  }

  /** A caller finds the bucket empty and sleeps until m tokens are back. */
  lemma SleepFor(cap: real, gs: seq<Grant>, t: real, m: real, late: real) returns (hs: seq<Grant>)
    requires Unrolls(cap, gs) && Prompt(cap, gs, late) && FreeAfter(gs) == t && State(cap, gs) == Bucket(0.0, t)
    requires 1.0 <= m <= cap && m <= 1.0 + late
    ensures hs == gs + [Grant(t, t + m)] && Unrolls(cap, hs) && Prompt(cap, hs, late)
    ensures FreeAfter(hs) == t + m && State(cap, hs) == Bucket(0.0, t) && Level(cap, State(cap, hs), t + m) == m
  {
    Extend(cap, gs, Grant(t, t + m));
    ExtendPrompt(cap, gs, Grant(t, t + m), late);
    hs := gs + [Grant(t, t + m)];
  }

  /** With rps of at least 1 the whole part of the burst is reached, in no time at all. */
  lemma LateBurstIsReached(r: real, eps: real) returns (gs: seq<Grant>, i: nat, j: nat)
    requires r >= 1.0 && eps >= 0.0
    ensures Run(r, gs) && Late(r, eps, gs) && i <= j < |gs| && gs[i].granted == gs[j].granted
    ensures j - i + 1 == LateBurst(r, eps).Floor
  {
    var s;
    ScaleOrder(r, 0.0, eps);
    s, i, j := WholeBurst(r, r * eps);
    gs := UnscaleRun(r, s, eps);
    assert gs[i] == Unscale(r, s[i]) && gs[j] == Unscale(r, s[j]);
  }

  lemma WholeBurst(cap: real, late: real) returns (s: seq<Grant>, i: nat, j: nat)
    requires cap >= 1.0 && late >= 0.0
    ensures Unrolls(cap, s) && Prompt(cap, s, late) && i <= j < |s| && s[i].granted == s[j].granted
    ensures j - i + 1 == (1.0 + Max(cap - 1.0, Min(cap, 1.0 + late))).Floor
  {
    if cap - 1.0 >= Min(cap, 1.0 + late) {
      s := TakeMany(cap, [], 0.0, cap.Floor, late);
      i, j := 0, cap.Floor - 1;
    } else {
      s, i, j := SleeperThenAll(cap, late);
    }
  }

  /** In particular a caller may be late by a whole second: the burst of `RateBound` is reached
      when rps is a whole number. */
  lemma BurstIsReached(r: real) returns (gs: seq<Grant>, i: nat, j: nat)
    requires r >= 1.0
    ensures Run(r, gs) && i <= j < |gs| && gs[i].granted == gs[j].granted && j - i + 1 == r.Floor + 1
  {
    gs, i, j := LateBurstIsReached(r, 1.0);
  }

  /** With rps between 1/2 and 1, even when every sleep ends on time: three callers in a row; the
      last two are granted (1-rps)/rps apart, which meets the bound with equality. */
  lemma SlowBurstIsReached(r: real) returns (gs: seq<Grant>)
    requires 0.5 < r < 1.0
    ensures Run(r, gs) && Late(r, 0.0, gs) && |gs| == 3 && r * (gs[2].granted - gs[1].granted) == 1.0 - r
    ensures 2.0 == 2.0 * (r * (gs[2].granted - gs[1].granted)) + Burst(r)
  {
    var s := ThreeInARow(r);
    gs := UnscaleRun(r, s, 0.0);
    ScaleDifference(r, gs[2], gs[1]);
  }

  lemma ScaleDifference(r: real, g: Grant, h: Grant)
    ensures r * (g.granted - h.granted) == Scale(r, g).granted - Scale(r, h).granted
  {
  }

  lemma ThreeInARow(r: real) returns (s: seq<Grant>)
    requires 0.5 < r < 1.0
    ensures Unrolls(r, s) && Prompt(r, s, 0.0) && |s| == 3 && s[2].granted - s[1].granted == 1.0 - r
  {
    var a, b, c := Grant(0.0, 1.0 - r), Grant(1.0 - r, 1.0), Grant(1.0, 2.0 - r);
    Extend(r, [], a);
    ExtendPrompt(r, [], a, 0.0);
    Extend(r, [] + [a], b);
    ExtendPrompt(r, [] + [a], b, 0.0);
    Extend(r, [] + [a] + [b], c);
    ExtendPrompt(r, [] + [a] + [b], c, 0.0);
    s := [] + [a] + [b] + [c];
  }

  function Unscale(r: real, g: Grant): (u: Grant)
    requires r > 0.0
    ensures Scale(r, u) == g
  {
    Grant(g.asked / r, g.granted / r)
  }

  /** The naive bound, a full bucket on top of twice the rate. */
  ghost predicate NaiveBoundHolds(r: real, gs: seq<Grant>) {
    forall i: nat, j: nat :: i <= j < |gs| ==> Within(r, gs, i, j, Max(1.0, r))
  }

  lemma NaiveBoundFails(r: real, gs: seq<Grant>, i: nat, j: nat)
    requires i <= j < |gs| && gs[i].granted == gs[j].granted && (j - i + 1) as real > Max(1.0, r)
    ensures !NaiveBoundHolds(r, gs)
  {
    assert r * (gs[j].granted - gs[i].granted) == 0.0;
    assert !Within(r, gs, i, j, Max(1.0, r));
  }

  lemma SlowRunBreaksNaiveBound(r: real) returns (gs: seq<Grant>)
    requires 0.5 < r < 1.0
    ensures Run(r, gs) && Late(r, 0.0, gs) && !NaiveBoundHolds(r, gs)
  {
    gs := SlowBurstIsReached(r);
    assert !Within(r, gs, 1, 2, Max(1.0, r));
  }

  /** It holds in all runs exactly when rps is at most 1/2. */
  lemma NaiveBoundExactly(r: real)
    requires r > 0.0
    ensures r <= 0.5 <==> forall gs: seq<Grant> :: Run(r, gs) ==> NaiveBoundHolds(r, gs)
  {
    if r <= 0.5 {
      forall gs: seq<Grant>, i: nat, j: nat | Run(r, gs) && i <= j < |gs|
        ensures Within(r, gs, i, j, Max(1.0, r))
      {
        RateBound(r, gs, i, j);
      }
    } else if r < 1.0 {
      var gs := SlowRunBreaksNaiveBound(r);
    } else {
      var gs, i, j := BurstIsReached(r);
      NaiveBoundFails(r, gs, i, j);
    }
  }

  /** It holds in all runs whose sleeps end on time exactly when rps is at most 1/2 or at least 2. */
  lemma PunctualBoundExactly(r: real)
    requires r > 0.0
    ensures r <= 0.5 || r >= 2.0 <==>
            forall gs: seq<Grant> :: Run(r, gs) && Late(r, 0.0, gs) ==> NaiveBoundHolds(r, gs)
  {
    if r <= 0.5 || r >= 2.0 {
      forall gs: seq<Grant>, i: nat, j: nat | Run(r, gs) && Late(r, 0.0, gs) && i <= j < |gs|
        ensures Within(r, gs, i, j, Max(1.0, r))
      {
        LateRateBound(r, 0.0, gs, i, j);
      }
    } else if r < 1.0 {
      var gs := SlowRunBreaksNaiveBound(r);
    } else {
      var gs, i, j := LateBurstIsReached(r, 0.0);
      NaiveBoundFails(r, gs, i, j);
    }
  }

  // ------------------------------------------------------------------ the factor 2

  /** Callers that never pause, at one request per second: sleep a second, be granted, and be
      granted again at once, because the slept second is credited a second time. */
  lemma SleepThenAgain(gs: seq<Grant>, t: real) returns (hs: seq<Grant>)
    requires Unrolls(1.0, gs) && Prompt(1.0, gs, 0.0) && FreeAfter(gs) == t && State(1.0, gs) == Bucket(0.0, t)
    ensures hs == gs + [Grant(t, t + 1.0)] + [Grant(t + 1.0, t + 1.0)]
    ensures Unrolls(1.0, hs) && Prompt(1.0, hs, 0.0) && FreeAfter(hs) == t + 1.0 && State(1.0, hs) == Bucket(0.0, t + 1.0)
  {
    hs := SleepFor(1.0, gs, t, 1.0, 0.0);
    TakeOne(1.0, hs, t + 1.0, 0.0);
    hs := hs + [Grant(t + 1.0, t + 1.0)];
  }

  /** So over k seconds they get 2k grants on top of the first: the factor 2 of the bound is real. */
  lemma BackToBack(k: nat) returns (gs: seq<Grant>)
    ensures Run(1.0, gs) && Late(1.0, 0.0, gs) && |gs| == 2 * k + 1 && gs[0].granted == 0.0 && gs[2 * k].granted == k as real
  {
    var s := BackToBackScaled(k);
    gs := UnscaleRun(1.0, s, 0.0);
  }

  lemma {:induction false} BackToBackScaled(k: nat) returns (gs: seq<Grant>)
    ensures Unrolls(1.0, gs) && Prompt(1.0, gs, 0.0) && |gs| == 2 * k + 1 && FreeAfter(gs) == k as real
    ensures State(1.0, gs) == Bucket(0.0, k as real) && gs[0].granted == 0.0
  {
    if k == 0 {
      TakeOne(1.0, [], 0.0, 0.0);
      gs := [Grant(0.0, 0.0)];
      assert [] + gs == gs;
    } else {
      var before := BackToBackScaled(k - 1);
      gs := SleepThenAgain(before, (k - 1) as real);
      assert (k - 1) as real + 1.0 == k as real;
    }
  }

  lemma SleptEnough(r: real, t: real, slept: real)
    requires r > 0.0 && slept >= (1.0 - t) / r
    ensures slept * r >= 1.0 - t
  {
    var wait := (1.0 - t) / r;
    assert wait * r == 1.0 - t;
    assert (slept - wait) * r >= 0.0;
  }

  // ------------------------------------------------------------------ the object

  class TokenBucket {
    const rps: real
    var tokens: real
    var last: real

    ghost function View(): Bucket
      reads this
    {
      Bucket(tokens, last)
    }

    constructor (rps: real, now: real)
      ensures this.rps == rps && View() == Bucket(if rps > 0.0 then rps else 0.0, now)
    {
      this.rps := rps;
      tokens := if rps > 0.0 then rps else 0.0;
      last := now;
    }

    /** `acquire`, entered with the lock held at `now`. `wakeUp` is when a sleep would end. */
    method Acquire(now: real, wakeUp: real) returns (granted: real)
      requires rps > 0.0 && Refill(rps, View(), now) < 1.0 ==> wakeUp >= now + (1.0 - Refill(rps, View(), now)) / rps
      modifies this
      ensures rps <= 0.0 ==> granted == now && View() == old(View())
      ensures rps > 0.0 ==> View() == Next(rps, old(View()), Grant(now, granted))
                            && LegalGrant(rps, old(View()), now, Grant(now, granted))
    {
      if rps <= 0.0 {
        return now;
      }
      tokens := Min(rps, tokens + (now - last) * rps);
      last := now;
      if tokens < 1.0 {
        SleptEnough(rps, tokens, wakeUp - now);
        granted := wakeUp;
        tokens := 0.0;
      } else {
        granted := now;
        tokens := tokens - 1.0;
      }
    }
  }
}
