/** Choosing proxies: the live registry (proxy/registry.py) and the assignment of proxies to the
    chunks of a request (proxy/session_pool.py). Random numbers, the scores and the breaker's
    blocked set are inputs. */
module ProxyChoice {
  import opened Wrappers
  import opened Ranges
  import opened Sets
  import PS = ProxyStatistics
  import TB = TokenBuckets

  ghost predicate NoDuplicates(urls: seq<Url>) {
    forall i, j :: 0 <= i < j < |urls| ==> urls[i] != urls[j]
  }

  function ToSet(urls: seq<Url>): set<Url> { set u | u in urls }

  function Minus(urls: seq<Url>, out: set<Url>): (r: seq<Url>)
    ensures forall u :: u in r <==> u in urls && u !in out
  {
    if urls == [] then [] else (if urls[0] in out then [] else [urls[0]]) + Minus(urls[1..], out)
  }

  /** It drops the given URLs and nothing else, and keeps the order. */
  lemma {:induction false} MinusSplits(a: seq<Url>, b: seq<Url>, out: set<Url>)
    ensures Minus(a + b, out) == Minus(a, out) + Minus(b, out)
    ensures forall u :: Minus([u], out) == if u in out then [] else [u]
  {
    forall u
      ensures Minus([u], out) == if u in out then [] else [u]
    {
      assert [u][1..] == [];
    }
    if a == [] {
      assert a + b == b;
    } else {
      assert (a + b)[1..] == a[1..] + b;
      MinusSplits(a[1..], b, out);
      var x, y := Minus(a[1..], out), Minus(b, out);
      assert [a[0]] + (x + y) == ([a[0]] + x) + y;
      assert [] + (x + y) == x + y && [] + x == x;
    }
  }

  lemma {:induction false} SetSize(urls: seq<Url>)
    ensures |ToSet(urls)| <= |urls|
    ensures NoDuplicates(urls) ==> |ToSet(urls)| == |urls|
  {
    if urls == [] {
      assert ToSet(urls) == {};
    } else {
      SetSize(urls[1..]);
      assert ToSet(urls) == {urls[0]} + ToSet(urls[1..]);
      if NoDuplicates(urls) {
        assert urls[0] !in ToSet(urls[1..]);
      }
    }
  }

  // ------------------------------------------------------------------ the candidates

  /** The exclusion applies only when there are more URLs than exclusions. */
  function Candidates(available: seq<Url>, exclude: set<Url>): seq<Url> {
    if exclude != {} && |available| > |exclude| then Minus(available, exclude) else available
  }

  /** Then something is left, because the pool has no duplicates. */
  lemma SomethingIsLeft(available: seq<Url>, exclude: set<Url>)
    requires NoDuplicates(available) && |available| > |exclude|
    ensures Candidates(available, exclude) != []
    ensures forall u :: u in Candidates(available, exclude) ==> u in available && u !in exclude
  {
    var left := Minus(available, exclude);
    if left == [] {
      assert ToSet(available) <= exclude;
      SubsetSize(ToSet(available), exclude);
      SetSize(available);
    }
  }

  /** The exclusion is dropped altogether when there are no more URLs than exclusions. */
  lemma WhatIsOpen(available: seq<Url>, exclude: set<Url>, u: Url)
    ensures |available| > |exclude| ==> (u in Candidates(available, exclude) <==> u in available && u !in exclude)
    ensures |available| <= |exclude| ==> Candidates(available, exclude) == available
  {
  }

  // ------------------------------------------------------------------ the weighted choice

  function WeightOf(scores: map<Url, real>, u: Url): (w: real)
    ensures w >= 0.01
  {
    var s := if u in scores then scores[u] else 0.5;
    if s > 0.01 then s else 0.01
  }

  /** The weight of the first k candidates. */
  function Cumulative(cs: seq<Url>, scores: map<Url, real>, k: nat): real
    requires k <= |cs|
  {
    if k == 0 then 0.0 else Cumulative(cs, scores, k - 1) + WeightOf(scores, cs[k - 1])
  }

  /** Candidate i owns the draws in (Cumulative(i), Cumulative(i+1)], the first one also 0. */
  predicate Owns(cs: seq<Url>, scores: map<Url, real>, i: nat, draw: real)
    requires i < |cs|
  {
    (i == 0 || Cumulative(cs, scores, i) < draw) && draw <= Cumulative(cs, scores, i + 1)
  }

  lemma {:induction false} CumulativeGrows(cs: seq<Url>, scores: map<Url, real>, i: nat, j: nat)
    requires i <= j <= |cs|
    ensures Cumulative(cs, scores, i) + 0.01 * (j - i) as real <= Cumulative(cs, scores, j)
    decreases j
  {
    if i < j {
      CumulativeGrows(cs, scores, i, j - 1);
      assert (j - i) as real == (j - 1 - i) as real + 1.0;
    }
  }

  lemma DrawInRange(random: real, total: real)
    requires 0.0 <= random < 1.0 && total >= 0.0
    ensures 0.0 <= random * total <= total
  {
    assert total - random * total == (1.0 - random) * total;
  }

  /** The loop of `score_choice`: it returns the owner of the draw, and the return after the loop is
      never reached. */
  method FindOwner(candidates: seq<Url>, scores: map<Url, real>, draw: real) returns (i: nat)
    requires candidates != [] && 0.0 <= draw <= Cumulative(candidates, scores, |candidates|)
    ensures i < |candidates| && Owns(candidates, scores, i, draw)
  {
    var cumulative := 0.0;
    i := 0;
    while i < |candidates|
      invariant i <= |candidates| && cumulative == Cumulative(candidates, scores, i)
      invariant i == 0 || cumulative < draw
    {
      cumulative := cumulative + WeightOf(scores, candidates[i]);
      if draw <= cumulative {
        return;
      }
      i := i + 1;
    }
    assert false;
  }

  /** The point of (0, total] that a random number in [0, 1) selects. */
  function Threshold(random: real, total: real): (d: real)
    requires 0.0 <= random < 1.0 && total >= 0.0
    ensures 0.0 <= d <= total
  {
    DrawInRange(random, total);
    random * total
  }

  /** `r` is the candidate that owns the draw made with `random`; without candidates it is None. */
  predicate ChosenBy(cs: seq<Url>, scores: map<Url, real>, random: real, r: Option<Url>)
    requires 0.0 <= random < 1.0
  {
    if cs == [] then r == None
    else
      CumulativePositive(cs, scores, |cs|);
      exists i: nat :: i < |cs| && r == Some(cs[i]) && Owns(cs, scores, i, Threshold(random, Cumulative(cs, scores, |cs|)))
  }

  lemma {:induction false} CumulativePositive(cs: seq<Url>, scores: map<Url, real>, k: nat)
    requires k <= |cs|
    ensures Cumulative(cs, scores, k) >= 0.0
  {
    if k > 0 {
      CumulativePositive(cs, scores, k - 1);
    }
  }

  /** `score_choice` on a snapshot of the scores. */
  method ScoreChoice(available: seq<Url>, exclude: set<Url>, scores: map<Url, real>, random: real)
    returns (r: Option<Url>)
    requires 0.0 <= random < 1.0
    ensures ChosenBy(Candidates(available, exclude), scores, random, r)
  {
    var candidates := available;
    if candidates == [] {
      return None;
    }
    if exclude != {} && |candidates| > |exclude| {
      candidates := Minus(candidates, exclude);
    }
    if candidates == [] {
      return None;
    }
    CumulativePositive(candidates, scores, |candidates|);
    var draw := Threshold(random, Cumulative(candidates, scores, |candidates|));
    var i := FindOwner(candidates, scores, draw);
    return Some(candidates[i]);
  }

  /** The owned intervals tile the draws: every draw up to the total weight has exactly one owner. */
  lemma EveryDrawHasOneOwner(cs: seq<Url>, scores: map<Url, real>, draw: real)
    requires cs != [] && 0.0 <= draw <= Cumulative(cs, scores, |cs|)
    ensures exists i: nat :: i < |cs| && Owns(cs, scores, i, draw)
    ensures forall i: nat, j: nat :: i < |cs| && j < |cs| && Owns(cs, scores, i, draw) && Owns(cs, scores, j, draw) ==> i == j
  {
    var i := OwnerOf(cs, scores, draw, |cs|);
    forall i: nat, j: nat | i < j < |cs| && Owns(cs, scores, i, draw) && Owns(cs, scores, j, draw)
      ensures false
    {
      CumulativeGrows(cs, scores, i + 1, j);
    }
  }

  lemma {:induction false} OwnerOf(cs: seq<Url>, scores: map<Url, real>, draw: real, k: nat) returns (i: nat)
    requires 0 < k <= |cs| && draw <= Cumulative(cs, scores, k)
    ensures i < k && Owns(cs, scores, i, draw)
  {
    if k == 1 || Cumulative(cs, scores, k - 1) < draw {
      i := k - 1;
    } else {
      i := OwnerOf(cs, scores, draw, k - 1);
    }
  }

  /** Each interval is as long as the candidate's weight, and with scores of at most 1 its share of
      all draws is at least 0.01/n: nobody starves. */
  lemma FairShare(cs: seq<Url>, scores: map<Url, real>, i: nat)
    requires i < |cs| && forall u :: u in scores ==> scores[u] <= 1.0
    ensures var s := if cs[i] in scores then scores[cs[i]] else 0.5;
            Cumulative(cs, scores, i + 1) - Cumulative(cs, scores, i) == if s > 0.01 then s else 0.01
    ensures 0.0 < Cumulative(cs, scores, |cs|) <= |cs| as real
    ensures WeightOf(scores, cs[i]) / Cumulative(cs, scores, |cs|) >= 0.01 / |cs| as real
  {
    CumulativeGrows(cs, scores, 0, |cs|);
    CumulativeAtMost(cs, scores, |cs|);
    assert |cs| as real >= 1.0;
    ShareAtLeast(WeightOf(scores, cs[i]), Cumulative(cs, scores, |cs|), |cs| as real);
  }

  /** So the random numbers that select candidate i form an interval of exactly its share. */
  lemma ShareOfRandom(cs: seq<Url>, scores: map<Url, real>, i: nat, random: real)
    requires i < |cs| && 0.0 <= random < 1.0
    ensures var total := Cumulative(cs, scores, |cs|);
            && total > 0.0
            && (Owns(cs, scores, i, Threshold(random, total)) <==>
                (i == 0 || Cumulative(cs, scores, i) / total < random) && random <= Cumulative(cs, scores, i + 1) / total)
  {
    TotalPositive(cs, scores);
    var total := Cumulative(cs, scores, |cs|);
    var draw := Threshold(random, total);
    ShareOfInterval(Cumulative(cs, scores, i), Cumulative(cs, scores, i + 1), random, total, draw);
  }

  lemma TotalPositive(cs: seq<Url>, scores: map<Url, real>)
    requires cs != []
    ensures Cumulative(cs, scores, |cs|) > 0.0
  {
    CumulativeGrows(cs, scores, 0, |cs|);
  }

  lemma ShareOfInterval(lo: real, hi: real, random: real, total: real, draw: real)
    requires total > 0.0 && 0.0 <= random < 1.0 && draw == Threshold(random, total)
    ensures (lo < draw <==> lo / total < random) && (draw <= hi <==> random <= hi / total)
  {
    BelowProduct(lo, random, total);
    BelowProduct(hi, random, total);
  }

  lemma BelowProduct(c: real, random: real, total: real)
    requires total > 0.0
    ensures c < random * total <==> c / total < random
  {
    var q := c / total;
    assert q * total == c;
    assert random * total - c == (random - q) * total;
    assert random > q ==> (random - q) * total > 0.0;
    assert random <= q ==> (random - q) * total <= 0.0;
  }

  lemma {:induction false} CumulativeAtMost(cs: seq<Url>, scores: map<Url, real>, k: nat)
    requires k <= |cs| && forall u :: u in scores ==> scores[u] <= 1.0
    ensures Cumulative(cs, scores, k) <= k as real
  {
    if k > 0 {
      CumulativeAtMost(cs, scores, k - 1);
      assert k as real == (k - 1) as real + 1.0;
    }
  }

  lemma ShareAtLeast(w: real, total: real, n: real)
    requires w >= 0.01 && 0.0 < total <= n
    ensures w / total >= 0.01 / n
  {
    var q, p := w / total, 0.01 / n;
    assert q * total == w && p * n == 0.01;
    assert p <= 0.0 ==> p * n <= 0.0;
    assert p * total <= p * n;
    assert q < p ==> q * total < p * total;
  }

  /** `random_choice`; `pick` is the index the random generator draws. */
  method RandomChoice(available: seq<Url>, exclude: set<Url>, pick: nat) returns (r: Option<Url>)
    ensures var cs := Candidates(available, exclude);
            && (r.None? <==> cs == [])
            && (cs != [] ==> r == Some(cs[pick % |cs|]))
  {
    var candidates := available;
    if candidates == [] {
      return None;
    }
    if exclude != {} && |candidates| > |exclude| {
      candidates := Minus(candidates, exclude);
    }
    if candidates == [] {
      return None;
    }
    return Some(candidates[pick % |candidates|]);
  }

  // ------------------------------------------------------------------ spreading the chunks

  /** `s[-n:]` of a list. For n = 0 that is the whole list. */
  function LastOf(s: seq<Url>, n: nat): seq<Url> {
    if n == 0 || |s| <= n then s else s[|s| - n..]
  }

  /** What one call of `pick_proxy` finds: the available URLs, the scores, and the random draw. */
  datatype Draw = Draw(available: seq<Url>, scores: map<Url, real>, random: real, pick: nat)

  /** `pick_proxy`: with more URLs than exclusions in a pool without duplicates, it finds one outside. */
  method PickProxy(d: Draw, exclude: set<Url>, weighted: bool) returns (choice: Option<Url>)
    requires 0.0 <= d.random < 1.0
    ensures var cs := Candidates(d.available, exclude);
            if weighted then ChosenBy(cs, d.scores, d.random, choice)
            else choice == if cs == [] then None else Some(cs[d.pick % |cs|])
    ensures choice.Some? ==> choice.value in Candidates(d.available, exclude)
    ensures NoDuplicates(d.available) && d.available != [] ==> choice.Some?
    ensures NoDuplicates(d.available) && |exclude| < |d.available| ==> choice.Some? && choice.value !in exclude
  {
    if weighted {
      choice := ScoreChoice(d.available, exclude, d.scores, d.random);
    } else {
      choice := RandomChoice(d.available, exclude, d.pick);
    }
    if NoDuplicates(d.available) && |exclude| < |d.available| {
      SomethingIsLeft(d.available, exclude);
    }
  }

  /** `_best_available`: the first URL of the best score. */
  function Best(available: seq<Url>, scores: map<Url, real>): (u: Url)
    requires available != []
    ensures u in available && forall v :: v in available ==> ScoreOf(scores, v) <= ScoreOf(scores, u)
    ensures exists i :: 0 <= i < |available| && u == available[i]
                        && forall j :: 0 <= j < i ==> ScoreOf(scores, available[j]) < ScoreOf(scores, u)
  {
    if |available| == 1 then available[0]
    else
      var rest := Best(available[1..], scores);
      if ScoreOf(scores, available[0]) >= ScoreOf(scores, rest) then available[0] else FirstBest(available, scores, rest); rest
  }

  /** The first best URL of the rest, if it beats the head, is the first best of all. */
  lemma FirstBest(available: seq<Url>, scores: map<Url, real>, u: Url)
    requires available != [] && ScoreOf(scores, available[0]) < ScoreOf(scores, u)
    requires exists i :: 0 <= i < |available[1..]| && u == available[1..][i]
                         && forall j :: 0 <= j < i ==> ScoreOf(scores, available[1..][j]) < ScoreOf(scores, u)
    ensures exists i :: 0 <= i < |available| && u == available[i]
                        && forall j :: 0 <= j < i ==> ScoreOf(scores, available[j]) < ScoreOf(scores, u)
  {
    var rest := available[1..];
    var i :| 0 <= i < |rest| && u == rest[i] && forall j :: 0 <= j < i ==> ScoreOf(scores, rest[j]) < ScoreOf(scores, u);
    assert u == available[i + 1];
    forall j | 0 <= j < i + 1
      ensures ScoreOf(scores, available[j]) < ScoreOf(scores, u)
    {
      assert j > 0 ==> available[j] == rest[j - 1];
    }
  }

  function ScoreOf(scores: map<Url, real>, u: Url): (s: real)
    ensures u in scores ==> s == scores[u]
    ensures u !in scores ==> s == 0.5
  {
    if u in scores then scores[u] else 0.5
  }

  /** The pool keeps its size while the request is being assigned, and lists no URL twice. */
  ghost predicate Steady(available: seq<Url>, draws: seq<Draw>) {
    forall t :: 0 <= t < |draws| ==> SteadyAt(available, draws[t])
  }

  ghost predicate SteadyAt(available: seq<Url>, d: Draw) {
    NoDuplicates(d.available) && |d.available| >= |available|
  }

  /** No URL is repeated within `reach` chunks. */
  ghost predicate Spread(assignment: seq<Url>, reach: nat) {
    forall i, j :: 0 <= i < j < |assignment| && j - i <= reach ==> assignment[i] != assignment[j]
  }

  /** What is open to the pick after `earlier` has been assigned. */
  function OpenTo(d: Draw, earlier: seq<Url>, win: nat): seq<Url> {
    Candidates(d.available, ToSet(LastOf(earlier, win)))
  }

  /** The URL assigned after `earlier`: the owner of the scaled draw, or the drawn element, of what is
      open to the pick, and the best available URL only if nothing is. */
  ghost predicate Picked(choice: Url, d: Draw, earlier: seq<Url>, available: seq<Url>, win: nat, weighted: bool,
                         bestScores: map<Url, real>)
    requires available != [] && 0.0 <= d.random < 1.0
  {
    var cs := OpenTo(d, earlier, win);
    if cs == [] then choice == Best(available, bestScores)
    else if weighted then ChosenBy(cs, d.scores, d.random, Some(choice))
    else choice == cs[d.pick % |cs|]
  }

  ghost predicate DrawsOk(draws: seq<Draw>) { forall t :: 0 <= t < |draws| ==> 0.0 <= draws[t].random < 1.0 }

  ghost predicate PickedAt(assignment: seq<Url>, draws: seq<Draw>, available: seq<Url>, win: nat, weighted: bool,
                           bestScores: map<Url, real>, t: nat)
    requires available != [] && t < |assignment| <= |draws| && DrawsOk(draws)
  {
    Picked(assignment[t], draws[t], assignment[..t], available, win, weighted, bestScores)
  }

  ghost predicate AllPicked(assignment: seq<Url>, draws: seq<Draw>, available: seq<Url>, win: nat, weighted: bool,
                            bestScores: map<Url, real>)
    requires available != [] && DrawsOk(draws)
  {
    && |assignment| <= |draws|
    && forall t: nat :: t < |assignment| ==> PickedAt(assignment, draws, available, win, weighted, bestScores, t)
  }

  lemma AllPickedExtends(assignment: seq<Url>, choice: Url, draws: seq<Draw>, available: seq<Url>, win: nat, weighted: bool,
                         bestScores: map<Url, real>)
    requires available != [] && DrawsOk(draws) && |assignment| < |draws|
    requires AllPicked(assignment, draws, available, win, weighted, bestScores)
    requires Picked(choice, draws[|assignment|], assignment, available, win, weighted, bestScores)
    ensures AllPicked(assignment + [choice], draws, available, win, weighted, bestScores)
  {
    var longer := assignment + [choice];
    forall t: nat | t < |longer|
      ensures PickedAt(longer, draws, available, win, weighted, bestScores, t)
    {
      if t < |assignment| {
        assert PickedAt(assignment, draws, available, win, weighted, bestScores, t);
        assert longer[..t] == assignment[..t];
      } else {
        assert longer[..t] == assignment;
      }
    }
  }

  lemma PickedCases(choice: Url, d: Draw, earlier: seq<Url>, available: seq<Url>, win: nat, weighted: bool,
                    bestScores: map<Url, real>)
    requires available != [] && 0.0 <= d.random < 1.0 && Picked(choice, d, earlier, available, win, weighted, bestScores)
    ensures var recent := if 1 <= win < |earlier| then earlier[|earlier| - win..] else earlier;
            var cs := Candidates(d.available, set u | u in recent);
            && (cs == [] ==> choice == Best(available, bestScores))
            && (cs != [] && weighted ==>
                  exists i: nat :: i < |cs| && choice == cs[i]
                                   && Owns(cs, d.scores, i, Threshold(d.random, Cumulative(cs, d.scores, |cs|))))
            && (cs != [] && !weighted ==> choice == cs[d.pick % |cs|])
  {
    var recent := if 1 <= win < |earlier| then earlier[|earlier| - win..] else earlier;
    assert LastOf(earlier, win) == recent;
    var cs := Candidates(d.available, set u | u in recent);
    if cs != [] {
      CumulativePositive(cs, d.scores, |cs|);
    }
  }

  /** How many picks found nothing open to them. */
  function NothingOpen(draws: seq<Draw>, assignment: seq<Url>, win: nat): nat
    requires |assignment| <= |draws|
  {
    if assignment == [] then 0
    else
      var earlier := assignment[..|assignment| - 1];
      NothingOpen(draws, earlier, win) + if OpenTo(draws[|earlier|], earlier, win) == [] then 1 else 0
  }

  /** One round of the loop: pick outside the window, or fall back to the best URL. */
  method AssignNext(d: Draw, available: seq<Url>, assignment: seq<Url>, win: nat, weighted: bool, bestScores: map<Url, real>)
    returns (choice: Url, fellBack: bool)
    requires 0.0 <= d.random < 1.0 && win < |available|
    ensures Picked(choice, d, assignment, available, win, weighted, bestScores)
    ensures var cs := Candidates(d.available, ToSet(LastOf(assignment, win)));
            && (fellBack <==> cs == [])
            && (fellBack ==> choice == Best(available, bestScores))
            && (!fellBack && weighted ==> ChosenBy(cs, d.scores, d.random, Some(choice)))
            && (!fellBack && !weighted ==> choice == cs[d.pick % |cs|])
    ensures SteadyAt(available, d) && SpreadSoFar(assignment, win, |available|) ==>
              !fellBack && SpreadSoFar(assignment + [choice], win, |available|)
  {
    var exclude := ToSet(LastOf(assignment, win));
    var picked := PickProxy(d, exclude, weighted);
    fellBack := picked.None?;
    choice := if fellBack then Best(available, bestScores) else picked.value;
    if SteadyAt(available, d) && SpreadSoFar(assignment, win, |available|) {
      SetSize(LastOf(assignment, win));
      SpreadSoFarExtends(assignment, choice, win, |available|);
    }
  }

  /** `distribute_proxies` on a snapshot of the pool; draws[t] is what the pick for chunk t finds. */
  method DistributeProxies(numChunks: nat, pin: Option<Url>, available: seq<Url>, weighted: bool, excludeWindow: nat,
                           bestScores: map<Url, real>, draws: seq<Draw>)
    returns (assignment: seq<Url>, fallbacks: nat)
    requires |draws| == numChunks && DrawsOk(draws)
    ensures pin.Some? ==> assignment == seq(numChunks, i => pin.value)
    ensures pin.None? && available == [] ==> assignment == []
    ensures pin.None? && |available| == 1 ==> assignment == seq(numChunks, i => available[0])
    ensures pin.Some? || available != [] ==> |assignment| == numChunks
    ensures pin.Some? || |available| <= 1 ==> fallbacks == 0
    ensures pin.None? && |available| >= 2 ==>
              var win := if |available| - 1 <= excludeWindow then |available| - 1 else excludeWindow;
              && AllPicked(assignment, draws, available, win, weighted, bestScores)
              && fallbacks == NothingOpen(draws, assignment, win)
              && (Steady(available, draws) ==> fallbacks == 0 && SpreadSoFar(assignment, win, |available|))
  {
    assignment, fallbacks := [], 0;
    if pin.Some? {
      return seq(numChunks, i => pin.value), 0;
    }
    if available == [] {
      return [], 0;
    }
    if |available| == 1 {
      return seq(numChunks, i => available[0]), 0;
    }
    var win := if |available| - 1 <= excludeWindow then |available| - 1 else excludeWindow;
    assignment, fallbacks := AssignAll(draws, available, win, weighted, bestScores);
  }

  /** The loop of `distribute_proxies`. */
  method AssignAll(draws: seq<Draw>, available: seq<Url>, win: nat, weighted: bool, bestScores: map<Url, real>)
    returns (assignment: seq<Url>, fallbacks: nat)
    requires win < |available| && DrawsOk(draws)
    ensures |assignment| == |draws| && AssignedSoFar(assignment, fallbacks, draws, available, win, weighted, bestScores)
  {
    assert SpreadSoFar([], win, |available|);
    assignment, fallbacks := [], 0;
    for t := 0 to |draws|
      invariant |assignment| == t && AssignedSoFar(assignment, fallbacks, draws, available, win, weighted, bestScores)
    {
      var choice, fellBack := AssignNext(draws[t], available, assignment, win, weighted, bestScores);
      AssignedOneMore(assignment, fallbacks, draws, available, win, weighted, bestScores, choice, fellBack);
      if fellBack {
        fallbacks := fallbacks + 1;
      }
      assignment := assignment + [choice];
    }
  }

  ghost predicate AssignedSoFar(assignment: seq<Url>, fallbacks: nat, draws: seq<Draw>, available: seq<Url>, win: nat,
                                weighted: bool, bestScores: map<Url, real>)
    requires available != [] && DrawsOk(draws)
  {
    && AllPicked(assignment, draws, available, win, weighted, bestScores)
    && fallbacks == NothingOpen(draws, assignment, win)
    && (Steady(available, draws) ==> fallbacks == 0 && SpreadSoFar(assignment, win, |available|))
  }

  lemma AssignedOneMore(assignment: seq<Url>, fallbacks: nat, draws: seq<Draw>, available: seq<Url>, win: nat,
                        weighted: bool, bestScores: map<Url, real>, choice: Url, fellBack: bool)
    requires available != [] && DrawsOk(draws) && |assignment| < |draws|
    requires AssignedSoFar(assignment, fallbacks, draws, available, win, weighted, bestScores)
    requires Picked(choice, draws[|assignment|], assignment, available, win, weighted, bestScores)
    requires fellBack <==> OpenTo(draws[|assignment|], assignment, win) == []
    requires SteadyAt(available, draws[|assignment|]) && SpreadSoFar(assignment, win, |available|) ==>
               !fellBack && SpreadSoFar(assignment + [choice], win, |available|)
    ensures AssignedSoFar(assignment + [choice], if fellBack then fallbacks + 1 else fallbacks, draws, available, win,
                          weighted, bestScores)
  {
    AllPickedExtends(assignment, choice, draws, available, win, weighted, bestScores);
    CountOneMore(draws, assignment, choice, win);
  }

  lemma CountOneMore(draws: seq<Draw>, assignment: seq<Url>, choice: Url, win: nat)
    requires |assignment| < |draws|
    ensures NothingOpen(draws, assignment + [choice], win) ==
            NothingOpen(draws, assignment, win) + if OpenTo(draws[|assignment|], assignment, win) == [] then 1 else 0
  {
    assert (assignment + [choice])[..|assignment|] == assignment;
  }

  /** With a window the last `win` assignments are avoided. A window of 0 avoids everything assigned
      before, until that is the whole pool. */
  ghost predicate SpreadSoFar(assignment: seq<Url>, win: nat, pool: nat) {
    if win >= 1 then Spread(assignment, win)
    else NoDuplicates(if |assignment| <= pool then assignment else assignment[..pool])
  }

  lemma SpreadSoFarExtends(assignment: seq<Url>, u: Url, win: nat, pool: nat)
    requires SpreadSoFar(assignment, win, pool)
    requires win >= 1 || |assignment| < pool ==> u !in ToSet(LastOf(assignment, win))
    ensures SpreadSoFar(assignment + [u], win, pool)
  {
    if win >= 1 {
      SpreadExtends(assignment, u, win);
    } else if |assignment| < pool {
      forall k | 0 <= k < |assignment|
        ensures assignment[k] != u
      {
        assert assignment[k] in assignment;
      }
    } else {
      assert (assignment + [u])[..pool] == assignment[..pool];
    }
  }

  lemma SpreadExtends(assignment: seq<Url>, u: Url, win: nat)
    requires win >= 1 && Spread(assignment, win) && u !in ToSet(LastOf(assignment, win))
    ensures Spread(assignment + [u], win)
  {
    var last := LastOf(assignment, win);
    forall i | 0 <= i < |assignment| && |assignment| - i <= win
      ensures assignment[i] != u
    {
      assert assignment[i] == last[i - (|assignment| - |last|)];
      assert assignment[i] in last;
    }
  }

  // ------------------------------------------------------------------ the registry

  lemma DropOne(s: seq<Url>, i: nat)
    requires i < |s|
    ensures var t := s[..i] + s[i + 1..];
            && multiset(t) == multiset(s) - multiset{s[i]}
            && (NoDuplicates(s) ==> NoDuplicates(t) && s[i] !in t)
  {
    assert s == s[..i] + [s[i]] + s[i + 1..];
    if NoDuplicates(s) {
      DropKeepsDistinct(s, i);
    }
  }

  lemma DropKeepsDistinct(s: seq<Url>, i: nat)
    requires i < |s| && NoDuplicates(s)
    ensures var t := s[..i] + s[i + 1..]; NoDuplicates(t) && s[i] !in t
  {
    var t := s[..i] + s[i + 1..];
    assert forall k :: 0 <= k < |t| ==> t[k] == if k < i then s[k] else s[k + 1];
  }

  predicate Serves(u: Url, blocked: set<Url>, tags: map<Url, set<string>>, pool: Option<string>) {
    u !in blocked && (pool.None? || (u in tags && pool.value in tags[u]))
  }

  function Served(urls: seq<Url>, blocked: set<Url>, tags: map<Url, set<string>>, pool: Option<string>): seq<Url> {
    if urls == [] then []
    else (if Serves(urls[0], blocked, tags, pool) then [urls[0]] else []) + Served(urls[1..], blocked, tags, pool)
  }

  lemma ServedStep(urls: seq<Url>, i: nat, r: seq<Url>, blocked: set<Url>, tags: map<Url, set<string>>, pool: Option<string>)
    requires i < |urls|
    ensures r + Served(urls[i..], blocked, tags, pool) ==
            (if Serves(urls[i], blocked, tags, pool) then r + [urls[i]] else r) + Served(urls[i + 1..], blocked, tags, pool)
  {
    assert urls[i..][1..] == urls[i + 1..];
    var rest := Served(urls[i + 1..], blocked, tags, pool);
    assert r + ([urls[i]] + rest) == (r + [urls[i]]) + rest;
    assert [] + rest == rest;
  }

  lemma {:induction false} ServedFacts(urls: seq<Url>, blocked: set<Url>, tags: map<Url, set<string>>, pool: Option<string>)
    ensures forall u :: u in Served(urls, blocked, tags, pool) <==> u in urls && Serves(u, blocked, tags, pool)
    ensures NoDuplicates(urls) ==> NoDuplicates(Served(urls, blocked, tags, pool))
  {
    if urls != [] {
      ServedFacts(urls[1..], blocked, tags, pool);
      var rest := Served(urls[1..], blocked, tags, pool);
      if NoDuplicates(urls) {
        forall k | 0 <= k < |rest|
          ensures rest[k] != urls[0]
        {
          assert rest[k] in urls[1..];
        }
      }
    }
  }

  /** It drops the URLs that may not serve and nothing else, and keeps the order. */
  lemma {:induction false} ServedSplits(a: seq<Url>, b: seq<Url>, blocked: set<Url>, tags: map<Url, set<string>>, pool: Option<string>)
    ensures Served(a + b, blocked, tags, pool) == Served(a, blocked, tags, pool) + Served(b, blocked, tags, pool)
  {
    if a == [] {
      assert a + b == b;
    } else {
      assert (a + b)[1..] == a[1..] + b;
      ServedSplits(a[1..], b, blocked, tags, pool);
      var x, y := Served(a[1..], blocked, tags, pool), Served(b, blocked, tags, pool);
      assert [a[0]] + (x + y) == ([a[0]] + x) + y;
      assert [] + (x + y) == x + y && [] + x == x;
    }
  }

  class ProxyRegistry {
    var urls: seq<Url>
    var torUrls: set<Url>
    var tags: map<Url, set<string>>
    var limiters: map<Url, TB.TokenBucket>
    const stats: PS.ProxyStats

    constructor (initial: seq<Url>, torUrls: set<Url>, stats: PS.ProxyStats)
      ensures urls == initial && this.torUrls == torUrls && tags == map[] && limiters == map[] && this.stats == stats
    {
      this.torUrls, this.stats := torUrls, stats;
      urls, tags, limiters := initial, map[], map[];
    }

    method Add(url: Url, newTags: set<string>) returns (added: bool)
      modifies this`urls, this`tags
      ensures added <==> url !in old(urls)
      ensures urls == if added then old(urls) + [url] else old(urls)
      ensures tags == if added && newTags != {} then old(tags)[url := newTags] else old(tags)
      ensures old(NoDuplicates(urls)) ==> NoDuplicates(urls)
    {
      if url in urls {
        return false;
      }
      urls := urls + [url];
      if newTags != {} {
        tags := tags[url := newTags];
      }
      return true;
    }

    /** `remove` takes the first occurrence; without duplicates the URL is gone afterwards. With it
        go its tags, its rate limiter and its statistics. */
    method Remove(url: Url) returns (removed: bool)
      requires stats.Valid()
      modifies this, stats`data
      ensures removed <==> url in old(urls)
      ensures !removed ==> urls == old(urls) && torUrls == old(torUrls) && tags == old(tags)
                           && limiters == old(limiters) && stats.data == old(stats.data)
      ensures removed ==> multiset(urls) == multiset(old(urls)) - multiset{url} && torUrls == old(torUrls) - {url}
                          && tags == old(tags) - {url} && limiters == old(limiters) - {url}
                          && stats.data == old(stats.data) - {url}
      ensures stats.Valid()
      ensures old(NoDuplicates(urls)) ==> NoDuplicates(urls) && url !in urls
    {
      if url !in urls {
        return false;
      }
      var i := 0;
      while urls[i] != url
        invariant 0 <= i < |urls| && url in urls[i..]
        decreases |urls| - i
      {
        i := i + 1;
      }
      DropOne(urls, i);
      urls := urls[..i] + urls[i + 1..];
      torUrls, tags, limiters := torUrls - {url}, tags - {url}, limiters - {url};
      stats.Evict(url);
      return true;
    }

    /** `available`: the listed URLs, in order, that the breaker does not block and that carry the
        pool's tag when one is named. */
    method Available(blocked: set<Url>, pool: Option<string>) returns (r: seq<Url>)
      ensures r == Served(urls, blocked, tags, pool)
      ensures forall u :: u in r <==> u in urls && u !in blocked
                                      && (pool.None? || (u in tags && pool.value in tags[u]))
      ensures NoDuplicates(urls) ==> NoDuplicates(r)
    {
      r := [];
      for i := 0 to |urls|
        invariant Served(urls, blocked, tags, pool) == r + Served(urls[i..], blocked, tags, pool)
      {
        ServedStep(urls, i, r, blocked, tags, pool);
        if Serves(urls[i], blocked, tags, pool) {
          r := r + [urls[i]];
        }
      }
      ServedFacts(urls, blocked, tags, pool);
    }
  }
}
