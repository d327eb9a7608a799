/** One chunk fetch with its retries (proxy/fetchers/chunk.py), and the retry budget that all
    fetches of a request share (proxy/handlers/inner.py). */
module RetryBudgets {
  import opened Wrappers
  import opened Sums
  import opened Ranges

  /** `chunk_retries` counts all attempts, so one fetch retries at most this often. */
  function Retries(chunkRetries: nat): nat { if chunkRetries > 1 then chunkRetries - 1 else 0 }

  /** The slots of the semaphore that `handle_inner` creates. */
  function BudgetFor(configured: int, numChunks: nat, chunkRetries: nat): nat {
    if configured > 0 then configured
    else numChunks * (if chunkRetries - 1 >= 1 then chunkRetries - 1 else 1)
  }

  // ------------------------------------------------------------------ one fetch

  /** What attempt k of `fetch_chunk` meets: whether a budget slot came before the timeout, what the
      breaker and the pool answer, and the body or the failure. */
  datatype Attempt = Attempt(granted: bool, allowed: bool, alternative: Option<Url>, answer: Outcome, next: Option<Url>)

  datatype FetchResult = Fetched(data: Bytes, proxy: Url) | BudgetTimeout | Exhausted

  datatype Report = Report(proxy: Url, success: bool)

  /** The proxy of attempt j: an alternative when the breaker refuses, else the one picked after the
      attempt before, else the same as before. */
  predicate RightProxy(tries: seq<Attempt>, first: Url, chunkProxy: bool, reports: seq<Report>, j: nat)
    requires j < |reports| <= |tries|
  {
    reports[j].proxy ==
      if !tries[j].allowed && tries[j].alternative.Some? then tries[j].alternative.value
      else if j == 0 then first
      else if chunkProxy && tries[j - 1].next.Some? then tries[j - 1].next.value
      else reports[j - 1].proxy
  }

  lemma RightProxyGoesOn(tries: seq<Attempt>, first: Url, chunkProxy: bool, reports: seq<Report>, next: Report)
    requires |reports| < |tries| && forall j :: 0 <= j < |reports| ==> RightProxy(tries, first, chunkProxy, reports, j)
    ensures forall j :: 0 <= j < |reports| ==> RightProxy(tries, first, chunkProxy, reports + [next], j)
  {
    forall j | 0 <= j < |reports|
      ensures RightProxy(tries, first, chunkProxy, reports + [next], j)
    {
      assert RightProxy(tries, first, chunkProxy, reports, j);
    }
  }

  /** Cases of it: a refused proxy is left if there is another, a picked one is taken only with
      chunk_proxy, and otherwise the fetch stays where it is. */
  lemma RightProxyCases(tries: seq<Attempt>, first: Url, chunkProxy: bool, reports: seq<Report>, j: nat, u: Url)
    requires j < |reports| <= |tries| && RightProxy(tries, first, chunkProxy, reports, j)
    ensures !tries[j].allowed && tries[j].alternative == Some(u) ==> reports[j].proxy == u
    ensures (tries[j].allowed || tries[j].alternative == None) && j == 0 ==> reports[j].proxy == first
    ensures (tries[j].allowed || tries[j].alternative == None) && j > 0 ==>
              reports[j].proxy == if chunkProxy && tries[j - 1].next.Some? then tries[j - 1].next.value else reports[j - 1].proxy
  {
  }

  /** `fetch_chunk`: the first attempt is free, every further one takes a slot, and a body of the
      wrong length counts as a failure. There is one report per attempt that got to the network;
      `taken` is the number of slots used up. */
  method FetchChunk(start: nat, end: nat, proxyUrl: Url, chunkRetries: nat, chunkProxy: bool, tries: seq<Attempt>)
    returns (r: FetchResult, taken: nat, reports: seq<Report>)
    requires |tries| == chunkRetries
    ensures |reports| <= chunkRetries && taken == (if |reports| == 0 then 0 else |reports| - 1)
    ensures forall j :: 1 <= j < |reports| ==> tries[j].granted
    // the answer
    ensures r.Fetched? ==> reports != [] && tries[|reports| - 1].answer == Data(r.data) && |r.data| == end - start + 1
    ensures r.BudgetTimeout? ==> 1 <= |reports| < chunkRetries && !tries[|reports|].granted
    ensures r.Exhausted? ==> |reports| == chunkRetries
    // every attempt but a last, successful one failed or brought a body of the wrong length
    ensures forall j :: 0 <= j < |reports| && !(r.Fetched? && j == |reports| - 1) ==>
              tries[j].answer.Failed? || |tries[j].answer.bytes| != end - start + 1
    // what was reported, and against which proxy
    ensures forall j :: 0 <= j < |reports| ==> (reports[j].success <==> r.Fetched? && j == |reports| - 1)
    ensures r.Fetched? ==> reports[|reports| - 1].proxy == r.proxy
    ensures forall j :: 0 <= j < |reports| ==> RightProxy(tries, proxyUrl, chunkProxy, reports, j)
  {
    var expected := end - start + 1;
    var current := proxyUrl;
    taken, reports := 0, [];
    for attempt := 0 to chunkRetries
      invariant taken == (if attempt > 0 then attempt - 1 else 0) && |reports| == attempt
      invariant forall j :: 1 <= j < attempt ==> tries[j].granted
      invariant forall j :: 0 <= j < attempt ==> tries[j].answer.Failed? || |tries[j].answer.bytes| != expected
      invariant forall j :: 0 <= j < attempt ==> !reports[j].success
      invariant forall j :: 0 <= j < attempt ==> RightProxy(tries, proxyUrl, chunkProxy, reports, j)
      invariant attempt == 0 ==> current == proxyUrl
      invariant 0 < attempt < chunkRetries ==>
                  current == if chunkProxy && tries[attempt - 1].next.Some? then tries[attempt - 1].next.value
                             else reports[attempt - 1].proxy
    {
      var t := tries[attempt];
      if !t.allowed && t.alternative.Some? {
        current := t.alternative.value;
      }
      if attempt > 0 {
        if !t.granted {
          return BudgetTimeout, taken, reports;
        }
        taken := taken + 1;
      }
      if t.answer.Data? && |t.answer.bytes| == expected {
        RightProxyGoesOn(tries, proxyUrl, chunkProxy, reports, Report(current, true));
        reports := reports + [Report(current, true)];
        return Fetched(t.answer.bytes, current), taken, reports;
      }
      RightProxyGoesOn(tries, proxyUrl, chunkProxy, reports, Report(current, false));
      reports := reports + [Report(current, false)];
      if attempt + 1 < chunkRetries && chunkProxy && t.next.Some? {
        current := t.next.value;
      }
    }
    r := Exhausted;
  }

  // ------------------------------------------------------------------ all fetches of a request

  datatype Status = Trying | Wanting | Succeeded | GaveUp | TimedOut | Cancelled

  /** One fetch among the others: the retries it has been granted, and where it stands. */
  datatype Fetch = Fetch(retried: nat, status: Status)

  datatype State = State(slots: nat, fetches: seq<Fetch>)

  datatype Event = Succeeds(f: nat) | Fails(f: nat) | Grants(f: nat) | TimesOut(f: nat) | Cancels(f: nat)

  function Init(count: nat, chunkRetries: nat, budget: nat): State {
    State(budget, seq(count, i => Fetch(0, if chunkRetries == 0 then GaveUp else Trying)))
  }

  /** No slot is ever given back, so a fetch times out only on an empty semaphore. The loser of the
      race and the tasks of an aborted stream are cancelled. */
  predicate Enabled(s: State, ev: Event) {
    ev.f < |s.fetches| &&
    var status := s.fetches[ev.f].status;
    match ev
    case Succeeds(_) => status.Trying?
    case Fails(_) => status.Trying?
    case Grants(_) => status.Wanting? && s.slots > 0
    case TimesOut(_) => status.Wanting? && s.slots == 0
    case Cancels(_) => status.Trying? || status.Wanting?
  }

  function Apply(chunkRetries: nat, s: State, ev: Event): State
    requires Enabled(s, ev)
  {
    var f := s.fetches[ev.f];
    match ev
    case Succeeds(i) => s.(fetches := s.fetches[i := f.(status := Succeeded)])
    case Fails(i) => s.(fetches := s.fetches[i := f.(status := if f.retried + 1 < chunkRetries then Wanting else GaveUp)])
    case Grants(i) => State(s.slots - 1, s.fetches[i := Fetch(f.retried + 1, Trying)])
    case TimesOut(i) => s.(fetches := s.fetches[i := f.(status := TimedOut)])
    case Cancels(i) => s.(fetches := s.fetches[i := f.(status := Cancelled)])
  }

  /** What holds the fetches back from outside: prefetch gates and worker slots. */
  type Gates = (State, nat) -> bool

  /** With the race the first two fetches are both of chunk 0. */
  function ChunkOf(race: bool, f: nat): nat { if race && f > 0 then f - 1 else f }

  predicate ChunkFetched(race: bool, s: State, f: nat)
    requires f < |s.fetches|
  {
    || s.fetches[f].status.Succeeded?
    || (race && f <= 1 < |s.fetches| && (s.fetches[0].status.Succeeded? || s.fetches[1].status.Succeeded?))
  }

  /** All chunks before that of fetch f have been fetched. */
  predicate InTurn(race: bool, s: State, f: nat)
    requires f <= |s.fetches|
  {
    forall e :: 0 <= e < f && ChunkOf(race, e) < ChunkOf(race, f) ==> ChunkFetched(race, s, e)
  }

  /** Whatever the gates keep out, they let in the next chunk in order. */
  ghost predicate LetNextIn(gates: Gates, race: bool) {
    forall s: State, f: nat :: f < |s.fetches| && InTurn(race, s, f) ==> gates(s, f)
  }

  predicate Runs(gates: Gates, chunkRetries: nat, s: State, evs: seq<Event>, t: State)
    decreases |evs|
  {
    if evs == [] then s == t
    else
      && Enabled(s, evs[0]) && (evs[0].Cancels? || gates(s, evs[0].f))
      && Runs(gates, chunkRetries, Apply(chunkRetries, s, evs[0]), evs[1..], t)
  }

  ghost predicate Reachable(gates: Gates, count: nat, chunkRetries: nat, budget: nat, s: State) {
    exists evs :: Runs(gates, chunkRetries, Init(count, chunkRetries, budget), evs, s)
  }

  function Granted(s: State): seq<nat> { seq(|s.fetches|, i requires 0 <= i < |s.fetches| => s.fetches[i].retried) }

  // ------------------------------------------------------------------ what every run keeps

  ghost predicate Inv(count: nat, chunkRetries: nat, budget: nat, s: State) {
    && |s.fetches| == count
    && s.slots + Sum(Granted(s)) == budget
    && forall i :: 0 <= i < count ==>
         s.fetches[i].retried <= Retries(chunkRetries)
         && (s.fetches[i].status.Wanting? ==> s.fetches[i].retried < Retries(chunkRetries))
  }

  lemma InvStep(count: nat, chunkRetries: nat, budget: nat, s: State, ev: Event)
    requires Inv(count, chunkRetries, budget, s) && Enabled(s, ev)
    ensures Inv(count, chunkRetries, budget, Apply(chunkRetries, s, ev))
  {
    var t := Apply(chunkRetries, s, ev);
    SumUpdate(Granted(s), ev.f, t.fetches[ev.f].retried);
    assert Granted(t) == Granted(s)[ev.f := t.fetches[ev.f].retried];
  }

  lemma {:induction false} InvRuns(gates: Gates, count: nat, chunkRetries: nat, budget: nat, s: State, evs: seq<Event>, t: State)
    requires Inv(count, chunkRetries, budget, s) && Runs(gates, chunkRetries, s, evs, t)
    ensures Inv(count, chunkRetries, budget, t)
    decreases |evs|
  {
    if evs != [] {
      InvStep(count, chunkRetries, budget, s, evs[0]);
      InvRuns(gates, count, chunkRetries, budget, Apply(chunkRetries, s, evs[0]), evs[1..], t);
    }
  }

  /** Slots left plus retries granted is the budget in every reachable state: the whole request
      retries at most `budget` times, and no fetch more than its own share. */
  lemma RetriesAreConserved(gates: Gates, count: nat, chunkRetries: nat, budget: nat, s: State)
    requires Reachable(gates, count, chunkRetries, budget, s)
    ensures s.slots + Sum(Granted(s)) == budget
    ensures forall i :: 0 <= i < |s.fetches| ==> s.fetches[i].retried <= Retries(chunkRetries)
    ensures Inv(count, chunkRetries, budget, s)
  {
    var init := Init(count, chunkRetries, budget);
    SumZero(Granted(init));
    var evs :| Runs(gates, chunkRetries, init, evs, s);
    InvRuns(gates, count, chunkRetries, budget, init, evs, s);
  }

  // ------------------------------------------------------------------ when a fetch waits in vain

  /** Some fetch waits for a slot and none is left. */
  predicate WaitsInVain(s: State) {
    s.slots == 0 && exists f :: 0 <= f < |s.fetches| && s.fetches[f].status.Wanting?
  }

  /** Then it waits until it times out or is cancelled: no step brings a slot back. */
  lemma {:induction false} NoSlotComesBack(gates: Gates, chunkRetries: nat, s: State, evs: seq<Event>, t: State, f: nat)
    requires Runs(gates, chunkRetries, s, evs, t) && s.slots == 0
    requires f < |s.fetches| && (s.fetches[f].status.Wanting? || s.fetches[f].status.TimedOut? || s.fetches[f].status.Cancelled?)
    ensures t.slots == 0 && f < |t.fetches| && t.fetches[f].retried == s.fetches[f].retried
    ensures t.fetches[f].status.Wanting? || t.fetches[f].status.TimedOut? || t.fetches[f].status.Cancelled?
    decreases |evs|
  {
    if evs != [] {
      NoSlotComesBack(gates, chunkRetries, Apply(chunkRetries, s, evs[0]), evs[1..], t, f);
    }
  }

  /** A waiting fetch is served while there is a slot, and gives up only when there is none. */
  lemma ServedWhileAnySlot(s: State, f: nat)
    requires f < |s.fetches| && s.fetches[f].status.Wanting?
    ensures Enabled(s, Grants(f)) <==> s.slots > 0
    ensures Enabled(s, TimesOut(f)) <==> s.slots == 0
  {
  }

  lemma {:induction false} SumAtLeast(s: seq<nat>, bound: nat)
    requires forall i :: 0 <= i < |s| ==> s[i] >= bound
    ensures Sum(s) >= |s| * bound
  {
    if s != [] {
      SumAtLeast(s[1..], bound);
      assert |s| * bound == |s[1..]| * bound + bound;
    }
  }

  /** A run in index order: the fetches before f have used up their retries and their chunks are
      there, fetch f is at it, and the later ones have not begun. */
  ghost predicate AtFetch(race: bool, count: nat, chunkRetries: nat, budget: nat, s: State, f: nat) {
    && Inv(count, chunkRetries, budget, s) && f <= count && InTurn(race, s, f)
    && (forall e :: 0 <= e < f ==> s.fetches[e].retried == Retries(chunkRetries))
    && (forall e :: f <= e < count ==> s.fetches[e].status.Trying?)
    && (forall e :: f < e < count ==> s.fetches[e].retried == 0)
  }

  /** The attempt of fetch f fails and it is granted a retry. */
  lemma RetryInTurn(race: bool, count: nat, chunkRetries: nat, budget: nat, s: State, f: nat)
    requires AtFetch(race, count, chunkRetries, budget, s, f) && f < count
    requires s.fetches[f].retried < Retries(chunkRetries) && s.slots > 0
    ensures var u := Apply(chunkRetries, s, Fails(f));
            && InTurn(race, u, f) && Enabled(u, Grants(f))
            && var v := Apply(chunkRetries, u, Grants(f));
               AtFetch(race, count, chunkRetries, budget, v, f) && v.fetches[f].retried == s.fetches[f].retried + 1
  {
    var u := Apply(chunkRetries, s, Fails(f));
    InvStep(count, chunkRetries, budget, s, Fails(f));
    InvStep(count, chunkRetries, budget, u, Grants(f));
  }

  /** The last attempt of fetch f: the first racer loses, every other fetch succeeds. */
  function LastAnswer(race: bool, count: nat, f: nat): Event {
    if race && f == 0 && count > 1 then Fails(f) else Succeeds(f)
  }

  lemma NextInTurn(race: bool, count: nat, chunkRetries: nat, budget: nat, s: State, f: nat)
    requires AtFetch(race, count, chunkRetries, budget, s, f) && f < count
    requires s.fetches[f].retried == Retries(chunkRetries) > 0
    ensures var ev := LastAnswer(race, count, f);
            Enabled(s, ev) && AtFetch(race, count, chunkRetries, budget, Apply(chunkRetries, s, ev), f + 1)
  {
    var ev := LastAnswer(race, count, f);
    InvStep(count, chunkRetries, budget, s, ev);
    var t := Apply(chunkRetries, s, ev);
    forall e | 0 <= e < f + 1 && ChunkOf(race, e) < ChunkOf(race, f + 1)
      ensures ChunkFetched(race, t, e)
    {
      if e < f && ChunkOf(race, e) < ChunkOf(race, f) {
        assert ChunkFetched(race, s, e);
      }
    }
  }

  /** Chunk by chunk every fetch uses all its retries, until one more is wanted than there are. */
  lemma {:induction false} DrainInTurn(gates: Gates, race: bool, count: nat, chunkRetries: nat, budget: nat, s: State, f: nat)
    returns (evs: seq<Event>, t: State)
    requires LetNextIn(gates, race) && AtFetch(race, count, chunkRetries, budget, s, f)
    requires count * Retries(chunkRetries) > budget
    ensures Runs(gates, chunkRetries, s, evs, t) && WaitsInVain(t)
    decreases count - f, if f < count then Retries(chunkRetries) - s.fetches[f].retried else 0
  {
    if f == count {
      SumAtLeast(Granted(s), Retries(chunkRetries));
      assert false;
    } else if s.fetches[f].retried == Retries(chunkRetries) {
      var ev := LastAnswer(race, count, f);
      assert Retries(chunkRetries) > 0;
      NextInTurn(race, count, chunkRetries, budget, s, f);
      var rest;
      rest, t := DrainInTurn(gates, race, count, chunkRetries, budget, Apply(chunkRetries, s, ev), f + 1);
      evs := [ev] + rest;
      assert evs[1..] == rest;
    } else if s.slots == 0 {
      evs, t := [Fails(f)], Apply(chunkRetries, s, Fails(f));
      assert evs[1..] == [] && t.fetches[f].status.Wanting?;
    } else {
      RetryInTurn(race, count, chunkRetries, budget, s, f);
      var v := Apply(chunkRetries, Apply(chunkRetries, s, Fails(f)), Grants(f));
      var rest;
      rest, t := DrainInTurn(gates, race, count, chunkRetries, budget, v, f);
      evs := [Fails(f), Grants(f)] + rest;
      assert evs[1..][1..] == rest && evs[1..][0] == Grants(f);
    }
  }

  /** Whatever the gates, as long as they let in the next chunk: some run makes a fetch wait in vain
      exactly when the fetches together may retry more often than the budget allows. */
  lemma WaitsSomewhereExactly(gates: Gates, race: bool, count: nat, chunkRetries: nat, budget: nat)
    requires LetNextIn(gates, race)
    ensures (exists s :: Reachable(gates, count, chunkRetries, budget, s) && WaitsInVain(s))
       <==> count * Retries(chunkRetries) > budget
  {
    if count * Retries(chunkRetries) > budget {
      var init := Init(count, chunkRetries, budget);
      SumZero(Granted(init));
      assert chunkRetries > 0;
      var evs, t := DrainInTurn(gates, race, count, chunkRetries, budget, init, 0);
      assert Reachable(gates, count, chunkRetries, budget, t);
    }
    forall s | Reachable(gates, count, chunkRetries, budget, s) && WaitsInVain(s)
      ensures count * Retries(chunkRetries) > budget
    {
      VainWaitIsOverBudget(gates, count, chunkRetries, budget, s);
    }
  }

  lemma VainWaitIsOverBudget(gates: Gates, count: nat, chunkRetries: nat, budget: nat, s: State)
    requires Reachable(gates, count, chunkRetries, budget, s) && WaitsInVain(s)
    ensures count * Retries(chunkRetries) > budget
  {
    RetriesAreConserved(gates, count, chunkRetries, budget, s);
    var f :| 0 <= f < count && s.fetches[f].status.Wanting?;
    var g := Granted(s);
    SumUpdate(g, f, g[f] + 1);
    SumAtMost(g[f := g[f] + 1], Retries(chunkRetries));
  }

  /** The same in the configured numbers, for chunk_retries >= 1: with a configured budget, or the
      default of max(chunk_retries - 1, 1) slots per chunk. */
  lemma BudgetExactly(gates: Gates, race: bool, count: nat, configured: int, numChunks: nat, chunkRetries: nat)
    requires LetNextIn(gates, race) && chunkRetries >= 1
    ensures var budget := BudgetFor(configured, numChunks, chunkRetries);
            (exists s :: Reachable(gates, count, chunkRetries, budget, s) && WaitsInVain(s)) <==>
            count * (chunkRetries - 1) > (if configured > 0 then configured
                                          else if chunkRetries == 1 then numChunks else numChunks * (chunkRetries - 1))
  {
    WaitsSomewhereExactly(gates, race, count, chunkRetries, BudgetFor(configured, numChunks, chunkRetries));
  }

  /** With the default budget no fetch ever waits, as long as every chunk is fetched once. The
      race fetches chunk 0 twice, and then one can wait as soon as there are retries at all. */
  lemma DefaultBudgetAndTheRace(gates: Gates, numChunks: nat, chunkRetries: nat)
    requires LetNextIn(gates, false) && LetNextIn(gates, true)
    ensures var budget := BudgetFor(0, numChunks, chunkRetries);
            && (!exists s :: Reachable(gates, numChunks, chunkRetries, budget, s) && WaitsInVain(s))
            && ((exists s :: Reachable(gates, numChunks + 1, chunkRetries, budget, s) && WaitsInVain(s))
                <==> chunkRetries >= 2)
  {
    var budget, own := BudgetFor(0, numChunks, chunkRetries), Retries(chunkRetries);
    WaitsSomewhereExactly(gates, false, numChunks, chunkRetries, budget);
    WaitsSomewhereExactly(gates, true, numChunks + 1, chunkRetries, budget);
    assert (numChunks + 1) * own == numChunks * own + own;
    if chunkRetries < 2 {
      assert own == 0;
    }
  }
}
