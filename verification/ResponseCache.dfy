/** The in-memory response cache (proxy/cache.py): least recently used first, with expiry on lookup. */
module ResponseCaching {
  import opened Wrappers
  import opened Ranges
  import opened Sets

  datatype Answer = Answer(status: int, body: Bytes, headers: seq<(string, string)>)

  datatype Slot = Slot(url: Url, answer: Answer, expires: real)

  /** The OrderedDict, least recently used entry first. */
  type Store = seq<Slot>

  /** What the Cache-Control header asks for. */
  datatype Directive = Forbid | MaxAge(seconds: real) | Unspecified

  datatype Limits = Limits(maxSize: nat, defaultTtl: real, maxBody: nat)

  function Ttl(p: Limits, d: Directive): real {
    if d.MaxAge? then d.seconds else p.defaultTtl
  }

  predicate Storable(p: Limits, a: Answer, d: Directive) {
    p.maxSize > 0 && |a.body| <= p.maxBody && !d.Forbid? && Ttl(p, d) > 0.0
  }

  function Without(s: Store, url: Url): Store {
    if s == [] then [] else if s[0].url == url then Without(s[1..], url) else [s[0]] + Without(s[1..], url)
  }

  function Find(s: Store, url: Url): Option<Slot> {
    if s == [] then None else if s[0].url == url then Some(s[0]) else Find(s[1..], url)
  }

  function Trim(s: Store, cap: nat): Store {
    if |s| <= cap then s else s[|s| - cap..]
  }

  datatype Op =
    | Get(url: Url, now: real)
    | Put(url: Url, answer: Answer, directive: Directive, now: real)
    | Invalidate(url: Url)
    | Clear

  function SlotFor(p: Limits, op: Op): Slot
    requires op.Put?
  {
    Slot(op.url, op.answer, op.now + Ttl(p, op.directive))
  }

  predicate Hits(p: Limits, s: Store, url: Url, now: real) {
    p.maxSize > 0 && Find(s, url).Some? && now <= Find(s, url).value.expires
  }

  function Step(p: Limits, s: Store, op: Op): Store {
    match op
    case Get(url, now) =>
      if p.maxSize == 0 || Find(s, url).None? then s
      else if now > Find(s, url).value.expires then Without(s, url)
      else Without(s, url) + [Find(s, url).value]
    case Put(url, answer, directive, now) =>
      if Storable(p, answer, directive) then Trim(Without(s, url) + [SlotFor(p, op)], p.maxSize) else s
    case Invalidate(url) => Without(s, url)
    case Clear => []
  }

  function Lookup(p: Limits, s: Store, url: Url, now: real): Option<Answer> {
    if Hits(p, s, url, now) then Some(Find(s, url).value.answer) else None
  }

  function After(p: Limits, ops: seq<Op>): Store {
    if ops == [] then [] else Step(p, After(p, ops[..|ops| - 1]), ops[|ops| - 1])
  }

  // ------------------------------------------------------------------ stores without duplicates

  function Urls(s: Store): set<Url> {
    if s == [] then {} else {s[0].url} + Urls(s[1..])
  }

  predicate Distinct(s: Store) {
    s != [] ==> s[0].url !in Urls(s[1..]) && Distinct(s[1..])
  }

  lemma {:induction false} WithoutFacts(s: Store, url: Url)
    requires Distinct(s)
    ensures Distinct(Without(s, url)) && Urls(Without(s, url)) == Urls(s) - {url}
    ensures |Without(s, url)| == if url in Urls(s) then |s| - 1 else |s|
    ensures url !in Urls(s) ==> Without(s, url) == s
  {
    if s != [] {
      WithoutFacts(s[1..], url);
      var rest := Without(s[1..], url);
      assert ([s[0]] + rest)[1..] == rest;
    }
  }

  lemma {:induction false} FindFacts(s: Store, url: Url)
    ensures Find(s, url).Some? <==> url in Urls(s)
    ensures Find(s, url).Some? ==> Find(s, url).value.url == url
  {
    if s != [] {
      FindFacts(s[1..], url);
    }
  }

  lemma {:induction false} UrlsCount(s: Store)
    requires Distinct(s)
    ensures |Urls(s)| == |s|
  {
    if s != [] {
      UrlsCount(s[1..]);
    }
  }

  lemma {:induction false} AppendFacts(s: Store, x: Slot)
    ensures Urls(s + [x]) == Urls(s) + {x.url}
    ensures Distinct(s) && x.url !in Urls(s) ==> Distinct(s + [x])
  {
    if s == [] {
      assert s + [x] == [x] && [x][1..] == [];
    } else {
      AppendFacts(s[1..], x);
      assert (s + [x])[1..] == s[1..] + [x];
    }
  }

  /** Moving or storing at the recent end: one eviction at most brings the store back to size. */
  lemma PushFacts(s: Store, x: Slot)
    requires Distinct(s)
    ensures var t := Without(s, x.url) + [x];
            Distinct(t) && Urls(t) == Urls(s) + {x.url} && |t| == (if x.url in Urls(s) then |s| else |s| + 1)
  {
    WithoutFacts(s, x.url);
    AppendFacts(Without(s, x.url), x);
  }

  lemma StepKeepsDistinct(p: Limits, s: Store, op: Op)
    requires Distinct(s) && |s| <= p.maxSize
    ensures Distinct(Step(p, s, op)) && |Step(p, s, op)| <= p.maxSize
  {
    match op
    case Get(url, now) =>
      WithoutFacts(s, url);
      FindFacts(s, url);
      if Find(s, url).Some? { PushFacts(s, Find(s, url).value); }
    case Put(url, answer, directive, now) => PushFacts(s, SlotFor(p, op));
    case Invalidate(url) => WithoutFacts(s, url);
    case Clear =>
  }

  // ------------------------------------------------------------------ the inclusion property

  /** The slots of the given URLs, in order. */
  function Restrict(s: Store, keys: set<Url>): Store {
    if s == [] then [] else (if s[0].url in keys then [s[0]] else []) + Restrict(s[1..], keys)
  }

  lemma {:induction false} RestrictAppend(s: Store, t: Store, keys: set<Url>)
    ensures Restrict(s + t, keys) == Restrict(s, keys) + Restrict(t, keys)
  {
    if s == [] {
      assert s + t == t;
    } else {
      assert (s + t)[1..] == s[1..] + t;
      RestrictAppend(s[1..], t, keys);
      var head: Store := if s[0].url in keys then [s[0]] else [];
      var a, b := Restrict(s[1..], keys), Restrict(t, keys);
      assert head + (a + b) == (head + a) + b;
    }
  }

  lemma {:induction false} RestrictWithout(s: Store, keys: set<Url>, url: Url)
    ensures Restrict(Without(s, url), keys) == Without(Restrict(s, keys), url)
  {
    if s != [] {
      RestrictWithout(s[1..], keys, url);
      var rest, kept := Without(s[1..], url), Restrict(s[1..], keys);
      assert ([s[0]] + rest)[1..] == rest;
      assert ([s[0]] + kept)[1..] == kept && [] + kept == kept;
      assert [] + Restrict(rest, keys) == Restrict(rest, keys);
    }
  }

  lemma RestrictStep(s: Store, keys: set<Url>)
    requires s != []
    ensures var rest := Restrict(s[1..], keys);
            if s[0].url in keys then Restrict(s, keys) == [s[0]] + rest && Restrict(s, keys)[1..] == rest
            else Restrict(s, keys) == rest
  {
    var rest := Restrict(s[1..], keys);
    assert [] + rest == rest;
  }

  lemma {:induction false} RestrictUrls(s: Store, keys: set<Url>)
    ensures Urls(Restrict(s, keys)) == Urls(s) * keys
  {
    if s != [] {
      RestrictUrls(s[1..], keys);
      RestrictStep(s, keys);
    }
  }

  lemma {:induction false} RestrictDistinct(s: Store, keys: set<Url>)
    ensures |Restrict(s, keys)| <= |s|
    ensures Distinct(s) ==> Distinct(Restrict(s, keys))
  {
    if s != [] {
      RestrictDistinct(s[1..], keys);
      RestrictUrls(s[1..], keys);
      RestrictStep(s, keys);
    }
  }

  lemma RestrictFacts(s: Store, keys: set<Url>)
    ensures Urls(Restrict(s, keys)) == Urls(s) * keys
    ensures |Restrict(s, keys)| <= |s|
    ensures Distinct(s) ==> Distinct(Restrict(s, keys))
  {
    RestrictUrls(s, keys);
    RestrictDistinct(s, keys);
  }

  lemma {:induction false} RestrictFind(s: Store, keys: set<Url>, url: Url)
    requires url in keys
    ensures Find(Restrict(s, keys), url) == Find(s, url)
  {
    if s != [] {
      RestrictFind(s[1..], keys, url);
      var rest := Restrict(s[1..], keys);
      assert ([s[0]] + rest)[1..] == rest;
      assert [] + rest == rest;
    }
  }

  /** The smaller store is the larger one with some entries left out: same entries, same order.
      The larger one never has more extra entries than extra capacity. */
  ghost predicate Included(p: Limits, q: Limits, small: Store, large: Store) {
    && p.maxSize <= q.maxSize
    && Distinct(small) && |small| <= p.maxSize
    && Distinct(large) && |large| <= q.maxSize
    && small == Restrict(large, Urls(small))
    && |large| - |small| <= q.maxSize - p.maxSize
  }

  /** The two caches are configured alike but for their capacity. */
  predicate Alike(p: Limits, q: Limits) {
    p.maxSize <= q.maxSize && p.defaultTtl == q.defaultTtl && p.maxBody == q.maxBody
  }

  /** A store restricted to more URLs than it has is itself restricted to its own. */
  lemma RestrictToOwn(large: Store, keys: set<Url>)
    ensures Restrict(large, Urls(Restrict(large, keys))) == Restrict(large, keys)
  {
    RestrictFacts(large, keys);
    RestrictSame(large, keys, Urls(Restrict(large, keys)));
  }

  lemma {:induction false} RestrictSame(s: Store, k1: set<Url>, k2: set<Url>)
    requires Urls(s) * k1 == Urls(s) * k2
    ensures Restrict(s, k1) == Restrict(s, k2)
  {
    if s != [] {
      assert s[0].url in Urls(s) * k1 <==> s[0].url in Urls(s) * k2;
      forall u | u in Urls(s[1..])
        ensures u in k1 <==> u in k2
      {
        assert u in Urls(s) * k1 <==> u in Urls(s) * k2;
      }
      RestrictSame(s[1..], k1, k2);
    }
  }

  /** Removing a URL from both keeps the inclusion. */
  lemma IncludedWithout(p: Limits, q: Limits, small: Store, large: Store, url: Url)
    requires Included(p, q, small, large)
    ensures Included(p, q, Without(small, url), Without(large, url))
  {
    WithoutFacts(small, url);
    WithoutFacts(large, url);
    RestrictWithout(large, Urls(small), url);
    RestrictFacts(large, Urls(small));
    RestrictToOwn(Without(large, url), Urls(small));
  }

  /** Pushing the same slot into both, before any eviction. */
  lemma RestrictPush(small: Store, large: Store, x: Slot)
    requires Distinct(small) && Distinct(large) && small == Restrict(large, Urls(small))
    ensures var s, l := Without(small, x.url) + [x], Without(large, x.url) + [x];
            s == Restrict(l, Urls(s))
  {
    var keys := Urls(small);
    PushFacts(small, x);
    PushFacts(large, x);
    WithoutFacts(small, x.url);
    WithoutFacts(large, x.url);
    RestrictWithout(large, keys, x.url);
    RestrictSame(Without(large, x.url), keys, keys + {x.url});
    RestrictAppend(Without(large, x.url), [x], keys + {x.url});
    assert Restrict([x], keys + {x.url}) == [x] by {
      assert [x][1..] == [] && [x] + [] == [x];
    }
  }

  /** An entry only the larger store has moves to its recent end: the smaller one does not notice. */
  lemma RestrictIgnores(small: Store, large: Store, x: Slot)
    requires Distinct(small) && Distinct(large) && small == Restrict(large, Urls(small)) && x.url !in Urls(small)
    ensures small == Restrict(Without(large, x.url) + [x], Urls(small))
  {
    WithoutFacts(small, x.url);
    RestrictWithout(large, Urls(small), x.url);
    RestrictAppend(Without(large, x.url), [x], Urls(small));
    assert Restrict([x], Urls(small)) == [] by {
      assert [x][1..] == [] && [] + Restrict([], Urls(small)) == [];
    }
  }

  /** Evicting the oldest entry of the smaller store, with or without the larger one's. */
  lemma EvictFirst(s: Store, l: Store)
    requires Distinct(s) && Distinct(l) && s == Restrict(l, Urls(s)) && s != []
    ensures s[1..] == Restrict(l, Urls(s[1..]))
    ensures s[1..] == Restrict(l[1..], Urls(s[1..]))
  {
    var rest := Restrict(l[1..], Urls(s));
    RestrictFacts(l[1..], Urls(s));
    assert ([l[0]] + rest)[1..] == rest && [] + rest == rest;
    if l[0].url in Urls(s) {
      RestrictSame(l[1..], Urls(s), Urls(s[1..]));
      assert [] + rest == rest;
    } else {
      EvictFirst(s, l[1..]);
      assert [] + Restrict(l[1..], Urls(s[1..])) == Restrict(l[1..], Urls(s[1..]));
    }
  }

  lemma TrimOne(s: Store, cap: nat)
    requires |s| <= cap + 1
    ensures Trim(s, cap) == if |s| == cap + 1 then s[1..] else s
  {
  }

  lemma TrimDrops(s: Store, cap: nat)
    requires |s| > cap
    ensures Trim(s[1..], cap) == Trim(s, cap)
  {
  }

  /** A put makes room in the larger store only if it does in the smaller one. */
  lemma PutLengths(p: Limits, q: Limits, small: Store, large: Store, x: Slot)
    requires Included(p, q, small, large)
    ensures var s, l := Without(small, x.url) + [x], Without(large, x.url) + [x];
            && |s| <= p.maxSize + 1 && |l| <= q.maxSize + 1
            && (|l| == q.maxSize + 1 ==> |s| == p.maxSize + 1)
            && (if |s| == p.maxSize + 1 then |l| <= q.maxSize + 1 else |l| - |s| <= q.maxSize - p.maxSize)
  {
    PushFacts(small, x);
    PushFacts(large, x);
    RestrictFacts(large, Urls(small));
    assert x.url in Urls(small) ==> x.url in Urls(large);
  }

  lemma IncludedPut(p: Limits, q: Limits, small: Store, large: Store, x: Slot)
    requires Included(p, q, small, large) && p.maxSize > 0
    ensures Included(p, q, Trim(Without(small, x.url) + [x], p.maxSize), Trim(Without(large, x.url) + [x], q.maxSize))
  {
    var s, l := Without(small, x.url) + [x], Without(large, x.url) + [x];
    PutLengths(p, q, small, large, x);
    TrimOne(s, p.maxSize);
    TrimOne(l, q.maxSize);
    PushFacts(small, x);
    PushFacts(large, x);
    RestrictPush(small, large, x);
    EvictFirst(s, l);
  }

  lemma IncludedGet(p: Limits, q: Limits, small: Store, large: Store, url: Url, now: real)
    requires Alike(p, q) && Included(p, q, small, large)
    ensures Included(p, q, Step(p, small, Get(url, now)), Step(q, large, Get(url, now)))
  {
    FindFacts(small, url);
    FindFacts(large, url);
    RestrictFacts(large, Urls(small));
    IncludedWithout(p, q, small, large, url);
    WithoutFacts(small, url);
    if url in Urls(small) {
      RestrictFind(large, Urls(small), url);
      var x := Find(large, url).value;
      PushFacts(small, x);
      PushFacts(large, x);
      RestrictPush(small, large, x);
    } else if q.maxSize > 0 && url in Urls(large) {
      var x := Find(large, url).value;
      PushFacts(large, x);
      RestrictIgnores(small, large, x);
    }
  }

  lemma IncludedStep(p: Limits, q: Limits, small: Store, large: Store, op: Op)
    requires Alike(p, q) && Included(p, q, small, large)
    ensures Included(p, q, Step(p, small, op), Step(q, large, op))
  {
    match op
    case Get(url, now) => IncludedGet(p, q, small, large, url, now);
    case Put(url, answer, directive, now) =>
      if Storable(p, answer, directive) {
        IncludedPut(p, q, small, large, SlotFor(p, op));
      } else {
        StepKeepsDistinct(q, large, op);
        EmptyRestrict(Step(q, large, op));
      }
    case Invalidate(url) => IncludedWithout(p, q, small, large, url);
    case Clear =>
  }

  lemma {:induction false} EmptyRestrict(s: Store)
    ensures Restrict(s, {}) == []
  {
    if s != [] { EmptyRestrict(s[1..]); }
  }

  /** The inclusion property of LRU, with lazy expiry: run the same operations at the same times on
      two caches that differ only in capacity. The smaller one's entries are always among the
      larger one's, unchanged and in the same order, so every hit in the smaller is the same hit
      in the larger. */
  lemma {:induction false} LruInclusion(p: Limits, q: Limits, ops: seq<Op>, url: Url, now: real)
    requires Alike(p, q)
    ensures Included(p, q, After(p, ops), After(q, ops))
    ensures var small, large := Lookup(p, After(p, ops), url, now), Lookup(q, After(q, ops), url, now);
            small.Some? ==> large == small
  {
    if ops != [] {
      var n := |ops| - 1;
      LruInclusion(p, q, ops[..n], url, now);
      IncludedStep(p, q, After(p, ops[..n]), After(q, ops[..n]), ops[n]);
    }
    var s, l := After(p, ops), After(q, ops);
    if url in Urls(s) {
      RestrictFind(l, Urls(s), url);
    }
    FindFacts(s, url);
  }

  // ------------------------------------------------------------------ when inclusion is a suffix

  /** The smaller store is the recent end of the larger one. */
  predicate IsSuffix(s: Store, l: Store) {
    |s| <= |l| && l[|l| - |s|..] == s
  }

  lemma {:induction false} WithoutAppend(s: Store, t: Store, url: Url)
    ensures Without(s + t, url) == Without(s, url) + Without(t, url)
  {
    if s == [] {
      assert s + t == t;
    } else {
      assert (s + t)[1..] == s[1..] + t;
      WithoutAppend(s[1..], t, url);
    }
  }

  lemma SuffixWithout(s: Store, l: Store, url: Url)
    requires IsSuffix(s, l)
    ensures IsSuffix(Without(s, url), Without(l, url))
  {
    assert l == l[..|l| - |s|] + s;
    WithoutAppend(l[..|l| - |s|], s, url);
  }

  lemma SuffixPush(s: Store, l: Store, x: Slot, p: nat, q: nat)
    requires IsSuffix(s, l) && p <= q
    ensures IsSuffix(Trim(s + [x], p), Trim(l + [x], q))
  {
    var a, b := s + [x], l + [x];
    assert b[|b| - |a|..] == a;
    var n := if |a| <= p then |a| else p;
    assert Trim(a, p) == b[|b| - n..];
  }

  lemma SuffixGet(p: Limits, q: Limits, small: Store, large: Store, url: Url, now: real)
    requires Alike(p, q) && Included(p, q, small, large) && IsSuffix(small, large)
    requires url in Urls(small)
    ensures IsSuffix(Step(p, small, Get(url, now)), Step(q, large, Get(url, now)))
  {
    FindFacts(small, url);
    RestrictFind(large, Urls(small), url);
    SuffixWithout(small, large, url);
    WithoutFacts(small, url);
    WithoutFacts(large, url);
    RestrictFacts(large, Urls(small));
    SuffixPush(Without(small, url), Without(large, url), Find(small, url).value, |small|, |large|);
  }

  lemma SuffixGetExtra(p: Limits, q: Limits, small: Store, large: Store, url: Url, now: real)
    requires Alike(p, q) && Included(p, q, small, large) && IsSuffix(small, large)
    requires url !in Urls(small)
    ensures Step(p, small, Get(url, now)) == small
    ensures IsSuffix(small, Step(q, large, Get(url, now))) <==> small == [] || !Hits(q, large, url, now)
  {
    FindFacts(small, url);
    FindFacts(large, url);
    SuffixWithout(small, large, url);
    WithoutFacts(small, url);
    if small != [] && Hits(q, large, url, now) {
      DifferentLast(small, Without(large, url), Find(large, url).value);
    }
  }

  lemma DifferentLast(small: Store, rest: Store, x: Slot)
    requires small != [] && x.url !in Urls(small)
    ensures !IsSuffix(small, rest + [x])
  {
    LastIsIn(small);
    var l := rest + [x];
    assert l[|l| - 1] == x;
    assert |small| <= |l| ==> l[|l| - |small|..][|small| - 1] == l[|l| - 1];
  }

  lemma SuffixPut(p: Limits, q: Limits, small: Store, large: Store, op: Op)
    requires Alike(p, q) && Included(p, q, small, large) && IsSuffix(small, large) && op.Put?
    ensures IsSuffix(Step(p, small, op), Step(q, large, op))
  {
    if Storable(p, op.answer, op.directive) {
      SuffixWithout(small, large, op.url);
      assert SlotFor(p, op) == SlotFor(q, op) && Storable(q, op.answer, op.directive);
      SuffixPush(Without(small, op.url), Without(large, op.url), SlotFor(p, op), p.maxSize, q.maxSize);
    } else if Storable(q, op.answer, op.directive) {
      assert small == [];
    }
  }

  /** One step keeps the suffix form exactly unless it is a hit in the larger store on an entry
      the smaller, non-empty one does not hold: the larger store then has that entry most recent. */
  lemma SuffixKeptExactly(p: Limits, q: Limits, small: Store, large: Store, op: Op)
    requires Alike(p, q) && Included(p, q, small, large) && IsSuffix(small, large)
    ensures IsSuffix(Step(p, small, op), Step(q, large, op)) <==>
            !(op.Get? && small != [] && op.url !in Urls(small) && Hits(q, large, op.url, op.now))
  {
    match op
    case Get(url, now) =>
      if url in Urls(small) {
        SuffixGet(p, q, small, large, url, now);
      } else {
        SuffixGetExtra(p, q, small, large, url, now);
      }
    case Put(url, answer, directive, now) =>
      SuffixPut(p, q, small, large, op);
    case Invalidate(url) => SuffixWithout(small, large, url);
    case Clear =>
  }

  predicate SuffixAt(p: Limits, q: Limits, ops: seq<Op>, n: nat)
    requires n <= |ops|
  {
    IsSuffix(After(p, ops[..n]), After(q, ops[..n]))
  }

  /** Operation n is a hit that only the larger cache has, while the smaller one is not empty. */
  predicate HitsAlone(p: Limits, q: Limits, ops: seq<Op>, n: nat)
    requires n < |ops|
  {
    var op, small, large := ops[n], After(p, ops[..n]), After(q, ops[..n]);
    op.Get? && small != [] && op.url !in Urls(small) && Hits(q, large, op.url, op.now)
  }

  lemma SuffixNext(p: Limits, q: Limits, ops: seq<Op>, n: nat)
    requires Alike(p, q) && n < |ops| && SuffixAt(p, q, ops, n)
    ensures SuffixAt(p, q, ops, n + 1) <==> !HitsAlone(p, q, ops, n)
  {
    LruInclusion(p, q, ops[..n], "", 0.0);
    SuffixKeptExactly(p, q, After(p, ops[..n]), After(q, ops[..n]), ops[n]);
    assert ops[..n + 1][..n] == ops[..n];
  }

  lemma {:induction false} SuffixWhileShared(p: Limits, q: Limits, ops: seq<Op>, n: nat)
    requires Alike(p, q) && n <= |ops| && forall k: nat :: k < n ==> !HitsAlone(p, q, ops, k)
    ensures SuffixAt(p, q, ops, n)
  {
    if n > 0 {
      SuffixWhileShared(p, q, ops, n - 1);
      SuffixNext(p, q, ops, n - 1);
    }
  }

  /** Over a whole run: the smaller store is the recent end of the larger one after every operation
      if and only if no operation is a hit of the larger cache alone. */
  lemma SuffixInRunsExactly(p: Limits, q: Limits, ops: seq<Op>)
    requires Alike(p, q)
    ensures (forall n: nat :: n <= |ops| ==> SuffixAt(p, q, ops, n)) <==>
            (forall n: nat :: n < |ops| ==> !HitsAlone(p, q, ops, n))
  {
    if forall n: nat :: n <= |ops| ==> SuffixAt(p, q, ops, n) {
      forall n: nat | n < |ops|
        ensures !HitsAlone(p, q, ops, n)
      {
        assert SuffixAt(p, q, ops, n) && SuffixAt(p, q, ops, n + 1);
        SuffixNext(p, q, ops, n);
      }
    }
    if forall n: nat :: n < |ops| ==> !HitsAlone(p, q, ops, n) {
      forall n: nat | n <= |ops|
        ensures SuffixAt(p, q, ops, n)
      {
        SuffixWhileShared(p, q, ops, n);
      }
    }
  }

  lemma {:induction false} LastIsIn(s: Store)
    requires s != []
    ensures s[|s| - 1].url in Urls(s)
  {
    if |s| > 1 { LastIsIn(s[1..]); }
  }

  /** The suffix form does fail in a run: store a, store b, look a up, with capacities 1 and 2. */
  lemma SuffixFailsSomewhere(a: Answer)
    requires |a.body| <= 10
    ensures var p, q := Limits(1, 60.0, 10), Limits(2, 60.0, 10);
            var ops := [Put("a", a, Unspecified, 0.0), Put("b", a, Unspecified, 0.0), Get("a", 0.0)];
            After(q, ops) == [Slot("b", a, 60.0), Slot("a", a, 60.0)] && After(p, ops) == [Slot("b", a, 60.0)]
            && !IsSuffix(After(p, ops), After(q, ops))
  {
    var ops := [Put("a", a, Unspecified, 0.0), Put("b", a, Unspecified, 0.0), Get("a", 0.0)];
    assert ops[..2] == [Put("a", a, Unspecified, 0.0), Put("b", a, Unspecified, 0.0)];
    assert ops[..2][..1] == [Put("a", a, Unspecified, 0.0)];
    assert ops[..2][..1][..0] == [];
    var sa, sb := Slot("a", a, 60.0), Slot("b", a, 60.0);
    var p, q := Limits(1, 60.0, 10), Limits(2, 60.0, 10);
    assert After(p, ops[..2][..1]) == [sa] && After(q, ops[..2][..1]) == [sa];
    assert [sa, sb][1..] == [sb] && [sb][1..] == [];
    assert Without([sa], "b") == [sa];
    assert After(p, ops[..2]) == [sb] && After(q, ops[..2]) == [sa, sb];
    assert Without([sa, sb], "a") == [sb];
    assert After(q, ops) == [sb, sa] && After(p, ops) == [sb];
  }

  // ------------------------------------------------------------------ what a put promises

  /** A put stores if the cache is on, the body is not too long, the header does not forbid it and the
      lifetime it names, or the default, is positive. A stored answer is found until its lifetime
      is over and not after; a put that does not store changes nothing. */
  lemma PutThenGet(p: Limits, s: Store, url: Url, answer: Answer, directive: Directive, now: real, later: real)
    requires Distinct(s) && |s| <= p.maxSize
    ensures var t := Step(p, s, Put(url, answer, directive, now));
            var fits := p.maxSize > 0 && |answer.body| <= p.maxBody;
            match directive
            case Forbid => t == s
            case MaxAge(n) => if fits && n > 0.0 then Lookup(p, t, url, later) == (if later <= now + n then Some(answer) else None)
                              else t == s
            case Unspecified => if fits && p.defaultTtl > 0.0
                                then Lookup(p, t, url, later) == (if later <= now + p.defaultTtl then Some(answer) else None)
                                else t == s
  {
    var op := Put(url, answer, directive, now);
    if Storable(p, answer, directive) {
      PushFacts(s, SlotFor(p, op));
      FindWithout(s, url, url);
      FindAppend(Without(s, url), SlotFor(p, op), url);
      NewestFound(Without(s, url), SlotFor(p, op), p.maxSize);
    }
  }

  /** What is stored last survives the eviction that makes room for it. */
  lemma NewestFound(w: Store, x: Slot, cap: nat)
    requires Distinct(w + [x]) && |w + [x]| <= cap + 1 && cap > 0 && Find(w + [x], x.url) == Some(x) && Find(w, x.url) == None
    ensures Find(Trim(w + [x], cap), x.url) == Some(x)
  {
    FindTrimmed(w + [x], cap, x.url);
    TrimOne(w + [x], cap);
    if w != [] {
      assert (w + [x])[0] == w[0];
    }
  }

  // ------------------------------------------------------------------ what a hit returns

  /** The slot of the last put that stored this URL since it was invalidated, found expired by a
      lookup, or the cache cleared: what a cache without a capacity limit would hold. */
  function LastStored(p: Limits, ops: seq<Op>, url: Url): Option<Slot> {
    if ops == [] then None
    else LastAfter(p, ops[|ops| - 1], url, LastStored(p, ops[..|ops| - 1], url))
  }

  function LastAfter(p: Limits, op: Op, url: Url, before: Option<Slot>): Option<Slot> {
    match op
    case Put(u, answer, directive, now) => if u == url && Storable(p, answer, directive) then Some(SlotFor(p, op)) else before
    case Invalidate(u) => if u == url then None else before
    case Clear => None
    case Get(u, now) => if u == url && before.Some? && now > before.value.expires then None else before
  }

  lemma {:induction false} FindWithout(s: Store, u: Url, url: Url)
    ensures Find(Without(s, u), url) == if u == url then None else Find(s, url)
  {
    if s != [] {
      FindWithout(s[1..], u, url);
      assert ([s[0]] + Without(s[1..], u))[1..] == Without(s[1..], u);
    }
  }

  lemma {:induction false} FindAppend(s: Store, x: Slot, url: Url)
    ensures Find(s + [x], url) == if Find(s, url).Some? then Find(s, url) else if x.url == url then Some(x) else None
  {
    if s == [] {
      assert s + [x] == [x] && [x][1..] == [];
    } else {
      assert (s + [x])[1..] == s[1..] + [x];
      FindAppend(s[1..], x, url);
    }
  }

  lemma FindTrimmed(s: Store, cap: nat, url: Url)
    requires Distinct(s) && |s| <= cap + 1
    ensures Find(Trim(s, cap), url) == Find(s, url) || Find(Trim(s, cap), url) == None
    ensures Find(Trim(s, cap), url) == Find(s, url) || (|s| == cap + 1 && s[0].url == url)
  {
    TrimOne(s, cap);
    if s != [] {
      FindFacts(s[1..], url);
    }
  }

  lemma {:induction false} ReachedStore(p: Limits, ops: seq<Op>)
    ensures Distinct(After(p, ops)) && |After(p, ops)| <= p.maxSize
  {
    if ops != [] {
      ReachedStore(p, ops[..|ops| - 1]);
      StepKeepsDistinct(p, After(p, ops[..|ops| - 1]), ops[|ops| - 1]);
    }
  }

  /** Exactness: whatever the cache holds for a URL is what the last storing put gave it, so a hit
      returns that answer and it has not expired; the cache never outgrows its capacity. */
  lemma {:induction false} HitIsLastStored(p: Limits, ops: seq<Op>, url: Url, now: real)
    ensures |After(p, ops)| <= p.maxSize
    ensures Find(After(p, ops), url).Some? ==> Find(After(p, ops), url) == LastStored(p, ops, url)
    ensures Lookup(p, After(p, ops), url, now).Some? ==>
              LastStored(p, ops, url).Some? && now <= LastStored(p, ops, url).value.expires
              && Lookup(p, After(p, ops), url, now).value == LastStored(p, ops, url).value.answer
  {
    ReachedStore(p, ops);
    if ops != [] {
      var before := ops[..|ops| - 1];
      HitIsLastStored(p, before, url, now);
      ReachedStore(p, before);
      HeldStep(p, After(p, before), ops[|ops| - 1], url, LastStored(p, before, url));
    }
  }

  /** A step leaves a URL without a slot, or with the one it was last given. */
  lemma HeldStep(p: Limits, s: Store, op: Op, url: Url, last: Option<Slot>)
    requires Distinct(s) && |s| <= p.maxSize && (Find(s, url) == None || Find(s, url) == last)
    ensures Find(Step(p, s, op), url) == None || Find(Step(p, s, op), url) == LastAfter(p, op, url, last)
  {
    if op.Put? {
      HeldPut(p, s, op, url);
    } else if op.Get? {
      FindWithout(s, op.url, url);
      FindFacts(s, op.url);
      if Find(s, op.url).Some? {
        FindAppend(Without(s, op.url), Find(s, op.url).value, url);
      }
    } else if op.Invalidate? {
      FindWithout(s, op.url, url);
    }
  }

  lemma HeldPut(p: Limits, s: Store, op: Op, url: Url)
    requires Distinct(s) && |s| <= p.maxSize && op.Put?
    ensures var found := Find(Step(p, s, op), url);
            found == None || found == LastAfter(p, op, url, Find(s, url))
  {
    var x := SlotFor(p, op);
    PushFacts(s, x);
    FindWithout(s, op.url, url);
    FindAppend(Without(s, op.url), x, url);
    FindTrimmed(Without(s, op.url) + [x], p.maxSize, url);
  }

  // ------------------------------------------------------------------ how long an entry survives

  /** The URL an operation moves to the recent end, if any: a storing put or a hit. */
  function Touched(p: Limits, s: Store, op: Op): Option<Url> {
    match op
    case Put(url, answer, directive, _) => if Storable(p, answer, directive) then Some(url) else None
    case Get(url, now) => if Hits(p, s, url, now) then Some(url) else None
    case _ => None
  }

  /** The other URLs touched since this one was. */
  function OthersSince(p: Limits, ops: seq<Op>, url: Url): set<Url> {
    if ops == [] then {}
    else
      var before, op := ops[..|ops| - 1], ops[|ops| - 1];
      match Touched(p, After(p, before), op)
      case Some(u) => if u == url then {} else OthersSince(p, before, url) + {u}
      case None => OthersSince(p, before, url)
  }

  /** The URLs more recent than this one. */
  function Newer(s: Store, url: Url): set<Url> {
    if s == [] then {} else if s[0].url == url then Urls(s[1..]) else Newer(s[1..], url)
  }

  lemma {:induction false} NewerWithout(s: Store, u: Url, url: Url)
    requires Distinct(s) && u != url
    ensures Newer(Without(s, u), url) <= Newer(s, url)
  {
    if s != [] {
      NewerWithout(s[1..], u, url);
      WithoutFacts(s[1..], u);
      assert ([s[0]] + Without(s[1..], u))[1..] == Without(s[1..], u);
    }
  }

  lemma {:induction false} NewerAppend(s: Store, x: Slot, url: Url)
    ensures Newer(s + [x], url) == if url in Urls(s) then Newer(s, url) + {x.url} else {}
  {
    if s == [] {
      assert s + [x] == [x] && [x][1..] == [];
    } else {
      assert (s + [x])[1..] == s[1..] + [x];
      AppendFacts(s[1..], x);
      NewerAppend(s[1..], x, url);
    }
  }

  /** Pushing x does not evict an entry while fewer than `cap` other URLs are newer. */
  lemma SurvivesPush(s: Store, x: Slot, cap: nat, url: Url, others: set<Url>)
    requires Distinct(s) && |s| <= cap && url in Urls(s) && x.url != url
    requires Newer(s, url) <= others && |others + {x.url}| < cap
    ensures var t := Trim(Without(s, x.url) + [x], cap);
            url in Urls(t) && Newer(t, url) <= others + {x.url}
  {
    var w := Without(s, x.url);
    var full := w + [x];
    WithoutFacts(s, x.url);
    PushFacts(s, x);
    NewerWithout(s, x.url, url);
    NewerAppend(w, x, url);
    TrimOne(full, cap);
    if |full| == cap + 1 && full[0].url == url {
      UrlsCount(full[1..]);
      SubsetSize(Urls(full[1..]), others + {x.url});
      assert false;
    }
  }

  /** One step for an entry that is there: it stays, and what is newer has been touched since. */
  lemma SurvivesStep(p: Limits, s: Store, op: Op, url: Url, others: set<Url>)
    requires Distinct(s) && |s| <= p.maxSize && url in Urls(s) && Newer(s, url) <= others
    requires !op.Clear? && op.url != url
    requires var t := Touched(p, s, op); t.Some? ==> |others + {t.value}| < p.maxSize
    ensures url in Urls(Step(p, s, op))
    ensures var t := Touched(p, s, op);
            Newer(Step(p, s, op), url) <= if t.None? then others else others + {t.value}
  {
    WithoutFacts(s, op.url);
    FindFacts(s, op.url);
    var t := Touched(p, s, op);
    if t.Some? {
      var x := if op.Put? then SlotFor(p, op) else Find(s, op.url).value;
      SurvivesPush(s, x, p.maxSize, url, others);
      PushFacts(s, x);
      TrimOne(Without(s, op.url) + [x], p.maxSize);
    } else {
      NewerWithout(s, op.url, url);
    }
  }

  /** An entry survives while fewer than maxSize other URLs were stored or hit since it was: until
      then the cache holds exactly what one without a capacity limit would. */
  lemma {:induction false} EntrySurvives(p: Limits, ops: seq<Op>, url: Url)
    requires LastStored(p, ops, url).Some? && |OthersSince(p, ops, url)| < p.maxSize
    ensures Find(After(p, ops), url) == LastStored(p, ops, url)
    ensures Newer(After(p, ops), url) <= OthersSince(p, ops, url)
  {
    var before, op := ops[..|ops| - 1], ops[|ops| - 1];
    ReachedStore(p, before);
    HitIsLastStored(p, ops, url, 0.0);
    HitIsLastStored(p, before, url, 0.0);
    FindFacts(After(p, ops), url);
    var s := After(p, before);
    var t := Touched(p, s, op);
    if t == Some(url) {
      TouchedStays(p, s, op, url);
    } else {
      assert OthersSince(p, before, url) <= OthersSince(p, ops, url);
      SubsetSize(OthersSince(p, before, url), OthersSince(p, ops, url));
      EntrySurvives(p, before, url);
      FindFacts(s, url);
      if op.url != url {
        SurvivesStep(p, s, op, url, OthersSince(p, before, url));
      }
    }
  }

  lemma TouchedStays(p: Limits, s: Store, op: Op, url: Url)
    requires Distinct(s) && |s| <= p.maxSize && Touched(p, s, op) == Some(url)
    ensures url in Urls(Step(p, s, op)) && Newer(Step(p, s, op), url) == {}
  {
    FindFacts(s, url);
    var x := if op.Put? then SlotFor(p, op) else Find(s, url).value;
    WithoutFacts(s, url);
    NewestStays(Without(s, url), x, p.maxSize);
    TrimOne(Without(s, url) + [x], p.maxSize);
  }

  lemma NewestStays(w: Store, x: Slot, cap: nat)
    requires Distinct(w) && x.url !in Urls(w) && |w| <= cap && cap > 0
    ensures x.url in Urls(Trim(w + [x], cap)) && Newer(Trim(w + [x], cap), x.url) == {}
  {
    AppendFacts(w, x);
    NewerAppend(w, x, x.url);
    TrimOne(w + [x], cap);
    if w != [] {
      assert (w + [x])[1..] == w[1..] + [x];
      AppendFacts(w[1..], x);
      NewerAppend(w[1..], x, x.url);
    }
  }

  // ------------------------------------------------------------------ the object

  class ResponseCache {
    const limits: Limits
    var store: Store
    var hits: nat
    var misses: nat

    ghost predicate Valid()
      reads this
    {
      Distinct(store) && |store| <= limits.maxSize
    }

    constructor (limits: Limits)
      ensures Valid() && this.limits == limits && store == [] && hits == 0 && misses == 0
    {
      this.limits := limits;
      store, hits, misses := [], 0, 0;
    }

    method GetResponse(url: Url, now: real) returns (r: Option<Answer>)
      requires Valid()
      modifies this
      ensures Valid() && store == Step(limits, old(store), Get(url, now))
      ensures r == Lookup(limits, old(store), url, now)
      ensures hits == old(hits) + (if r.Some? then 1 else 0)
      ensures misses == old(misses) + (if r.None? && limits.maxSize > 0 then 1 else 0)
    {
      StepKeepsDistinct(limits, store, Get(url, now));
      if limits.maxSize == 0 {
        return None;
      }
      var found := Find(store, url);
      if found.None? {
        misses := misses + 1;
        return None;
      }
      if now > found.value.expires {
        store := Without(store, url);
        misses := misses + 1;
        return None;
      }
      store := Without(store, url) + [found.value];
      hits := hits + 1;
      return Some(found.value.answer);
    }

    method PutResponse(url: Url, answer: Answer, directive: Directive, now: real)
      requires Valid()
      modifies this`store
      ensures Valid() && store == Step(limits, old(store), Put(url, answer, directive, now))
    {
      StepKeepsDistinct(limits, store, Put(url, answer, directive, now));
      if limits.maxSize == 0 || |answer.body| > limits.maxBody || directive.Forbid? {
        return;
      }
      var ttl := if directive.MaxAge? then directive.seconds else limits.defaultTtl;
      if ttl <= 0.0 {
        return;
      }
      store := Without(store, url) + [Slot(url, answer, now + ttl)];
      EvictOldest();
    }

    /** The loop at the end of `put`. */
    method EvictOldest()
      modifies this`store
      ensures store == Trim(old(store), limits.maxSize)
    {
      while |store| > limits.maxSize
        invariant Trim(store, limits.maxSize) == Trim(old(store), limits.maxSize)
      {
        TrimDrops(store, limits.maxSize);
        store := store[1..];
      }
    }

    method InvalidateUrl(url: Url)
      requires Valid()
      modifies this`store
      ensures Valid() && store == Step(limits, old(store), Invalidate(url))
    {
      WithoutFacts(store, url);
      store := Without(store, url);
    }

    method ClearAll()
      modifies this
      ensures Valid() && store == [] && hits == 0 && misses == 0
    {
      store, hits, misses := [], 0, 0;
    }
  }
}
