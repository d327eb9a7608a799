/** The byte ranges of one request (proxy/handlers/inner.py): how the window is split,
    rebalanced over the proxies, and put together again in gather mode. */
module Ranges {
  import opened Wrappers
  import opened Sets

  newtype byte = x: int | 0 <= x < 256
  type Bytes = seq<byte>
  type Url = string

  /** One tuple (start, end, index); both ends are included. */
  datatype Range = Range(first: nat, last: int, index: nat) {
    function Size(): nat { if last < first then 0 else last - first + 1 }
  }

  /** What one chunk fetch leaves behind: the bytes, or an exception. */
  datatype Outcome = Data(bytes: Bytes) | Failed

  // ------------------------------------------------------------------ partitions

  /** The ranges tile [lo, hi] from left to right and carry the indices 0, 1, 2, ...; an empty one
      ends just before it starts. */
  ghost predicate IsTiling(rs: seq<Range>, lo: nat, hi: int) {
    && (forall i :: 0 <= i < |rs| ==> rs[i].index == i && rs[i].first <= rs[i].last + 1)
    && (forall i, j :: 0 <= i < |rs| && j == i + 1 && j < |rs| ==> rs[j].first == rs[i].last + 1)
    && (if rs == [] then hi < lo else rs[0].first == lo && rs[|rs| - 1].last == hi)
  }

  /** A tiling without empty ranges. */
  ghost predicate IsPartition(rs: seq<Range>, lo: nat, hi: int) {
    IsTiling(rs, lo, hi) && forall i :: 0 <= i < |rs| ==> rs[i].first <= rs[i].last
  }

  /** The ranges tile [lo, next) so far. */
  ghost predicate Tiles(rs: seq<Range>, lo: nat, next: nat) {
    lo <= next && IsTiling(rs, lo, next - 1)
  }

  lemma {:induction false} TilesOrdered(rs: seq<Range>, lo: nat, hi: int, i: nat, j: nat)
    requires IsTiling(rs, lo, hi) && i < j < |rs|
    ensures rs[i].last < rs[j].first
    decreases j
  {
    if i + 1 < j {
      TilesOrdered(rs, lo, hi, i, j - 1);
    }
  }

  /** A tiling puts every position of the window into exactly one range, and no other position. */
  lemma {:induction false} TilingCoversOnce(rs: seq<Range>, lo: nat, hi: int, x: nat)
    requires IsTiling(rs, lo, hi)
    ensures lo <= x <= hi <==> exists i :: 0 <= i < |rs| && rs[i].first <= x <= rs[i].last
    ensures forall i, j | 0 <= i < |rs| && 0 <= j < |rs| && rs[i].first <= x <= rs[i].last
                          && rs[j].first <= x <= rs[j].last :: i == j
  {
    forall i, j | 0 <= i < j < |rs|
      ensures rs[i].last < rs[j].first
    {
      TilesOrdered(rs, lo, hi, i, j);
    }
    if rs != [] {
      if lo <= x <= hi {
        var i := FindRange(rs, lo, hi, x, |rs| - 1);
      }
      forall i | 0 <= i < |rs| && rs[i].first <= x <= rs[i].last
        ensures lo <= x <= hi
      {
        if i > 0 { TilesOrdered(rs, lo, hi, 0, i); }
        if i < |rs| - 1 { TilesOrdered(rs, lo, hi, i, |rs| - 1); }
      }
    }
  }

  lemma {:induction false} FindRange(rs: seq<Range>, lo: nat, hi: int, x: nat, upTo: nat) returns (i: nat)
    requires IsTiling(rs, lo, hi) && upTo < |rs| && lo <= x <= rs[upTo].last
    ensures i <= upTo && rs[i].first <= x <= rs[i].last
    decreases upTo
  {
    if rs[upTo].first <= x {
      i := upTo;
    } else {
      i := FindRange(rs, lo, hi, x, upTo - 1);
    }
  }

  // ------------------------------------------------------------------ the splitter

  /** The size range k is meant to have: its proxy's own size, then the base size for the fill. */
  function Quota(sizes: seq<nat>, base: nat, k: nat): nat {
    if k < |sizes| then sizes[k] else base
  }

  /** Every range but the last has its quota; the last one may be cut short by the window,
      unless the cursor has not reached the end of the window yet. None is empty but by quota. */
  ghost predicate HasQuotas(rs: seq<Range>, sizes: seq<nat>, base: nat, windowLeft: bool) {
    forall k :: 0 <= k < |rs| ==>
      rs[k].Size() <= Quota(sizes, base, k)
      && (k < |rs| - 1 || windowLeft ==> rs[k].Size() == Quota(sizes, base, k))
      && (rs[k].Size() >= 1 <==> Quota(sizes, base, k) >= 1)
  }

  /** Cutting one more range off the window at the cursor. */
  lemma CutRange(rs: seq<Range>, lo: nat, cur: nat, hi: int, sizes: seq<nat>, base: nat) returns (end: int)
    requires Tiles(rs, lo, cur) && cur <= hi && HasQuotas(rs, sizes, base, true)
    ensures end == if cur + Quota(sizes, base, |rs|) - 1 <= hi then cur + Quota(sizes, base, |rs|) - 1 else hi
    ensures cur <= end + 1 && Tiles(rs + [Range(cur, end, |rs|)], lo, end + 1)
    ensures HasQuotas(rs + [Range(cur, end, |rs|)], sizes, base, end < hi)
  {
    var q := Quota(sizes, base, |rs|);
    end := if cur + q - 1 <= hi then cur + q - 1 else hi;
  }

  /** With one size of at least 1 for all, the ranges have that size, up to a shorter last one. */
  lemma OneQuota(rs: seq<Range>, lo: nat, hi: int, size: nat)
    requires IsTiling(rs, lo, hi) && HasQuotas(rs, [], size, false) && size >= 1
    ensures IsPartition(rs, lo, hi)
    ensures forall i :: 0 <= i < |rs| - 1 ==> rs[i].Size() == size
    ensures rs != [] ==> 1 <= rs[|rs| - 1].Size() <= size
  {
    assert forall i :: 0 <= i < |rs| ==> Quota([], size, i) == size;
  }

  /** `build_ranges`: walk a cursor over the window in steps of the chunk size. A chunk size
      below 1 would leave the cursor where it is. */
  method BuildRanges(contentLength: nat, chunkSize: nat, startOffset: nat, endOffset: Option<int>)
    returns (ranges: seq<Range>)
    requires chunkSize >= 1
    ensures var hi := if endOffset.Some? then endOffset.value else contentLength - 1;
            if startOffset <= hi then IsPartition(ranges, startOffset, hi) else ranges == []
    ensures forall i :: 0 <= i < |ranges| - 1 ==> ranges[i].Size() == chunkSize
    ensures ranges != [] ==> 1 <= ranges[|ranges| - 1].Size() <= chunkSize
  {
    var hi := if endOffset.Some? then endOffset.value else contentLength - 1;
    ranges := [];
    if startOffset <= hi {
      ranges := CutWindow(startOffset, hi, chunkSize);
      OneQuota(ranges, startOffset, hi, chunkSize);
    }
  }

  /** Its loop. */
  method CutWindow(startOffset: nat, hi: int, chunkSize: nat) returns (ranges: seq<Range>)
    requires chunkSize >= 1 && startOffset <= hi
    ensures IsTiling(ranges, startOffset, hi) && HasQuotas(ranges, [], chunkSize, false)
  {
    ranges := [];
    var start := startOffset;
    var idx := 0;
    while start <= hi
      invariant idx == |ranges| && start <= hi + 1
      invariant Tiles(ranges, startOffset, start) && HasQuotas(ranges, [], chunkSize, start <= hi)
      decreases hi - start
    {
      ghost var cut := CutRange(ranges, startOffset, start, hi, [], chunkSize);
      var end := if start + chunkSize - 1 <= hi then start + chunkSize - 1 else hi;
      ranges := ranges + [Range(start, end, idx)];
      start := end + 1;
      idx := idx + 1;
    }
  }

  predicate AtMostOneProxy(assignment: seq<Url>) {
    |set u | u in assignment| <= 1
  }

  /** The test `len(set(assigned)) <= 1` says that no two chunks have different proxies. */
  lemma OneProxyExactly(assignment: seq<Url>)
    ensures AtMostOneProxy(assignment) <==> forall i, j :: 0 <= i < |assignment| && 0 <= j < |assignment| ==> assignment[i] == assignment[j]
  {
    var urls := set u | u in assignment;
    if assignment != [] {
      var a := assignment[0];
      assert a in urls;
      if urls == {a} {
        forall i | 0 <= i < |assignment|
          ensures assignment[i] == a
        {
          assert assignment[i] in urls;
        }
      } else {
        var b :| b in urls && b != a;
        assert {a, b} <= urls;
        SubsetSize({a, b}, urls);
        var j :| 0 <= j < |assignment| && assignment[j] == b;
      }
    }
  }

  /** The proxy of range k: its own one, and the last one for the ranges added by the fill. */
  function ProxyFor(assignment: seq<Url>, k: nat): Url
    requires assignment != []
  {
    if k < |assignment| then assignment[k] else assignment[|assignment| - 1]
  }

  ghost predicate FollowsProxies(newAssigned: seq<Url>, assignment: seq<Url>, upTo: nat) {
    upTo <= |newAssigned| && assignment != []
    && forall k :: 0 <= k < upTo ==> newAssigned[k] == ProxyFor(assignment, k)
  }

  /** The first loop of `apply_per_proxy_chunk_sizes`: one range per proxy until the window is used up. */
  method CutPerProxy(assignment: seq<Url>, lo: nat, hi: int, base: nat, sizes: seq<nat>)
    returns (rs: seq<Range>, cur: nat)
    requires |sizes| == |assignment| && lo <= hi + 1
    ensures cur <= hi + 1 && Tiles(rs, lo, cur) && HasQuotas(rs, sizes, base, cur <= hi)
    ensures |rs| <= |assignment| && (cur <= hi ==> |rs| == |assignment|)
    ensures forall k :: 0 <= k < |rs| ==> rs[k].Size() <= sizes[k] && (k < |rs| - 1 || cur <= hi ==> rs[k].Size() == sizes[k])
  {
    rs, cur := [], lo;
    var i := 0;
    while i < |assignment| && cur <= hi
      invariant i == |rs| <= |assignment|
      invariant cur <= hi + 1 && Tiles(rs, lo, cur) && HasQuotas(rs, sizes, base, cur <= hi)
    {
      ghost var cut := CutRange(rs, lo, cur, hi, sizes, base);
      var end := if cur + sizes[i] - 1 <= hi then cur + sizes[i] - 1 else hi;
      rs := rs + [Range(cur, end, i)];
      cur := end + 1;
      i := i + 1;
    }
  }

  lemma FollowsOneMore(newAssigned: seq<Url>, assignment: seq<Url>)
    requires FollowsProxies(newAssigned, assignment, |newAssigned|) && |assignment| <= |newAssigned|
    ensures FollowsProxies(newAssigned + [newAssigned[|newAssigned| - 1]], assignment, |newAssigned| + 1)
  {
  }

  /** Its second loop: the bytes left over go to the last proxy, in base-size pieces. */
  method FillWithLast(assignment: seq<Url>, lo: nat, hi: int, base: nat, ghost sizes: seq<nat>, rs: seq<Range>, from: nat)
    returns (filled: seq<Range>, newAssigned: seq<Url>)
    requires base >= 1 && assignment != [] && |sizes| == |assignment|
    requires from <= hi + 1 && Tiles(rs, lo, from) && HasQuotas(rs, sizes, base, from <= hi)
    requires |rs| <= |assignment| && (from <= hi ==> |rs| == |assignment|)
    ensures IsTiling(filled, lo, hi) && HasQuotas(filled, sizes, base, false)
    ensures FollowsProxies(newAssigned, assignment, |filled|)
  {
    filled, newAssigned := rs, assignment;
    var cur := from;
    while cur <= hi
      invariant cur <= hi + 1 && Tiles(filled, lo, cur) && HasQuotas(filled, sizes, base, cur <= hi)
      invariant cur <= hi ==> |filled| == |newAssigned|
      invariant |assignment| <= |newAssigned| && |filled| <= |newAssigned|
      invariant FollowsProxies(newAssigned, assignment, |newAssigned|)
    {
      ghost var cut := CutRange(filled, lo, cur, hi, sizes, base);
      var end := if cur + base - 1 <= hi then cur + base - 1 else hi;
      filled := filled + [Range(cur, end, |filled|)];
      FollowsOneMore(newAssigned, assignment);
      newAssigned := newAssigned + [newAssigned[|newAssigned| - 1]];
      cur := end + 1;
    }
  }

  /** No range of a tiling is empty exactly when no quota is 0. */
  lemma EmptyByQuota(rs: seq<Range>, lo: nat, hi: int, sizes: seq<nat>, base: nat)
    requires IsTiling(rs, lo, hi) && HasQuotas(rs, sizes, base, false)
    ensures IsPartition(rs, lo, hi) <==> forall k :: 0 <= k < |rs| ==> Quota(sizes, base, k) >= 1
  {
    assert forall k :: 0 <= k < |rs| ==> (rs[k].first <= rs[k].last <==> rs[k].Size() >= 1);
  }

  /** `apply_per_proxy_chunk_sizes`: sizes[i] is what the stats answer for assignment[i]. A size of
      0 gives its proxy an empty range; without one the result is a partition again. */
  method ApplyPerProxyChunkSizes(ranges: seq<Range>, assignment: seq<Url>, lo: nat, hi: int,
                                 baseChunkSize: nat, sizes: seq<nat>)
    returns (newRanges: seq<Range>, newAssigned: seq<Url>)
    requires baseChunkSize >= 1
    requires |sizes| == |assignment|
    requires IsPartition(ranges, lo, hi) && |ranges| == |assignment| && lo <= hi + 1
    ensures IsTiling(newRanges, lo, hi) && |newAssigned| == |newRanges|
    ensures AtMostOneProxy(assignment) ==> newRanges == ranges && newAssigned == assignment
    ensures !AtMostOneProxy(assignment) ==> HasQuotas(newRanges, sizes, baseChunkSize, false)
                                            && FollowsProxies(newAssigned, assignment, |newRanges|)
    ensures !AtMostOneProxy(assignment) ==>
              forall k :: 0 <= k < |newRanges| ==>
                && newAssigned[k] == (if k < |assignment| then assignment[k] else assignment[|assignment| - 1])
                && (k < |newRanges| - 1 ==> newRanges[k].Size() == if k < |assignment| then sizes[k] else baseChunkSize)
                && newRanges[k].Size() <= if k < |assignment| then sizes[k] else baseChunkSize
    ensures IsPartition(newRanges, lo, hi) <==>
            AtMostOneProxy(assignment) || forall k :: 0 <= k < |newRanges| ==> Quota(sizes, baseChunkSize, k) >= 1
  {
    if AtMostOneProxy(assignment) {
      return ranges, assignment;
    }
    var rs, cur := CutPerProxy(assignment, lo, hi, baseChunkSize, sizes);
    newRanges, newAssigned := FillWithLast(assignment, lo, hi, baseChunkSize, sizes, rs, cur);
    newAssigned := newAssigned[..|newRanges|];
    EmptyByQuota(newRanges, lo, hi, sizes, baseChunkSize);
  }

  // ------------------------------------------------------------------ reassembly

  /** The bytes a correct origin answers for one range. */
  function Slice(resource: Bytes, r: Range): Bytes
    requires r.first <= r.last < |resource|
  {
    resource[r.first..r.last + 1]
  }

  /** Chunks 0..k-1, one after the other. */
  function Joined(resource: Bytes, rs: seq<Range>, k: nat): Bytes
    requires k <= |rs| && forall i :: 0 <= i < |rs| ==> rs[i].first <= rs[i].last < |resource|
  {
    if k == 0 then [] else Joined(resource, rs, k - 1) + Slice(resource, rs[k - 1])
  }

  /** Where the first k ranges of a partition starting at lo end (exclusive). */
  function CutPoint(rs: seq<Range>, lo: nat, k: nat): int
    requires k <= |rs|
  {
    if k == 0 then lo else rs[k - 1].last + 1
  }

  lemma SlicesMeet(resource: Bytes, a: nat, b: nat, c: nat)
    requires a <= b <= c <= |resource|
    ensures resource[a..b] + resource[b..c] == resource[a..c]
  {
  }

  /** Range k starts where the ranges before it end, and the last one ends with the window. */
  lemma CutPointsMeet(rs: seq<Range>, lo: nat, hi: int, k: nat)
    requires IsPartition(rs, lo, hi) && k <= |rs| && lo <= hi + 1
    ensures lo <= CutPoint(rs, lo, k) <= hi + 1
    ensures k < |rs| ==> rs[k].first == CutPoint(rs, lo, k) <= rs[k].last
    ensures k == |rs| ==> CutPoint(rs, lo, k) == hi + 1
  {
    if k > 0 {
      PartitionInside(rs, lo, hi, k - 1);
    }
  }

  /** The first k chunks of a partition are the resource up to where chunk k starts. */
  lemma {:induction false} JoinedIsPrefix(resource: Bytes, rs: seq<Range>, lo: nat, hi: int, k: nat)
    requires IsPartition(rs, lo, hi) && 0 <= hi < |resource| && k <= |rs| && lo <= hi + 1
    requires forall i :: 0 <= i < |rs| ==> rs[i].first <= rs[i].last < |resource|
    ensures lo <= CutPoint(rs, lo, k) <= hi + 1
    ensures Joined(resource, rs, k) == resource[lo..CutPoint(rs, lo, k)]
    ensures k == |rs| ==> CutPoint(rs, lo, k) == hi + 1
  {
    CutPointsMeet(rs, lo, hi, k);
    if k > 0 {
      CutPointsMeet(rs, lo, hi, k - 1);
      JoinedIsPrefix(resource, rs, lo, hi, k - 1);
      JoinOneMore(resource, rs, lo, k - 1);
    }
  }

  lemma JoinOneMore(resource: Bytes, rs: seq<Range>, lo: nat, k: nat)
    requires k < |rs| && forall i :: 0 <= i < |rs| ==> rs[i].first <= rs[i].last < |resource|
    requires lo <= rs[k].first && Joined(resource, rs, k) == resource[lo..rs[k].first]
    ensures Joined(resource, rs, k + 1) == resource[lo..rs[k].last + 1]
  {
    SlicesMeet(resource, lo, rs[k].first, rs[k].last + 1);
  }

  /** Every range of a partition lies inside the window. */
  lemma {:induction false} PartitionInside(rs: seq<Range>, lo: nat, hi: int, i: nat)
    requires IsPartition(rs, lo, hi) && i < |rs|
    ensures lo <= rs[i].first <= rs[i].last <= hi
  {
    if i > 0 { TilesOrdered(rs, lo, hi, 0, i); }
    if i < |rs| - 1 { TilesOrdered(rs, lo, hi, i, |rs| - 1); }
  }

  datatype Response = Whole(body: Bytes) | ChunkFailed | SizeMismatch(index: nat) | ReassemblyError

  /** The gather branch of `handle_inner`: collect the results in a dictionary, check every
      size, join in index order, check the total. results[i] belongs to ranges[i]. */
  method Gather(ranges: seq<Range>, results: seq<Outcome>, effectiveLength: nat) returns (r: Response)
    requires |results| == |ranges|
    requires forall i :: 0 <= i < |ranges| ==> ranges[i].index == i
    ensures r.ChunkFailed? <==> Failed in results
    ensures r.SizeMismatch? ==>
      && r.index < |ranges| && results[r.index].Data? && |results[r.index].bytes| != ranges[r.index].Size()
      && forall i :: 0 <= i < r.index ==> results[i].Data? && |results[i].bytes| == ranges[i].Size()
    ensures r.ReassemblyError? ==>
      && |Concat(results)| != effectiveLength
      && forall i :: 0 <= i < |ranges| ==> results[i].Data? && |results[i].bytes| == ranges[i].Size()
    ensures r.Whole? ==> (forall i :: 0 <= i < |ranges| ==> results[i].Data? && |results[i].bytes| == ranges[i].Size())
                         && |r.body| == effectiveLength && r.body == Concat(results)
    ensures (Failed !in results && |Concat(results)| == effectiveLength
             && forall i :: 0 <= i < |ranges| ==> |results[i].bytes| == ranges[i].Size()) ==> r.Whole?
  {
    var chunks: map<nat, Bytes> := map[];
    for i := 0 to |results|
      invariant forall k :: 0 <= k < i ==> results[k].Data?
      invariant forall k :: 0 <= k < |results| ==> (k in chunks <==> k < i)
      invariant forall k :: 0 <= k < i ==> chunks[k] == results[k].bytes
    {
      if results[i].Failed? {
        return ChunkFailed;
      }
      chunks := chunks[i := results[i].bytes];
    }
    assert forall o :: o in results ==> o.Data?;
    for i := 0 to |ranges|
      invariant forall k :: 0 <= k < i ==> |results[k].bytes| == ranges[k].Size()
    {
      if |chunks[i]| != ranges[i].Size() {
        return SizeMismatch(i);
      }
    }
    var assembled: Bytes := [];
    for i := 0 to |ranges|
      invariant assembled == Concat(results[..i])
    {
      assert results[..i + 1][..i] == results[..i];
      assembled := assembled + chunks[i];
    }
    assert results[..|ranges|] == results;
    if |assembled| != effectiveLength {
      return ReassemblyError;
    }
    return Whole(assembled);
  }

  function Concat(results: seq<Outcome>): Bytes {
    if results == [] then []
    else Concat(results[..|results| - 1])
         + (match results[|results| - 1] case Data(bytes) => bytes case Failed => [])
  }

  lemma {:induction false} ConcatIsJoined(resource: Bytes, rs: seq<Range>, results: seq<Outcome>)
    requires |results| <= |rs|
    requires forall i :: 0 <= i < |rs| ==> rs[i].first <= rs[i].last < |resource|
    requires forall i :: 0 <= i < |results| ==> results[i] == Data(Slice(resource, rs[i]))
    ensures Concat(results) == Joined(resource, rs, |results|)
  {
    if results != [] {
      ConcatIsJoined(resource, rs, results[..|results| - 1]);
    }
  }

  /** Every fetch returned its own range of the resource. */
  ghost predicate AllFetched(resource: Bytes, rs: seq<Range>, results: seq<Outcome>) {
    && |results| == |rs|
    && forall i :: 0 <= i < |rs| ==>
         rs[i].first <= rs[i].last < |resource| && results[i] == Data(Slice(resource, rs[i]))
  }

  /** When every fetch returns its range, what gather mode assembles is the window itself. */
  lemma GatheredBytesAreTheWindow(resource: Bytes, rs: seq<Range>, lo: nat, hi: nat, results: seq<Outcome>)
    requires lo <= hi < |resource| && IsPartition(rs, lo, hi) && AllFetched(resource, rs, results)
    ensures Concat(results) == resource[lo..hi + 1]
    ensures Failed !in results && forall i :: 0 <= i < |rs| ==> |results[i].bytes| == rs[i].Size()
  {
    ConcatIsJoined(resource, rs, results);
    JoinedIsPrefix(resource, rs, lo, hi, |rs|);
  }

  // ------------------------------------------------------------------ resuming

  /** A parsed `Range: bytes=N-M` or `bytes=N-` header; anything else parses to None. */
  datatype ClientRange = ClientRange(first: nat, last: Option<nat>)

  datatype Window = Window(first: nat, last: int, partial: bool)

  /** The effective window `handle_inner` serves. Content-Length is positive here: without one
      the request is fetched whole elsewhere. */
  function EffectiveWindow(contentLength: nat, client: Option<ClientRange>): (w: Window)
    requires contentLength > 0
    ensures w.first <= w.last < contentLength
    ensures !w.partial ==> w.first == 0 && w.last == contentLength - 1
  {
    match client
    case None => Window(0, contentLength - 1, false)
    case Some(ClientRange(rs, given)) =>
      var asked: int := if given.Some? then given.value else contentLength - 1;
      var re := if asked <= contentLength - 1 then asked else contentLength - 1;
      if rs <= re < contentLength then Window(rs, re, true) else Window(0, contentLength - 1, false)
  }

  /** The answer is partial exactly for a range that starts inside the file and not after its own end;
      then it is the requested range, cut off at the end of the file. */
  lemma WindowExactly(contentLength: nat, first: nat, last: Option<nat>)
    requires contentLength > 0
    ensures var w := EffectiveWindow(contentLength, Some(ClientRange(first, last)));
            && (w.partial <==> first < contentLength && (last.Some? ==> first <= last.value))
            && (w.partial ==> w.first == first
                              && w.last == if last.Some? && last.value < contentLength then last.value else contentLength - 1)
            && (!w.partial ==> w.first == 0 && w.last == contentLength - 1)
    ensures EffectiveWindow(contentLength, None) == Window(0, contentLength - 1, false)
  {
  }

  /** Section 14.1.2 of RFC 9110: `bytes=k-` asks for everything from offset k. Appending the
      answer to the first k bytes restores the file exactly while k is inside it; at the end of
      the file or beyond the request falls back to a full 200 answer. */
  lemma ResumeCompletesTheFile(resource: Bytes, k: nat)
    requires |resource| > 0 && k <= |resource|
    ensures var w := EffectiveWindow(|resource|, Some(ClientRange(k, None)));
            && (w.partial <==> k < |resource|)
            && (resource[..k] + resource[w.first..w.last + 1] == resource <==> k == 0 || w.partial)
  {
    var w := EffectiveWindow(|resource|, Some(ClientRange(k, None)));
    var body := resource[w.first..w.last + 1];
    if k < |resource| {
      assert resource[..k] + body == resource;
    } else {
      assert |resource[..k] + body| == 2 * |resource|;
    }
  }
}
