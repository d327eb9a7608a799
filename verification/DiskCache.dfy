/** The disk-backed cache (proxy/disk_cache.py): a table keyed by URL, kept below a total size by
    evicting the rows stored longest ago. */
module DiskCaching {
  import opened Wrappers
  import opened Ranges
  import RC = ResponseCaching

  /** `cachedAt` is wall-clock time, `expires` is on the monotonic clock. */
  datatype Row = Row(url: Url, answer: RC.Answer, expires: real, cachedAt: real)
  {
    function Size(): nat { |answer.body| }
  }

  type Table = seq<Row>

  /** The total size of the rows at least as new as t, or strictly newer. */
  function SizeFrom(rows: Table, t: real, strictly: bool): nat {
    if rows == [] then 0
    else (if rows[0].cachedAt > t || (rows[0].cachedAt == t && !strictly) then rows[0].Size() else 0)
         + SizeFrom(rows[1..], t, strictly)
  }

  function TotalSize(rows: Table): nat {
    if rows == [] then 0 else rows[0].Size() + TotalSize(rows[1..])
  }

  predicate Oldest(rows: Table, i: nat) {
    i < |rows| && forall j :: 0 <= j < |rows| ==> rows[i].cachedAt <= rows[j].cachedAt
  }

  predicate UniqueUrls(rows: Table) {
    forall i, j :: 0 <= i < j < |rows| ==> rows[i].url != rows[j].url
  }

  function WithoutRow(rows: Table, i: nat): Table
    requires i < |rows|
  {
    rows[..i] + rows[i + 1..]
  }

  // ------------------------------------------------------------------ sums over a table

  lemma {:induction false} RemovalSizes(rows: Table, i: nat, t: real, strictly: bool)
    requires i < |rows|
    ensures TotalSize(WithoutRow(rows, i)) == TotalSize(rows) - rows[i].Size()
    ensures SizeFrom(WithoutRow(rows, i), t, strictly) ==
            SizeFrom(rows, t, strictly) - SizeFrom([rows[i]], t, strictly)
  {
    assert [rows[i]][1..] == [];
    if i == 0 {
      assert WithoutRow(rows, 0) == rows[1..];
    } else {
      assert WithoutRow(rows, i)[1..] == WithoutRow(rows[1..], i - 1);
      RemovalSizes(rows[1..], i - 1, t, strictly);
    }
  }

  lemma {:induction false} SizeFromBounds(rows: Table, t: real, strictly: bool)
    ensures SizeFrom(rows, t, true) <= SizeFrom(rows, t, strictly) <= TotalSize(rows)
    ensures (forall j :: 0 <= j < |rows| ==> rows[j].cachedAt >= t) ==> SizeFrom(rows, t, false) == TotalSize(rows)
    ensures (forall j :: 0 <= j < |rows| ==> rows[j].cachedAt > t) ==> SizeFrom(rows, t, true) == TotalSize(rows)
  {
    if rows != [] {
      SizeFromBounds(rows[1..], t, strictly);
    }
  }

  /** A row itself comes on top of the strictly newer ones. */
  lemma {:induction false} RowOnTop(rows: Table, i: nat)
    requires i < |rows|
    ensures SizeFrom(rows, rows[i].cachedAt, true) + rows[i].Size() <= SizeFrom(rows, rows[i].cachedAt, false) <= TotalSize(rows)
  {
    var t := rows[i].cachedAt;
    RemovalSizes(rows, i, t, true);
    RemovalSizes(rows, i, t, false);
    assert [rows[i]][1..] == [];
    SizeFromBounds(WithoutRow(rows, i), t, false);
    SizeFromBounds(rows, t, false);
  }

  /** Sizes are bytes of body, and they add up. */
  lemma {:induction false} SizesAddUp(a: Table, b: Table, t: real, strictly: bool)
    ensures TotalSize(a + b) == TotalSize(a) + TotalSize(b)
    ensures SizeFrom(a + b, t, strictly) == SizeFrom(a, t, strictly) + SizeFrom(b, t, strictly)
    ensures forall r: Row :: TotalSize([r]) == |r.answer.body|
    ensures forall r: Row :: SizeFrom([r], t, true) == (if r.cachedAt > t then |r.answer.body| else 0)
    ensures forall r: Row :: SizeFrom([r], t, false) == (if r.cachedAt >= t then |r.answer.body| else 0)
  {
    assert forall r: Row :: [r][1..] == [];
    if a == [] {
      assert a + b == b;
    } else {
      assert (a + b)[1..] == a[1..] + b;
      SizesAddUp(a[1..], b, t, strictly);
    }
  }

  // ------------------------------------------------------------------ what eviction keeps

  /** `after` is what is left of `before`: a row that was dropped did not fit together with the rows
      as new as itself, and a row that was kept fits together with the strictly newer ones. */
  ghost predicate Evicted(before: Table, after: Table, maxSize: int) {
    && (TotalSize(after) <= maxSize || after == [])
    && (forall r :: r in after ==> r in before)
    && (forall r :: r in before && r !in after ==> SizeFrom(before, r.cachedAt, false) > maxSize)
    && (forall r :: r in after ==> SizeFrom(before, r.cachedAt, true) + r.Size() <= maxSize)
  }

  ghost predicate DistinctStamps(rows: Table) {
    forall i, j :: 0 <= i < j < |rows| ==> rows[i].cachedAt != rows[j].cachedAt
  }

  lemma {:induction false} NoTies(rows: Table, i: nat)
    requires i < |rows| && DistinctStamps(rows)
    ensures SizeFrom(rows, rows[i].cachedAt, false) == SizeFrom(rows, rows[i].cachedAt, true) + rows[i].Size()
  {
    var t := rows[i].cachedAt;
    RemovalSizes(rows, i, t, true);
    RemovalSizes(rows, i, t, false);
    assert [rows[i]][1..] == [];
    NothingAt(WithoutRow(rows, i), t);
  }

  lemma {:induction false} NothingAt(rows: Table, t: real)
    requires forall j :: 0 <= j < |rows| ==> rows[j].cachedAt != t
    ensures SizeFrom(rows, t, false) == SizeFrom(rows, t, true)
  {
    if rows != [] {
      NothingAt(rows[1..], t);
    }
  }

  /** Without ties the survivors are determined: exactly the rows that fit together with everything
      newer, which is the longest newest-first run that fits. */
  lemma {:induction false} SurvivorsExactly(before: Table, after: Table, maxSize: int, i: nat)
    requires Evicted(before, after, maxSize) && DistinctStamps(before) && i < |before|
    ensures before[i] in after <==> SizeFrom(before, before[i].cachedAt, false) <= maxSize
  {
    NoTies(before, i);
  }

  /** So a row survives only together with all that are newer. */
  lemma SurvivorsAreNewest(before: Table, after: Table, maxSize: int, i: nat, j: nat)
    requires Evicted(before, after, maxSize) && i < |before| && j < |before|
    requires before[i] in after && before[i].cachedAt < before[j].cachedAt
    ensures before[j] in after
  {
    RowOnTop(before, i);
    NewerIsLess(before, before[i].cachedAt, before[j].cachedAt);
  }

  lemma {:induction false} NewerIsLess(rows: Table, t: real, u: real)
    requires t < u
    ensures SizeFrom(rows, u, false) <= SizeFrom(rows, t, true)
  {
    if rows != [] {
      NewerIsLess(rows[1..], t, u);
    }
  }

  /** A row that has just been stored as the newest survives exactly if it fits at all; if it does
      not, it takes the whole table with it. */
  lemma NewestSurvivesExactly(before: Table, row: Row, after: Table, maxSize: int)
    requires Evicted(before + [row], after, maxSize)
    requires forall r :: r in before ==> r.cachedAt < row.cachedAt
    ensures row in after <==> row.Size() <= maxSize
    ensures row.Size() > maxSize ==> after == []
  {
    var all := before + [row];
    var n := |before|;
    assert all[n] == row && WithoutRow(all, n) == before;
    RemovalSizes(all, n, row.cachedAt, false);
    RemovalSizes(all, n, row.cachedAt, true);
    assert [row][1..] == [];
    NothingFrom(before, row.cachedAt);
    if row.Size() > maxSize && after != [] {
      var r := after[0];
      var i :| 0 <= i < |all| && all[i] == r;
      if i < n {
        assert r in before;
        NewerIsLess(all, r.cachedAt, row.cachedAt);
      }
      assert false;
    }
  }

  lemma {:induction false} NothingFrom(rows: Table, t: real)
    requires forall j :: 0 <= j < |rows| ==> rows[j].cachedAt < t
    ensures SizeFrom(rows, t, false) == 0
  {
    if rows != [] {
      NothingFrom(rows[1..], t);
    }
  }

  /** The stamps are wall-clock times. When the clock has stepped back behind all of them, a row
      that does not fit beside the others is dropped as soon as it is stored, and they all stay. */
  lemma ClockStepDropsTheNewRow(before: Table, row: Row, after: Table, maxSize: int)
    requires Evicted(before + [row], after, maxSize)
    requires TotalSize(before) <= maxSize < TotalSize(before) + row.Size()
    requires forall r :: r in before ==> row.cachedAt < r.cachedAt
    ensures row !in after && forall r :: r in before ==> r in after
  {
    var all := before + [row];
    var n := |before|;
    assert all[n] == row && WithoutRow(all, n) == before;
    RemovalSizes(all, n, row.cachedAt, true);
    assert [row][1..] == [];
    SizeFromBounds(before, row.cachedAt, true);
    assert forall j :: 0 <= j < |before| ==> before[j] in before;
    forall r | r in before
      ensures r in after
    {
      RemovalSizes(all, n, r.cachedAt, false);
      SizeFromBounds(before, r.cachedAt, false);
      assert r in all;
    }
  }

  // ------------------------------------------------------------------ the eviction loop

  /** What the loop keeps while it drops rows. */
  ghost predicate Dropping(before: Table, rows: Table, maxSize: int) {
    && (forall r :: r in rows ==> r in before)
    && (forall t, strictly :: SizeFrom(rows, t, strictly) <= SizeFrom(before, t, strictly))
    && (forall r :: r in before && r !in rows ==> SizeFrom(before, r.cachedAt, false) > maxSize)
    && (forall r :: r in rows ==> SizeFrom(rows, r.cachedAt, true) == SizeFrom(before, r.cachedAt, true))
  }

  lemma OnlyOneRowGoes(rows: Table, i: nat, r: Row)
    requires i < |rows|
    ensures r in rows <==> r == rows[i] || r in WithoutRow(rows, i)
  {
    assert rows == rows[..i] + [rows[i]] + rows[i + 1..];
  }

  lemma DropOldest(before: Table, rows: Table, i: nat, maxSize: int)
    requires Dropping(before, rows, maxSize) && Oldest(rows, i) && TotalSize(rows) > maxSize
    ensures Dropping(before, WithoutRow(rows, i), maxSize)
  {
    var left := WithoutRow(rows, i);
    var oldest := rows[i];
    assert [oldest][1..] == [];
    forall t, strictly
      ensures SizeFrom(left, t, strictly) <= SizeFrom(before, t, strictly)
    {
      RemovalSizes(rows, i, t, strictly);
    }
    SizeFromBounds(rows, oldest.cachedAt, false);
    forall r | r in before && r !in left
      ensures SizeFrom(before, r.cachedAt, false) > maxSize
    {
      OnlyOneRowGoes(rows, i, r);
    }
    forall r | r in left
      ensures r in rows && SizeFrom(left, r.cachedAt, true) == SizeFrom(before, r.cachedAt, true)
    {
      RemovalSizes(rows, i, r.cachedAt, true);
    }
  }

  lemma DroppingEnds(before: Table, rows: Table, maxSize: int)
    requires Dropping(before, rows, maxSize) && (TotalSize(rows) <= maxSize || rows == [])
    ensures Evicted(before, rows, maxSize)
  {
    forall r | r in rows
      ensures SizeFrom(before, r.cachedAt, true) + r.Size() <= maxSize
    {
      var i :| 0 <= i < |rows| && rows[i] == r;
      RowOnTop(rows, i);
    }
  }

  lemma WithoutKeepsUnique(rows: Table, i: nat)
    requires i < |rows| && UniqueUrls(rows)
    ensures UniqueUrls(WithoutRow(rows, i)) && forall r :: r in WithoutRow(rows, i) ==> r.url != rows[i].url
  {
    var left := WithoutRow(rows, i);
    assert forall k :: 0 <= k < |left| ==> left[k] == rows[if k < i then k else k + 1];
  }

  // ------------------------------------------------------------------ the object

  function RowOf(rows: Table, url: Url): (r: Option<nat>)
    ensures r.Some? ==> r.value < |rows| && rows[r.value].url == url
    ensures r.None? ==> forall k :: 0 <= k < |rows| ==> rows[k].url != url
  {
    if rows == [] then None
    else if rows[|rows| - 1].url == url then Some(|rows| - 1)
    else RowOf(rows[..|rows| - 1], url)
  }

  /** DELETE ... WHERE url = ? */
  function Delete(rows: Table, url: Url): Table {
    var i := RowOf(rows, url);
    if i.None? then rows else WithoutRow(rows, i.value)
  }

  /** Deleting a URL removes its row and no other. */
  lemma DeleteExactly(rows: Table, url: Url)
    requires UniqueUrls(rows)
    ensures forall r :: r in Delete(rows, url) <==> r in rows && r.url != url
    ensures |Delete(rows, url)| == |rows| - if exists r :: r in rows && r.url == url then 1 else 0
  {
    var i := RowOf(rows, url);
    if i.Some? {
      WithoutKeepsUnique(rows, i.value);
      assert rows[i.value] in rows;
      forall r
        ensures r in Delete(rows, url) <==> r in rows && r.url != url
      {
        OnlyOneRowGoes(rows, i.value, r);
      }
    }
  }

  lemma DeleteKeepsUnique(rows: Table, url: Url)
    requires UniqueUrls(rows)
    ensures UniqueUrls(Delete(rows, url)) && forall k :: 0 <= k < |Delete(rows, url)| ==> Delete(rows, url)[k].url != url
  {
    var i := RowOf(rows, url);
    if i.Some? {
      WithoutKeepsUnique(rows, i.value);
    }
  }

  class DiskCache {
    const maxSize: int
    const defaultTtl: real
    const maxBody: nat
    var rows: Table
    var hits: nat
    var misses: nat

    ghost predicate Valid()
      reads this
    {
      UniqueUrls(rows)
    }

    constructor (maxSize: int, defaultTtl: real, maxBody: nat)
      ensures Valid() && rows == [] && this.maxSize == maxSize && this.defaultTtl == defaultTtl && this.maxBody == maxBody
    {
      this.maxSize, this.defaultTtl, this.maxBody := maxSize, defaultTtl, maxBody;
      rows, hits, misses := [], 0, 0;
    }

    /** `_enforce_limit`. The running total is the table's sum throughout; rows with the same stamp
        may go in any order. */
    method EnforceLimit()
      requires Valid()
      modifies this`rows
      ensures Valid() && Evicted(old(rows), rows, maxSize)
      ensures maxSize >= 0 ==> TotalSize(rows) <= maxSize
    {
      var total: int := TotalSize(rows);
      while total > maxSize
        invariant total == TotalSize(rows) && Valid() && Dropping(old(rows), rows, maxSize)
        decreases |rows|
      {
        if rows == [] {
          break;
        }
        var i := OldestRow();
        DropOldest(old(rows), rows, i, maxSize);
        WithoutKeepsUnique(rows, i);
        RemovalSizes(rows, i, 0.0, true);
        total := total - rows[i].Size();
        rows := WithoutRow(rows, i);
      }
      DroppingEnds(old(rows), rows, maxSize);
    }

    /** ORDER BY cached_at ASC LIMIT 1 */
    method OldestRow() returns (i: nat)
      requires rows != []
      ensures Oldest(rows, i)
    {
      i := 0;
      for k := 1 to |rows|
        invariant i < |rows| && forall j :: 0 <= j < k ==> rows[i].cachedAt <= rows[j].cachedAt
      {
        if rows[k].cachedAt < rows[i].cachedAt {
          i := k;
        }
      }
    }

    method InsertOrReplace(row: Row)
      requires Valid()
      modifies this`rows
      ensures Valid() && rows == Delete(old(rows), row.url) + [row]
    {
      DeleteKeepsUnique(rows, row.url);
      rows := Delete(rows, row.url) + [row];
    }

    method PutRow(url: Url, answer: RC.Answer, directive: RC.Directive, now: real, wallClock: real) returns (stored: bool)
      requires Valid()
      modifies this`rows
      ensures Valid()
      ensures stored <==> |answer.body| <= maxBody && !directive.Forbid?
                          && (if directive.MaxAge? then directive.seconds else defaultTtl) > 0.0
      ensures !stored ==> rows == old(rows)
      ensures stored ==>
        var ttl := if directive.MaxAge? then directive.seconds else defaultTtl;
        Evicted(Delete(old(rows), url) + [Row(url, answer, now + ttl, wallClock)], rows, maxSize)
      ensures stored && maxSize >= 0 ==> TotalSize(rows) <= maxSize
    {
      if |answer.body| > maxBody || directive.Forbid? {
        return false;
      }
      var ttl := if directive.MaxAge? then directive.seconds else defaultTtl;
      if ttl <= 0.0 {
        return false;
      }
      InsertOrReplace(Row(url, answer, now + ttl, wallClock));
      EnforceLimit();
      return true;
    }

    /** A hit is an unexpired row of this URL; an expired one is deleted. */
    method GetRow(url: Url, now: real) returns (r: Option<RC.Answer>)
      requires Valid()
      modifies this
      ensures Valid()
      ensures var i := RowOf(old(rows), url);
              r == if i.Some? && now <= old(rows)[i.value].expires then Some(old(rows)[i.value].answer) else None
      ensures rows == if r.Some? then old(rows) else Delete(old(rows), url)
      ensures r.None? ==> forall k :: 0 <= k < |rows| ==> rows[k].url != url
      ensures hits == old(hits) + (if r.Some? then 1 else 0) && misses == old(misses) + (if r.None? then 1 else 0)
    {
      var i := RowOf(rows, url);
      if i.None? {
        misses := misses + 1;
        return None;
      }
      if now > rows[i.value].expires {
        WithoutKeepsUnique(rows, i.value);
        rows := WithoutRow(rows, i.value);
        misses := misses + 1;
        return None;
      }
      hits := hits + 1;
      return Some(rows[i.value].answer);
    }
  }
}
