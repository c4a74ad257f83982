/**
 * Keyset paging as backend/prompt_discovery.py (prompt usage) and backend/workflow_raw_search.py (raw workflow
 * search) do it: a page asks for one row more than it shows, and the last shown row becomes the next cursor.
 */
module KeysetPaging {
  import opened Ordering
  import opened Prelude

  /** The rows that the cursor condition admits, in order. */
  function After<K>(less: (K, K) -> bool, rows: seq<K>, cursor: Option<K>): seq<K> {
    if rows == [] then []
    else
      var rest, row := After(less, rows[..|rows| - 1], cursor), rows[|rows| - 1];
      if cursor.None? || less(cursor.value, row) then rest + [row] else rest
  }

  /** Python's rows[:limit], for any integer limit. */
  function Take<K>(rows: seq<K>, limit: int): seq<K> {
    if limit >= 0 then rows[..if limit < |rows| then limit else |rows|]
    else rows[..if |rows| + limit > 0 then |rows| + limit else 0]
  }

  datatype Page<K> = Page(items: seq<K>, next: Option<K>)

  /** One request: fetch rows are read, limit are shown, and a further row means another page. */
  function PageOf<K>(less: (K, K) -> bool, rows: seq<K>, cursor: Option<K>, limit: int, fetch: nat): Page<K> {
    var read := Take(After(less, rows, cursor), fetch);
    var page := Take(read, limit);
    Page(page, if |read| > limit && page != [] then Some(page[|page| - 1]) else None)
  }

  lemma {:induction false} NoCursorAdmitsAll<K>(less: (K, K) -> bool, rows: seq<K>)
    ensures After(less, rows, None) == rows
  {
    if rows != [] {
      NoCursorAdmitsAll(less, rows[..|rows| - 1]);
    }
  }

  /** A cursor on row i admits exactly the rows after it. */
  lemma {:induction false} CursorAdmitsSuffix<K(!new)>(less: (K, K) -> bool, rows: seq<K>, i: nat)
    requires TotalOrder(less) && Sorted(less, rows) && i < |rows|
    ensures After(less, rows, Some(rows[i])) == rows[i + 1..]
  {
    var front := rows[..|rows| - 1];
    if i < |rows| - 1 {
      CursorAdmitsSuffix(less, front, i);
      assert front[i + 1..] + [rows[|rows| - 1]] == rows[i + 1..];
    } else {
      CursorAdmitsNothing(less, front, rows[i]);
    }
  }

  lemma {:induction false} CursorAdmitsNothing<K(!new)>(less: (K, K) -> bool, rows: seq<K>, cursor: K)
    requires TotalOrder(less) && forall k :: 0 <= k < |rows| ==> less(rows[k], cursor)
    ensures After(less, rows, Some(cursor)) == []
  {
    if rows != [] {
      CursorAdmitsNothing(less, rows[..|rows| - 1], cursor);
    }
  }

  lemma {:induction false} AfterIsMonotone<K(!new)>(less: (K, K) -> bool, rows: seq<K>, cursor: Option<K>, next: K)
    requires TotalOrder(less) && next in After(less, rows, cursor)
    ensures |After(less, rows, Some(next))| < |After(less, rows, cursor)|
  {
    var front := rows[..|rows| - 1];
    if next in After(less, front, cursor) {
      AfterIsMonotone(less, front, cursor, next);
      if cursor.Some? {
        var k :| 0 <= k < |After(less, front, cursor)| && After(less, front, cursor)[k] == next;
        AfterIsBeyond(less, front, cursor.value, k);
      }
    } else {
      AfterIsNoLonger(less, front, cursor, next);
    }
  }

  lemma {:induction false} AfterIsNoLonger<K(!new)>(less: (K, K) -> bool, rows: seq<K>, cursor: Option<K>, next: K)
    requires TotalOrder(less) && (cursor.Some? ==> less(cursor.value, next))
    ensures |After(less, rows, Some(next))| <= |After(less, rows, cursor)|
  {
    if rows != [] {
      AfterIsNoLonger(less, rows[..|rows| - 1], cursor, next);
    }
  }

  lemma {:induction false} AfterIsBeyond<K>(less: (K, K) -> bool, rows: seq<K>, cursor: K, k: nat)
    requires k < |After(less, rows, Some(cursor))|
    ensures less(cursor, After(less, rows, Some(cursor))[k])
  {
    var front := rows[..|rows| - 1];
    if k < |After(less, front, Some(cursor))| {
      AfterIsBeyond(less, front, cursor, k);
    }
  }

  /** Everything a client sees that follows cursors until there is none; each cursor leaves fewer rows. */
  ghost function Follow<K(!new)>(less: (K, K) -> bool, rows: seq<K>, cursor: Option<K>, limit: int, fetch: nat): seq<K>
    requires TotalOrder(less)
    decreases |After(less, rows, cursor)|
  {
    var page := PageOf(less, rows, cursor, limit, fetch);
    if page.next.None? then page.items
    else
      assert page.next.value in After(less, rows, cursor);
      AfterIsMonotone(less, rows, cursor, page.next.value);
      page.items + Follow(less, rows, page.next, limit, fetch)
  }

  ghost predicate Complete<K(!new)>(less: (K, K) -> bool, rows: seq<K>, limit: int, fetch: nat)
    requires TotalOrder(less)
  {
    Follow(less, rows, None, limit, fetch) == rows
  }

  /** From row i on, pages of limit rows deliver exactly the rest. */
  lemma {:induction false} FollowsFrom<K(!new)>(
    less: (K, K) -> bool, rows: seq<K>, cursor: Option<K>, i: nat, limit: nat)
    requires TotalOrder(less) && Sorted(less, rows)
    requires limit >= 1 && i <= |rows| && After(less, rows, cursor) == rows[i..]
    ensures Follow(less, rows, cursor, limit, limit + 1) == rows[i..]
    decreases |rows| - i
  {
    hide PageOf, After, TotalOrder, Sorted;
    PageIsSlice(less, rows, cursor, i, limit);
    if |rows| - i > limit {
      CursorAdmitsSuffix(less, rows, i + limit - 1);
      var page := PageOf(less, rows, cursor, limit, limit + 1);
      FollowsFrom(less, rows, page.next, i + limit, limit);
      assert rows[i..i + limit] + rows[i + limit..] == rows[i..];
    }
  }

  lemma PageIsSlice<K>(less: (K, K) -> bool, rows: seq<K>, cursor: Option<K>, i: nat, limit: nat)
    requires limit >= 1 && i <= |rows| && After(less, rows, cursor) == rows[i..]
    ensures PageOf(less, rows, cursor, limit, limit + 1) ==
            if |rows| - i > limit then Page(rows[i..i + limit], Some(rows[i + limit - 1])) else Page(rows[i..], None)
  {
    hide After;
    var read := Take(rows[i..], limit + 1);
    if |rows| - i > limit {
      assert read == rows[i..][..limit + 1] == rows[i..i + limit + 1];
      assert Take(read, limit) == read[..limit] == rows[i..i + limit];
    } else {
      assert read == rows[i..][..|rows| - i] == rows[i..];
      assert Take(read, limit) == rows[i..];
    }
  }

  /** Following cursors over a fixed result yields it in order: no row twice, none skipped, and it stops. */
  lemma PagesAreComplete<K(!new)>(less: (K, K) -> bool, rows: seq<K>, limit: nat)
    requires TotalOrder(less) && Sorted(less, rows) && limit >= 1
    ensures Complete(less, rows, limit, limit + 1)
  {
    NoCursorAdmitsAll(less, rows);
    assert rows[0..] == rows;
    FollowsFrom(less, rows, None, 0, limit);
  }

  // ---------------------------------------------------------------- raw workflow search

  const RAW_MAX := 50

  /** How many rows the raw search reads: the limit forced into 1..50, and one more. */
  function RawFetch(limit: int): nat {
    (if limit < 1 then 1 else if limit > RAW_MAX then RAW_MAX else limit) + 1
  }

  lemma {:induction false} NonPositiveLosesRows<K(!new)>(
    less: (K, K) -> bool, rows: seq<K>, cursor: Option<K>, limit: int)
    requires TotalOrder(less) && limit < 1
    ensures var left := |After(less, rows, cursor)|; |Follow(less, rows, cursor, limit, 2)| < left || left == 0
    decreases |After(less, rows, cursor)|
  {
    var page := PageOf(less, rows, cursor, limit, 2);
    if page.next.Some? {
      AfterIsMonotone(less, rows, cursor, page.next.value);
      NonPositiveLosesRows(less, rows, page.next, limit);
    }
  }

  /** Raw search paging is complete for limits 1..50, and otherwise only for results too small to need it. */
  lemma RawPagesCompleteIff<K(!new)>(less: (K, K) -> bool, rows: seq<K>, limit: int)
    requires TotalOrder(less) && Sorted(less, rows)
    ensures Complete(less, rows, limit, RawFetch(limit)) <==>
              1 <= limit <= RAW_MAX || rows == [] || (limit > RAW_MAX && |rows| <= RAW_MAX + 1)
  {
    NoCursorAdmitsAll(less, rows);
    if 1 <= limit <= RAW_MAX {
      PagesAreComplete(less, rows, limit);
    } else if limit < 1 {
      NonPositiveLosesRows(less, rows, None, limit);
    } else {
      var page := PageOf(less, rows, None, limit, RAW_MAX + 1);
      assert page.next == None && page.items == Take(rows, RAW_MAX + 1);
    }
  }

  // ---------------------------------------------------------------- the three orders

  datatype UsageKey = UsageKey(count: int, last: int, hash: int)

  /** ORDER BY asset_count DESC, last_asset_mtime_ns DESC, value_hash ASC */
  predicate UsageOrder(a: UsageKey, b: UsageKey) {
    if a.count != b.count then a.count > b.count else if a.last != b.last then a.last > b.last else a.hash < b.hash
  }

  /** ORDER BY last_asset_mtime_ns DESC, asset_count DESC, value_hash ASC */
  predicate RecentOrder(a: UsageKey, b: UsageKey) {
    if a.last != b.last then a.last > b.last else if a.count != b.count then a.count > b.count else a.hash < b.hash
  }

  datatype RawKey = RawKey(rank: real, mtime: int, asset: int)

  /** ORDER BY rank ASC, mtime_ns DESC, asset_id ASC */
  predicate RawOrder(a: RawKey, b: RawKey) {
    if a.rank != b.rank then a.rank < b.rank else if a.mtime != b.mtime then a.mtime > b.mtime else a.asset < b.asset
  }

  /** The WHERE clause of a usage cursor. */
  predicate PastUsageCursor(cursor: UsageKey, row: UsageKey) {
    row.count < cursor.count
    || (row.count == cursor.count && row.last < cursor.last)
    || (row.count == cursor.count && row.last == cursor.last && row.hash > cursor.hash)
  }

  predicate PastRecentCursor(cursor: UsageKey, row: UsageKey) {
    row.last < cursor.last
    || (row.last == cursor.last && row.count < cursor.count)
    || (row.last == cursor.last && row.count == cursor.count && row.hash > cursor.hash)
  }

  predicate PastRawCursor(cursor: RawKey, row: RawKey) {
    row.rank > cursor.rank
    || (row.rank == cursor.rank && row.mtime < cursor.mtime)
    || (row.rank == cursor.rank && row.mtime == cursor.mtime && row.asset > cursor.asset)
  }

  /** Each cursor condition is its sort order, and each sort order is strict and total. */
  lemma CursorsFollowTheirOrder()
    ensures forall c, r :: PastUsageCursor(c, r) <==> UsageOrder(c, r)
    ensures forall c, r :: PastRecentCursor(c, r) <==> RecentOrder(c, r)
    ensures forall c, r :: PastRawCursor(c, r) <==> RawOrder(c, r)
    ensures TotalOrder(PastUsageCursor) && TotalOrder(PastRecentCursor) && TotalOrder(PastRawCursor)
  {
    assert TotalOrder(PastUsageCursor);
    assert TotalOrder(PastRecentCursor);
    assert TotalOrder(PastRawCursor);
  }

  /** The more used first, of these the later used, and of these by hash; no two rows are the same. */
  ghost predicate MostUsedFirst(rows: seq<UsageKey>) {
    forall i, j :: 0 <= i < j < |rows| ==>
      && rows[i] != rows[j] && rows[i].count >= rows[j].count
      && (rows[i].count == rows[j].count ==> rows[i].last >= rows[j].last)
      && (rows[i].count == rows[j].count && rows[i].last == rows[j].last ==> rows[i].hash <= rows[j].hash)
  }

  ghost predicate LatestUsedFirst(rows: seq<UsageKey>) {
    forall i, j :: 0 <= i < j < |rows| ==>
      && rows[i] != rows[j] && rows[i].last >= rows[j].last
      && (rows[i].last == rows[j].last ==> rows[i].count >= rows[j].count)
      && (rows[i].last == rows[j].last && rows[i].count == rows[j].count ==> rows[i].hash <= rows[j].hash)
  }

  /** The better ranked first, of these the later files, and of these by id; no two rows are the same. */
  ghost predicate BestRankedFirst(rows: seq<RawKey>) {
    forall i, j :: 0 <= i < j < |rows| ==>
      && rows[i] != rows[j] && rows[i].rank <= rows[j].rank
      && (rows[i].rank == rows[j].rank ==> rows[i].mtime >= rows[j].mtime)
      && (rows[i].rank == rows[j].rank && rows[i].mtime == rows[j].mtime ==> rows[i].asset <= rows[j].asset)
  }

  /** Prompt usage paging is complete in both sort orders, for every limit the API admits. */
  lemma UsagePagesAreComplete(rows: seq<UsageKey>, limit: nat)
    requires limit >= 1
    ensures MostUsedFirst(rows) ==>
              TotalOrder(PastUsageCursor) && Complete(PastUsageCursor, rows, limit, limit + 1)
    ensures LatestUsedFirst(rows) ==>
              TotalOrder(PastRecentCursor) && Complete(PastRecentCursor, rows, limit, limit + 1)
  {
    CursorsFollowTheirOrder();
    assert MostUsedFirst(rows) ==> Sorted(UsageOrder, rows);
    assert LatestUsedFirst(rows) ==> Sorted(RecentOrder, rows);
    if Sorted(UsageOrder, rows) {
      PagesAreComplete(PastUsageCursor, rows, limit);
    }
    if Sorted(RecentOrder, rows) {
      PagesAreComplete(PastRecentCursor, rows, limit);
    }
  }

  lemma RawSearchPagesAreComplete(rows: seq<RawKey>, limit: int)
    requires 1 <= limit <= RAW_MAX && BestRankedFirst(rows)
    ensures TotalOrder(PastRawCursor) && Complete(PastRawCursor, rows, limit, RawFetch(limit))
  {
    CursorsFollowTheirOrder();
    assert Sorted(RawOrder, rows);
    RawPagesCompleteIff(PastRawCursor, rows, limit);
  }

  /** Limit 0 with a single row, and limit 60 with 52 rows of one rank and time: both stop short. */
  lemma RawPagesStopShort()
    ensures BestRankedFirst([RawKey(0.0, 0, 1)]) && TotalOrder(PastRawCursor)
    ensures !Complete(PastRawCursor, [RawKey(0.0, 0, 1)], 0, RawFetch(0))
    ensures BestRankedFirst(seq(52, asset => RawKey(0.0, 0, asset)))
    ensures !Complete(PastRawCursor, seq(52, asset => RawKey(0.0, 0, asset)), 60, RawFetch(60))
  {
    CursorsFollowTheirOrder();
    RawPagesCompleteIff(PastRawCursor, [RawKey(0.0, 0, 1)], 0);
    RawPagesCompleteIff(PastRawCursor, seq(52, asset => RawKey(0.0, 0, asset)), 60);
  }
}
