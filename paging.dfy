/**
 * Result pagination (app.py:667-684): a fixed page size of 15
 * (`PAGE_SIZE_FIXED`, app.py:57), at least one page, and the four
 * navigation buttons, each of which sets the current page.
 */
module Paging {

  const PageSize: nat := 15

  /** `max(1, ceil(count / PageSize))` */
  function TotalPages(count: nat): (t: nat)
    ensures t >= 1
    ensures count <= t * PageSize
    ensures count > 0 ==> (t - 1) * PageSize < count
    ensures count == 0 ==> t == 1
  {
    if count == 0 then 1 else (count + PageSize - 1) / PageSize
  }

  /** "⏮ 처음" */
  function First(): (p: int)
    ensures p == 1
  {
    1
  }

  /** "◀ 이전": one page back, never below the first page. */
  function Prev(page: int): (p: int)
    ensures p >= 1
    ensures page > 1 ==> p == page - 1
    ensures page <= 1 ==> p == 1
  {
    if page - 1 > 1 then page - 1 else 1
  }

  /** "다음 ▶": one page forward, never past the last page. */
  function Next(page: int, count: nat): (p: int)
    ensures p <= TotalPages(count)
    ensures page < TotalPages(count) ==> p == page + 1
    ensures page >= TotalPages(count) ==> p == TotalPages(count)
  {
    var t := TotalPages(count);
    if t < page + 1 then t else page + 1
  }

  /** "마지막 ⏭" */
  function Last(count: nat): (p: int)
    ensures p == TotalPages(count)
  {
    TotalPages(count)
  }

  /** Whether a page number names one of the pages of `count` rows. */
  predicate InRange(page: int, count: nat)
  {
    1 <= page <= TotalPages(count)
  }

  /** Every button keeps the current page among the pages of the result list. */
  lemma NavigationInRange(page: int, count: nat)
    requires InRange(page, count)
    ensures InRange(First(), count) && InRange(Prev(page), count)
    ensures InRange(Next(page, count), count) && InRange(Last(count), count)
  {
  }

  /** Next then Prev returns to a page that is not the last one; Prev then Next to one that is not the first. */
  lemma PrevNextInverse(page: int, count: nat)
    requires InRange(page, count)
    ensures page < TotalPages(count) ==> Prev(Next(page, count)) == page
    ensures page > 1 ==> Next(Prev(page), count) == page
  {
  }

  /** `df.iloc[(pg-1)*ps : (pg-1)*ps + ps]` for a page number >= 1 (iloc clamps both ends). */
  function PageSlice<T>(rows: seq<T>, page: nat): (r: seq<T>)
    requires page >= 1
    ensures |r| <= PageSize
    ensures (page - 1) * PageSize < |rows| ==> |r| > 0
    ensures forall i :: 0 <= i < |r| ==> (page - 1) * PageSize + i < |rows| && r[i] == rows[(page - 1) * PageSize + i]
  {
    var lo := if (page - 1) * PageSize < |rows| then (page - 1) * PageSize else |rows|;
    var hi := if lo + PageSize < |rows| then lo + PageSize else |rows|;
    rows[lo..hi]
  }

  /** Pages 1..k written one after the other. */
  function PagesUpTo<T>(rows: seq<T>, k: nat): seq<T>
  {
    if k == 0 then [] else PagesUpTo(rows, k - 1) + PageSlice(rows, k)
  }

  lemma {:induction false} PagesUpToPrefix<T>(rows: seq<T>, k: nat)
    ensures var m := if k * PageSize < |rows| then k * PageSize else |rows|;
      PagesUpTo(rows, k) == rows[..m]
  {
    if k > 0 {
      PagesUpToPrefix(rows, k - 1);
      var lo := if (k - 1) * PageSize < |rows| then (k - 1) * PageSize else |rows|;
      var hi := if lo + PageSize < |rows| then lo + PageSize else |rows|;
      assert PageSlice(rows, k) == rows[lo..hi];
      assert rows[..lo] + rows[lo..hi] == rows[..hi];
    }
  }

  /** The pages of a result list, in order, are exactly the list: no row is lost or shown twice. */
  lemma PagesPartitionRows<T>(rows: seq<T>)
    ensures PagesUpTo(rows, TotalPages(|rows|)) == rows
  {
    PagesUpToPrefix(rows, TotalPages(|rows|));
    assert rows[..|rows|] == rows;
  }

  /** Every page in range but the last is full. */
  lemma PagesBeforeLastAreFull<T>(rows: seq<T>, page: nat)
    requires 1 <= page < TotalPages(|rows|)
    ensures |PageSlice(rows, page)| == PageSize
  {
  }
}
