/**
 * `fetch_trending_with_engagement` (app.py:396-452): page through the
 * `mostPopular` chart, sort, apply the age gate, then return a shuffled
 * prefix of the list.
 *
 * `chart(token)` is the outcome of the `yt_get` call for a page token
 * (None for the first page). Only an HTTP error ends the paging
 * quietly; any other failure of `yt_get` propagates. The engagement score
 * (`compute_engagement_score`, a float power) is not modelled: every
 * chart item carries it as an abstract integer rank `eng`. The shuffle's
 * random source is the oracle `draw`.
 */
module Trending {
  import opened Ordering
  import opened KeyRotation
  import opened Videos
  import Age

  datatype ChartItem = ChartItem(detail: DetailItem, eng: int)
  datatype ChartPage = ChartPage(items: seq<ChartItem>, nextPageToken: Option<string>)

  /** A collected record with its `_eng_score`. */
  datatype Trend = Trend(video: Video, eng: int)

  const AllAges: string := "전체"
  const MaxReturned: nat := 120

  function ToTrend(c: ChartItem): (t: Trend)
    ensures t.video == ToVideo(c.detail) && t.eng == c.eng
  {
    Trend(ToVideo(c.detail), c.eng)
  }

  predicate Truthy(t: Option<string>)
  {
    t.Some? && t.value != ""
  }

  function Records(items: seq<ChartItem>): (r: seq<Trend>)
    ensures |r| == |items| && forall i :: 0 <= i < |items| ==> r[i] == ToTrend(items[i])
  {
    seq(|items|, i requires 0 <= i < |items| => ToTrend(items[i]))
  }

  /** The paging loop from the state (`token`, `acc`) onwards. */
  function CollectChart(chart: Option<string> -> Result<ChartPage>, ft: int,
                        token: Option<string>, acc: seq<Trend>): Result<seq<Trend>>
    decreases ft - |acc|
  {
    if |acc| >= ft then Ok(acc)
    else match chart(token)
      case Err(e) => if e.HttpStatus? then Ok(acc) else Err(e)
      case Ok(p) =>
        if p.items == [] then Ok(acc)
        else
          var next := acc + Records(p.items);
          if !Truthy(p.nextPageToken) || |next| >= ft then Ok(next)
          else CollectChart(chart, ft, p.nextPageToken, next)
  }

  method CollectChartPages(chart: Option<string> -> Result<ChartPage>, ft: int) returns (r: Result<seq<Trend>>)
    ensures r == CollectChart(chart, ft, None, [])
  {
    var collected: seq<Trend> := [];
    var pageToken: Option<string> := None;
    while |collected| < ft
      invariant CollectChart(chart, ft, None, []) == CollectChart(chart, ft, pageToken, collected)
      decreases ft - |collected|
    {
      var data := chart(pageToken);
      if data.Err? {
        if data.error.HttpStatus? {
          return Ok(collected);
        }
        return Err(data.error);
      }
      var items := data.value.items;
      if items == [] {
        return Ok(collected);
      }
      collected := AppendRecords(collected, items);
      pageToken := data.value.nextPageToken;
      if !Truthy(pageToken) || |collected| >= ft {
        return Ok(collected);
      }
    }
    return Ok(collected);
  }

  /** The `for v in items` loop: one record per chart item, appended in order. */
  method AppendRecords(before: seq<Trend>, items: seq<ChartItem>) returns (collected: seq<Trend>)
    ensures collected == before + Records(items)
  {
    collected := before;
    for j := 0 to |items|
      invariant collected == before + Records(items[..j])
    {
      collected := collected + [ToTrend(items[j])];
    }
    assert items[..|items|] == items;
  }

  /** Only non-HTTP failures escape the paging loop. */
  lemma {:induction false} CollectChartErrors(chart: Option<string> -> Result<ChartPage>, ft: int,
                                              token: Option<string>, acc: seq<Trend>)
    ensures CollectChart(chart, ft, token, acc).Err? ==> !CollectChart(chart, ft, token, acc).error.HttpStatus?
    decreases ft - |acc|
  {
    if |acc| < ft && chart(token).Ok? {
      var p := chart(token).value;
      var next := acc + Records(p.items);
      if p.items != [] && Truthy(p.nextPageToken) && |next| < ft {
        CollectChartErrors(chart, ft, p.nextPageToken, next);
      }
    }
  }

  function TitleOf(t: Trend): string { t.video.title }
  function EngOf(t: Trend): int { t.eng }

  /** The sort on `order_mode` over the record's video. */
  function TrendKey(byViews: bool): Trend -> seq<int>
  {
    (t: Trend) => BaseKey(byViews)(t.video)
  }

  /** The sort, then for an age tag the gate re-sorted by (score, engagement). */
  function Arrange(collected: seq<Trend>, orderMode: string, ageTag: string): seq<Trend>
  {
    var sorted := Sort(collected, TrendKey(orderMode == "viewCount"), true);
    if ageTag != AllAges then AgeGate(sorted, TitleOf, ageTag, EngOf) else sorted
  }

  function Max(a: int, b: int): int { if a > b then a else b }
  function Min(a: int, b: int): int { if a < b then a else b }

  /**
   * `max(40, int(n * 0.6))`; for every list length below 2^50 the float
   * product truncates to (6 * n) / 10.
   */
  function PoolSize(n: nat): nat
  {
    Max(40, (6 * n) / 10)
  }

  /** `max(60, min(120, len(pool)))`, the bound of the returned slice. */
  function SliceBound(poolLen: nat): nat
  {
    Max(60, Min(120, poolLen))
  }

  /** The returned slice holds min(len(pool), 120) records: the 60 floor never matters. */
  lemma ReturnedLength(poolLen: nat)
    ensures Min(poolLen, SliceBound(poolLen)) == Min(poolLen, MaxReturned)
  {
  }

  /** The pool is the whole list up to 40 records and 60 % of it from 67 records on. */
  lemma PoolSizeFacts(n: nat)
    ensures n <= 40 ==> Min(n, PoolSize(n)) == n
    ensures n >= 67 ==> PoolSize(n) == (6 * n) / 10 < n
    ensures Min(n, PoolSize(n)) >= Min(n, 40)
  {
  }

  /** `random.shuffle`: Fisher-Yates, with `draw(i) % (i + 1)` the index drawn at step i. */
  method Shuffle<T>(a: array<T>, draw: nat -> nat)
    modifies a
    ensures multiset(a[..]) == multiset(old(a[..]))
  {
    var i := a.Length - 1;
    while i > 0
      invariant i < a.Length
      invariant multiset(a[..]) == multiset(old(a[..]))
      decreases i
    {
      var j := draw(i) % (i + 1);
      a[i], a[j] := a[j], a[i];
      i := i - 1;
    }
  }

  /** `fetch_trending_with_engagement` on a pool of `nKeys` keys. */
  method FetchTrending(nKeys: nat, fetchTotal: int, orderMode: string, ageTag: string,
                       chart: Option<string> -> Result<ChartPage>, draw: nat -> nat)
    returns (r: Result<seq<Trend>>)
    ensures nKeys == 0 ==> r == Ok([])
    ensures nKeys > 0 ==>
      var c := CollectChart(chart, fetchTotal, None, []);
      && (c.Err? ==> r == Err(c.error))
      && (c.Ok? ==>
            var arranged := Arrange(c.value, orderMode, ageTag);
            var pool := Take(arranged, PoolSize(|arranged|));
            && r.Ok?
            && |r.value| == Min(|pool|, MaxReturned)
            && multiset(r.value) <= multiset(pool)
            && (|pool| <= MaxReturned ==> multiset(r.value) == multiset(pool)))
  {
    if nKeys == 0 {
      return Ok([]);
    }
    var collected := CollectChartPages(chart, fetchTotal);
    if collected.Err? {
      return Err(collected.error);
    }
    var arranged := Arrange(collected.value, orderMode, ageTag);
    if arranged == [] {
      return Ok([]);
    }
    var pool := Take(arranged, PoolSize(|arranged|));
    var a := new Trend[|pool|](i requires 0 <= i < |pool| => pool[i]);
    assert a[..] == pool;
    Shuffle(a, draw);
    var k := Min(a.Length, SliceBound(a.Length));
    ReturnedLength(a.Length);
    assert a[..] == a[..k] + a[k..];
    assert k == a.Length ==> a[..k] == a[..];
    return Ok(a[..k]);
  }

  /**
   * Every record returned under an age tag has no negative hit and a score
   * of at least 1, and comes from the chart.
   */
  lemma TrendingAgeGate(collected: seq<Trend>, orderMode: string, ageTag: string, returned: seq<Trend>)
    requires ageTag != AllAges
    requires var arranged := Arrange(collected, orderMode, ageTag);
      multiset(returned) <= multiset(Take(arranged, PoolSize(|arranged|)))
    ensures forall t :: t in returned ==>
      t in collected && !Age.AgeNegativeHit(t.video.title, ageTag) && Age.AgeScore(t.video.title, ageTag) >= 1
  {
    var key := TrendKey(orderMode == "viewCount");
    var sorted := Sort(collected, key, true);
    var arranged := Arrange(collected, orderMode, ageTag);
    var pool := Take(arranged, PoolSize(|arranged|));
    SortMembers(collected, key, true);
    AgeGateCharacterized(sorted, TitleOf, ageTag, EngOf);
    forall t | t in returned
      ensures t in collected && !Age.AgeNegativeHit(t.video.title, ageTag) && Age.AgeScore(t.video.title, ageTag) >= 1
    {
      assert t in multiset(returned);
      assert t in multiset(pool);
      assert t in pool;
      assert t in arranged;
    }
  }

  /** Without an age tag, the pool is the first records in `order_mode` order. */
  lemma TrendingPoolSorted(collected: seq<Trend>, orderMode: string)
    ensures var arranged := Arrange(collected, orderMode, AllAges);
      Sorted(Take(arranged, PoolSize(|arranged|)), TrendKey(orderMode == "viewCount"), true)
  {
    var key := TrendKey(orderMode == "viewCount");
    SortSortedPermutation(collected, key, true);
    var arranged := Arrange(collected, orderMode, AllAges);
    TakeSorted(arranged, PoolSize(|arranged|), key, true);
  }
}
