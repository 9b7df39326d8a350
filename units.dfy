/**
 * The display-only quota estimators (app.py:265-280): YouTube Data API
 * units a search, the trending list and the keyword board will spend.
 * `math.ceil(a / 50)` is exact integer ceiling division here: `a / 50` is
 * a float, which represents every quotient of the integers involved
 * (|a| < 2^53) closely enough that its ceiling is the integer one.
 */
module Units {

  const MaxPerQuery: int := 500   // MAX_YT_PER_QUERY
  const PageLen: int := 50        // results per search.list / videos.list page

  /** `math.ceil(a / d)` for d > 0: the least integer q with q * d >= a. */
  function CeilDiv(a: int, d: int): (q: int)
    requires d > 0
    ensures q * d >= a && (q - 1) * d < a
  {
    -((-a) / d)
  }

  /** `max(1, min(fetch_total, MAX_YT_PER_QUERY))` */
  function ClampFetch(fetchTotal: int): (ft: int)
    ensures 1 <= ft <= MaxPerQuery
    ensures 1 <= fetchTotal <= MaxPerQuery ==> ft == fetchTotal
    ensures fetchTotal < 1 ==> ft == 1
    ensures fetchTotal > MaxPerQuery ==> ft == MaxPerQuery
  {
    if fetchTotal < 1 then 1 else if fetchTotal > MaxPerQuery then MaxPerQuery else fetchTotal
  }

  /** `estimate_units_for_youtube_search`: 100 units per search page plus 1 per details page. */
  function EstimateSearch(fetchTotal: int): (units: int)
    ensures var pages := CeilDiv(ClampFetch(fetchTotal), PageLen);
      1 <= pages <= 10 && units == pages * 101
    ensures 101 <= units <= 1010
  {
    var ft := ClampFetch(fetchTotal);
    var pages := CeilDiv(ft, PageLen);
    var vChunks := CeilDiv(ft, PageLen);
    pages * 100 + vChunks * 1
  }

  /** `estimate_units_for_trending`: 1 unit per chart page of 50. */
  function EstimateTrending(fetchTotal: int): (units: int)
    ensures units * PageLen >= fetchTotal && (units - 1) * PageLen < fetchTotal
  {
    CeilDiv(fetchTotal, PageLen) * 1
  }

  /** `estimate_units_for_kwboard`: three search pages and three details pages per keyword. */
  function EstimateKwboard(perKeyword: int, keywords: int): (units: int)
    ensures units == keywords * 303
  {
    var searchPagesPerKw := 3;
    keywords * (searchPagesPerKw * 100 + searchPagesPerKw * 1)
  }

  /** A larger search never costs fewer units. */
  lemma EstimateSearchMonotone(a: int, b: int)
    requires a <= b
    ensures EstimateSearch(a) <= EstimateSearch(b)
  {
    var fa, fb := ClampFetch(a), ClampFetch(b);
    var pa, pb := CeilDiv(fa, PageLen), CeilDiv(fb, PageLen);
    if pa > pb {
      assert (pa - 1) * PageLen >= pb * PageLen;
    }
  }

  /** The keyword board costs, per keyword, one search of 120 results; the per-keyword count plays no part. */
  lemma KwboardIsSearchPerKeyword(perKeyword: int, keywords: int)
    ensures EstimateKwboard(perKeyword, keywords) == keywords * EstimateSearch(120)
  {
    assert CeilDiv(120, PageLen) == 3;
  }

  /** The estimates at the defaults used by the sidebar. */
  lemma EstimateExamples()
    ensures EstimateSearch(100) == 202
    ensures EstimateSearch(0) == 101
    ensures EstimateSearch(10000) == 1010
    ensures EstimateTrending(200) == 4
    ensures EstimateKwboard(6, 8) == 2424
  {
    assert CeilDiv(100, PageLen) == 2;
    assert CeilDiv(1, PageLen) == 1;
    assert CeilDiv(500, PageLen) == 10;
    assert CeilDiv(200, PageLen) == 4;
  }
}
