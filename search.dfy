/**
 * `search_youtube` (app.py:286-393): page through `search.list` until
 * `fetch_total` ids are collected, de-duplicate and cut the ids, look
 * them up in chunks of 50 with `videos.list`, keep the items that pass
 * the filters, sort, apply the age gate and drop repeated urls.
 *
 * Each `yt_get` call is abstracted by its outcome (`KeyRotation` models
 * `yt_get` itself): `searchPage(token)` is the `search.list` page for
 * the page token (None for the first page) and `details(chunk)` the
 * `videos.list` items for a chunk of ids. An `Err` outcome is the
 * exception `yt_get` raises; `search_youtube` lets it propagate.
 */
module Search {
  import opened Text
  import opened Ordering
  import opened KeyRotation
  import opened Videos
  import Units

  /** What `search.list` returned: the `id.videoId` of each item ("" when absent) and `nextPageToken`. */
  datatype SearchPage = SearchPage(videoIds: seq<string>, nextPageToken: Option<string>)

  /** The caller's filters (app.py:349-355); `None` bounds are not checked. */
  datatype Filters = Filters(
    includeWords: seq<string>, excludeWords: seq<string>,
    includeChannels: seq<string>, excludeChannels: seq<string>,
    includeChannelIds: seq<string>, excludeChannelIds: seq<string>,
    minSeconds: Option<int>, maxSeconds: Option<int>)

  const PerPage: nat := 50
  const AllAges: string := "전체"
  const ByViews: string := "조회수순"

  // ---------------------------------------------------------------------
  // Paging through search.list (app.py:314-323)
  // ---------------------------------------------------------------------

  /** The ids of a page, items without a video id skipped. */
  function PageIds(p: SearchPage): seq<string>
  {
    Filter(p.videoIds, (id: string) => id != "")
  }

  /** A page token Python treats as true. */
  predicate Truthy(t: Option<string>)
  {
    t.Some? && t.value != ""
  }

  /** The pagination loop from the state (`token`, `acc`) onwards. */
  function Collect(searchPage: Option<string> -> Result<SearchPage>, ft: nat,
                   token: Option<string>, acc: seq<string>): Result<seq<string>>
    decreases ft - |acc|
  {
    if |acc| >= ft then Ok(acc)
    else match searchPage(token)
      case Err(e) => Err(e)
      case Ok(p) =>
        var ids := PageIds(p);
        if ids == [] then Ok(acc)
        else
          var next := acc + ids;
          if !Truthy(p.nextPageToken) || |next| >= ft then Ok(next)
          else Collect(searchPage, ft, p.nextPageToken, next)
  }

  method CollectIds(searchPage: Option<string> -> Result<SearchPage>, ft: nat) returns (r: Result<seq<string>>)
    ensures r == Collect(searchPage, ft, None, [])
  {
    var collected: seq<string> := [];
    var pageToken: Option<string> := None;
    while |collected| < ft
      invariant Collect(searchPage, ft, None, []) == Collect(searchPage, ft, pageToken, collected)
      decreases ft - |collected|
    {
      var sjson := searchPage(pageToken);
      if sjson.Err? {
        return Err(sjson.error);
      }
      var ids := PageIds(sjson.value);
      if ids == [] {
        return Ok(collected);
      }
      collected := collected + ids;
      pageToken := sjson.value.nextPageToken;
      if !Truthy(pageToken) || |collected| >= ft {
        return Ok(collected);
      }
    }
    return Ok(collected);
  }

  /** Collected ids are never empty strings, and the ids collected so far stay a prefix. */
  lemma {:induction false} CollectKeeps(searchPage: Option<string> -> Result<SearchPage>, ft: nat,
                                        token: Option<string>, acc: seq<string>)
    requires forall i :: 0 <= i < |acc| ==> acc[i] != ""
    ensures Collect(searchPage, ft, token, acc).Ok? ==>
      var ids := Collect(searchPage, ft, token, acc).value;
      |acc| <= |ids| && ids[..|acc|] == acc && forall i :: 0 <= i < |ids| ==> ids[i] != ""
    decreases ft - |acc|
  {
    if |acc| < ft && searchPage(token).Ok? {
      var p := searchPage(token).value;
      var ids := PageIds(p);
      FilterMembers(p.videoIds, (id: string) => id != "");
      var next := acc + ids;
      assert forall i :: 0 <= i < |next| ==> next[i] != "" by {
        forall i | 0 <= i < |next| ensures next[i] != "" {
          if i >= |acc| { assert next[i] == ids[i - |acc|] && ids[i - |acc|] in ids; }
        }
      }
      if ids != [] && Truthy(p.nextPageToken) && |next| < ft {
        CollectKeeps(searchPage, ft, p.nextPageToken, next);
        var r := Collect(searchPage, ft, p.nextPageToken, next);
        if r.Ok? {
          assert r.value[..|acc|] == r.value[..|next|][..|acc|];
        }
      }
    }
  }

  /** When every page answers with ids and a next token, the loop collects at least `ft` ids. */
  lemma {:induction false} CollectEnough(searchPage: Option<string> -> Result<SearchPage>, ft: nat,
                                         token: Option<string>, acc: seq<string>)
    requires forall t :: searchPage(t).Ok? && PageIds(searchPage(t).value) != [] && Truthy(searchPage(t).value.nextPageToken)
    ensures Collect(searchPage, ft, token, acc).Ok? && |Collect(searchPage, ft, token, acc).value| >= ft
    decreases ft - |acc|
  {
    if |acc| < ft {
      var p := searchPage(token).value;
      var next := acc + PageIds(p);
      if |next| < ft {
        CollectEnough(searchPage, ft, p.nextPageToken, next);
      }
    }
  }

  /** With pages of at most 50 items (`maxResults`), the loop overshoots `ft` by fewer than 50 ids. */
  lemma {:induction false} CollectBounded(searchPage: Option<string> -> Result<SearchPage>, ft: nat,
                                          token: Option<string>, acc: seq<string>)
    requires forall t :: searchPage(t).Ok? ==> |searchPage(t).value.videoIds| <= PerPage
    requires |acc| < ft + PerPage
    ensures Collect(searchPage, ft, token, acc).Ok? ==> |Collect(searchPage, ft, token, acc).value| < ft + PerPage
    decreases ft - |acc|
  {
    if |acc| < ft && searchPage(token).Ok? {
      var p := searchPage(token).value;
      var next := acc + PageIds(p);
      if PageIds(p) != [] && Truthy(p.nextPageToken) && |next| < ft {
        CollectBounded(searchPage, ft, p.nextPageToken, next);
      }
    }
  }

  /** An empty first page ends the search with no ids. */
  lemma CollectEmptyFirstPage(searchPage: Option<string> -> Result<SearchPage>, ft: nat)
    requires ft >= 1 && searchPage(None).Ok? && PageIds(searchPage(None).value) == []
    ensures Collect(searchPage, ft, None, []) == Ok([])
  {
  }

  /** `list(dict.fromkeys(collected_ids))[:fetch_total]` */
  function PrepareIds(collected: seq<string>, ft: nat): (ids: seq<string>)
  {
    Take(Dedup(collected), ft)
  }

  /**
   * The ids looked up are pairwise distinct, at most `ft` many, all taken
   * from `collected`, in first-occurrence order, and are the first `ft`
   * distinct ids collected.
   */
  lemma PrepareIdsFacts(collected: seq<string>, ft: nat)
    ensures var ids := PrepareIds(collected, ft);
      && |ids| <= ft
      && (forall i, j :: 0 <= i < j < |ids| ==> ids[i] != ids[j])
      && (forall i :: 0 <= i < |ids| ==> ids[i] in collected)
      && (forall i, j :: 0 <= i < j < |ids| ==> First(collected, Id, ids[i]) < First(collected, Id, ids[j]))
      && (|ids| < ft ==> forall x :: x in collected ==> x in ids)
  {
    DedupCharacterized(collected);
    var d := Dedup(collected);
    var ids := PrepareIds(collected, ft);
    assert forall i :: 0 <= i < |ids| ==> ids[i] == d[i];
    forall i | 0 <= i < |ids| ensures ids[i] in collected {
      assert d[i] in d;
    }
  }

  // ---------------------------------------------------------------------
  // Details lookup and filters (app.py:329-371)
  // ---------------------------------------------------------------------

  /**
   * The chain of `continue` checks: a details item is kept when no check
   * rejects it. An empty include list or word list checks nothing.
   */
  predicate Passes(d: DetailItem, f: Filters)
  {
    var titleL := Lower(d.title);
    var seconds := Seconds(d);
    && !(|f.includeWords| > 0 && !(forall w :: w in f.includeWords ==> Contains(titleL, Lower(w))))
    && !(|f.excludeWords| > 0 && (exists w :: w in f.excludeWords && Contains(titleL, Lower(w))))
    && !(|f.includeChannels| > 0 && d.channelTitle !in f.includeChannels)
    && !(|f.excludeChannels| > 0 && d.channelTitle in f.excludeChannels)
    && !(|f.includeChannelIds| > 0 && d.channelId !in f.includeChannelIds)
    && !(|f.excludeChannelIds| > 0 && d.channelId in f.excludeChannelIds)
    && !((f.minSeconds.Some? && seconds < f.minSeconds.value) || (f.maxSeconds.Some? && seconds > f.maxSeconds.value))
  }

  /** The filters hold together: every clause as the caller states it, regardless of list emptiness. */
  lemma PassesMeaning(d: DetailItem, f: Filters)
    ensures Passes(d, f) <==>
      && (forall w :: w in f.includeWords ==> Contains(Lower(d.title), Lower(w)))
      && (forall w :: w in f.excludeWords ==> !Contains(Lower(d.title), Lower(w)))
      && (f.includeChannels == [] || d.channelTitle in f.includeChannels)
      && d.channelTitle !in f.excludeChannels
      && (f.includeChannelIds == [] || d.channelId in f.includeChannelIds)
      && d.channelId !in f.excludeChannelIds
      && (f.minSeconds.None? || Seconds(d) >= f.minSeconds.value)
      && (f.maxSeconds.None? || Seconds(d) <= f.maxSeconds.value)
  {
  }

  /** The records made from the items of one `videos.list` reply. */
  function Admit(items: seq<DetailItem>, f: Filters): seq<Video>
  {
    if |items| == 0 then []
    else
      var d := items[|items| - 1];
      Admit(items[..|items| - 1], f) + (if Passes(d, f) then [ToVideo(d)] else [])
  }

  /** `v` is the record of some details item that passed the filters. */
  ghost predicate Emitted(v: Video, f: Filters)
  {
    exists d :: ToVideo(d) == v && Passes(d, f)
  }

  lemma {:induction false} AdmitEmitted(items: seq<DetailItem>, f: Filters)
    ensures forall v :: v in Admit(items, f) ==> Emitted(v, f)
    ensures |Admit(items, f)| <= |items|
  {
    if |items| > 0 {
      AdmitEmitted(items[..|items| - 1], f);
    }
  }

  function Min(a: int, b: int): int { if a < b then a else b }

  /** `collected_ids[i:i+50]` */
  function Chunk(ids: seq<string>, i: nat): (c: seq<string>)
    requires i <= |ids|
    ensures |c| <= PerPage && (i < |ids| ==> |c| > 0)
  {
    ids[i..Min(i + PerPage, |ids|)]
  }

  /** The chunk loop from chunk start `i` onwards, with `acc` the records so far. */
  function FetchFrom(details: seq<string> -> Result<seq<DetailItem>>, f: Filters,
                     ids: seq<string>, i: nat, acc: seq<Video>): Result<seq<Video>>
    decreases |ids| - i
  {
    if i >= |ids| then Ok(acc)
    else match details(Chunk(ids, i))
      case Err(e) => Err(e)
      case Ok(items) => FetchFrom(details, f, ids, i + PerPage, acc + Admit(items, f))
  }

  method FetchVideos(details: seq<string> -> Result<seq<DetailItem>>, f: Filters, ids: seq<string>)
    returns (r: Result<seq<Video>>)
    ensures r == FetchFrom(details, f, ids, 0, [])
  {
    var out: seq<Video> := [];
    var i: nat := 0;
    while i < |ids|
      invariant FetchFrom(details, f, ids, 0, []) == FetchFrom(details, f, ids, i, out)
      decreases |ids| - i
    {
      var chunk := ids[i..Min(i + PerPage, |ids|)];
      var vjson := details(chunk);
      if vjson.Err? {
        return Err(vjson.error);
      }
      var items := vjson.value;
      var before := out;
      for j := 0 to |items|
        invariant out == before + Admit(items[..j], f)
      {
        assert items[..j + 1][..j] == items[..j];
        var v := items[j];
        if Passes(v, f) {
          out := out + [ToVideo(v)];
        }
      }
      assert items[..|items|] == items;
      i := i + PerPage;
    }
    return Ok(out);
  }

  /** Every record the chunk loop emits passed the filters. */
  lemma {:induction false} FetchEmitted(details: seq<string> -> Result<seq<DetailItem>>, f: Filters,
                                        ids: seq<string>, i: nat, acc: seq<Video>)
    requires forall v :: v in acc ==> Emitted(v, f)
    ensures FetchFrom(details, f, ids, i, acc).Ok? ==>
      forall v :: v in FetchFrom(details, f, ids, i, acc).value ==> Emitted(v, f)
    decreases |ids| - i
  {
    if i < |ids| && details(Chunk(ids, i)).Ok? {
      var items := details(Chunk(ids, i)).value;
      AdmitEmitted(items, f);
      FetchEmitted(details, f, ids, i + PerPage, acc + Admit(items, f));
    }
  }

  /** The chunks sent to `videos.list` are consecutive slices of at most 50 ids that together are `ids`. */
  function Chunks(ids: seq<string>, i: nat): seq<seq<string>>
    requires i <= |ids|
    decreases |ids| - i
  {
    if i == |ids| then [] else [Chunk(ids, i)] + Chunks(ids, Min(i + PerPage, |ids|))
  }

  function Concat(cs: seq<seq<string>>): seq<string>
  {
    if |cs| == 0 then [] else cs[0] + Concat(cs[1..])
  }

  lemma {:induction false} ChunksPartition(ids: seq<string>, i: nat)
    requires i <= |ids|
    ensures Concat(Chunks(ids, i)) == ids[i..]
    ensures forall k :: 0 <= k < |Chunks(ids, i)| ==> 0 < |Chunks(ids, i)[k]| <= PerPage
    decreases |ids| - i
  {
    if i < |ids| {
      var j := Min(i + PerPage, |ids|);
      ChunksPartition(ids, j);
      assert ids[i..] == ids[i..j] + ids[j..];
      assert Chunks(ids, i)[1..] == Chunks(ids, j);
    }
  }

  // ---------------------------------------------------------------------
  // Sort, age gate and url de-duplication (app.py:373-393)
  // ---------------------------------------------------------------------

  /** `[r for r ... if u and u not in seen]` with `seen` the urls kept so far. */
  function UrlDedup(s: seq<Video>): seq<Video>
  {
    DedupBy(Filter(s, HasUrl), UrlOf)
  }

  /** The final `seen`/`deduped` loop. */
  method DedupByUrl(out: seq<Video>) returns (deduped: seq<Video>)
    ensures deduped == UrlDedup(out)
  {
    var seen: set<string> := {};
    deduped := [];
    for i := 0 to |out|
      invariant deduped == UrlDedup(out[..i])
      invariant forall u :: u in seen <==> HasKey(Filter(out[..i], HasUrl), UrlOf, u)
    {
      var r := out[i];
      var u := r.url;
      UrlDedupStep(out, i);
      if u != "" && u !in seen {
        deduped := deduped + [r];
        seen := seen + {u};
      }
    }
    assert out[..|out|] == out;
  }

  /** One step of the loop: the record is kept when its url is non-empty and not seen before. */
  lemma UrlDedupStep(s: seq<Video>, i: nat)
    requires i < |s|
    ensures var before := Filter(s[..i], HasUrl);
      && UrlDedup(s[..i + 1]) == (if s[i].url != "" && !HasKey(before, UrlOf, s[i].url)
                                  then UrlDedup(s[..i]) + [s[i]] else UrlDedup(s[..i]))
      && (forall k :: HasKey(Filter(s[..i + 1], HasUrl), UrlOf, k) <==>
                      HasKey(before, UrlOf, k) || (s[i].url != "" && k == s[i].url))
  {
    var before := Filter(s[..i], HasUrl);
    assert s[..i + 1][..i] == s[..i];
    if s[i].url != "" {
      var after := before + [s[i]];
      assert Filter(s[..i + 1], HasUrl) == after;
      assert after[..|before|] == before;
      HasKeyAppend(before, s[i], UrlOf);
    } else {
      assert Filter(s[..i + 1], HasUrl) == before + [] == before;
    }
  }

  /** Kept records have pairwise distinct, non-empty urls and come from the input. */
  lemma UrlDedupFacts(s: seq<Video>)
    ensures var r := UrlDedup(s);
      && |r| <= |s|
      && (forall i, j :: 0 <= i < j < |r| ==> r[i].url != r[j].url)
      && (forall v :: v in r ==> v in s && v.url != "")
      && (forall v :: v in s && v.url != "" ==> exists w :: w in r && w.url == v.url)
  {
    var f := Filter(s, HasUrl);
    FilterMembers(s, HasUrl);
    DedupByCharacterized(f, UrlOf);
    DedupByMembers(f, UrlOf);
    var r := UrlDedup(s);
    forall v | v in s && v.url != "" ensures exists w :: w in r && w.url == v.url {
      assert v in f;
      var j :| 0 <= j < |f| && f[j] == v;
      assert HasKey(f, UrlOf, UrlOf(v));
      var k :| 0 <= k < |r| && UrlOf(r[k]) == UrlOf(v);
      assert r[k] in r;
    }
  }

  /** The sort on the session's order and the age gate. */
  function Arrange(out: seq<Video>, ytSort: string, ageTag: string): seq<Video>
  {
    var sorted := Sort(out, BaseKey(ytSort == ByViews), true);
    if ageTag != AllAges then AgeGate(sorted, TitleOf, ageTag, ViewsOrZero) else sorted
  }

  function TitleOf(v: Video): string { v.title }

  /** `search_youtube` on a pool of `nKeys` keys. */
  function SearchSpec(nKeys: nat, fetchTotal: int, f: Filters, ytSort: string, ageTag: string,
                      searchPage: Option<string> -> Result<SearchPage>,
                      details: seq<string> -> Result<seq<DetailItem>>): Result<seq<Video>>
  {
    if nKeys == 0 then Err(NoApiKey)
    else
      var ft := Units.ClampFetch(fetchTotal);
      match Collect(searchPage, ft, None, [])
        case Err(e) => Err(e)
        case Ok(collected) =>
          var ids := PrepareIds(collected, ft);
          if ids == [] then Ok([])
          else match FetchFrom(details, f, ids, 0, [])
            case Err(e) => Err(e)
            case Ok(out) => Ok(UrlDedup(Arrange(out, ytSort, ageTag)))
  }

  method SearchYoutube(keys: seq<string>, fetchTotal: int, f: Filters, ytSort: string, ageTag: string,
                       searchPage: Option<string> -> Result<SearchPage>,
                       details: seq<string> -> Result<seq<DetailItem>>) returns (r: Result<seq<Video>>)
    ensures r == SearchSpec(|keys|, fetchTotal, f, ytSort, ageTag, searchPage, details)
  {
    if |keys| == 0 {
      return Err(NoApiKey);
    }
    var ft := if fetchTotal < 1 then 1 else if fetchTotal > Units.MaxPerQuery then Units.MaxPerQuery else fetchTotal;
    var collected := CollectIds(searchPage, ft);
    if collected.Err? {
      return Err(collected.error);
    }
    var ids := Take(Dedup(collected.value), ft);
    if ids == [] {
      return Ok([]);
    }
    var fetched := FetchVideos(details, f, ids);
    if fetched.Err? {
      return Err(fetched.error);
    }
    var out := Sort(fetched.value, BaseKey(ytSort == ByViews), true);
    if ageTag != AllAges {
      out := AgeGate(out, TitleOf, ageTag, ViewsOrZero);
    }
    var deduped := DedupByUrl(out);
    return Ok(deduped);
  }

  // ---------------------------------------------------------------------
  // What the search promises
  // ---------------------------------------------------------------------

  /** Without keys the search fails before any request. */
  lemma SearchWithoutKeys(fetchTotal: int, f: Filters, ytSort: string, ageTag: string,
                          searchPage: Option<string> -> Result<SearchPage>,
                          details: seq<string> -> Result<seq<DetailItem>>)
    ensures SearchSpec(0, fetchTotal, f, ytSort, ageTag, searchPage, details) == Err(NoApiKey)
  {
  }

  lemma ArrangeMembers(out: seq<Video>, ytSort: string, ageTag: string)
    ensures forall v :: v in Arrange(out, ytSort, ageTag) ==> v in out
    ensures |Arrange(out, ytSort, ageTag)| <= |out|
  {
    var key := BaseKey(ytSort == ByViews);
    var sorted := Sort(out, key, true);
    SortMembers(out, key, true);
    SortSortedPermutation(out, key, true);
    AgeGateCharacterized(sorted, TitleOf, ageTag, ViewsOrZero);
  }

  /** Every returned record is that of a details item that passed all filters, with distinct urls. */
  lemma SearchEmitsPassingRecords(nKeys: nat, fetchTotal: int, f: Filters, ytSort: string, ageTag: string,
                                  searchPage: Option<string> -> Result<SearchPage>,
                                  details: seq<string> -> Result<seq<DetailItem>>)
    ensures var r := SearchSpec(nKeys, fetchTotal, f, ytSort, ageTag, searchPage, details);
      r.Ok? ==>
        && (forall v :: v in r.value ==> Emitted(v, f))
        && (forall i, j :: 0 <= i < j < |r.value| ==> r.value[i].url != r.value[j].url)
  {
    var r := SearchSpec(nKeys, fetchTotal, f, ytSort, ageTag, searchPage, details);
    if nKeys > 0 {
      var ft := Units.ClampFetch(fetchTotal);
      var c := Collect(searchPage, ft, None, []);
      if c.Ok? {
        var ids := PrepareIds(c.value, ft);
        FetchEmitted(details, f, ids, 0, []);
        var fetched := FetchFrom(details, f, ids, 0, []);
        if ids != [] && fetched.Ok? {
          var arranged := Arrange(fetched.value, ytSort, ageTag);
          ArrangeMembers(fetched.value, ytSort, ageTag);
          UrlDedupFacts(arranged);
        }
      }
    }
  }

  /** What an emitted record satisfies, stated on the record itself. */
  lemma EmittedMeaning(v: Video, f: Filters)
    requires Emitted(v, f)
    ensures forall w :: w in f.includeWords ==> Contains(Lower(v.title), Lower(w))
    ensures forall w :: w in f.excludeWords ==> !Contains(Lower(v.title), Lower(w))
    ensures f.includeChannels == [] || v.author in f.includeChannels
    ensures v.author !in f.excludeChannels
    ensures f.minSeconds.None? || v.durationSec >= f.minSeconds.value
    ensures f.maxSeconds.None? || v.durationSec <= f.maxSeconds.value
    ensures v.isShorts <==> 0 < v.durationSec <= 60
  {
    var d :| ToVideo(d) == v && Passes(d, f);
    PassesMeaning(d, f);
  }

  /** With no age gate, the result is in the session's order. */
  lemma SearchSortedByMode(nKeys: nat, fetchTotal: int, f: Filters, ytSort: string,
                           searchPage: Option<string> -> Result<SearchPage>,
                           details: seq<string> -> Result<seq<DetailItem>>)
    ensures var r := SearchSpec(nKeys, fetchTotal, f, ytSort, AllAges, searchPage, details);
      r.Ok? ==> Sorted(r.value, BaseKey(ytSort == ByViews), true)
  {
    if nKeys > 0 {
      var ft := Units.ClampFetch(fetchTotal);
      var c := Collect(searchPage, ft, None, []);
      if c.Ok? {
        var ids := PrepareIds(c.value, ft);
        var fetched := FetchFrom(details, f, ids, 0, []);
        if ids != [] && fetched.Ok? {
          var key := BaseKey(ytSort == ByViews);
          var sorted := Sort(fetched.value, key, true);
          SortSortedPermutation(fetched.value, key, true);
          FilterSorted(sorted, HasUrl, key, true);
          DedupBySorted(Filter(sorted, HasUrl), UrlOf, key, true);
        }
      }
    }
  }

  /**
   * With an age tag, every returned record has no negative hit and an age
   * score of at least 1, and the result is sorted by (score, views or 0).
   */
  lemma SearchAgeGate(nKeys: nat, fetchTotal: int, f: Filters, ytSort: string, ageTag: string,
                      searchPage: Option<string> -> Result<SearchPage>,
                      details: seq<string> -> Result<seq<DetailItem>>)
    requires ageTag != AllAges
    ensures var r := SearchSpec(nKeys, fetchTotal, f, ytSort, ageTag, searchPage, details);
      r.Ok? ==>
        && (forall v :: v in r.value ==> !Age.AgeNegativeHit(v.title, ageTag) && Age.AgeScore(v.title, ageTag) >= 1)
        && Sorted(r.value, x => AgeKey(TitleOf, ageTag, ViewsOrZero, x), true)
  {
    if nKeys > 0 {
      var ft := Units.ClampFetch(fetchTotal);
      var c := Collect(searchPage, ft, None, []);
      if c.Ok? {
        var ids := PrepareIds(c.value, ft);
        var fetched := FetchFrom(details, f, ids, 0, []);
        if ids != [] && fetched.Ok? {
          var key := BaseKey(ytSort == ByViews);
          var gated := AgeGate(Sort(fetched.value, key, true), TitleOf, ageTag, ViewsOrZero);
          var ageKey := x => AgeKey(TitleOf, ageTag, ViewsOrZero, x);
          AgeGateCharacterized(Sort(fetched.value, key, true), TitleOf, ageTag, ViewsOrZero);
          UrlDedupFacts(gated);
          FilterSorted(gated, HasUrl, ageKey, true);
          DedupBySorted(Filter(gated, HasUrl), UrlOf, ageKey, true);
        }
      }
    }
  }
}
