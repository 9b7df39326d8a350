/**
 * The video records shared by `search_youtube` (app.py:329-371) and
 * `fetch_trending_with_engagement` (app.py:418-431): a `videos.list`
 * item as the pipelines read it, the result record they build from it,
 * the two base sort keys (app.py:374-377, 435-438) and the age gate
 * (app.py:380-385, 440-445).
 */
module Videos {
  import opened Text
  import opened Ordering
  import opened KeyRotation
  import Duration
  import Age

  /**
   * One `videos.list` item: `id`, snippet `title` / `channelTitle` /
   * `channelId` / `description` (absent = ""), snippet `publishedAt`,
   * statistics `viewCount` (absent or "" = None, otherwise its integer
   * value) and contentDetails `duration`.
   */
  datatype DetailItem = DetailItem(
    id: string,
    title: string,
    channelTitle: string,
    channelId: string,
    publishedAt: Option<string>,
    viewCount: Option<nat>,
    duration: Option<string>,
    description: string)

  /** The result record (its `platform`, `thumbnail` and `durationText` keys are not modelled). */
  datatype Video = Video(
    title: string,
    author: string,
    views: Option<nat>,
    url: string,
    videoId: string,
    publishedAt: Option<string>,
    durationSec: nat,
    isShorts: bool,
    description: string)

  const WatchPrefix: string := "https://www.youtube.com/watch?v="

  /** `parse_iso8601_duration(cd.get("duration"))`: a missing duration parses as "". */
  function Seconds(d: DetailItem): nat
  {
    Duration.ParseDuration(if d.duration.Some? then d.duration.value else "")
  }

  /** The record built from a details item. */
  function ToVideo(d: DetailItem): (v: Video)
    ensures v.isShorts <==> 0 < v.durationSec <= 60
    ensures v.durationSec == Seconds(d)
    ensures v.url == WatchPrefix + d.id && v.videoId == d.id && v.url != ""
    ensures v.title == d.title && v.author == d.channelTitle && v.views == d.viewCount
  {
    var seconds := Seconds(d);
    var isShorts := if seconds != 0 then seconds <= 60 else false;
    Video(d.title, d.channelTitle, d.viewCount, WatchPrefix + d.id, d.id,
          d.publishedAt, seconds, isShorts, d.description)
  }

  /** Two records with the same url come from the same video id. */
  lemma UrlDeterminesId(a: DetailItem, b: DetailItem)
    requires ToVideo(a).url == ToVideo(b).url
    ensures a.id == b.id
  {
    assert a.id == ToVideo(a).url[|WatchPrefix|..];
    assert b.id == ToVideo(b).url[|WatchPrefix|..];
  }

  function UrlOf(v: Video): string { v.url }

  predicate HasUrl(v: Video) { v.url != "" }

  // ---------------------------------------------------------------------
  // Sort keys
  // ---------------------------------------------------------------------

  /** `x["views"] or -1`: a missing count and a count of 0 both become -1. */
  function ViewsOrMinusOne(v: Video): int
  {
    if v.views.Some? && v.views.value != 0 then v.views.value else -1
  }

  /** `x.get("views") or 0` */
  function ViewsOrZero(v: Video): int
  {
    if v.views.Some? then v.views.value else 0
  }

  function ViewsKey(v: Video): seq<int> { [ViewsOrMinusOne(v)] }

  /** `x.get("publishedAt") or ""`, compared as a string. */
  function PublishedKey(v: Video): seq<int>
  {
    CodePoints(if v.publishedAt.Some? then v.publishedAt.value else "")
  }

  /** The base ordering: by views or by publication time, newest or largest first. */
  function BaseKey(byViews: bool): Video -> seq<int>
  {
    if byViews then ViewsKey else PublishedKey
  }

  /** A video with no view count sorts exactly like one with 0 views. */
  lemma ZeroViewsSortLikeMissing(v: Video)
    requires v.views == Some(0)
    ensures ViewsKey(v) == ViewsKey(v.(views := None)) == [-1]
    ensures ViewsOrZero(v) == ViewsOrZero(v.(views := None)) == 0
  {
  }

  /** In views order, a positive count always comes before a missing one. */
  lemma CountedBeforeUncounted(a: Video, b: Video)
    requires a.views.Some? && a.views.value > 0 && b.views.None?
    ensures Precedes(ViewsKey, true, a, b) && !Precedes(ViewsKey, true, b, a)
  {
  }

  // ---------------------------------------------------------------------
  // The age gate
  // ---------------------------------------------------------------------

  /** The age filters applied to records of type T, whose title is `title(x)`. */
  predicate NotNegative<T>(title: T -> string, tag: string, x: T)
  {
    !Age.AgeNegativeHit(title(x), tag)
  }

  predicate Relevant<T>(title: T -> string, tag: string, x: T)
  {
    Age.AgeScore(title(x), tag) >= 1
  }

  /** The re-sort key `(_age_score, tiebreak)`. */
  function AgeKey<T>(title: T -> string, tag: string, tiebreak: T -> int, x: T): seq<int>
  {
    [Age.AgeScore(title(x), tag), tiebreak(x)]
  }

  /**
   * The age gate for a tag other than "전체": records with a negative hit
   * are dropped, then those scoring below 1, then the rest is re-sorted by
   * (score, tiebreak), largest first.
   */
  function AgeGate<T>(s: seq<T>, title: T -> string, tag: string, tiebreak: T -> int): seq<T>
  {
    var kept := Filter(s, x => NotNegative(title, tag, x));
    var scored := Filter(kept, x => Relevant(title, tag, x));
    Sort(scored, x => AgeKey(title, tag, tiebreak, x), true)
  }

  /**
   * The gate keeps exactly the records without a negative hit and with a
   * score of at least 1, each as often as before, sorted by (score,
   * tiebreak) descending, and never lengthens the list.
   */
  lemma AgeGateCharacterized<T>(s: seq<T>, title: T -> string, tag: string, tiebreak: T -> int)
    ensures var r := AgeGate(s, title, tag, tiebreak);
      && |r| <= |s|
      && Sorted(r, x => AgeKey(title, tag, tiebreak, x), true)
      && (forall x :: x in r <==> x in s && !Age.AgeNegativeHit(title(x), tag) && Age.AgeScore(title(x), tag) >= 1)
      && multiset(r) == multiset(Filter(Filter(s, x => NotNegative(title, tag, x)), x => Relevant(title, tag, x)))
  {
    var notNeg := x => NotNegative(title, tag, x);
    var relevant := x => Relevant(title, tag, x);
    var key := x => AgeKey(title, tag, tiebreak, x);
    var kept := Filter(s, notNeg);
    var scored := Filter(kept, relevant);
    FilterMembers(s, notNeg);
    FilterMembers(kept, relevant);
    SortSortedPermutation(scored, key, true);
    SortMembers(scored, key, true);
  }

  /** A record that passes the gate is also kept when its tiebreak changes: the filters ignore it. */
  lemma AgeGateIgnoresTiebreak<T>(s: seq<T>, title: T -> string, tag: string, t1: T -> int, t2: T -> int, x: T)
    ensures x in AgeGate(s, title, tag, t1) <==> x in AgeGate(s, title, tag, t2)
  {
    AgeGateCharacterized(s, title, tag, t1);
    AgeGateCharacterized(s, title, tag, t2);
  }
}
