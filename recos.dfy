/**
 * The age recommendations built on `search_youtube` (app.py:455-511):
 * the seed queries of an age tag, the merged fallback list and the
 * per-keyword board. `search(q)` is the outcome of `search_youtube` for
 * the query q with the fixed arguments each caller passes; an `Err`
 * outcome is an exception, which both callers swallow.
 */
module Recos {
  import opened Ordering
  import opened KeyRotation
  import opened Videos
  import Search
  import Age

  /** Never used as seeds unless needed to pad the list. */
  const Ban: set<string> := {"건강", "여행", "요리", "가족", "취미"}
  const DefaultSeeds: seq<string> := ["교양", "뉴스"]
  const MaxFallback: nat := 200

  predicate NotBanned(k: string) { k !in Ban }

  /** The padding loop: appends `keys[len(qs)]` while fewer than `topk` and keys remain. */
  function Pad(qs: seq<string>, keys: seq<string>, topk: nat): seq<string>
    decreases topk - |qs|
  {
    if |qs| < topk && |keys| > |qs| then Pad(qs + [keys[|qs|]], keys, topk) else qs
  }

  /** `build_age_seed_queries(age_tag, topk)` */
  function SeedQueries(tag: string, topk: nat): seq<string>
  {
    var keys := Age.Keywords(tag);
    var qs := Pad(Take(Filter(keys, NotBanned), topk), keys, topk);
    if qs == [] then DefaultSeeds else qs
  }

  method BuildAgeSeedQueries(tag: string, topk: nat) returns (qs: seq<string>)
    ensures qs == SeedQueries(tag, topk)
  {
    var keys := Age.Keywords(tag);
    qs := Take(Filter(keys, NotBanned), topk);
    ghost var base := qs;
    while |qs| < topk && |keys| > |qs|
      invariant Pad(base, keys, topk) == Pad(qs, keys, topk)
      decreases topk - |qs|
    {
      qs := qs + [keys[|qs|]];
    }
    if qs == [] {
      qs := DefaultSeeds;
    }
  }

  /**
   * The padding keeps what it is given and then copies `keys` position by
   * position: the list ends with min(topk, |keys|) entries (or stays as
   * it is when already longer), entry i >= |qs| being keys[i].
   */
  lemma {:induction false} PadFacts(qs: seq<string>, keys: seq<string>, topk: nat)
    ensures var r := Pad(qs, keys, topk);
      && |qs| <= |r|
      && r[..|qs|] == qs
      && (|qs| < topk && |qs| < |keys| ==> |r| == if topk < |keys| then topk else |keys|)
      && (forall i :: |qs| <= i < |r| ==> r[i] == keys[i])
    decreases topk - |qs|
  {
    if |qs| < topk && |keys| > |qs| {
      var next := qs + [keys[|qs|]];
      PadFacts(next, keys, topk);
      var r := Pad(next, keys, topk);
      assert r[..|qs|] == r[..|next|][..|qs|];
    }
  }

  /**
   * The seeds are never empty; for a known tag and topk > 0 they are the
   * first topk unbanned keywords, padded with the keyword at each further
   * position up to min(topk, number of keywords) entries.
   */
  lemma SeedQueriesFacts(tag: string, topk: nat)
    ensures |SeedQueries(tag, topk)| > 0
    ensures topk > 0 && Age.Keywords(tag) != [] ==>
      var keys := Age.Keywords(tag);
      var base := Take(Filter(keys, NotBanned), topk);
      var r := SeedQueries(tag, topk);
      && |r| == (if topk < |keys| then topk else |keys|)
      && r[..|base|] == base
      && (forall i :: |base| <= i < |r| ==> r[i] == keys[i])
      && (forall q :: q in r ==> q in keys)
    ensures topk == 0 || Age.Keywords(tag) == [] ==> SeedQueries(tag, topk) == DefaultSeeds
  {
    var keys := Age.Keywords(tag);
    var filtered := Filter(keys, NotBanned);
    var base := Take(filtered, topk);
    FilterMembers(keys, NotBanned);
    PadFacts(base, keys, topk);
    var p := Pad(base, keys, topk);
    if topk > 0 && keys != [] {
      PadLength(keys, filtered, base, topk);
      forall q | q in p ensures q in keys {
        var i :| 0 <= i < |p| && p[i] == q;
        if i < |base| {
          assert base[i] == q && base[i] == filtered[i] && filtered[i] in filtered;
        }
      }
    }
  }

  /** The padded list reaches min(topk, |keys|) entries whichever way the filter cut it. */
  lemma PadLength(keys: seq<string>, filtered: seq<string>, base: seq<string>, topk: nat)
    requires topk > 0 && |keys| > 0 && |filtered| <= |keys| && base == Take(filtered, topk)
    ensures |Pad(base, keys, topk)| == if topk < |keys| then topk else |keys|
  {
    PadFacts(base, keys, topk);
    if |base| == topk || |base| == |keys| {
      assert Pad(base, keys, topk) == base;
    }
  }

  /**
   * The padding copies by position, so it can repeat a seed and bring back
   * banned keywords: "보험" twice for 40대, "캠핑" twice plus "요리" and
   * "여행" for 50대.
   */
  lemma SeedQueriesExamples()
    ensures SeedQueries("40대", 8) == ["퇴직", "골프", "등산", "주택", "가전", "보험", "클래식", "보험"]
    ensures SeedQueries("50대", 8) == ["건강검진", "관절", "은퇴", "가드닝", "캠핑", "캠핑", "요리", "여행"]
    ensures SeedQueries("전체", 8) == DefaultSeeds
  {
    SeedQueries40();
    SeedQueries50();
  }

  lemma SeedQueries40()
    ensures SeedQueries("40대", 8) == ["퇴직", "골프", "등산", "주택", "가전", "보험", "클래식", "보험"]
  {
    var k40 := Age.Keywords("40대");
    Unbanned40();
    var b40 := Take(Filter(k40, NotBanned), 8);
    assert b40 == ["퇴직", "골프", "등산", "주택", "가전", "보험", "클래식"];
    assert Pad(b40, k40, 8) == Pad(b40 + [k40[7]], k40, 8) == b40 + [k40[7]];
  }

  lemma SeedQueries50()
    ensures SeedQueries("50대", 8) == ["건강검진", "관절", "은퇴", "가드닝", "캠핑", "캠핑", "요리", "여행"]
  {
    var k50 := Age.Keywords("50대");
    Unbanned50();
    var b50 := Take(Filter(k50, NotBanned), 8);
    assert b50 == ["건강검진", "관절", "은퇴", "가드닝", "캠핑"];
    assert Pad(b50, k50, 8) == Pad(b50 + [k50[5]], k50, 8);
    assert b50 + [k50[5]] + [k50[6]] == b50 + [k50[5], k50[6]];
    assert Pad(b50 + [k50[5]], k50, 8) == Pad(b50 + [k50[5], k50[6]], k50, 8);
    assert b50 + [k50[5], k50[6]] + [k50[7]] == b50 + [k50[5], k50[6], k50[7]];
    assert Pad(b50 + [k50[5], k50[6]], k50, 8) == b50 + [k50[5], k50[6], k50[7]];
  }

  const Keys40: seq<string> := ["건강", "퇴직", "가족", "골프", "등산", "주택", "가전", "보험", "클래식"]

  lemma Unbanned40()
    ensures Filter(Age.Keywords("40대"), NotBanned) == ["퇴직", "골프", "등산", "주택", "가전", "보험", "클래식"]
  {
    assert Age.Keywords("40대") == Keys40;
    Filter40Upto9();
    assert Keys40[..9] == Keys40;
  }

  lemma Filter40Upto3()
    ensures Filter(Keys40[..3], NotBanned) == ["퇴직"]
  {
    assert Keys40[..0] == [];
    BanMembers();
    FilterStep(Keys40, NotBanned, 0);
    FilterStep(Keys40, NotBanned, 1);
    FilterStep(Keys40, NotBanned, 2);
  }

  lemma Filter40Upto6()
    ensures Filter(Keys40[..6], NotBanned) == ["퇴직", "골프", "등산", "주택"]
  {
    Filter40Upto3();
    BanMembers();
    FilterStep(Keys40, NotBanned, 3);
    FilterStep(Keys40, NotBanned, 4);
    FilterStep(Keys40, NotBanned, 5);
  }

  lemma Filter40Upto9()
    ensures Filter(Keys40[..9], NotBanned) == ["퇴직", "골프", "등산", "주택", "가전", "보험", "클래식"]
  {
    Filter40Upto6();
    BanMembers();
    FilterStep(Keys40, NotBanned, 6);
    FilterStep(Keys40, NotBanned, 7);
    FilterStep(Keys40, NotBanned, 8);
  }

  const Keys50: seq<string> := ["건강검진", "관절", "은퇴", "취미", "가드닝", "캠핑", "요리", "여행"]

  lemma Unbanned50()
    ensures Filter(Age.Keywords("50대"), NotBanned) == ["건강검진", "관절", "은퇴", "가드닝", "캠핑"]
  {
    assert Age.Keywords("50대") == Keys50;
    Filter50Upto8();
    assert Keys50[..8] == Keys50;
  }

  lemma Filter50Upto3()
    ensures Filter(Keys50[..3], NotBanned) == ["건강검진", "관절", "은퇴"]
  {
    assert Keys50[..0] == [];
    BanMembers();
    FilterStep(Keys50, NotBanned, 0);
    FilterStep(Keys50, NotBanned, 1);
    FilterStep(Keys50, NotBanned, 2);
  }

  lemma Filter50Upto6()
    ensures Filter(Keys50[..6], NotBanned) == ["건강검진", "관절", "은퇴", "가드닝", "캠핑"]
  {
    Filter50Upto3();
    BanMembers();
    FilterStep(Keys50, NotBanned, 3);
    FilterStep(Keys50, NotBanned, 4);
    FilterStep(Keys50, NotBanned, 5);
  }

  lemma Filter50Upto8()
    ensures Filter(Keys50[..8], NotBanned) == ["건강검진", "관절", "은퇴", "가드닝", "캠핑"]
  {
    Filter50Upto6();
    BanMembers();
    FilterStep(Keys50, NotBanned, 6);
    FilterStep(Keys50, NotBanned, 7);
  }

  /** Which of the 40s and 50s keywords are banned. */
  lemma BanMembers()
    ensures !NotBanned("건강") && !NotBanned("가족") && !NotBanned("취미") && !NotBanned("요리") && !NotBanned("여행")
    ensures NotBanned("퇴직") && NotBanned("골프") && NotBanned("등산") && NotBanned("주택")
    ensures NotBanned("가전") && NotBanned("보험") && NotBanned("클래식")
    ensures NotBanned("건강검진") && NotBanned("관절") && NotBanned("은퇴") && NotBanned("가드닝") && NotBanned("캠핑")
  {
  }

  /** The comprehension over the first i + 1 elements, from the one over the first i. */
  lemma FilterStep<T>(s: seq<T>, p: T -> bool, i: nat)
    requires i < |s|
    ensures Filter(s[..i + 1], p) == Filter(s[..i], p) + (if p(s[i]) then [s[i]] else [])
  {
    assert s[..i + 1][..i] == s[..i];
  }

  // ---------------------------------------------------------------------
  // fallback_age_recommendations (app.py:464-489)
  // ---------------------------------------------------------------------

  /** The results of the successful searches, concatenated in query order. */
  function Gathered(qs: seq<string>, search: string -> Result<seq<Video>>): seq<Video>
  {
    if |qs| == 0 then []
    else
      var q := qs[|qs| - 1];
      Gathered(qs[..|qs| - 1], search) + (if search(q).Ok? then search(q).value else [])
  }

  function ViewsOrZeroKey(v: Video): seq<int> { [ViewsOrZero(v)] }

  /** The merged list: url de-duplication, views (or 0) descending, at most 200. */
  function Merge(gathered: seq<Video>): seq<Video>
  {
    Take(Sort(Search.UrlDedup(gathered), ViewsOrZeroKey, true), MaxFallback)
  }

  method FallbackAgeRecommendations(tag: string, search: string -> Result<seq<Video>>) returns (recos: seq<Video>)
    ensures recos == Merge(Gathered(SeedQueries(tag, 8), search))
  {
    var qs := BuildAgeSeedQueries(tag, 8);
    var gathered := GatherAll(qs, search);
    var dedup := Search.DedupByUrl(gathered);
    dedup := Sort(dedup, ViewsOrZeroKey, true);
    recos := Take(dedup, MaxFallback);
  }

  /** The query loop of `fallback_age_recommendations`: a failed search is skipped. */
  method GatherAll(qs: seq<string>, search: string -> Result<seq<Video>>) returns (gathered: seq<Video>)
    ensures gathered == Gathered(qs, search)
  {
    gathered := [];
    for i := 0 to |qs|
      invariant gathered == Gathered(qs[..i], search)
    {
      assert qs[..i + 1][..i] == qs[..i];
      var res := search(qs[i]);
      if res.Err? {
        continue;
      }
      gathered := gathered + res.value;
    }
    assert qs[..|qs|] == qs;
  }

  /**
   * The list has at most 200 records, pairwise distinct urls, views (or 0)
   * non-increasing, and each record comes from one of the searches.
   */
  lemma MergeFacts(gathered: seq<Video>)
    ensures var r := Merge(gathered);
      && |r| <= MaxFallback
      && Sorted(r, ViewsOrZeroKey, true)
      && (forall i, j :: 0 <= i < j < |r| ==> r[i].url != r[j].url)
      && (forall v :: v in r ==> v in gathered)
  {
    var d := Search.UrlDedup(gathered);
    Search.UrlDedupFacts(gathered);
    var s := Sort(d, ViewsOrZeroKey, true);
    SortSortedPermutation(d, ViewsOrZeroKey, true);
    SortMembers(d, ViewsOrZeroKey, true);
    TakeSorted(s, MaxFallback, ViewsOrZeroKey, true);
    MergeDistinct(gathered);
  }

  lemma MergeDistinct(gathered: seq<Video>)
    ensures forall i, j :: 0 <= i < j < |Merge(gathered)| ==> Merge(gathered)[i].url != Merge(gathered)[j].url
  {
    var d := Search.UrlDedup(gathered);
    Search.UrlDedupFacts(gathered);
    var s := Sort(d, ViewsOrZeroKey, true);
    SortSortedPermutation(d, ViewsOrZeroKey, true);
    var r := Merge(gathered);
    assert r == s[..|r|];
    forall i, j | 0 <= i < j < |r| ensures r[i].url != r[j].url {
      assert r[i] == s[i] && r[j] == s[j];
      DistinctKeysPermutation(d, s, UrlOf, i, j);
    }
  }

  /** A failed search contributes nothing: the merged list is as if it had returned no rows. */
  lemma {:induction false} GatheredIgnoresFailures(qs: seq<string>, search: string -> Result<seq<Video>>,
                                                   other: string -> Result<seq<Video>>)
    requires forall q :: q in qs ==> (if search(q).Ok? then search(q).value else []) == (if other(q).Ok? then other(q).value else [])
    ensures Gathered(qs, search) == Gathered(qs, other)
  {
    if |qs| > 0 {
      GatheredIgnoresFailures(qs[..|qs| - 1], search, other);
      assert qs[|qs| - 1] in qs;
    }
  }

  /** Whatever every search result satisfies, every merged record satisfies. */
  lemma {:induction false} GatheredKeeps(qs: seq<string>, search: string -> Result<seq<Video>>, p: Video -> bool)
    requires forall q, v :: search(q).Ok? && v in search(q).value ==> p(v)
    ensures forall v :: v in Gathered(qs, search) ==> p(v)
  {
    if |qs| > 0 {
      GatheredKeeps(qs[..|qs| - 1], search, p);
    }
  }

  // ---------------------------------------------------------------------
  // keyword_ranked_recos (app.py:492-511)
  // ---------------------------------------------------------------------

  /** The rows shown for one keyword: the first `perKeyword` results, none when the search failed. */
  function BoardRows(kw: string, search: string -> Result<seq<Video>>, perKeyword: nat): (rows: seq<Video>)
    ensures |rows| <= perKeyword
    ensures search(kw).Ok? ==>
      && |rows| == (if perKeyword < |search(kw).value| then perKeyword else |search(kw).value|)
      && rows == search(kw).value[..|rows|]
    ensures search(kw).Err? ==> rows == []
  {
    if search(kw).Ok? then Take(search(kw).value, perKeyword) else []
  }

  method KeywordRankedRecos(tag: string, search: string -> Result<seq<Video>>, perKeyword: nat)
    returns (board: map<string, seq<Video>>)
    ensures board.Keys == set kw | kw in SeedQueries(tag, 8)
    ensures forall kw :: kw in board ==> board[kw] == BoardRows(kw, search, perKeyword)
  {
    var keywords := BuildAgeSeedQueries(tag, 8);
    board := FillBoard(keywords, search, perKeyword);
  }

  /** The loop of `keyword_ranked_recos`: one entry per keyword, a later duplicate overwriting an earlier one. */
  method FillBoard(keywords: seq<string>, search: string -> Result<seq<Video>>, perKeyword: nat)
    returns (board: map<string, seq<Video>>)
    ensures board.Keys == set kw | kw in keywords
    ensures forall kw :: kw in board ==> board[kw] == BoardRows(kw, search, perKeyword)
  {
    board := map[];
    for i := 0 to |keywords|
      invariant forall kw :: kw in board <==> kw in keywords[..i]
      invariant forall kw :: kw in board ==> board[kw] == BoardRows(kw, search, perKeyword)
    {
      assert keywords[..i + 1] == keywords[..i] + [keywords[i]];
      var kw := keywords[i];
      var rows := search(kw);
      if rows.Ok? {
        board := board[kw := Take(rows.value, perKeyword)];
      } else {
        board := board[kw := []];
      }
    }
    assert keywords[..|keywords|] == keywords;
    assert forall kw :: kw in board.Keys <==> kw in keywords;
  }
}
