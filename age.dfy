/**
 * The age keyword tables and the three functions built on them
 * (app.py:181-233): which keywords mark a title as belonging to an age
 * group, which ones mark it as belonging to another group, and the
 * game words every group but the teens rejects.
 */
module Age {
  import opened Text
  import opened Ordering

  /** The keys of `AGE_KEYWORDS`, in insertion order. */
  const Tags: seq<string> := ["10대", "20대", "30대", "40대", "50대", "60대"]

  /** `AGE_KEYWORDS[tag]` (the lists of `GE_KEYWORDS`), [] for a tag not in the table. */
  function Keywords(tag: string): seq<string>
  {
    if tag == "10대" then ["minecraft", "roblox", "포켓몬", "애니", "게임", "마인크래프트", "틴", "학생", "공부법", "고등학교", "중학교", "초등학교", "로블록스"]
    else if tag == "20대" then ["대학생", "브이로그", "여행", "취업", "자취", "카페", "패션", "아이돌", "kpop", "연예"]
    else if tag == "30대" then ["직장인", "육아", "재테크", "부동산", "인테리어", "홈카페", "저축", "요리", "헬스"]
    else if tag == "40대" then ["건강", "퇴직", "가족", "골프", "등산", "주택", "가전", "보험", "클래식"]
    else if tag == "50대" then ["건강검진", "관절", "은퇴", "취미", "가드닝", "캠핑", "요리", "여행"]
    else if tag == "60대" then ["시니어", "건강", "복지", "정원", "텃밭", "낚시", "국악", "교양", "역사", "트로트", "연금", "노후"]
    else []
  }

  /** `GENERIC_GAME_NEG` */
  const GenericGameNeg: seq<string> := [
    "game", "게임", "겜", "마인크래프트", "minecraft", "roblox", "로블록스", "포켓몬",
    "fortnite", "genshin", "원신", "lol", "리그 오브 레전드", "valorant", "발로란트",
    "배그", "pubg", "steam", "스팀", "xbox", "ps5", "플스", "닌텐도", "nintendo", "switch", "스위치"
  ]

  /** `[o.lower() for o in words]` */
  function LowerAll(words: seq<string>): (r: seq<string>)
    ensures |r| == |words| && forall i :: 0 <= i < |words| ==> r[i] == Lower(words[i])
  {
    seq(|words|, i requires 0 <= i < |words| => Lower(words[i]))
  }

  /** The `table` lists of the tags of `tags` other than `tag`, concatenated in order (the `others` loop). */
  function OthersIn(table: string -> seq<string>, tags: seq<string>, tag: string): seq<string>
  {
    if |tags| == 0 then []
    else
      var last := tags[|tags| - 1];
      OthersIn(table, tags[..|tags| - 1], tag) + (if last == tag then [] else table(last))
  }

  /** `sorted(set(words))` on strings: ascending by code points, each once. */
  function SortedSet(words: seq<string>): seq<string>
  {
    Sort(Dedup(words), CodePoints, false)
  }

  /** `AGE_NEG_KEYWORDS[tag]`: the lower-cased keywords of every other tag, sorted, without repeats. */
  function NegKeywords(tag: string): seq<string>
  {
    SortedSet(LowerAll(OthersIn(Keywords, Tags, tag)))
  }

  /** `build_age_neg_keywords()` */
  method BuildAgeNegKeywords() returns (neg: map<string, seq<string>>)
    ensures forall t :: t in neg <==> t in Tags
    ensures forall t :: t in neg ==> neg[t] == NegKeywords(t)
  {
    neg := NegTable(Keywords, Tags);
  }

  /** The loop of `build_age_neg_keywords` over the tags of a keyword table. */
  method NegTable(table: string -> seq<string>, tags: seq<string>) returns (neg: map<string, seq<string>>)
    ensures forall t :: t in neg <==> t in tags
    ensures forall t :: t in neg ==> neg[t] == SortedSet(LowerAll(OthersIn(table, tags, t)))
  {
    neg := map[];
    for i := 0 to |tags|
      invariant forall t :: t in neg <==> t in tags[..i]
      invariant forall t :: t in neg ==> neg[t] == SortedSet(LowerAll(OthersIn(table, tags, t)))
    {
      var t := tags[i];
      var others := CollectOthers(table, tags, t);
      neg := neg[t := SortedSet(LowerAll(others))];
      assert tags[..i + 1] == tags[..i] + [t];
    }
    assert tags[..|tags|] == tags;
  }

  /** The `others` loop of `build_age_neg_keywords` for one tag. */
  method CollectOthers(table: string -> seq<string>, tags: seq<string>, t: string) returns (others: seq<string>)
    ensures others == OthersIn(table, tags, t)
  {
    others := [];
    for j := 0 to |tags|
      invariant others == OthersIn(table, tags[..j], t)
    {
      assert tags[..j + 1][..j] == tags[..j];
      var t2 := tags[j];
      if t2 == t {
        continue;
      }
      others := others + table(t2);
    }
    assert tags[..|tags|] == tags;
  }

  /** A word is in OthersIn(table, tags, tag) exactly when the list of some other tag of `tags` holds it. */
  lemma {:induction false} OthersInMembers(table: string -> seq<string>, tags: seq<string>, tag: string, w: string)
    ensures w in OthersIn(table, tags, tag) <==> exists j :: 0 <= j < |tags| && tags[j] != tag && w in table(tags[j])
  {
    if |tags| > 0 {
      var p := tags[..|tags| - 1];
      OthersInMembers(table, p, tag, w);
      if exists j :: 0 <= j < |tags| && tags[j] != tag && w in table(tags[j]) {
        var j :| 0 <= j < |tags| && tags[j] != tag && w in table(tags[j]);
        if j < |p| {
          assert p[j] == tags[j];
        }
      }
      if exists j :: 0 <= j < |p| && p[j] != tag && w in table(p[j]) {
        var j :| 0 <= j < |p| && p[j] != tag && w in table(p[j]);
        assert tags[j] == p[j];
      }
    }
  }

  /**
   * The negative list built from any table is strictly ascending, and holds
   * exactly the lower-cased words listed for the other tags.
   */
  lemma NegListCharacterized(table: string -> seq<string>, tags: seq<string>, tag: string, w: string)
    ensures var n := SortedSet(LowerAll(OthersIn(table, tags, tag)));
      && Sorted(n, CodePoints, false)
      && (forall i, j :: 0 <= i < j < |n| ==> n[i] != n[j])
      && (w in n <==> exists j, k :: 0 <= j < |tags| && tags[j] != tag && 0 <= k < |table(tags[j])| && Lower(table(tags[j])[k]) == w)
  {
    var lowered := LowerAll(OthersIn(table, tags, tag));
    SortedSetFacts(lowered, w);
    LoweredOthers(table, tags, tag, w);
  }

  /** `sorted(set(words))` is strictly ascending and holds exactly the words of `words`. */
  lemma SortedSetFacts(words: seq<string>, w: string)
    ensures Sorted(SortedSet(words), CodePoints, false)
    ensures forall i, j :: 0 <= i < j < |SortedSet(words)| ==> SortedSet(words)[i] != SortedSet(words)[j]
    ensures w in SortedSet(words) <==> w in words
  {
    var d := Dedup(words);
    var n := SortedSet(words);
    SortSortedPermutation(d, CodePoints, false);
    DedupCharacterized(words);
    SortMembers(d, CodePoints, false);
    forall i, j | 0 <= i < j < |n| ensures n[i] != n[j] {
      DistinctPermutation(d, n, i, j);
    }
  }

  /** A word is a lower-cased word of the other tags exactly when some other tag lists a word lowering to it. */
  lemma LoweredOthers(table: string -> seq<string>, tags: seq<string>, tag: string, w: string)
    ensures w in LowerAll(OthersIn(table, tags, tag)) <==>
      exists j, k :: 0 <= j < |tags| && tags[j] != tag && 0 <= k < |table(tags[j])| && Lower(table(tags[j])[k]) == w
  {
    var others := OthersIn(table, tags, tag);
    var lowered := LowerAll(others);
    if w in lowered {
      var i :| 0 <= i < |lowered| && lowered[i] == w;
      OthersInMembers(table, tags, tag, others[i]);
      var j :| 0 <= j < |tags| && tags[j] != tag && others[i] in table(tags[j]);
      var k :| 0 <= k < |table(tags[j])| && table(tags[j])[k] == others[i];
      assert Lower(table(tags[j])[k]) == w;
    }
    if exists j, k :: 0 <= j < |tags| && tags[j] != tag && 0 <= k < |table(tags[j])| && Lower(table(tags[j])[k]) == w {
      var j, k :| 0 <= j < |tags| && tags[j] != tag && 0 <= k < |table(tags[j])| && Lower(table(tags[j])[k]) == w;
      OthersInMembers(table, tags, tag, table(tags[j])[k]);
      var i :| 0 <= i < |others| && others[i] == table(tags[j])[k];
      assert lowered[i] == w;
    }
  }

  // ---------------------------------------------------------------------
  // age_relevance_score
  // ---------------------------------------------------------------------

  /** How many of `kws` occur, lower-cased, in `t`. */
  function CountHits(kws: seq<string>, t: string): (c: nat)
    ensures c <= |kws|
  {
    if |kws| == 0 then 0
    else CountHits(kws[..|kws| - 1], t) + (if Contains(t, Lower(kws[|kws| - 1])) then 1 else 0)
  }

  /** What `age_relevance_score(title, tag)` returns. */
  function AgeScore(title: string, tag: string): nat
  {
    if title == "" || tag !in Tags then 0 else CountHits(Keywords(tag), Lower(title))
  }

  /** `age_relevance_score`: one point per keyword of the tag found in the lower-cased title. */
  method AgeRelevanceScore(title: string, tag: string) returns (score: nat)
    ensures score == AgeScore(title, tag)
  {
    if title == "" || tag !in Tags {
      return 0;
    }
    score := CountKeywordHits(Keywords(tag), Lower(title));
  }

  /** The `for kw in kws` loop of `age_relevance_score`. */
  method CountKeywordHits(kws: seq<string>, t: string) returns (score: nat)
    ensures score == CountHits(kws, t)
  {
    score := 0;
    for i := 0 to |kws|
      invariant score == CountHits(kws[..i], t)
    {
      assert kws[..i + 1][..i] == kws[..i];
      if Contains(t, Lower(kws[i])) {
        score := score + 1;
      }
    }
    assert kws[..|kws|] == kws;
  }

  lemma {:induction false} CountHitsPositive(kws: seq<string>, t: string)
    ensures CountHits(kws, t) > 0 <==> exists i :: 0 <= i < |kws| && Contains(t, Lower(kws[i]))
  {
    if |kws| > 0 {
      var p := kws[..|kws| - 1];
      CountHitsPositive(p, t);
      if exists i :: 0 <= i < |p| && Contains(t, Lower(p[i])) {
        var i :| 0 <= i < |p| && Contains(t, Lower(p[i]));
        assert kws[i] == p[i];
      }
      if exists i :: 0 <= i < |kws| && Contains(t, Lower(kws[i])) {
        var i :| 0 <= i < |kws| && Contains(t, Lower(kws[i]));
        if i < |p| {
          assert p[i] == kws[i];
        }
      }
    }
  }

  /**
   * The score is at most the number of the tag's keywords, and it is
   * positive exactly when the title is non-empty, the tag known, and one of
   * its keywords occurs (case-insensitively) in the title.
   */
  lemma AgeScoreMeaning(title: string, tag: string)
    ensures AgeScore(title, tag) <= |Keywords(tag)|
    ensures AgeScore(title, tag) >= 1 <==>
      title != "" && tag in Tags && exists i :: 0 <= i < |Keywords(tag)| && Contains(Lower(title), Lower(Keywords(tag)[i]))
  {
    if title != "" && tag in Tags {
      CountHitsPositive(Keywords(tag), Lower(title));
    }
  }

  // ---------------------------------------------------------------------
  // age_negative_hit
  // ---------------------------------------------------------------------

  /** `any(w in t for w in words)` */
  predicate AnyIn(words: seq<string>, t: string)
  {
    exists i :: 0 <= i < |words| && Contains(t, words[i])
  }

  /** `age_negative_hit(title, tag)` */
  function AgeNegativeHit(title: string, tag: string): (hit: bool)
    ensures hit ==> title != "" && tag in Tags
  {
    if title == "" || tag !in Tags then false
    else
      var t := Lower(title);
      if AnyIn(NegKeywords(tag), t) then true
      else tag != "10대" && AnyIn(LowerAll(GenericGameNeg), t)
  }

  /** Only the teens are exempt from the generic game words. */
  lemma GameWordsRejectedOutsideTeens(title: string, tag: string, i: nat)
    requires title != "" && tag in Tags && tag != "10대"
    requires i < |GenericGameNeg| && Contains(Lower(title), Lower(GenericGameNeg[i]))
    ensures AgeNegativeHit(title, tag)
  {
    assert LowerAll(GenericGameNeg)[i] == Lower(GenericGameNeg[i]);
  }

  /** For the teens, only the other tags' keywords count as negative. */
  lemma TeensIgnoreGameWords(title: string)
    ensures AgeNegativeHit(title, "10대") <==> title != "" && AnyIn(NegKeywords("10대"), Lower(title))
  {
  }

  /**
   * The keyword lists overlap ("건강" is listed for both 40대 and 60대), so a
   * title with "건강" scores for 40대 and is at the same time a negative hit
   * for 40대: the age gate drops it.
   */
  lemma SharedKeywordIsNegative()
    ensures AgeScore("건강", "40대") >= 1
    ensures AgeNegativeHit("건강", "40대")
  {
    SharedKeywordScores();
    SharedKeywordIsListed();
  }

  lemma SharedKeywordScores()
    ensures AgeScore("건강", "40대") >= 1
  {
    var w := "건강";
    LowerNoUpper(w);
    ContainsPrefix(w, w);
    var kws := Keywords("40대");
    assert kws[0] == w;
    assert Tags[3] == "40대";
    AgeScoreMeaning(w, "40대");
  }

  lemma SharedKeywordIsListed()
    ensures AgeNegativeHit("건강", "40대")
  {
    var w := "건강";
    LowerNoUpper(w);
    ContainsPrefix(w, w);
    var kws := Keywords("60대");
    assert kws[1] == w;
    assert Tags[5] == "60대" && Tags[3] == "40대";
    NegListCharacterized(Keywords, Tags, "40대", w);
    var n := NegKeywords("40대");
    var i :| 0 <= i < |n| && n[i] == w;
    assert AnyIn(n, Lower(w));
  }
}
