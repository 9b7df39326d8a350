/**
 * The source trace of a video (app.py:944-996): collect the video's source
 * tokens and key phrases, build one web-search query per site of a fixed
 * pool plus one open query, gather every result and rank the candidates.
 *
 * The web search (`web_search(q, num=10)`) is the oracle `webSearch`;
 * whether the search keys are configured is the flag `cseConfigured`; the
 * thumbnail OCR text is the parameter `ocrText`.
 */
module Trace {
  import opened Text
  import opened Ordering
  import opened KeyRotation
  import opened Tokens
  import opened Keyphrases
  import opened Ranking

  const SitePool: seq<string> := ["tiktok.com", "instagram.com", "facebook.com", "x.com", "twitter.com",
                                  "reddit.com", "9gag.com", "imgur.com", "bilibili.com", "tv.naver.com", "kakao.tv"]

  const MaxTokenQuery: nat := 180

  // ---------------------------------------------------------------------
  // sorted(tokens)
  // ---------------------------------------------------------------------

  /** `r` lists the tokens once each, in ascending code-point order. */
  ghost predicate Listing(tokens: set<string>, r: seq<string>)
  {
    && (forall t :: t in r <==> t in tokens)
    && (forall i, j :: 0 <= i < j < |r| ==> r[i] != r[j])
    && Sorted(r, CodePoints, false)
  }

  /** There is one listing of a set of strings: what `sorted` returns. */
  lemma {:induction false} ListingUnique(tokens: set<string>, a: seq<string>, b: seq<string>)
    requires Listing(tokens, a) && Listing(tokens, b)
    ensures a == b
    decreases |a|
  {
    ListingEmpty(tokens, a);
    ListingEmpty(tokens, b);
    if a != [] {
      assert a[0] in tokens;
      assert b != [];
      assert b[0] in a;
      var i :| 0 <= i < |a| && a[i] == b[0];
      var j :| 0 <= j < |b| && b[j] == a[0];
      if i > 0 { assert Precedes(CodePoints, false, a[0], a[i]); } else { LexRefl(CodePoints(a[0])); }
      if j > 0 { assert Precedes(CodePoints, false, b[0], b[j]); } else { LexRefl(CodePoints(b[0])); }
      LexAntisym(CodePoints(a[0]), CodePoints(b[0]));
      CodePointsInjective(a[0], b[0]);
      var rest := tokens - {a[0]};
      TailListing(tokens, a);
      TailListing(tokens, b);
      ListingUnique(rest, a[1..], b[1..]);
      assert a == [a[0]] + a[1..] && b == [b[0]] + b[1..];
    }
  }

  /** A listing is empty exactly when its set is. */
  lemma ListingEmpty(tokens: set<string>, r: seq<string>)
    requires Listing(tokens, r)
    ensures r == [] <==> tokens == {}
  {
    if r != [] {
      assert r[0] in tokens;
    }
  }

  lemma TailListing(tokens: set<string>, a: seq<string>)
    requires Listing(tokens, a) && a != []
    ensures Listing(tokens - {a[0]}, a[1..])
  {
    forall t ensures t in a[1..] <==> t in tokens - {a[0]} {
      if t in a[1..] {
        var k :| 0 <= k < |a[1..]| && a[1..][k] == t;
        assert a[k + 1] == t;
      }
      if t in tokens && t != a[0] {
        var k :| 0 <= k < |a| && a[k] == t;
        assert a[1..][k - 1] == t;
      }
    }
  }

  /** Every finite set of strings has a listing. */
  lemma {:induction false} ListingExists(tokens: set<string>)
    ensures exists r :: Listing(tokens, r)
    decreases |tokens|
  {
    if tokens == {} {
      assert Listing(tokens, []);
    } else {
      var t :| t in tokens;
      ListingExists(tokens - {t});
      var r' :| Listing(tokens - {t}, r');
      var n := r' + [t];
      assert forall a, b :: 0 <= a < b < |n| ==> n[a] != n[b];
      var r := Sort(n, CodePoints, false);
      SortSortedPermutation(n, CodePoints, false);
      SortMembers(n, CodePoints, false);
      forall a, b | 0 <= a < b < |r| ensures r[a] != r[b] {
        DistinctPermutation(n, r, a, b);
      }
      assert Listing(tokens, r);
    }
  }

  /** `sorted(tokens)` */
  ghost function SortedListing(tokens: set<string>): (r: seq<string>)
    ensures Listing(tokens, r)
  {
    ListingExists(tokens);
    var r :| Listing(tokens, r); r
  }

  /** `sorted(tokens)`, by draining the set and sorting what was drained. */
  method SortTokens(tokens: set<string>) returns (r: seq<string>)
    ensures r == SortedListing(tokens)
  {
    var rest := tokens;
    var listed: seq<string> := [];
    while rest != {}
      invariant rest <= tokens
      invariant forall t :: t in listed <==> t in tokens && t !in rest
      invariant forall a, b :: 0 <= a < b < |listed| ==> listed[a] != listed[b]
      decreases |rest|
    {
      var t :| t in rest;
      listed := listed + [t];
      rest := rest - {t};
    }
    r := Sort(listed, CodePoints, false);
    SortSortedPermutation(listed, CodePoints, false);
    SortMembers(listed, CodePoints, false);
    forall a, b | 0 <= a < b < |r| ensures r[a] != r[b] {
      DistinctPermutation(listed, r, a, b);
    }
    ListingUnique(tokens, r, SortedListing(tokens));
  }

  // ---------------------------------------------------------------------
  // The queries
  // ---------------------------------------------------------------------

  /** `" ".join(title_keys[:2] + desc_keys[:2])` */
  function KeyStr(titleKeys: seq<string>, descKeys: seq<string>): string
  {
    Join(Take(titleKeys, 2) + Take(descKeys, 2), " ")
  }

  /** `" OR ".join(sorted(tokens))[:180] if tokens else ""`, given the listing. */
  function TokenQuery(listing: seq<string>): string
  {
    if listing == [] then "" else Take(Join(listing, " OR "), MaxTokenQuery)
  }

  /** The query for one site of the pool. */
  function SiteQuery(tokenQ: string, keyStr: string, site: string): string
  {
    if tokenQ != "" && keyStr != "" then "(" + tokenQ + ") " + keyStr + " site:" + site
    else if tokenQ != "" then "(" + tokenQ + ") site:" + site
    else keyStr + " site:" + site
  }

  /** The final query, without a site restriction. */
  function OpenQuery(tokenQ: string, keyStr: string): string
  {
    if tokenQ != "" && keyStr != "" then "(" + tokenQ + ") " + keyStr
    else if tokenQ != "" then "(" + tokenQ + ")"
    else keyStr
  }

  /** The queries in the order they are sent. */
  function Queries(tokenQ: string, keyStr: string): seq<string>
  {
    seq(|SitePool|, k requires 0 <= k < |SitePool| => SiteQuery(tokenQ, keyStr, SitePool[k])) + [OpenQuery(tokenQ, keyStr)]
  }

  /** The results of the queries, concatenated in query order. */
  function Gather(queries: seq<string>, webSearch: string -> seq<WebResult>): seq<WebResult>
  {
    if |queries| == 0 then []
    else Gather(queries[..|queries| - 1], webSearch) + webSearch(queries[|queries| - 1])
  }

  lemma ContainsMiddle(a: string, b: string, c: string)
    ensures Contains(a + b + c, b)
  {
    assert (a + b + c)[|a|..|a| + |b|] == b;
    assert SubstringAt(a + b + c, b, |a|);
  }

  lemma Affixes(a: string, b: string)
    ensures StartsWith(a + b, a) && EndsWith(a + b, b)
  {
    assert (a + b)[..|a|] == a;
    assert (a + b)[|a + b| - |b|..] == b;
  }

  /** A site query ends in the site restriction and starts with, or holds, what is set. */
  lemma SiteQueryShape(tokenQ: string, keyStr: string, site: string)
    ensures var q := SiteQuery(tokenQ, keyStr, site);
      && EndsWith(q, " site:" + site)
      && (tokenQ != "" ==> StartsWith(q, "(" + tokenQ + ")"))
      && (keyStr != "" ==> Contains(q, keyStr))
      && (tokenQ == "" ==> q == keyStr + " site:" + site)
  {
    var q := SiteQuery(tokenQ, keyStr, site);
    var tq := "(" + tokenQ + ")";
    var suffix := " site:" + site;
    if tokenQ != "" && keyStr != "" {
      assert q == tq + (" " + keyStr + suffix);
      Affixes(tq, " " + keyStr + suffix);
      assert q == (tq + " " + keyStr) + suffix;
      Affixes(tq + " " + keyStr, suffix);
      assert q == (tq + " ") + keyStr + suffix;
      ContainsMiddle(tq + " ", keyStr, suffix);
    } else if tokenQ != "" {
      assert q == tq + suffix;
      Affixes(tq, suffix);
    } else {
      Affixes(keyStr, suffix);
      assert q == "" + keyStr + suffix;
      ContainsMiddle("", keyStr, suffix);
    }
  }

  /** The open query starts with, or holds, what is set, and is only that when one of them is empty. */
  lemma OpenQueryShape(tokenQ: string, keyStr: string)
    ensures var q := OpenQuery(tokenQ, keyStr);
      && (tokenQ != "" ==> StartsWith(q, "(" + tokenQ + ")"))
      && (keyStr != "" ==> Contains(q, keyStr))
      && (tokenQ == "" ==> q == keyStr)
      && (keyStr == "" && tokenQ != "" ==> q == "(" + tokenQ + ")")
  {
    var q := OpenQuery(tokenQ, keyStr);
    var tq := "(" + tokenQ + ")";
    if tokenQ != "" && keyStr != "" {
      Affixes(tq, " " + keyStr);
      assert q == (tq + " ") + keyStr + "";
      ContainsMiddle(tq + " ", keyStr, "");
    } else if tokenQ != "" {
      assert q == tq + "";
      Affixes(tq, "");
    } else {
      assert q == "" + keyStr + "";
      ContainsMiddle("", keyStr, "");
    }
  }

  lemma QueryAt(tokenQ: string, keyStr: string, k: nat)
    requires k <= |SitePool|
    ensures |Queries(tokenQ, keyStr)| == |SitePool| + 1
    ensures k < |SitePool| ==> Queries(tokenQ, keyStr)[k] == SiteQuery(tokenQ, keyStr, SitePool[k])
    ensures k == |SitePool| ==> Queries(tokenQ, keyStr)[k] == OpenQuery(tokenQ, keyStr)
  {
  }

  /**
   * Twelve queries: for each site of the pool its query ends in
   * " site:<site>", then the open query; each query starts with the token
   * query in parentheses when there is one, holds the key string when there
   * is one, and is nothing else when the token query is empty.
   */
  lemma QueriesShape(tokenQ: string, keyStr: string)
    ensures |Queries(tokenQ, keyStr)| == |SitePool| + 1 == 12
    ensures forall k :: 0 <= k < |SitePool| ==> EndsWith(Queries(tokenQ, keyStr)[k], " site:" + SitePool[k])
    ensures forall k :: 0 <= k <= |SitePool| ==> (tokenQ != "" ==> StartsWith(Queries(tokenQ, keyStr)[k], "(" + tokenQ + ")"))
    ensures forall k :: 0 <= k <= |SitePool| ==> (keyStr != "" ==> Contains(Queries(tokenQ, keyStr)[k], keyStr))
    ensures tokenQ == "" ==> forall k :: 0 <= k < |SitePool| ==> Queries(tokenQ, keyStr)[k] == keyStr + " site:" + SitePool[k]
    ensures tokenQ == "" ==> Queries(tokenQ, keyStr)[|SitePool|] == keyStr
  {
    QueryAt(tokenQ, keyStr, |SitePool|);
    OpenQueryShape(tokenQ, keyStr);
    forall k | 0 <= k < |SitePool|
      ensures EndsWith(Queries(tokenQ, keyStr)[k], " site:" + SitePool[k])
      ensures tokenQ != "" ==> StartsWith(Queries(tokenQ, keyStr)[k], "(" + tokenQ + ")")
      ensures keyStr != "" ==> Contains(Queries(tokenQ, keyStr)[k], keyStr)
      ensures tokenQ == "" ==> Queries(tokenQ, keyStr)[k] == keyStr + " site:" + SitePool[k]
    {
      QueryAt(tokenQ, keyStr, k);
      SiteQueryShape(tokenQ, keyStr, SitePool[k]);
    }
  }

  /**
   * The token query is at most 180 characters, a prefix of the " OR "
   * join of the sorted tokens, all of it when that join fits, and empty
   * exactly when there are no tokens (every source token is non-empty).
   */
  lemma TokenQueryFacts(tokens: set<string>)
    requires forall t :: t in tokens ==> t != ""
    ensures var listing := SortedListing(tokens);
      var tq := TokenQuery(listing);
      && |tq| <= MaxTokenQuery
      && (tokens != {} ==> StartsWith(Join(listing, " OR "), tq))
      && (tokens != {} && |Join(listing, " OR ")| <= MaxTokenQuery ==> tq == Join(listing, " OR "))
      && (tq == "" <==> tokens == {})
  {
    var listing := SortedListing(tokens);
    if tokens != {} {
      var t :| t in tokens;
      assert t in listing;
      assert listing != [];
      JoinStartsWithFirst(listing, " OR ");
      forall k | 0 <= k < |listing| ensures listing[k] != "" {
        assert listing[k] in tokens;
      }
      JoinEmpty(listing, " OR ");
    }
    ListingEmpty(tokens, listing);
  }

  /** A join begins with its first part. */
  lemma JoinStartsWithFirst(parts: seq<string>, sep: string)
    requires parts != []
    ensures |Join(parts, sep)| >= |parts[0]| && Join(parts, sep)[..|parts[0]|] == parts[0]
  {
    if |parts| > 1 {
      Affixes(parts[0], sep + Join(parts[1..], sep));
      assert Join(parts, sep) == parts[0] + (sep + Join(parts[1..], sep));
    }
  }

  /** A join of non-empty parts is empty exactly when there are no parts. */
  lemma JoinEmpty(parts: seq<string>, sep: string)
    requires forall k :: 0 <= k < |parts| ==> parts[k] != ""
    ensures Join(parts, sep) == "" <==> parts == []
  {
    if parts != [] {
      JoinStartsWithFirst(parts, sep);
    }
  }

  /**
   * The key string of the key phrases is empty exactly when both lists
   * are; otherwise splitting it on spaces gives back the (at most four)
   * phrases it joins.
   */
  lemma KeyStrFacts(title: string, description: string)
    ensures var tk := Keyphrases.Keyphrases(title, 4);
      var dk := Keyphrases.Keyphrases(description, 3);
      var parts := Take(tk, 2) + Take(dk, 2);
      && (KeyStr(tk, dk) == "" <==> tk == [] && dk == [])
      && (parts != [] ==> Split(KeyStr(tk, dk), ' ') == parts)
      && |parts| <= 4
  {
    var tk := Keyphrases.Keyphrases(title, 4);
    var dk := Keyphrases.Keyphrases(description, 3);
    var parts := Take(tk, 2) + Take(dk, 2);
    KeyphrasesNoSpace(title, 4);
    KeyphrasesNoSpace(description, 3);
    forall k | 0 <= k < |parts| ensures parts[k] != "" && ' ' !in parts[k] {
      if k < |Take(tk, 2)| {
        assert parts[k] == tk[k];
        assert parts[k] in tk;
      } else {
        assert parts[k] == dk[k - |Take(tk, 2)|];
        assert parts[k] in dk;
      }
    }
    JoinEmpty(parts, " ");
    if parts != [] {
      SplitJoin(parts, ' ');
    }
  }

  // ---------------------------------------------------------------------
  // The trace
  // ---------------------------------------------------------------------

  datatype TraceOutcome =
    | NoTokensOrKeys                     // neither a source token nor a key phrase
    | NoSearchKeys                       // the web search is not configured
    | Candidates(ranked: seq<Scored>)    // the ranked candidates (possibly none)

  /** What the trace computes. */
  ghost function TraceSpec(title: string, description: string, ocrText: Option<string>,
                           cseConfigured: bool, webSearch: string -> seq<WebResult>): TraceOutcome
  {
    var tokens := CollectSourceTokens(title, description, ocrText, true);
    var titleKeys := Keyphrases.Keyphrases(title, 4);
    var descKeys := Keyphrases.Keyphrases(description, 3);
    var keyStr := KeyStr(titleKeys, descKeys);
    if tokens == {} && keyStr == "" then NoTokensOrKeys
    else if !cseConfigured then NoSearchKeys
    else
      var tokenQ := TokenQuery(SortedListing(tokens));
      Candidates(Ranked(tokens, title, Gather(Queries(tokenQ, keyStr), webSearch), titleKeys + descKeys))
  }

  lemma GatherStep(qs: seq<string>, k: nat, webSearch: string -> seq<WebResult>)
    requires k < |qs|
    ensures Gather(qs[..k + 1], webSearch) == Gather(qs[..k], webSearch) + webSearch(qs[k])
  {
    assert qs[..k + 1][..k] == qs[..k];
  }

  /** `" OR ".join(sorted(tokens))[:180] if tokens else ""` */
  method BuildTokenQuery(tokens: set<string>) returns (tokenQ: string)
    ensures tokenQ == TokenQuery(SortedListing(tokens))
  {
    var listing := SortTokens(tokens);
    tokenQ := if tokens != {} then Take(Join(listing, " OR "), MaxTokenQuery) else "";
    if tokens != {} {
      var t :| t in tokens;
      assert t in listing;
    }
    ListingEmpty(tokens, listing);
  }

  /** One search per site of the pool, then the open search, their results concatenated. */
  method SearchAll(tokenQ: string, keyStr: string, webSearch: string -> seq<WebResult>)
    returns (allResults: seq<WebResult>)
    ensures allResults == Gather(Queries(tokenQ, keyStr), webSearch)
  {
    ghost var qs := Queries(tokenQ, keyStr);
    allResults := [];
    for k := 0 to |SitePool|
      invariant allResults == Gather(qs[..k], webSearch)
    {
      var q := SiteQuery(tokenQ, keyStr, SitePool[k]);
      QueryAt(tokenQ, keyStr, k);
      GatherStep(qs, k, webSearch);
      allResults := allResults + webSearch(q);
    }
    QueryAt(tokenQ, keyStr, |SitePool|);
    GatherStep(qs, |SitePool|, webSearch);
    assert qs[..|SitePool| + 1] == qs;
    allResults := allResults + webSearch(OpenQuery(tokenQ, keyStr));
  }

  /** The source trace of one video. */
  method TraceSearch(title: string, description: string, ocrText: Option<string>,
                     cseConfigured: bool, webSearch: string -> seq<WebResult>)
    returns (out: TraceOutcome)
    ensures out == TraceSpec(title, description, ocrText, cseConfigured, webSearch)
  {
    var tokens := CollectSourceTokens(title, description, ocrText, true);
    var titleKeys := ExtractKeyphrases(title, 4);
    var descKeys := ExtractKeyphrases(description, 3);
    var keyStr := KeyStr(titleKeys, descKeys);
    if tokens == {} && keyStr == "" {
      return NoTokensOrKeys;
    }
    var tokenQ := BuildTokenQuery(tokens);
    if !cseConfigured {
      return NoSearchKeys;
    }
    var allResults := SearchAll(tokenQ, keyStr, webSearch);
    var ranked := RankExternalResults(tokens, title, allResults, titleKeys + descKeys);
    return Candidates(ranked);
  }

  /** A gathered result is a result of one of the queries. */
  lemma {:induction false} GatherMembers(qs: seq<string>, webSearch: string -> seq<WebResult>)
    ensures forall r :: r in Gather(qs, webSearch) <==> exists k :: 0 <= k < |qs| && r in webSearch(qs[k])
  {
    if |qs| > 0 {
      var p := qs[..|qs| - 1];
      GatherMembers(p, webSearch);
      forall r ensures r in Gather(qs, webSearch) <==> exists k :: 0 <= k < |qs| && r in webSearch(qs[k]) {
        if exists k :: 0 <= k < |qs| && r in webSearch(qs[k]) {
          var k :| 0 <= k < |qs| && r in webSearch(qs[k]);
          if k < |p| { assert qs[k] == p[k]; }
        }
        if r in Gather(p, webSearch) {
          var k :| 0 <= k < |p| && r in webSearch(p[k]);
          assert qs[k] == p[k];
        }
      }
    }
  }

  /**
   * The trace stops for want of tokens and key phrases exactly when the
   * video has neither, then for want of search keys; otherwise each
   * candidate is a result of one of the queries that hits a token or a
   * key phrase, with at most 12 candidates and at most two per host.
   */
  lemma TraceFacts(title: string, description: string, ocrText: Option<string>,
                   cseConfigured: bool, webSearch: string -> seq<WebResult>)
    ensures var out := TraceSpec(title, description, ocrText, cseConfigured, webSearch);
      var tokens := CollectSourceTokens(title, description, ocrText, true);
      var titleKeys := Keyphrases.Keyphrases(title, 4);
      var descKeys := Keyphrases.Keyphrases(description, 3);
      var tokenQ := TokenQuery(SortedListing(tokens));
      var qs := Queries(tokenQ, KeyStr(titleKeys, descKeys));
      && (out == NoTokensOrKeys <==> tokens == {} && titleKeys == [] && descKeys == [])
      && (out == NoSearchKeys <==> !cseConfigured && (tokens != {} || titleKeys != [] || descKeys != []))
      && (out.Candidates? ==>
            && |out.ranked| <= MaxCandidates
            && (forall d :: HostCount(out.ranked, d) <= MaxPerHost)
            && (forall x :: x in out.ranked ==>
                  && (exists k :: 0 <= k < |qs| && x.result in webSearch(qs[k]))
                  && Relevant(MakeProbe(tokens, title, titleKeys + descKeys), x.result)))
  {
    var tokens := CollectSourceTokens(title, description, ocrText, true);
    var titleKeys := Keyphrases.Keyphrases(title, 4);
    var descKeys := Keyphrases.Keyphrases(description, 3);
    var tokenQ := TokenQuery(SortedListing(tokens));
    var qs := Queries(tokenQ, KeyStr(titleKeys, descKeys));
    KeyStrFacts(title, description);
    GatherMembers(qs, webSearch);
    RankedFacts(tokens, title, Gather(qs, webSearch), titleKeys + descKeys);
  }
}
