/**
 * `domain_weight` and `rank_external_results` (app.py:568-617): score the
 * web-search candidates of the source trace against the video's tokens,
 * key phrases and title, keep the ones that hit a token or a key phrase,
 * sort them by score, keep at most two per host and return the first 12.
 *
 * Scores are in tenths: the source adds 2.0 per token hit, 1.2 per key
 * phrase hit, the domain weight (1.0 to 3.0) and 1.0 for title
 * similarity, and rounds the float sum to 3 decimals. That sum is within
 * far less than 0.0005 of the exact tenths, so the rounded value is the
 * float nearest to those tenths, and comparing rounded scores is
 * comparing the integers of tenths.
 */
module Ranking {
  import opened Text
  import opened Ordering

  // ---------------------------------------------------------------------
  // domain_weight (app.py:568-576)
  // ---------------------------------------------------------------------

  /** `domain_weight(url)` in tenths: the weight of the first site name the lower-cased url contains. */
  function DomainWeight(url: string): (w: nat)
    ensures w == 0 <==> url == ""
    ensures w == 0 || w == 10 || w == 12 || w == 16 || w == 18 || w == 25 || w == 30
  {
    if url == "" then 0
    else
      var u := Lower(url);
      if Contains(u, "tiktok.com") then 30
      else if Contains(u, "instagram.com") then 25
      else if Contains(u, "facebook.com") || Contains(u, "fb.watch") then 18
      else if Contains(u, "x.com") || Contains(u, "twitter.com") then 16
      else if Contains(u, "naver.com") || Contains(u, "daum.net") then 12
      else 10
  }

  /** The site names `domain_weight` looks for. */
  predicate NamesKnownSite(u: string)
  {
    || Contains(u, "tiktok.com") || Contains(u, "instagram.com")
    || Contains(u, "facebook.com") || Contains(u, "fb.watch")
    || Contains(u, "x.com") || Contains(u, "twitter.com")
    || Contains(u, "naver.com") || Contains(u, "daum.net")
  }

  /**
   * A url weighs 1.0 exactly when it names none of the sites; a url
   * naming tiktok.com weighs the most, whatever else it names; the
   * lookup ignores case.
   */
  lemma DomainWeightCases(url: string)
    ensures url != "" ==> (DomainWeight(url) == 10 <==> !NamesKnownSite(Lower(url)))
    ensures url != "" && Contains(Lower(url), "tiktok.com") ==> DomainWeight(url) == 30
    ensures url != "" ==> DomainWeight(Lower(url)) == DomainWeight(url)
  {
    LowerIdempotent(url);
  }

  lemma DomainWeightExample()
    ensures DomainWeight("https://www.TikTok.com/@a") == 30
    ensures DomainWeight("") == 0
  {
    var u := Lower("https://www.TikTok.com/@a");
    assert u == "https://www.tiktok.com/@a";
    assert SubstringAt(u, "tiktok.com", 12);
  }

  // ---------------------------------------------------------------------
  // The host of a link (app.py:612)
  // ---------------------------------------------------------------------

  /** `(www\.)?` */
  function DropWww(s: string): (r: string)
    ensures r == s || (StartsWith(s, "www.") && r == s[4..])
  {
    if StartsWith(s, "www.") then s[4..] else s
  }

  /** `re.sub(r"^https?://(www\.)?", "", link)`: `www.` goes only together with a scheme. */
  function StripScheme(link: string): string
  {
    if StartsWith(link, "https://") then DropWww(link[8..])
    else if StartsWith(link, "http://") then DropWww(link[7..])
    else link
  }

  /** `.split("/")[0]` of the stripped link: the host the per-host cap counts. */
  function Host(link: string): string
  {
    var r := StripScheme(link);
    r[..IndexOf(r, '/')]
  }

  /** The host is the start of the link after the scheme and `www.` are dropped, up to its first '/'. */
  lemma HostShape(link: string)
    ensures var r := StripScheme(link);
      && |r| <= |link| && r == link[|link| - |r|..]
      && StartsWith(r, Host(link)) && '/' !in Host(link)
      && (|Host(link)| < |r| ==> r[|Host(link)|] == '/')
  {
  }

  /** The scheme and a following `www.` go; the host ends at the first '/'. */
  lemma HostExampleTiktok()
    ensures Host("https://www.tiktok.com/@a") == "tiktok.com"
  {
    var link := "https://www.tiktok.com/@a";
    assert link == "https://" + ("www." + ("tiktok.com" + "/@a"));
    SchemeDropped(link, "https://", "www.", "tiktok.com" + "/@a");
    HostBefore(link, "tiktok.com", "/@a");
  }

  /** Without a scheme `www.` stays part of the host. */
  lemma HostExampleNoScheme()
    ensures Host("www.x.com/a") == "www.x.com"
  {
    var link := "www.x.com/a";
    assert link == "www.x.com" + "/a";
    NoScheme(link);
    HostBefore(link, "www.x.com", "/a");
  }

  /** A link of the form scheme + `www.` + rest is stripped to rest. */
  lemma SchemeDropped(link: string, scheme: string, www: string, rest: string)
    requires scheme == "https://" && www == "www." && link == scheme + (www + rest)
    ensures StripScheme(link) == rest
  {
    assert link[..|scheme|] == scheme;
    assert link[|scheme|..] == www + rest;
    assert (www + rest)[..4] == www;
    assert (www + rest)[4..] == rest;
  }

  /** A link starting with neither scheme is left as it is. */
  lemma NoScheme(link: string)
    requires |link| > 0 && link[0] != 'h'
    ensures StripScheme(link) == link
  {
    if |link| >= 8 {
      assert link[..8][0] == link[0];
    }
    if |link| >= 7 {
      assert link[..7][0] == link[0];
    }
  }

  /** When the stripped link is host + a tail starting with '/', the host is that part. */
  lemma HostBefore(link: string, host: string, tail: string)
    requires StripScheme(link) == host + tail && '/' !in host && |tail| > 0 && tail[0] == '/'
    ensures Host(link) == host
  {
    IndexAfterFree(host, tail, '/');
    assert (host + tail)[..|host|] == host;
  }

  // ---------------------------------------------------------------------
  // Scoring (app.py:590-607)
  // ---------------------------------------------------------------------

  /** A web-search candidate: `title`, `link`, `snippet`. */
  datatype WebResult = WebResult(title: string, link: string, snippet: string)

  /** A copy of a candidate with its `_ext_score`, in tenths. */
  datatype Scored = Scored(result: WebResult, score: nat)

  /** What the candidates are scored against: lower-cased tokens, key phrases and title. */
  datatype Probe = Probe(toks: set<string>, keys: set<string>, tlo: string)

  function LowerSet(ws: set<string>): set<string>
  {
    set w | w in ws :: Lower(w)
  }

  /** `rank_external_results(tokens, title, _, extra_keys)` builds `toks`, `keys` and `tlo`. */
  function MakeProbe(tokens: set<string>, title: string, extraKeys: seq<string>): Probe
  {
    Probe(LowerSet(tokens), LowerSet(set k | k in extraKeys), Lower(title))
  }

  /** The lower-cased `title + " " + snippet` the words are looked for in. */
  function Body(r: WebResult): string
  {
    Lower(r.title + " " + r.snippet)
  }

  /** `sum(1 for t in words if t in b)` */
  function HitCount(words: set<string>, b: string): nat
  {
    |set w | w in words && Contains(b, w)|
  }

  /** `tlo[:20]` or one of the first three words of `tlo` occurs in b and is not empty. */
  predicate TitleSimilar(tlo: string, b: string)
  {
    var cands := [Take(tlo, 20)] + Take(Words(tlo), 3);
    exists k :: 0 <= k < |cands| && cands[k] != "" && Contains(b, cands[k])
  }

  /** The candidate hits a token or a key phrase. */
  predicate Relevant(pr: Probe, r: WebResult)
  {
    HitCount(pr.toks, Body(r)) > 0 || HitCount(pr.keys, Body(r)) > 0
  }

  function Score(pr: Probe, r: WebResult): nat
  {
    var b := Body(r);
    20 * HitCount(pr.toks, b) + 12 * HitCount(pr.keys, b) + DomainWeight(r.link)
      + (if TitleSimilar(pr.tlo, b) then 10 else 0)
  }

  /** The scoring loop: the relevant candidates, in order, each with its score. */
  function ScoreAll(pr: Probe, rs: seq<WebResult>): (out: seq<Scored>)
    ensures |out| <= |rs|
  {
    if |rs| == 0 then []
    else
      var r := rs[|rs| - 1];
      ScoreAll(pr, rs[..|rs| - 1]) + (if Relevant(pr, r) then [Scored(r, Score(pr, r))] else [])
  }

  /**
   * Exactly the candidates that hit a token or a key phrase are scored,
   * each with its own score.
   */
  lemma {:induction false} ScoreAllMembers(pr: Probe, rs: seq<WebResult>)
    ensures forall x :: x in ScoreAll(pr, rs) <==> x.result in rs && Relevant(pr, x.result) && x.score == Score(pr, x.result)
  {
    if |rs| > 0 {
      ScoreAllMembers(pr, rs[..|rs| - 1]);
      assert rs == rs[..|rs| - 1] + [rs[|rs| - 1]];
    }
  }

  /** A scored candidate scores at least 1.2, and at least 2.2 when it has a link. */
  lemma ScoreFloor(pr: Probe, r: WebResult)
    requires Relevant(pr, r)
    ensures Score(pr, r) >= 12 && (r.link != "" ==> Score(pr, r) >= 22)
  {
  }

  /** Without tokens and key phrases nothing is relevant. */
  lemma NothingToHit(pr: Probe, r: WebResult)
    requires pr.toks == {} && pr.keys == {}
    ensures !Relevant(pr, r)
  {
    var b := Body(r);
    assert (set w | w in pr.toks && Contains(b, w)) == {};
    assert (set w | w in pr.keys && Contains(b, w)) == {};
  }

  // ---------------------------------------------------------------------
  // Sorting and the per-host cap (app.py:608-617)
  // ---------------------------------------------------------------------

  const MaxPerHost: nat := 2
  const MaxCandidates: nat := 12

  function ScoreKey(x: Scored): seq<int> { [x.score] }

  function HostOf(x: Scored): string { Host(x.result.link) }

  /** How many entries of s have host d. */
  function HostCount(s: seq<Scored>, d: string): nat
  {
    if |s| == 0 then 0
    else HostCount(s[..|s| - 1], d) + (if HostOf(s[|s| - 1]) == d then 1 else 0)
  }

  /** The `seen_domain` loop: an entry is kept when fewer than two kept entries share its host. */
  function CapHosts(s: seq<Scored>): (r: seq<Scored>)
    ensures |r| <= |s|
  {
    if |s| == 0 then []
    else
      var kept := CapHosts(s[..|s| - 1]);
      var x := s[|s| - 1];
      if HostCount(kept, HostOf(x)) >= MaxPerHost then kept else kept + [x]
  }

  /** The cap keeps min(2, n) of the n entries of each host. */
  lemma {:induction false} CapHostsCounts(s: seq<Scored>, d: string)
    ensures HostCount(CapHosts(s), d) == if HostCount(s, d) < MaxPerHost then HostCount(s, d) else MaxPerHost
  {
    if |s| > 0 {
      var p := s[..|s| - 1];
      var x := s[|s| - 1];
      var kept := CapHosts(p);
      CapHostsCounts(p, d);
      CapHostsCounts(p, HostOf(x));
      if HostCount(kept, HostOf(x)) < MaxPerHost {
        assert (kept + [x])[..|kept + [x]| - 1] == kept;
      }
    }
  }

  /** Every kept entry is an entry of s. */
  lemma {:induction false} CapHostsIndex(s: seq<Scored>, i: nat) returns (k: nat)
    requires i < |CapHosts(s)|
    ensures k < |s| && s[k] == CapHosts(s)[i]
  {
    var p := s[..|s| - 1];
    var kept := CapHosts(p);
    var x := s[|s| - 1];
    assert CapHosts(s) == if HostCount(kept, HostOf(x)) >= MaxPerHost then kept else kept + [x];
    if i < |kept| {
      k := CapHostsIndex(p, i);
      assert p[k] == s[k] && CapHosts(s)[i] == kept[i];
    } else {
      k := |s| - 1;
      assert CapHosts(s) == kept + [x];
    }
  }

  /** The cap keeps entries in the order they had. */
  lemma {:induction false} CapHostsSorted(s: seq<Scored>)
    requires Sorted(s, ScoreKey, true)
    ensures Sorted(CapHosts(s), ScoreKey, true)
  {
    if |s| > 0 {
      var p := s[..|s| - 1];
      var x := s[|s| - 1];
      assert Sorted(p, ScoreKey, true) by {
        forall i, j | 0 <= i < j < |p| ensures Precedes(ScoreKey, true, p[i], p[j]) {
          assert p[i] == s[i] && p[j] == s[j];
        }
      }
      CapHostsSorted(p);
      var kept := CapHosts(p);
      if HostCount(kept, HostOf(x)) < MaxPerHost {
        var r := kept + [x];
        forall i, j | 0 <= i < j < |r| ensures Precedes(ScoreKey, true, r[i], r[j]) {
          if j < |kept| {
            assert r[i] == kept[i] && r[j] == kept[j];
          } else {
            var k := CapHostsIndex(p, i);
            assert r[i] == s[k] && r[j] == s[|s| - 1];
          }
        }
      }
    }
  }

  lemma {:induction false} HostCountPrefix(s: seq<Scored>, n: nat, d: string)
    requires n <= |s|
    ensures HostCount(s[..n], d) <= HostCount(s, d)
    decreases |s|
  {
    if n < |s| {
      var p := s[..|s| - 1];
      assert s[..n] == p[..n];
      HostCountPrefix(p, n, d);
      assert HostCount(s, d) >= HostCount(p, d);
    } else {
      assert s[..n] == s;
    }
  }

  /** The result of `rank_external_results(tokens, title, results, extra_keys)`. */
  function Ranked(tokens: set<string>, title: string, results: seq<WebResult>, extraKeys: seq<string>): seq<Scored>
  {
    if results == [] then []
    else Take(CapHosts(Sort(ScoreAll(MakeProbe(tokens, title, extraKeys), results), ScoreKey, true)), MaxCandidates)
  }

  /** One more candidate through the scoring loop. */
  lemma ScoreStep(pr: Probe, rs: seq<WebResult>, i: nat)
    requires i < |rs|
    ensures ScoreAll(pr, rs[..i + 1])
         == ScoreAll(pr, rs[..i]) + (if Relevant(pr, rs[i]) then [Scored(rs[i], Score(pr, rs[i]))] else [])
  {
    assert rs[..i + 1][..i] == rs[..i];
  }

  /** One more entry through the `seen_domain` loop. */
  lemma CapStep(s: seq<Scored>, i: nat)
    requires i < |s|
    ensures var kept := CapHosts(s[..i]);
      CapHosts(s[..i + 1]) == if HostCount(kept, HostOf(s[i])) >= MaxPerHost then kept else kept + [s[i]]
  {
    assert s[..i + 1][..i] == s[..i];
  }

  /** `seen_domain.get(d, 0)` */
  function SeenCount(seen: map<string, nat>, d: string): nat
  {
    if d in seen then seen[d] else 0
  }

  /** Keeping x adds one to the count of its host in `seen_domain` and in the kept list alike. */
  lemma SeenStep(kept: seq<Scored>, seen: map<string, nat>, x: Scored)
    requires forall d :: HostCount(kept, d) == SeenCount(seen, d)
    ensures var seen' := seen[HostOf(x) := SeenCount(seen, HostOf(x)) + 1];
      forall d :: HostCount(kept + [x], d) == SeenCount(seen', d)
  {
    assert (kept + [x])[..|kept|] == kept;
  }

  /** The scoring loop of `rank_external_results` (app.py:596-607). */
  method ScoreCandidates(pr: Probe, results: seq<WebResult>) returns (ranked: seq<Scored>)
    ensures ranked == ScoreAll(pr, results)
  {
    ranked := [];
    for i := 0 to |results|
      invariant ranked == ScoreAll(pr, results[..i])
    {
      ScoreStep(pr, results, i);
      var relevant, score := ScoreOne(pr, results[i]);
      if !relevant {
        continue;
      }
      ranked := ranked + [Scored(results[i], score)];
    }
    assert results[..|results|] == results;
  }

  /** The body of the scoring loop for one candidate: whether it is kept, and its score. */
  method ScoreOne(pr: Probe, r: WebResult) returns (relevant: bool, score: nat)
    ensures relevant == Relevant(pr, r)
    ensures relevant ==> score == Score(pr, r)
  {
    var b := Body(r);
    var hitTok := HitCount(pr.toks, b);
    var hitKey := HitCount(pr.keys, b);
    if hitTok == 0 && hitKey == 0 {
      return false, 0;
    }
    var dom := DomainWeight(r.link);
    var titleSim := if TitleSimilar(pr.tlo, b) then 10 else 0;
    return true, 20 * hitTok + 12 * hitKey + dom + titleSim;
  }

  /** The `seen_domain` loop of `rank_external_results` (app.py:609-616). */
  method CapPerHost(ranked: seq<Scored>) returns (filtered: seq<Scored>)
    ensures filtered == CapHosts(ranked)
  {
    var seen: map<string, nat> := map[];
    filtered := [];
    for i := 0 to |ranked|
      invariant filtered == CapHosts(ranked[..i])
      invariant forall d :: HostCount(filtered, d) == SeenCount(seen, d)
    {
      CapStep(ranked, i);
      var d := HostOf(ranked[i]);
      var c := if d in seen then seen[d] else 0;
      if c >= MaxPerHost {
        continue;
      }
      SeenStep(filtered, seen, ranked[i]);
      seen := seen[d := c + 1];
      filtered := filtered + [ranked[i]];
    }
    assert ranked[..|ranked|] == ranked;
  }

  /** `rank_external_results`: score, sort by score (largest first), cap per host, cut to 12. */
  method RankExternalResults(tokens: set<string>, title: string, results: seq<WebResult>, extraKeys: seq<string>)
    returns (out: seq<Scored>)
    ensures out == Ranked(tokens, title, results, extraKeys)
  {
    if results == [] {
      return [];
    }
    var pr := MakeProbe(tokens, title, extraKeys);
    var scored := ScoreCandidates(pr, results);
    var ranked := Sort(scored, ScoreKey, true);
    var filtered := CapPerHost(ranked);
    return Take(filtered, MaxCandidates);
  }

  /** The cut, capped and sorted list of a sorted list of entries. */
  lemma CutFacts(sorted: seq<Scored>)
    requires Sorted(sorted, ScoreKey, true)
    ensures var out := Take(CapHosts(sorted), MaxCandidates);
      && |out| <= MaxCandidates
      && Sorted(out, ScoreKey, true)
      && (forall d :: HostCount(out, d) <= MaxPerHost)
      && (forall x :: x in out ==> x in sorted)
  {
    var capped := CapHosts(sorted);
    var out := Take(capped, MaxCandidates);
    CapHostsSorted(sorted);
    TakeSorted(capped, MaxCandidates, ScoreKey, true);
    forall d ensures HostCount(out, d) <= MaxPerHost {
      CapHostsCounts(sorted, d);
      HostCountPrefix(capped, |out|, d);
    }
    forall x | x in out ensures x in sorted {
      var i :| 0 <= i < |out| && out[i] == x;
      var k := CapHostsIndex(sorted, i);
    }
  }

  /**
   * No candidates give no result; the result holds at most 12 entries, at
   * most two per host, in order of non-increasing score; each is a copy
   * of a candidate that hits a token or a key phrase, carrying its score.
   */
  lemma RankedFacts(tokens: set<string>, title: string, results: seq<WebResult>, extraKeys: seq<string>)
    ensures var out := Ranked(tokens, title, results, extraKeys);
      var pr := MakeProbe(tokens, title, extraKeys);
      && (results == [] ==> out == [])
      && |out| <= MaxCandidates
      && Sorted(out, ScoreKey, true)
      && (forall d :: HostCount(out, d) <= MaxPerHost)
      && (forall x :: x in out ==> x.result in results && Relevant(pr, x.result) && x.score == Score(pr, x.result))
  {
    if results != [] {
      var pr := MakeProbe(tokens, title, extraKeys);
      var scored := ScoreAll(pr, results);
      var sorted := Sort(scored, ScoreKey, true);
      ScoreAllMembers(pr, results);
      SortSortedPermutation(scored, ScoreKey, true);
      SortMembers(scored, ScoreKey, true);
      CutFacts(sorted);
    }
  }

  lemma {:induction false} ScoreAllIrrelevant(pr: Probe, rs: seq<WebResult>)
    requires forall k :: 0 <= k < |rs| ==> !Relevant(pr, rs[k])
    ensures ScoreAll(pr, rs) == []
  {
    if |rs| > 0 {
      ScoreAllIrrelevant(pr, rs[..|rs| - 1]);
    }
  }

  /** Without tokens and key phrases no candidate is returned. */
  lemma RankedWithoutProbes(title: string, results: seq<WebResult>)
    ensures Ranked({}, title, results, []) == []
  {
    var pr := MakeProbe({}, title, []);
    assert pr.toks == {} && pr.keys == {};
    forall k | 0 <= k < |results| ensures !Relevant(pr, results[k]) {
      NothingToHit(pr, results[k]);
    }
    ScoreAllIrrelevant(pr, results);
  }
}
