# YouTube search tool core, modelled in Dafny

This project models the deterministic core of `app.py`, a Streamlit app for
searching YouTube. The modelled parts are:

- **API key pool.** `YOUTUBE_API_KEY` is split into a pool of keys. `yt_get`
  sends every YouTube Data API request through that pool, rotating keys and
  pinning the one that last succeeded in the session.
- **Search pipeline.** `search_youtube` pages through `search.list`,
  de-duplicates the ids and looks them up in chunks with `videos.list`. It
  filters the records, sorts them, applies the age gate and drops repeated
  urls.
- **Trending list, age recommendations and keyword board.** These are
  `fetch_trending_with_engagement`, `build_age_seed_queries`,
  `fallback_age_recommendations` and `keyword_ranked_recos`. The age keyword
  tables they rely on are `build_age_neg_keywords`, `age_relevance_score` and
  `age_negative_hit`.
- **Source trace.** A video's `@handle` and `#number` tokens come from
  `extract_tokens_from_text` and `collect_source_tokens`, and its key phrases
  from `extract_keyphrases`. One web-search query is built per site of a
  fixed pool, plus one open query. The candidates are ranked with
  `domain_weight` and `rank_external_results`.
- **Helpers.** `parse_iso8601_duration`, `_split_keys`, the quota unit
  estimators, `chunk_transcript`, the page buttons with `slice_df_for_page`,
  and the search history.

Everything outside the program is an input of the model:

- **YouTube.** Each request sent with key `i` answers `reply(i)`. Each outcome
  of the API calls an operation makes is a function-typed parameter:
  - `searchPage(token)` for a `search.list` page;
  - `details(chunk)` for a `videos.list` call;
  - `chart(token)` for a chart page;
  - `search(q)` for a whole `search_youtube` call.
- **Web search.** It is `webSearch(q)`. Whether its keys are configured is the
  flag `cseConfigured`.
- **Thumbnail OCR.** Its text is `ocrText`, `None` when OCR is unavailable or
  fails.
- **Shuffle.** The random source of the trending shuffle is `draw`.
- **Session.** `st.session_state` becomes the class `AppSession.Session`,
  whose methods update the pinned key index, the page number and the
  history.

Step-by-step code (`yt_get`, the paging loops, the filter loops, the `freq`
and `seen_domain` dicts, `chunk_transcript`, the seed padding, the shuffle) is
modelled by methods with loops. Each method is proved equal to a recursive
specification function, and the properties the program promises are lemmas
about those functions.

Python semantics are written out where they matter:

- **Sorting.** `sorted` and `list.sort` are stable. Descending order keeps
  the order of equal keys.
- **Keys.** Tuple keys, and strings compared by code point, are integer
  sequences compared lexicographically.
- **Dedup.** `dict.fromkeys` keeps the first occurrence.
- **Regular expressions.** `re.match` with `$` accepts one final newline.
  `re.findall` scans without overlaps.
- **Slices.** They clamp at both ends.
- **Scores.** The ranking's float scores are exact integers of tenths.

## Model

| member | source | states |
|---|---|---|
| ApiKeys.StrippedNonBlank | app.py:44 | the comprehension keeps at most as many keys as there were parts, and none of them is empty |
| ApiKeys.SplitKeysWellFormed | app.py:43-44 | every key in the pool is non-empty, has no comma and no surrounding white space |
| ApiKeys.SplitKeysRoundTrip | app.py:43-44 | writing a non-empty pool of well-formed keys comma-separated and splitting it again gives back the same pool |
| ApiKeys.SplitKeysBlank | app.py:44-47 | an unset or all-white-space variable gives the empty pool |
| ApiKeys.SplitKeysExample | app.py:46-47 | the documented configuration "키A,키B,키C" gives three keys in order |
| KeyRotation.ErrorOf | app.py:97-105 | a reply that neither skips (quota) nor succeeds leaves its HTTP status error, or a plain failure, as the error to raise |
| KeyRotation.KeyAt | app.py:81-83 | the k-th key tried is an index into the pool |
| KeyRotation.RotationTries | app.py:82-105 | from any point of the loop, the keys tried are the next ones in rotation order, the loop stops at the first success, and it fails only after trying all n keys |
| KeyRotation.RotationOk | app.py:97-99 | a successful loop ends on a key whose reply succeeded, returns that reply's body and pins that key |
| KeyRotation.RotationErr | app.py:100-108 | a loop where no key succeeds raises the last non-quota failure, or the "unknown cause" error when there was none |
| KeyRotation.RotationKeepsPin | app.py:98 | the pinned index moves only for a reply that gets past `raise_for_status` |
| KeyRotation.YtGetNoKeys | app.py:78-79 | an empty pool fails with the missing-key error, tries nothing and keeps the pin |
| KeyRotation.YtGetTries | app.py:81-105 | a call tries between 1 and n keys, (start + k) mod n for k = 0, 1, ..., stops at the first success, and fails only after all n keys failed |
| KeyRotation.YtGetOk | app.py:97-99 | a successful call returns the body of the key that answered, and that key becomes the pinned index |
| KeyRotation.YtGetErr | app.py:100-108 | a call on a non-empty pool where no key succeeds raises the last non-quota failure, otherwise the "unknown cause" error |
| KeyRotation.YtGetKeepsPin | app.py:98 | when no reply passes `raise_for_status`, the pinned index stays what it was |
| KeyRotation.YtGetTriesEachKeyOnce | app.py:82-83 | no key is tried twice in one call |
| KeyRotation.KeyAtDistinct | app.py:82-83 | different offsets of one rotation name different keys |
| KeyRotation.YtGetSucceedsIff | app.py:82-108 | a call succeeds exactly when the pool is non-empty and some key answers successfully |
| KeyRotation.YtGetAllQuotaExceeded | app.py:88-108 | when every key reports `quotaExceeded`, the call tries every key once, keeps the pin and raises "unknown cause" rather than an HTTP error |
| KeyRotation.Rotations | app.py:82-83 | the full rotation lists n key indices in rotation order |
| KeyRotation.AllQuotaNoFailure | app.py:88-94 | quota replies never set `last_err` |
| KeyRotation.YtGetThreeKeysExample | app.py:81-99 | with index 1 pinned and out of quota and index 2 answering, the call tries indices 1 and 2, returns index 2's body and pins index 2 |
| AppSession.Session.constructor | app.py:238-255 | the session starts with key index 0, page 1 and an empty history |
| AppSession.Session.YtGet | app.py:72-108 | the rotation loop on the session's pinned index returns what `YtGetSpec` specifies and leaves the new pinned index in the session |
| AppSession.Session.GoFirst | app.py:672 | the first-page button sets page 1 |
| AppSession.Session.GoPrev | app.py:674 | the previous-page button moves one page back, never below 1 |
| AppSession.Session.GoNext | app.py:667-676 | the next-page button moves one page forward, never past the last page |
| AppSession.Session.GoLast | app.py:667-678 | the last-page button sets the number of pages |
| AppSession.Session.CurrentRows | app.py:681-684 | the rows shown are at most 15 consecutive rows of the list, starting at row (page-1)*15 |
| AppSession.Session.RecordSearch | app.py:1281-1287 | a submitted query updates the history as `History.Push` states, and the history stays well formed |
| Paging.TotalPages | app.py:667 | there is at least one page, the pages hold all rows, and the last page is not empty unless there are no rows |
| Paging.Prev | app.py:674 | one page back, never below 1 |
| Paging.Next | app.py:676 | one page forward, never past the last page |
| Paging.NavigationInRange | app.py:667-678 | from a page in range, every button leads to a page in range |
| Paging.PrevNextInverse | app.py:674-676 | "next" then "previous" leads back from any page but the last, and "previous" then "next" from any page but the first |
| Paging.PageSlice | app.py:681-684 | a page is at most 15 consecutive rows starting at (page-1)*15, and it is non-empty whenever that row exists |
| Paging.PagesUpToPrefix | app.py:684 | pages 1..k written one after the other are the first k*15 rows, clamped to the list |
| Paging.PagesPartitionRows | app.py:667-684 | the pages, in order, are exactly the list, so no row is lost or shown twice |
| Paging.PagesBeforeLastAreFull | app.py:667-684 | every page before the last holds exactly 15 rows |
| History.Push | app.py:1281-1287 | a blank query leaves the history alone; otherwise the new history has at most 10 entries, each old or the new query, and the new query is last when it is new |
| History.AddFacts | app.py:1284-1287 | appending a query unless present and then keeping the last 10 leaves at most 10 entries, each old or the query, with the query kept when there was room |
| History.KeepLast | app.py:1286-1287 | it keeps the last (at most 10) entries of the history and changes nothing when there are 10 or fewer |
| History.PushWellFormed | app.py:1281-1287 | submitting a query keeps the history at most 10 distinct, stripped, non-blank queries |
| History.KeepLastWellFormed | app.py:1286-1287 | trimming a distinct, clean history leaves a well-formed one |
| History.AppendFresh | app.py:1284-1285 | appending a clean query that is not present keeps the history distinct and clean |
| History.SuffixKeeps | app.py:1287 | any suffix of a distinct, clean history stays distinct and clean |
| History.StripIdempotent | app.py:1281 | stripping a stripped query changes nothing |
| History.PushKnown | app.py:1284 | resubmitting a query that is already in the history changes nothing |
| History.PushDropsOldest | app.py:1284-1287 | a new query on a full history drops the oldest entry and appends the query |
| Units.CeilDiv | app.py:268-274 | `math.ceil(a / d)` is the least q with q*d >= a |
| Units.ClampFetch | app.py:267 | the fetch count is clamped into [1, 500], unchanged when already inside |
| Units.EstimateSearch | app.py:265-270 | a search costs 101 units per page of 50 results, between 1 and 10 pages, so between 101 and 1010 units |
| Units.EstimateTrending | app.py:272-275 | the chart costs one unit per page of 50, enough pages to hold `fetch_total` |
| Units.EstimateSearchMonotone | app.py:265-270 | a larger search never costs fewer units |
| Units.KwboardIsSearchPerKeyword | app.py:277-280 | the board's estimate is one 120-result search per keyword, and the per-keyword count plays no part |
| Units.EstimateExamples | app.py:265-280 | the sidebar defaults give 202 units for a search of 100, 4 for a chart of 200 and 2424 for the board |
| Duration.LeadingDigits | app.py:120 | it finds the length of the maximal run of ASCII digits the `\d+` group can take |
| Duration.ComponentTakes | app.py:120 | an optional `(\d+)L` group takes a digit run followed by its designator |
| Duration.ComponentSkips | app.py:120 | an absent group consumes nothing before another designator's group or the end |
| Duration.ComponentSplits | app.py:120 | the text a group takes plus what it leaves is the whole input |
| Duration.MatchRender | app.py:120 | the pattern accepts every well-formed `PT[nH][nM][nS]` string and captures its groups |
| Duration.RenderMatch | app.py:120 | whatever the pattern body accepts is the rendering of the groups it captures |
| Duration.MatchAccepts | app.py:120 | a string the anchored pattern accepts is a rendered duration, possibly followed by one newline |
| Duration.ParseRendered | app.py:118-123 | a matching string parses to h*3600 + m*60 + s, with absent parts counting 0 |
| Duration.ParseTrailingNewline | app.py:120-123 | one trailing newline does not change the result (Python's `$`) |
| Duration.Digits | app.py:122 | `str(n)` is a non-empty run of digits |
| Duration.ValueOfDigits | app.py:122 | `int(str(n)) == n` |
| Duration.Canonical | app.py:120 | "PT{h}H{m}M{s}S" is well formed |
| Duration.ParseHoursMinutesSeconds | app.py:118-123 | "PT{h}H{m}M{s}S" parses to h*3600 + m*60 + s for every h, m, s |
| Duration.ParseFullExample | app.py:118-123 | "PT1H2M3S" is 3723 seconds |
| Duration.ParseNewlineExample | app.py:120-123 | "PT4M\n" is 240 seconds |
| Duration.ParseEmptyExamples | app.py:119-123 | "" and the bare "PT" are 0 seconds |
| Duration.ParseRejectExamples | app.py:120-121 | designators out of order, a date part or a missing number give 0 |
| Age.BuildAgeNegKeywords | app.py:204-215 | the map has exactly the six age tags as keys and gives each tag its negative list |
| Age.NegTable | app.py:205-213 | for any keyword table, the map has exactly the given tags as keys, each mapped to the sorted, repeat-free lower-cased keywords of the other tags |
| Age.CollectOthers | app.py:208-211 | the inner loop concatenates, in tag order, the keyword lists of every tag other than t |
| Age.OthersInMembers | app.py:207-211 | a word is in `others` exactly when some other tag lists it |
| Age.NegListCharacterized | app.py:204-213 | a tag's negative list is strictly ascending, has no repeats, and holds exactly the lower-cased keywords of the other tags |
| Age.SortedSetFacts | app.py:212 | `sorted(set(words))` is strictly ascending, has no repeats, and holds exactly the words of `words` |
| Age.LoweredOthers | app.py:208-212 | a word is among the lower-cased words of the other tags exactly when some other tag lists a word that lowers to it |
| Age.CountHits | app.py:222-224 | the score never exceeds the number of keywords |
| Age.AgeRelevanceScore | app.py:217-224 | the loop counts one point per keyword of the tag found in the lower-cased title |
| Age.CountKeywordHits | app.py:220-223 | the loop counts the keywords whose lower-cased form occurs in t |
| Age.CountHitsPositive | app.py:222-224 | the count is positive exactly when some keyword occurs |
| Age.AgeScoreMeaning | app.py:217-224 | the score is at most the number of the tag's keywords, and it is positive exactly when the title is non-empty, the tag is known and one of its keywords occurs in the title, ignoring case |
| Age.AgeNegativeHit | app.py:226-233 | there is never a hit for an empty title or an unknown tag |
| Age.GameWordsRejectedOutsideTeens | app.py:231-232 | for every known tag but "10대", a title with a generic game word is a negative hit |
| Age.TeensIgnoreGameWords | app.py:226-233 | for "10대", a hit is exactly one of the other tags' keywords in the title |
| Age.SharedKeywordIsNegative | app.py:181-233 | "건강" is listed for both 40대 and 60대, so a title with it scores for 40대 and is also a negative hit for 40대 |
| Videos.ToVideo | app.py:340-370 | the record carries the item's id, title, channel and views; its url is the watch url of the id; `isShorts` holds exactly when 0 < seconds <= 60 |
| Videos.UrlDeterminesId | app.py:366 | two records with the same url come from the same video id |
| Videos.ZeroViewsSortLikeMissing | app.py:375-385 | a count of 0 sorts exactly like a missing count under both view keys |
| Videos.CountedBeforeUncounted | app.py:375 | in views order a positive count comes strictly before a missing one |
| Videos.AgeGateCharacterized | app.py:380-385 | the gate keeps exactly the records with no negative hit and a score of at least 1, each as often as in the input, sorts them by (score, tie-break) descending, and never lengthens the list |
| Videos.AgeGateIgnoresTiebreak | app.py:381-384 | which records pass the gate does not depend on the tie-break key |
| Search.CollectIds | app.py:314-323 | the pagination loop returns what the recursive `Collect` specifies |
| Search.CollectKeeps | app.py:314-323 | collected ids are never empty, and the ids collected so far stay a prefix |
| Search.CollectEnough | app.py:314-323 | when every page has ids and a next token, at least `fetch_total` ids are collected |
| Search.CollectBounded | app.py:314-323 | with pages of at most 50 ids, the loop overshoots `fetch_total` by fewer than 50 |
| Search.CollectEmptyFirstPage | app.py:320-321 | an empty first page ends the loop with no ids |
| Search.PrepareIdsFacts | app.py:325-326 | the ids looked up are distinct, at most `fetch_total`, all collected, in first-occurrence order, and all distinct ids when fewer than `fetch_total` |
| Search.PassesMeaning | app.py:349-355 | a record passes exactly when all the filters hold together: every include word and no exclude word occurs in the title (ignoring case), the channel name and id pass their include and exclude lists, and the duration is within the bounds |
| Search.AdmitEmitted | app.py:333-370 | every record made from one reply comes from a passing item, and there are no more records than items |
| Search.Chunk | app.py:330-331 | a chunk holds at most 50 ids and is non-empty while ids remain |
| Search.FetchVideos | app.py:329-371 | the chunk loop returns what the recursive `FetchFrom` specifies |
| Search.FetchEmitted | app.py:329-371 | every record the chunk loop emits comes from an item that passed the filters |
| Search.ChunksPartition | app.py:329-331 | the chunks are non-empty slices of at most 50 ids that together are the ids, in order |
| Search.DedupByUrl | app.py:388-393 | the `seen` loop returns what `UrlDedup` specifies |
| Search.UrlDedupStep | app.py:389-392 | a record is kept when its url is non-empty and has not been seen, and the seen set grows by its url |
| Search.UrlDedupFacts | app.py:388-393 | kept records have distinct non-empty urls, come from the input, and every non-empty url of the input is kept once |
| Search.SearchYoutube | app.py:286-393 | the pipeline returns what `SearchSpec` specifies |
| Search.SearchWithoutKeys | app.py:295-296 | without keys the search fails before any request |
| Search.ArrangeMembers | app.py:373-385 | sorting and the age gate only keep or drop records, never lengthening the list |
| Search.SearchEmitsPassingRecords | app.py:298-393 | every returned record comes from an item that passed all filters, and the urls are distinct |
| Search.EmittedMeaning | app.py:340-355 | an emitted record satisfies every filter on its own title, channel and duration, and `isShorts` holds exactly when 0 < seconds <= 60 |
| Search.SearchSortedByMode | app.py:373-377 | without an age tag the result is sorted by views (missing = -1) or by publication time, descending, as the session's sort setting says |
| Search.SearchAgeGate | app.py:380-393 | with an age tag, every returned record has no negative hit and a score of at least 1, and the result is sorted by (score, views or 0) descending |
| Trending.CollectChartPages | app.py:399-433 | the paging loop returns what the recursive `CollectChart` specifies |
| Trending.AppendRecords | app.py:419-431 | the page's items are appended to the collected list as records, one per item, in order, after what was there |
| Trending.CollectChartErrors | app.py:405-415 | an HTTP error never escapes the paging loop |
| Trending.ReturnedLength | app.py:452 | the returned slice holds min(len(pool), 120) records, so the floor of 60 never matters |
| Trending.PoolSizeFacts | app.py:448-449 | the pool is the whole list up to 40 records, never fewer than min(n, 40) records, and 60 % of the list from 67 records on |
| Trending.Shuffle | app.py:450-451 | the shuffle permutes the pool |
| Trending.FetchTrending | app.py:396-452 | no keys give []; a non-HTTP failure propagates; otherwise the result is min(len(pool), 120) records drawn from the pool (a permutation of the pool when it has at most 120), the pool being the first max(40, int(0.6n)) sorted, gated records |
| Trending.TrendingAgeGate | app.py:440-452 | under an age tag, every returned record comes from the chart, has no negative hit and scores at least 1 |
| Trending.TrendingPoolSorted | app.py:435-449 | without an age tag the pool is a prefix of the list in `order_mode` order |
| Recos.BuildAgeSeedQueries | app.py:455-461 | the filter-and-pad loop returns what `SeedQueries` specifies |
| Recos.PadFacts | app.py:459-460 | the padding keeps the list it is given, then copies `keys` position by position up to min(topk, len(keys)) entries |
| Recos.SeedQueriesFacts | app.py:455-461 | the seeds are never empty; for a known tag and topk > 0 they are the first topk unbanned keywords padded by position to min(topk, number of keywords), all keywords of the tag; otherwise they are ["교양", "뉴스"] |
| Recos.PadLength | app.py:459-460 | however the filter cut the list, the padding reaches min(topk, len(keys)) entries |
| Recos.SeedQueriesExamples | app.py:455-461 | padding by position repeats seeds and brings banned keywords back ("보험" twice for 40대; "캠핑" twice plus "요리" and "여행" for 50대); an unknown tag gives the default seeds |
| Recos.FallbackAgeRecommendations | app.py:464-489 | the merge returns what `Merge(Gathered(...))` of the eight seed searches specifies |
| Recos.GatherAll | app.py:466-482 | the query loop yields exactly `Gathered(qs, search)`: the successful searches' rows in query order, a failed search contributing none |
| Recos.MergeFacts | app.py:483-489 | the merged list has at most 200 records with distinct urls, sorted by views (or 0) descending, each from one of the searches |
| Recos.GatheredIgnoresFailures | app.py:468-482 | a failed search contributes exactly what a search with no rows would |
| Recos.GatheredKeeps | app.py:466-480 | whatever every search result satisfies, every gathered record satisfies |
| Recos.BoardRows | app.py:496-510 | a keyword's rows are the first `per_keyword` results of its search, and none when the search failed |
| Recos.KeywordRankedRecos | app.py:492-511 | the board has exactly the seed keywords as keys, each with its own rows, so one keyword's failure does not affect another's |
| Recos.FillBoard | app.py:494-510 | the board's keys are exactly the keywords, and each keyword maps to its own first `per_keyword` rows, or to no rows when its search failed |
| Tokens.RunEnd | app.py:517-518 | the greedy run of class characters ends at the first character outside the class |
| Tokens.FindAllMatches | app.py:524-525 | `findall` returns the match at every marker position, none lost to overlap |
| Tokens.MatchShape | app.py:517-518 | a match is its marker followed by at least `min` class characters |
| Tokens.ExtractTokensMeaning | app.py:516-526 | the tokens of a text are exactly its `@handle` and `#number` matches, each starting with its marker and at least 4 characters long |
| Tokens.CollectSourceTokensMeaning | app.py:538-544 | a source token is exactly a token of the title, of the description or, when OCR is tried and read text, of the thumbnail |
| Keyphrases.RunsFacts | app.py:580 | each word found is a substring of the text with at least 2 word characters |
| Keyphrases.CountedStep | app.py:583-584 | a stop word is skipped, any other word is counted |
| Keyphrases.DedupStep | app.py:585 | a new dict key goes to the end and a known one keeps its place |
| Keyphrases.CountWord | app.py:583-585 | the `freq` dict holds every counted word once, in first-occurrence order, with its exact count |
| Keyphrases.ExtractKeyphrases | app.py:578-588 | the loop and sort return what `Keyphrases` specifies |
| Keyphrases.CountsKey | app.py:586 | sorting the dict's items by count is sorting the words by frequency |
| Keyphrases.KeyphrasesCounted | app.py:584-587 | every key phrase is a counted word of at least 3 characters |
| Keyphrases.KeyphrasesWords | app.py:578-588 | there are at most `topk` key phrases, each a lower-case word of the text with at least 3 characters and not a stop word |
| Keyphrases.KeyphrasesDistinct | app.py:582-588 | no key phrase is repeated |
| Keyphrases.KeyphrasesNoSpace | app.py:580 | a key phrase is non-empty and has no space |
| Keyphrases.KeyphrasesByFrequency | app.py:586-587 | key phrases come in order of non-increasing frequency |
| Keyphrases.KeyphrasesTies | app.py:586-587 | equally frequent key phrases come in the order of their first occurrence in the text |
| Keyphrases.KeyphrasesTopK | app.py:586-587 | a counted word of 3 or more characters is left out only when `topk` phrases were kept, none less frequent than it |
| Keyphrases.WordsLowerCase | app.py:580 | the words come from the lower-cased text, so they are lower case |
| Keyphrases.FrequencyTies | app.py:586-587 | the stable sort keeps equally frequent words in the order they were first counted |
| Ranking.DomainWeight | app.py:568-576 | the weight is 0 exactly for an empty url, and otherwise one of 1.0, 1.2, 1.6, 1.8, 2.5 and 3.0 |
| Ranking.DomainWeightCases | app.py:568-576 | a url weighs 1.0 exactly when it names none of the sites, a url naming tiktok.com weighs 3.0 whatever else it names, and case does not matter |
| Ranking.DomainWeightExample | app.py:569-571 | "https://www.TikTok.com/@a" weighs 3.0 and "" weighs 0 |
| Ranking.DropWww | app.py:612 | the optional `www.` is dropped or kept, nothing else |
| Ranking.HostShape | app.py:612 | the host is the start of the link after an `http(s)://` scheme and a following `www.` are dropped, up to but not including its first '/' |
| Ranking.HostExampleTiktok | app.py:612 | "https://www.tiktok.com/@a" has host "tiktok.com" |
| Ranking.HostExampleNoScheme | app.py:612 | without a scheme, `www.` stays part of the host |
| Ranking.ScoreAll | app.py:596-607 | the scoring loop never lengthens the list |
| Ranking.ScoreAllMembers | app.py:596-607 | exactly the candidates that hit a token or a key phrase are scored, each with its own score |
| Ranking.ScoreFloor | app.py:598-604 | a scored candidate scores at least 1.2, and at least 2.2 when it has a link |
| Ranking.NothingToHit | app.py:598-601 | without tokens and key phrases no candidate is relevant |
| Ranking.CapHosts | app.py:609-616 | the per-host cap never lengthens the list |
| Ranking.CapHostsCounts | app.py:609-616 | the cap keeps min(2, n) of the n entries of each host |
| Ranking.CapHostsIndex | app.py:609-616 | every kept entry is an entry of the input |
| Ranking.CapHostsSorted | app.py:609-616 | the cap keeps the entries in their order, so a sorted list stays sorted |
| Ranking.HostCountPrefix | app.py:613-614 | a prefix never has more entries of a host than the whole list |
| Ranking.ScoreStep | app.py:596-607 | one more candidate is appended, with its score, exactly when it is relevant |
| Ranking.CapStep | app.py:611-616 | one more entry is kept exactly when fewer than two kept entries share its host |
| Ranking.SeenStep | app.py:613-615 | `seen_domain` counts, per host, the entries kept so far |
| Ranking.ScoreCandidates | app.py:596-607 | the scoring loop returns what `ScoreAll` specifies |
| Ranking.ScoreOne | app.py:597-604 | a candidate is kept exactly when it hits a token or a key phrase, and a kept one carries `Score`: 2.0 per token hit, 1.2 per key-phrase hit, the domain weight and 1.0 for title similarity |
| Ranking.CapPerHost | app.py:609-616 | the `seen_domain` loop returns what `CapHosts` specifies |
| Ranking.RankExternalResults | app.py:590-617 | the function returns what `Ranked` specifies: score, stable sort by score descending, cap per host, cut to 12 |
| Ranking.CutFacts | app.py:608-617 | cutting a capped sorted list gives at most 12 sorted entries with at most 2 per host, all from the list |
| Ranking.RankedFacts | app.py:590-617 | no candidates give []; the result has at most 12 entries, at most 2 per host, non-increasing scores, and each is a new entry for a candidate that hits a token or a key phrase, with that candidate's score |
| Ranking.ScoreAllIrrelevant | app.py:600-601 | when no candidate is relevant, the scoring gives nothing |
| Ranking.RankedWithoutProbes | app.py:590-617 | without tokens and key phrases no candidate is returned |
| Trace.ListingUnique | app.py:967 | a set of strings has only one ascending listing without repeats, the one `sorted` returns |
| Trace.ListingEmpty | app.py:967 | the listing is empty exactly when the set is |
| Trace.TailListing | app.py:967 | the tail of a listing lists the set without its least element |
| Trace.ListingExists | app.py:967 | every finite set of strings has a listing |
| Trace.SortedListing | app.py:967 | `sorted(tokens)` lists every token once, in ascending code-point order |
| Trace.SortTokens | app.py:967 | draining the set and sorting gives `sorted(tokens)` |
| Trace.SiteQueryShape | app.py:976-985 | a site query ends in " site:<site>", starts with the token query in parentheses when there is one, holds the key string when there is one, and is the key string plus the restriction when there are no tokens |
| Trace.OpenQueryShape | app.py:987-992 | the open query starts with the token query in parentheses when there is one, holds the key string when there is one, and is just one of them when the other is empty |
| Trace.QueryAt | app.py:968-992 | query k is the site query of site k of the pool, and the last one is the open query |
| Trace.QueriesShape | app.py:968-992 | twelve queries are sent, one per site of the pool and then the open one, with the shapes above |
| Trace.TokenQueryFacts | app.py:967 | the token query has at most 180 characters, is a prefix of the " OR " join of the sorted tokens, is the whole join when that fits, and is empty exactly when there are no tokens |
| Trace.JoinStartsWithFirst | app.py:967 | a join begins with its first part |
| Trace.JoinEmpty | app.py:958-967 | a join of non-empty parts is empty exactly when there are no parts |
| Trace.KeyStrFacts | app.py:956-958 | the key string is empty exactly when both phrase lists are; otherwise splitting it on spaces gives back the (at most four) phrases it joins |
| Trace.GatherStep | app.py:976-992 | each query's results are appended in query order |
| Trace.BuildTokenQuery | app.py:967 | the token query is `" OR ".join(sorted(tokens))[:180]`, or "" without tokens |
| Trace.SearchAll | app.py:968-992 | the site loop and the open search return the results of the twelve queries, concatenated in order |
| Trace.TraceSearch | app.py:944-996 | the trace returns what `TraceSpec` specifies |
| Trace.GatherMembers | app.py:976-992 | a gathered result is exactly a result of one of the queries |
| Trace.TraceFacts | app.py:953-996 | the trace stops for lack of tokens and key phrases exactly when the video has neither; it stops for lack of search keys exactly when they are not configured and something is present; otherwise it returns at most 12 candidates, at most 2 per host, each a result of one of the queries that hits a token or a key phrase |
| Transcript.ConcatAppend | app.py:842-845 | closing a group appends its lines to the lines already grouped |
| Transcript.LinesStep | app.py:840-844 | one more line goes through the loop body |
| Transcript.ChunkTranscript | app.py:838-846 | the `buf`/`chunks` loop returns what `Chunks` specifies |
| Transcript.FoldKept | app.py:839-844 | the loop keeps its invariant: only the first closed group may be empty, a group of two or more lines fits, each closed group overflows with the next line, and no line is lost or reordered |
| Transcript.StepKept | app.py:841-844 | one line preserves the loop invariant |
| Transcript.CloseGroup | app.py:842 | closing the buffer preserves the group invariants |
| Transcript.GroupsAreLines | app.py:838-846 | the chunks hold the transcript's lines, every one once, in order |
| Transcript.GroupsBounded | app.py:841-845 | a chunk of two or more lines fits in `max_chars`, no chunk after the first is empty, and a chunk stops only where the next line would overflow it |
| Transcript.FirstChunk | app.py:840-845 | no lines give no chunks; otherwise the first chunk is empty exactly when the first line alone is longer than `max_chars` |
| Transcript.FirstGroup | app.py:840-844 | after the first line the first group is fixed: empty if that line overflows alone, and otherwise starting with it |
| Transcript.ChunksFacts | app.py:838-846 | chunks are numbered 1, 2, ... in order; an empty transcript has none; a first line over `max_chars` gives an empty first chunk; a chunk of two or more lines fits in `max_chars`; after the first, a chunk has text unless it is one empty line |
| Ordering.SortSortedPermutation | app.py:374-377 | the sort's result is ordered by its key and is a permutation of its input |
| Ordering.SortStable | app.py:586 | elements with equal keys keep their relative order, as in Python's stable sort |
| Ordering.DedupCharacterized | app.py:325 | `list(dict.fromkeys(s))` has no repeats, the same elements as s, in first-occurrence order |
| Ordering.DedupByCharacterized | app.py:388-393 | de-duplicating by url keeps the first record of each url, in first-occurrence order, and loses no url |
| Text.Strip | app.py:1281 | `str.strip()` gives a substring of the input with no white space at either end |
| Text.Split | app.py:44 | `s.split(",")` gives at least one part, and no part holds the separator |
| Text.JoinSplit | app.py:958 | joining the parts of a split with its separator gives the string back |
| Text.SplitJoin | app.py:958 | splitting a join of separator-free parts gives the parts back |
| Text.WordsFacts | app.py:603 | the words of `str.split()` are non-empty and free of white space, and there are none exactly when the string is all white space |
| Text.SplitLines | app.py:840 | no line of `str.splitlines()` holds a line break |
| Text.SplitLinesTerminated | app.py:840 | `splitlines` gives back break-free lines written one per "\n"-terminated row |

## Left out

- The Streamlit UI is not modelled: rendering, CSS, routing, `query_params`,
  and the `st.warning`, `st.info` and caption messages. This includes the
  quota warning in `yt_get`, the manual-mode gate of the trace button and the
  "not ranked" notice. They are presentation only.
- Networking is not modelled: the HTTP session and its retry adapter,
  `http_get` and `http_get_bytes`. Every API answer is an input of the model.
- Foreign services are inputs, not models:
  - `web_search` is the oracle `webSearch`;
  - the DeepL and MyMemory translation is left out;
  - `ocr_tokens_from_thumb` is the parameter `ocrText`;
  - the transcript fetch is left out.
- `st.cache_data` caching and the `time.sleep` throttles are left out. They do
  not change results.
- `published_after_from_option` is left out because it reads the wall clock.
  The search's `publishedAfter`, region, language, safe-search, licence and
  duration-bucket parameters only shape the request. That request is an
  input.
- `compute_engagement_score` is left out because it is a float power. Each
  chart item carries its engagement as an abstract integer rank.
- `fmt_int` is left out because it is float formatting for display.
- `heuristic_prompts` is left out because it is template text with no stated
  property.
- Trending.Shuffle: the seeded `random.Random` shuffle is modelled as a
  Fisher-Yates shuffle driven by an arbitrary `draw` oracle. Only "some
  permutation of the pool" is stated, never the exact order.
- Trending.FetchTrending: the `salt` seed and the region default are not
  modelled, because they only feed the random source and the request.
- The record fields `platform`, `thumbnail` and `durationText` are not
  modelled, because no modelled operation reads them. Neither is the
  `_age_score` key the age gate stores, because the gate's sort key computes
  the same score.
- Videos.ToVideo: `int(viewCount)` failing on a non-numeric count, which
  would raise, is not modelled. A present count is a natural number.
- Text and character classes are approximations:
  - `str.lower` lowers ASCII letters only. Every keyword table is ASCII or
    Hangul, which has no case, so the difference shows only for other
    letters in titles, descriptions and web results, such as `İ` or the
    Kelvin sign;
  - Tokens.IsWordChar: `\w` is ASCII letters, digits, `_` and the Hangul
    syllables 가-힣, so `@홍길동` is a handle as in the program. Other Unicode
    letters and digits (Hangul jamo, CJK, accented Latin) are not, so a
    handle such as `@José` stops at `@Jos` in the model;
  - Duration.LeadingDigits: `\d` is the ASCII digits 0-9, where Python's
    `\d` and `int()` also take other Unicode decimal digits, so "PT٣S"
    parses to 3 in the program and to 0 here. YouTube writes its durations
    in ASCII.
- Ranking.RankExternalResults: scores are integers of tenths, not floats
  rounded to 3 decimals. Each float sum is within far less than 0.0005 of its
  exact tenths, so the order and the ties are the same.
- Trending.PoolSizeFacts: `int(n * 0.6)` is modelled as `(6 * n) / 10`. The
  two agree for every list length the program can hold, below 2^50.
- Recos.KeywordRankedRecos: the board is a `map`, so the dict's insertion
  order (the seed order in which the board is displayed, app.py:1268) is not
  modelled. The keys and each keyword's rows are.
- Recos.KeywordRankedRecos: `per_keyword` is a natural number. A negative one
  would make `rows[:per_keyword]` drop rows from the end instead. The same
  holds for `topk` in Recos.BuildAgeSeedQueries and
  Keyphrases.ExtractKeyphrases.
- Transcript.ChunkTranscript: only the 12-chunk display cut of the caller is
  left out (`chunks[:12]`, app.py:927). It is presentation.
- Trace.TraceSearch: the row's title and description are strings. A missing
  field is the empty string, as `row.get(..., "")` gives, and a `None` title
  is not modelled.
- Three behaviours of the program a caller may not expect. The model follows
  the program:
  - **`yt_get` with every key out of quota.** The program raises the generic
    "unknown cause" error, not the last HTTP error
    (KeyRotation.YtGetAllQuotaExceeded).
  - **Trending errors.** The trending loop catches only HTTP errors. A
    timeout or a non-JSON answer from `yt_get` propagates
    (Trending.CollectChartErrors, Trending.FetchTrending).
  - **Search sort order.** `search_youtube` sorts by the session's `yt_sort`
    setting, not by its `order_mode` argument (Search.SearchSortedByMode).
    `order_mode` is used only for the request.
