/**
 * The part of `st.session_state` (app.py:238-255) that the modelled
 * routines read and write: the pinned API key index, the current result
 * page and the search history. `YtGet` is the loop of `yt_get`
 * (app.py:72-108), proved equal to `KeyRotation.YtGetSpec`.
 */
module AppSession {
  import opened Text
  import opened KeyRotation
  import Paging
  import History

  class Session {
    var keyIdx: int
    var page: int
    var searchHistory: seq<string>

    /** What every handler below keeps: a page number >= 1 and a well-formed history. */
    predicate Valid()
      reads this
    {
      page >= 1 && History.WellFormed(searchHistory)
    }

    /** `init_state`: key index 0, first page, empty history. */
    constructor ()
      ensures Valid()
      ensures keyIdx == 0 && page == 1 && searchHistory == []
    {
      keyIdx := 0;
      page := 1;
      searchHistory := [];
    }

    /**
     * `yt_get` on the pool `keys`: `reply(i)` is what the request sent with
     * key i answers. Returns the result and the key indices tried, in order.
     */
    method YtGet<B>(keys: seq<string>, reply: nat -> Reply<B>) returns (r: Result<B>, tried: seq<nat>)
      modifies this`keyIdx
      ensures YtGetSpec(|keys|, old(keyIdx), reply) == Attempt(r, tried, keyIdx)
    {
      var n := |keys|;
      if n == 0 {
        return Err(NoApiKey), [];
      }
      var lastErr: Option<ApiError> := None;
      var start := keyIdx;
      tried := [];
      for offset := 0 to n
        invariant |tried| == offset
        invariant Rotation(n, start, reply, 0, [], None, start)
               == Rotation(n, start, reply, offset, tried, lastErr, keyIdx)
      {
        var idx := (start + offset) % n;
        var answer := reply(idx);
        tried := tried + [idx];
        if IsQuotaExceeded(answer) {
          continue;
        }
        if answer.Raised? {
          lastErr := Some(Failure(answer.message));
        } else if IsHttpError(answer.status) {
          lastErr := Some(HttpStatus(answer.status));
        } else {
          keyIdx := idx;
          if answer.body.Some? {
            return Ok(answer.body.value), tried;
          }
          lastErr := Some(Failure("response body is not JSON"));
        }
      }
      if lastErr.Some? {
        return Err(lastErr.value), tried;
      }
      return Err(UnknownCause), tried;
    }

    /** "⏮ 처음" */
    method GoFirst()
      requires Valid()
      modifies this`page
      ensures Valid() && page == Paging.First()
    {
      page := 1;
    }

    /** "◀ 이전" */
    method GoPrev()
      requires Valid()
      modifies this`page
      ensures Valid() && page == Paging.Prev(old(page))
    {
      page := if page - 1 > 1 then page - 1 else 1;
    }

    /** "다음 ▶" on a result list of `count` rows. */
    method GoNext(count: nat)
      requires Valid()
      modifies this`page
      ensures Valid() && page == Paging.Next(old(page), count)
    {
      var total := Paging.TotalPages(count);
      page := if total < page + 1 then total else page + 1;
    }

    /** "마지막 ⏭" on a result list of `count` rows. */
    method GoLast(count: nat)
      requires Valid()
      modifies this`page
      ensures Valid() && page == Paging.Last(count)
    {
      page := Paging.TotalPages(count);
    }

    /** `slice_df_for_page`: the rows shown on the current page. */
    function CurrentRows<T>(rows: seq<T>): (r: seq<T>)
      requires Valid()
      reads this
      ensures |r| <= Paging.PageSize
      ensures forall i :: 0 <= i < |r| ==>
        (page - 1) * Paging.PageSize + i < |rows| && r[i] == rows[(page - 1) * Paging.PageSize + i]
    {
      Paging.PageSlice(rows, page)
    }

    /** A submitted search query is recorded in the history (app.py:1281-1287). */
    method RecordSearch(query: string)
      requires Valid()
      modifies this`searchHistory
      ensures Valid() && searchHistory == History.Push(old(searchHistory), query)
    {
      var current := Strip(query);
      if current != "" {
        if current !in searchHistory {
          searchHistory := searchHistory + [current];
        }
        if |searchHistory| > 10 {
          searchHistory := searchHistory[|searchHistory| - 10..];
        }
      }
      History.PushWellFormed(old(searchHistory), query);
    }
  }
}
