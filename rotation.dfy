/**
 * `yt_get` (app.py:72-108): every YouTube Data API request goes through a
 * pool of keys. Starting from the key that last succeeded, each key is
 * tried at most once, in rotation order; a 403 whose error reason is
 * `quotaExceeded` moves on silently, any other failure is remembered; the
 * first success pins its key for later calls.
 *
 * This module is the specification of one call: `Rotation` is the loop
 * written as a recursive function over the keys still to be tried, and the
 * lemmas below state what it guarantees. `Session.YtGet` (session.dfy) is the
 * loop itself, proved equal to `YtGetSpec`.
 */
module KeyRotation {

  datatype Option<T> = None | Some(value: T)

  /** What a YouTube request can end in, as seen by the callers of yt_get. */
  datatype ApiError =
    | NoApiKey                  // RuntimeError: the pool is empty
    | HttpStatus(code: int)     // requests.exceptions.HTTPError raised by raise_for_status
    | Failure(reason: string)   // any other exception (timeout, connection, body not JSON)
    | UnknownCause              // RuntimeError "원인 불명": every key reported quotaExceeded

  datatype Result<T> = Ok(value: T) | Err(error: ApiError)

  /**
   * The answer to one request sent with one key: either an HTTP response
   * (status code, the first `error.errors[].reason` of its body or "" when it
   * has none, and the decoded JSON body or None when `r.json()` raises), or
   * an exception raised by the request itself.
   */
  datatype Reply<B> =
    | Response(status: int, reason: string, body: Option<B>)
    | Raised(message: string)

  /** requests' `raise_for_status` raises for 4xx and 5xx codes only. */
  predicate IsHttpError(status: int)
  {
    400 <= status < 600
  }

  /** The reply that moves on to the next key without recording an error. */
  predicate IsQuotaExceeded<B>(reply: Reply<B>)
  {
    reply.Response? && reply.status == 403 && reply.reason == "quotaExceeded"
  }

  /** The reply that ends the rotation with the decoded body. */
  predicate IsSuccess<B>(reply: Reply<B>)
  {
    reply.Response? && !IsQuotaExceeded(reply) && !IsHttpError(reply.status) && reply.body.Some?
  }

  /** The reply that pins the key although `r.json()` then raises. */
  predicate PinsKey<B>(reply: Reply<B>)
  {
    reply.Response? && !IsQuotaExceeded(reply) && !IsHttpError(reply.status)
  }

  /** The error a failing reply leaves in `last_err`. */
  function ErrorOf<B>(reply: Reply<B>): (e: ApiError)
    requires !IsQuotaExceeded(reply) && !IsSuccess(reply)
    ensures reply.Response? && IsHttpError(reply.status) ==> e == HttpStatus(reply.status)
    ensures e.Failure? || e.HttpStatus?
  {
    match reply
    case Raised(m) => Failure(m)
    case Response(status, _, _) =>
      if IsHttpError(status) then HttpStatus(status) else Failure("response body is not JSON")
  }

  /** The n-th key of the rotation that starts at `start` in a pool of n keys. */
  function KeyAt(n: nat, start: int, offset: nat): (idx: nat)
    requires n > 0
    ensures idx < n
  {
    (start + offset) % n
  }

  /** What one yt_get call produces: its result, the key indices it tried, the new pinned index. */
  datatype Attempt<B> = Attempt(result: Result<B>, tried: seq<nat>, keyIdx: int)

  /** The rotation loop from `offset` on, with the error and pinned index collected so far. */
  function Rotation<B>(n: nat, start: int, reply: nat -> Reply<B>, offset: nat,
                       tried: seq<nat>, lastErr: Option<ApiError>, keyIdx: int): Attempt<B>
    requires 0 < n && offset <= n
    decreases n - offset
  {
    if offset == n then
      Attempt(if lastErr.Some? then Err(lastErr.value) else Err(UnknownCause), tried, keyIdx)
    else
      var idx := KeyAt(n, start, offset);
      var r := reply(idx);
      if IsQuotaExceeded(r) then Rotation(n, start, reply, offset + 1, tried + [idx], lastErr, keyIdx)
      else if IsSuccess(r) then Attempt(Ok(r.body.value), tried + [idx], idx)
      else
        var pinned := if PinsKey(r) then idx else keyIdx;
        Rotation(n, start, reply, offset + 1, tried + [idx], Some(ErrorOf(r)), pinned)
  }

  /** One yt_get call on a pool of n keys whose pinned index is `start`. */
  function YtGetSpec<B>(n: nat, start: int, reply: nat -> Reply<B>): Attempt<B>
  {
    if n == 0 then Attempt(Err(NoApiKey), [], start)
    else Rotation(n, start, reply, 0, [], None, start)
  }

  /** The replies of the whole pool in rotation order. */
  function Replies<B>(n: nat, start: int, reply: nat -> Reply<B>): (rs: seq<Reply<B>>)
    requires n > 0
    ensures |rs| == n && forall k :: 0 <= k < n ==> rs[k] == reply(KeyAt(n, start, k))
  {
    seq(n, k requires 0 <= k < n => reply(KeyAt(n, start, k)))
  }

  /** Reference definition of the error a failed call raises: the last non-quota failure. */
  function LastFailure<B>(rs: seq<Reply<B>>): Option<ApiError>
    requires forall k :: 0 <= k < |rs| ==> !IsSuccess(rs[k])
  {
    if |rs| == 0 then None
    else if IsQuotaExceeded(rs[|rs| - 1]) then LastFailure(rs[..|rs| - 1])
    else Some(ErrorOf(rs[|rs| - 1]))
  }

  /** The keys a rotation tries from `offset` on are the next ones in rotation order. */
  lemma {:induction false} RotationTries<B>(n: nat, start: int, reply: nat -> Reply<B>, offset: nat,
                                            tried: seq<nat>, lastErr: Option<ApiError>, keyIdx: int)
    requires 0 < n && offset <= n
    requires |tried| == offset && forall k :: 0 <= k < offset ==> tried[k] == KeyAt(n, start, k)
    requires forall k :: 0 <= k < offset ==> !IsSuccess(reply(tried[k]))
    ensures var a := Rotation(n, start, reply, offset, tried, lastErr, keyIdx);
      && offset <= |a.tried| <= n
      && (forall k :: 0 <= k < |a.tried| ==> a.tried[k] == KeyAt(n, start, k))
      && (forall k :: 0 <= k < |a.tried| - 1 ==> !IsSuccess(reply(a.tried[k])))
      && (a.result.Err? ==> |a.tried| == n && forall k :: 0 <= k < n ==> !IsSuccess(reply(a.tried[k])))
    decreases n - offset
  {
    if offset < n {
      var idx := KeyAt(n, start, offset);
      var r := reply(idx);
      if !IsSuccess(r) {
        var e := if IsQuotaExceeded(r) then lastErr else Some(ErrorOf(r));
        var pinned := if !IsQuotaExceeded(r) && PinsKey(r) then idx else keyIdx;
        RotationTries(n, start, reply, offset + 1, tried + [idx], e, pinned);
      }
    }
  }

  /** A rotation that succeeds ends on a key whose reply is a success, pinned, with its body. */
  lemma {:induction false} RotationOk<B>(n: nat, start: int, reply: nat -> Reply<B>, offset: nat,
                                         tried: seq<nat>, lastErr: Option<ApiError>, keyIdx: int)
    requires 0 < n && offset <= n
    ensures var a := Rotation(n, start, reply, offset, tried, lastErr, keyIdx);
      a.result.Ok? ==>
        && |a.tried| > 0 && IsSuccess(reply(a.tried[|a.tried| - 1]))
        && a.result.value == reply(a.tried[|a.tried| - 1]).body.value
        && a.keyIdx == a.tried[|a.tried| - 1]
    decreases n - offset
  {
    if offset < n {
      var idx := KeyAt(n, start, offset);
      var r := reply(idx);
      if !IsSuccess(r) {
        var e := if IsQuotaExceeded(r) then lastErr else Some(ErrorOf(r));
        var pinned := if !IsQuotaExceeded(r) && PinsKey(r) then idx else keyIdx;
        RotationOk(n, start, reply, offset + 1, tried + [idx], e, pinned);
      }
    }
  }

  /** A rotation that fails raises the last non-quota failure, or "unknown cause" when there is none. */
  lemma {:induction false} RotationErr<B>(n: nat, start: int, reply: nat -> Reply<B>, offset: nat,
                                          tried: seq<nat>, lastErr: Option<ApiError>, keyIdx: int)
    requires 0 < n && offset <= n
    requires forall k :: 0 <= k < n ==> !IsSuccess(reply(KeyAt(n, start, k)))
    requires lastErr == LastFailure(Replies(n, start, reply)[..offset])
    ensures var a := Rotation(n, start, reply, offset, tried, lastErr, keyIdx);
      var f := LastFailure(Replies(n, start, reply));
      a.result == Err(if f.Some? then f.value else UnknownCause)
    decreases n - offset
  {
    var rs := Replies(n, start, reply);
    if offset == n {
      assert rs[..offset] == rs;
    } else {
      var idx := KeyAt(n, start, offset);
      var r := reply(idx);
      assert rs[..offset + 1][..offset] == rs[..offset];
      assert rs[..offset + 1][offset] == r;
      var e := if IsQuotaExceeded(r) then lastErr else Some(ErrorOf(r));
      var pinned := if !IsQuotaExceeded(r) && PinsKey(r) then idx else keyIdx;
      assert LastFailure(rs[..offset + 1]) == e;
      RotationErr(n, start, reply, offset + 1, tried + [idx], e, pinned);
    }
  }

  /** A failed rotation leaves the pinned index alone unless some reply was a 2xx without a JSON body. */
  lemma {:induction false} RotationKeepsPin<B>(n: nat, start: int, reply: nat -> Reply<B>, offset: nat,
                                               tried: seq<nat>, lastErr: Option<ApiError>, keyIdx: int)
    requires 0 < n && offset <= n
    requires forall k :: offset <= k < n ==> !PinsKey(reply(KeyAt(n, start, k)))
    ensures Rotation(n, start, reply, offset, tried, lastErr, keyIdx).keyIdx == keyIdx
    decreases n - offset
  {
    if offset < n {
      var idx := KeyAt(n, start, offset);
      var r := reply(idx);
      var e := if IsQuotaExceeded(r) then lastErr else Some(ErrorOf(r));
      RotationKeepsPin(n, start, reply, offset + 1, tried + [idx], e, keyIdx);
    }
  }

  /** An empty pool fails before any request. */
  lemma YtGetNoKeys<B>(start: int, reply: nat -> Reply<B>)
    ensures YtGetSpec(0, start, reply) == Attempt(Err(NoApiKey), [], start)
  {
  }

  /** A call tries between one and n keys, in rotation order from the pinned one, and stops at the first success. */
  lemma YtGetTries<B>(n: nat, start: int, reply: nat -> Reply<B>)
    requires n > 0
    ensures var a := YtGetSpec(n, start, reply);
      && 1 <= |a.tried| <= n
      && (forall k :: 0 <= k < |a.tried| ==> a.tried[k] == KeyAt(n, start, k))
      && (forall k :: 0 <= k < |a.tried| - 1 ==> !IsSuccess(reply(a.tried[k])))
      && (a.result.Err? ==> |a.tried| == n && forall k :: 0 <= k < n ==> !IsSuccess(reply(KeyAt(n, start, k))))
  {
    RotationTries(n, start, reply, 0, [], None, start);
    RotationOk(n, start, reply, 0, [], None, start);
  }

  /** A successful call returns the body of the key that answered and pins that key. */
  lemma YtGetOk<B>(n: nat, start: int, reply: nat -> Reply<B>)
    ensures var a := YtGetSpec(n, start, reply);
      a.result.Ok? ==>
        && |a.tried| > 0 && IsSuccess(reply(a.tried[|a.tried| - 1]))
        && a.result.value == reply(a.tried[|a.tried| - 1]).body.value
        && a.keyIdx == a.tried[|a.tried| - 1]
  {
    if n > 0 {
      RotationOk(n, start, reply, 0, [], None, start);
    }
  }

  /** A failed call on a non-empty pool raises the last non-quota failure, or "unknown cause". */
  lemma YtGetErr<B>(n: nat, start: int, reply: nat -> Reply<B>)
    requires n > 0
    requires forall k :: 0 <= k < n ==> !IsSuccess(reply(KeyAt(n, start, k)))
    ensures var f := LastFailure(Replies(n, start, reply));
      YtGetSpec(n, start, reply).result == Err(if f.Some? then f.value else UnknownCause)
  {
    assert Replies(n, start, reply)[..0] == [];
    RotationErr(n, start, reply, 0, [], None, start);
  }

  /** Only a reply that gets past raise_for_status moves the pinned key. */
  lemma YtGetKeepsPin<B>(n: nat, start: int, reply: nat -> Reply<B>)
    requires forall k :: 0 <= k < n ==> !PinsKey(reply(KeyAt(n, start, k)))
    ensures YtGetSpec(n, start, reply).keyIdx == start
  {
    if n > 0 {
      RotationKeepsPin(n, start, reply, 0, [], None, start);
    }
  }

  /** The keys tried are distinct: no key is sent twice in one call. */
  lemma YtGetTriesEachKeyOnce<B>(n: nat, start: int, reply: nat -> Reply<B>)
    ensures var t := YtGetSpec(n, start, reply).tried;
      forall i, j :: 0 <= i < j < |t| ==> t[i] != t[j]
  {
    var t := YtGetSpec(n, start, reply).tried;
    if n > 0 {
      YtGetTries(n, start, reply);
    }
    forall i, j | 0 <= i < j < |t| ensures t[i] != t[j] {
      KeyAtDistinct(n, start, i, j);
    }
  }

  lemma KeyAtDistinct(n: nat, start: int, i: nat, j: nat)
    requires 0 < n && i < j < n
    ensures KeyAt(n, start, i) != KeyAt(n, start, j)
  {
    var a := start + i;
    var q, r := a / n, a % n;
    var d := j - i;
    assert start + j == n * q + (r + d);
    if r + d < n {
      ModOfRemainder(n, q, r + d);
    } else {
      assert start + j == n * (q + 1) + (r + d - n);
      ModOfRemainder(n, q + 1, r + d - n);
    }
  }

  /** The remainder of n * q + r by n is r, for 0 <= r < n. */
  lemma ModOfRemainder(n: int, q: int, r: int)
    requires n > 0 && 0 <= r < n
    ensures (n * q + r) % n == r
  {
    var x := n * q + r;
    var q2, r2 := x / n, x % n;
    assert n * (q - q2) == r2 - r;
    if q > q2 {
      MulAtLeast(n, q - q2);
    } else if q < q2 {
      MulAtLeast(n, q2 - q);
    }
  }

  lemma {:induction false} MulAtLeast(n: int, d: int)
    requires n > 0 && d >= 1
    ensures n * d >= n
  {
    if d > 1 {
      MulAtLeast(n, d - 1);
      assert n * d == n * (d - 1) + n;
    }
  }

  /** The call succeeds exactly when some key of the pool answers successfully. */
  lemma YtGetSucceedsIff<B>(n: nat, start: int, reply: nat -> Reply<B>)
    ensures YtGetSpec(n, start, reply).result.Ok? <==>
      (n > 0 && exists k :: 0 <= k < n && IsSuccess(reply(KeyAt(n, start, k))))
  {
    var a := YtGetSpec(n, start, reply);
    if n > 0 {
      YtGetTries(n, start, reply);
      YtGetOk(n, start, reply);
      if a.result.Ok? {
        var k := |a.tried| - 1;
        assert IsSuccess(reply(KeyAt(n, start, k)));
      }
    }
  }

  /** When every key is out of quota the call raises the "unknown cause" error. */
  lemma YtGetAllQuotaExceeded<B>(n: nat, start: int, reply: nat -> Reply<B>)
    requires n > 0
    requires forall k :: 0 <= k < n ==> IsQuotaExceeded(reply(KeyAt(n, start, k)))
    ensures YtGetSpec(n, start, reply) == Attempt(Err(UnknownCause), Rotations(n, start), start)
  {
    YtGetTries(n, start, reply);
    YtGetErr(n, start, reply);
    YtGetKeepsPin(n, start, reply);
    var a := YtGetSpec(n, start, reply);
    AllQuotaNoFailure(Replies(n, start, reply));
    assert a.tried == Rotations(n, start);
  }

  /** The key indices of a full rotation. */
  function Rotations(n: nat, start: int): (t: seq<nat>)
    requires n > 0
    ensures |t| == n && forall k :: 0 <= k < n ==> t[k] == KeyAt(n, start, k)
  {
    seq(n, k requires 0 <= k < n => KeyAt(n, start, k))
  }

  lemma {:induction false} AllQuotaNoFailure<B>(rs: seq<Reply<B>>)
    requires forall k :: 0 <= k < |rs| ==> IsQuotaExceeded(rs[k])
    ensures LastFailure(rs) == None
  {
    if |rs| > 0 {
      AllQuotaNoFailure(rs[..|rs| - 1]);
    }
  }

  /** The scenario of the pool of three keys: index 1 pinned, out of quota; index 2 answers. */
  lemma YtGetThreeKeysExample(body: int)
    ensures var reply := (i: nat) =>
        if i == 0 then Response(200, "", Some(0))
        else if i == 1 then Response(403, "quotaExceeded", None)
        else Response(200, "", Some(body));
      YtGetSpec(3, 1, reply) == Attempt(Ok(body), [1, 2], 2)
  {
  }
}
