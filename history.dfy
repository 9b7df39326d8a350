/**
 * Search-history maintenance (app.py:1281-1287): the submitted query is
 * stripped; a blank one is ignored; a new one is appended; the list keeps
 * its last 10 entries.
 */
module History {
  import opened Text

  const MaxHistory: nat := 10

  /** The invariant the history keeps: at most 10 distinct, stripped, non-blank queries. */
  predicate WellFormed(h: seq<string>)
  {
    |h| <= MaxHistory && Distinct(h) && AllClean(h)
  }

  predicate Distinct(h: seq<string>)
  {
    forall i, j :: 0 <= i < j < |h| ==> h[i] != h[j]
  }

  predicate Clean(s: string)
  {
    s != "" && Strip(s) == s
  }

  predicate AllClean(h: seq<string>)
  {
    forall i :: 0 <= i < |h| ==> Clean(h[i])
  }

  /** The history after the query `q` has been submitted. */
  function Push(h: seq<string>, q: string): (r: seq<string>)
    ensures Strip(q) == "" ==> r == h
    ensures Strip(q) != "" ==> |r| <= MaxHistory
    ensures Strip(q) != "" && |h| < MaxHistory ==> Strip(q) in r
    ensures Strip(q) != "" && Strip(q) !in h ==> |r| > 0 && r[|r| - 1] == Strip(q)
    ensures forall i :: 0 <= i < |r| ==> r[i] in h || r[i] == Strip(q)
  {
    var cur := Strip(q);
    AddFacts(h, cur);
    if cur == "" then h else Add(h, cur)
  }

  /** Appending a stripped, non-blank query unless present, then keeping the last 10. */
  function Add(h: seq<string>, cur: string): seq<string>
  {
    KeepLast(if cur in h then h else h + [cur])
  }

  lemma AddFacts(h: seq<string>, cur: string)
    ensures var r := Add(h, cur);
      && |r| <= MaxHistory
      && (|h| < MaxHistory ==> cur in r)
      && (cur !in h ==> |r| > 0 && r[|r| - 1] == cur)
      && (forall i :: 0 <= i < |r| ==> r[i] in h || r[i] == cur)
  {
    var added := if cur in h then h else h + [cur];
    var r := KeepLast(added);
    assert forall i :: 0 <= i < |r| ==> r[i] == added[|added| - |r| + i];
    if |h| < MaxHistory {
      assert r == added;
    }
  }

  /** `h[-10:]` */
  function KeepLast(h: seq<string>): (r: seq<string>)
    ensures |r| <= MaxHistory && |h| - |r| >= 0 && r == h[|h| - |r|..]
    ensures |h| <= MaxHistory ==> r == h
  {
    if |h| > MaxHistory then h[|h| - MaxHistory..] else h
  }

  /** Submitting a query keeps the history well formed. */
  lemma PushWellFormed(h: seq<string>, q: string)
    requires WellFormed(h)
    ensures WellFormed(Push(h, q))
  {
    var cur := Strip(q);
    if cur != "" {
      StripIdempotent(q);
      assert Clean(cur);
      if cur !in h {
        AppendFresh(h, cur);
        KeepLastWellFormed(h + [cur]);
      } else {
        KeepLastWellFormed(h);
      }
    }
  }

  lemma KeepLastWellFormed(h: seq<string>)
    requires Distinct(h) && AllClean(h)
    ensures WellFormed(KeepLast(h))
  {
    var r := KeepLast(h);
    SuffixKeeps(h, |h| - |r|);
  }

  lemma AppendFresh(h: seq<string>, x: string)
    requires Distinct(h) && AllClean(h) && Clean(x) && x !in h
    ensures Distinct(h + [x]) && AllClean(h + [x])
  {
    var a := h + [x];
    forall i, j | 0 <= i < j < |a| ensures a[i] != a[j] {
      if j == |h| {
        assert a[i] == h[i];
      }
    }
  }

  lemma SuffixKeeps(h: seq<string>, k: nat)
    requires Distinct(h) && AllClean(h) && k <= |h|
    ensures Distinct(h[k..]) && AllClean(h[k..])
  {
    var t := h[k..];
    forall i, j | 0 <= i < j < |t| ensures t[i] != t[j] {
      assert t[i] == h[k + i] && t[j] == h[k + j];
    }
  }

  lemma StripIdempotent(s: string)
    ensures Strip(Strip(s)) == Strip(s)
  {
    StripOfStripped(Strip(s));
  }

  /** Resubmitting a query already in the history changes nothing. */
  lemma PushKnown(h: seq<string>, q: string)
    requires |h| <= MaxHistory && Strip(q) in h
    ensures Push(h, q) == h
  {
  }

  /** A new query on a full history drops the oldest entry. */
  lemma PushDropsOldest(h: seq<string>, q: string)
    requires |h| == MaxHistory && Strip(q) != "" && Strip(q) !in h
    ensures Push(h, q) == h[1..] + [Strip(q)]
  {
    assert (h + [Strip(q)])[1..] == h[1..] + [Strip(q)];
  }
}
