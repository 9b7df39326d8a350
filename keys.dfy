/**
 * The API key pool (app.py:43-47): `YOUTUBE_API_KEY` holds several keys
 * separated by commas.
 */
module ApiKeys {
  import opened Text

  /** `[k.strip() for k in parts if k.strip()]` */
  function StrippedNonBlank(parts: seq<string>): (keys: seq<string>)
    ensures |keys| <= |parts|
    ensures forall k :: 0 <= k < |keys| ==> keys[k] != ""
  {
    if |parts| == 0 then []
    else
      var k := Strip(parts[0]);
      var rest := StrippedNonBlank(parts[1..]);
      if k != "" then [k] + rest else rest
  }

  /** A key as the pool holds it: non-empty, comma-free, no surrounding white space. */
  predicate WellFormedKey(key: string)
  {
    key != "" && ',' !in key && !IsSpace(key[0]) && !IsSpace(key[|key| - 1])
  }

  /** `_split_keys(s)`: the comma-separated, stripped, non-blank keys of s. */
  function SplitKeys(s: string): (keys: seq<string>)
  {
    StrippedNonBlank(Split(s, ','))
  }

  lemma {:induction false} StrippedNonBlankWellFormed(parts: seq<string>)
    requires forall k :: 0 <= k < |parts| ==> ',' !in parts[k]
    ensures forall k :: 0 <= k < |StrippedNonBlank(parts)| ==> WellFormedKey(StrippedNonBlank(parts)[k])
  {
    if |parts| > 0 {
      var tail := parts[1..];
      assert forall k :: 0 <= k < |tail| ==> tail[k] == parts[k + 1];
      StrippedNonBlankWellFormed(tail);
      var key := Strip(parts[0]);
      var rest := StrippedNonBlank(tail);
      if key != "" {
        ContainsNoChar(parts[0], key, ',');
        assert WellFormedKey(key);
        var keys := [key] + rest;
        assert StrippedNonBlank(parts) == keys;
        assert forall k :: 0 < k < |keys| ==> keys[k] == rest[k - 1];
      } else {
        assert StrippedNonBlank(parts) == rest;
      }
    }
  }

  /** Every key of the pool is non-empty, comma-free and has no surrounding white space. */
  lemma SplitKeysWellFormed(s: string)
    ensures forall k :: 0 <= k < |SplitKeys(s)| ==> WellFormedKey(SplitKeys(s)[k])
  {
    StrippedNonBlankWellFormed(Split(s, ','));
  }

  lemma {:induction false} StrippedNonBlankOfKeys(keys: seq<string>)
    requires forall k :: 0 <= k < |keys| ==> WellFormedKey(keys[k])
    ensures StrippedNonBlank(keys) == keys
  {
    if |keys| > 0 {
      StripOfStripped(keys[0]);
      StrippedNonBlankOfKeys(keys[1..]);
      assert keys == [keys[0]] + keys[1..];
    }
  }

  /** Writing well-formed keys comma-separated and splitting them again gives the same pool. */
  lemma SplitKeysRoundTrip(keys: seq<string>)
    requires |keys| > 0
    requires forall k :: 0 <= k < |keys| ==> WellFormedKey(keys[k])
    ensures SplitKeys(Join(keys, ",")) == keys
  {
    SplitJoin(keys, ',');
    StrippedNonBlankOfKeys(keys);
  }

  /** An unset or blank variable gives an empty pool (yt_get then fails before any request). */
  lemma SplitKeysBlank(s: string)
    requires forall i :: 0 <= i < |s| ==> IsSpace(s[i])
    ensures SplitKeys(s) == []
  {
    IndexOfAbsent(s, ',');
    StripAllSpace(s);
  }

  lemma IndexOfAbsent(s: string, c: char)
    requires c !in s
    ensures IndexOf(s, c) == |s|
  {
  }

  /** The pool written as in the configuration comment of app.py:46. */
  lemma SplitKeysExample()
    ensures SplitKeys("키A,키B,키C") == ["키A", "키B", "키C"]
  {
    var keys := ["키A", "키B", "키C"];
    assert Join(keys, ",") == "키A,키B,키C";
    SplitKeysRoundTrip(keys);
  }
}
