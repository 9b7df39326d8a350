/**
 * The Python string operations app.py relies on, on `string` = `seq<char>`.
 *
 * `Lower` lower-cases ASCII letters only (Python's `str.lower` is full
 * Unicode; every keyword table of app.py is ASCII or Hangul, which has no
 * case). `IsSpace` is exactly the set of characters for which Python's
 * `str.isspace()` holds, so `Strip` and `Words` are `str.strip()` and
 * `str.split()`. `IsLineBreak` is the set of line boundaries of
 * `str.splitlines()`.
 */
module Text {

  predicate IsSpace(c: char)
  {
    || c == ' ' || ('\t' <= c <= '\r') || ('\U{1C}' <= c <= '\U{1F}')
    || c == '\U{85}' || c == '\U{A0}' || c == '\U{1680}' || ('\U{2000}' <= c <= '\U{200A}')
    || c == '\U{2028}' || c == '\U{2029}' || c == '\U{202F}' || c == '\U{205F}' || c == '\U{3000}'
  }

  predicate IsLineBreak(c: char)
  {
    || ('\n' <= c <= '\r') || ('\U{1C}' <= c <= '\U{1E}')
    || c == '\U{85}' || c == '\U{2028}' || c == '\U{2029}'
  }

  function LowerChar(c: char): (r: char)
    ensures 'A' <= c <= 'Z' ==> r as int == c as int + 32
    ensures !('A' <= c <= 'Z') ==> r == c
  {
    if 'A' <= c <= 'Z' then (c as int + 32) as char else c
  }

  function Lower(s: string): (r: string)
    ensures |r| == |s| && forall i :: 0 <= i < |s| ==> r[i] == LowerChar(s[i])
  {
    seq(|s|, i requires 0 <= i < |s| => LowerChar(s[i]))
  }

  lemma LowerIdempotent(s: string)
    ensures Lower(Lower(s)) == Lower(s)
  {
    var a := Lower(Lower(s));
    forall i | 0 <= i < |s| ensures a[i] == Lower(s)[i] {}
  }

  /** Lower-casing leaves a string without upper-case ASCII letters alone. */
  lemma LowerNoUpper(s: string)
    requires forall i :: 0 <= i < |s| ==> !('A' <= s[i] <= 'Z')
    ensures Lower(s) == s
  {
  }

  /** Python's `needle in hay` at position i. */
  predicate SubstringAt(hay: string, needle: string, i: nat)
  {
    i + |needle| <= |hay| && hay[i..i + |needle|] == needle
  }

  /** Python's `needle in hay` on strings. */
  predicate Contains(hay: string, needle: string)
  {
    exists i: nat :: i <= |hay| && SubstringAt(hay, needle, i)
  }

  lemma ContainsEmpty(hay: string)
    ensures Contains(hay, "")
  {
    assert SubstringAt(hay, "", 0);
  }

  lemma ContainsPrefix(hay: string, needle: string)
    requires |needle| <= |hay| && hay[..|needle|] == needle
    ensures Contains(hay, needle)
  {
    assert SubstringAt(hay, needle, 0);
  }

  /** A substring of a part of the haystack is a substring of the whole. */
  lemma ContainsInSlice(hay: string, lo: nat, hi: nat, needle: string)
    requires lo <= hi <= |hay| && Contains(hay[lo..hi], needle)
    ensures Contains(hay, needle)
  {
    var i: nat :| i <= hi - lo && SubstringAt(hay[lo..hi], needle, i);
    forall k | 0 <= k < |needle| ensures hay[lo + i + k] == needle[k] {
      assert hay[lo..hi][i..i + |needle|][k] == needle[k];
    }
    assert SubstringAt(hay, needle, lo + i);
  }

  /** Python's `s.startswith(p)`. */
  predicate StartsWith(s: string, p: string)
  {
    |p| <= |s| && s[..|p|] == p
  }

  /** Python's `s.endswith(p)`. */
  predicate EndsWith(s: string, p: string)
  {
    |p| <= |s| && s[|s| - |p|..] == p
  }

  /** A character absent from the haystack is absent from each of its substrings. */
  lemma ContainsNoChar(hay: string, needle: string, c: char)
    requires Contains(hay, needle) && c !in hay
    ensures c !in needle
  {
    var i: nat :| i <= |hay| && SubstringAt(hay, needle, i);
    forall j | 0 <= j < |needle| ensures needle[j] != c {
      assert needle[j] == hay[i + j];
    }
  }

  // ---------------------------------------------------------------------
  // strip / split / join
  // ---------------------------------------------------------------------

  function StripLeft(s: string): (r: string)
    ensures |r| <= |s| && r == s[|s| - |r|..]
    ensures |r| > 0 ==> !IsSpace(r[0])
    ensures forall i :: 0 <= i < |s| - |r| ==> IsSpace(s[i])
  {
    if |s| > 0 && IsSpace(s[0]) then StripLeft(s[1..]) else s
  }

  function StripRight(s: string): (r: string)
    ensures |r| <= |s| && r == s[..|r|]
    ensures |r| > 0 ==> !IsSpace(r[|r| - 1])
    ensures forall i :: |r| <= i < |s| ==> IsSpace(s[i])
  {
    if |s| > 0 && IsSpace(s[|s| - 1]) then StripRight(s[..|s| - 1]) else s
  }

  /** Python's `s.strip()`: a slice of s with no white space at either end. */
  function Strip(s: string): (r: string)
    ensures Contains(s, r)
    ensures |r| > 0 ==> !IsSpace(r[0]) && !IsSpace(r[|r| - 1])
  {
    StripInside(s);
    StripRight(StripLeft(s))
  }

  /** The stripped string starts where the leading white space ends. */
  lemma StripInside(s: string)
    ensures SubstringAt(s, StripRight(StripLeft(s)), |s| - |StripLeft(s)|)
  {
    var l := StripLeft(s);
    PrefixOfSuffix(s, |s| - |l|, StripRight(l));
  }

  /** A prefix of a suffix of s is a substring of s. */
  lemma PrefixOfSuffix(s: string, off: nat, r: string)
    requires off <= |s| && |r| <= |s| - off && r == s[off..][..|r|]
    ensures SubstringAt(s, r, off)
  {
    assert s[off..][..|r|] == s[off..off + |r|];
  }

  lemma StripOfStripped(s: string)
    requires |s| > 0 ==> !IsSpace(s[0]) && !IsSpace(s[|s| - 1])
    ensures Strip(s) == s
  {
  }

  lemma StripAllSpace(s: string)
    requires forall i :: 0 <= i < |s| ==> IsSpace(s[i])
    ensures Strip(s) == ""
  {
  }

  /** Index of the first occurrence of c in s, or |s|. */
  function IndexOf(s: string, c: char): (i: nat)
    ensures i <= |s| && (i < |s| ==> s[i] == c)
    ensures forall j :: 0 <= j < i ==> s[j] != c
  {
    if |s| == 0 then 0 else if s[0] == c then 0 else 1 + IndexOf(s[1..], c)
  }

  /** Python's `s.split(sep)` for a one-character separator: never empty. */
  function Split(s: string, sep: char): (parts: seq<string>)
    ensures |parts| > 0
    ensures forall k :: 0 <= k < |parts| ==> sep !in parts[k]
    decreases |s|
  {
    var i := IndexOf(s, sep);
    if i == |s| then [s] else [s[..i]] + Split(s[i + 1..], sep)
  }

  /** Python's `sep.join(parts)`. */
  function Join(parts: seq<string>, sep: string): string
  {
    if |parts| == 0 then ""
    else if |parts| == 1 then parts[0]
    else parts[0] + sep + Join(parts[1..], sep)
  }

  lemma {:induction false} JoinSplit(s: string, sep: char)
    ensures Join(Split(s, sep), [sep]) == s
    decreases |s|
  {
    var i := IndexOf(s, sep);
    var parts := Split(s, sep);
    if i < |s| {
      var rest := Split(s[i + 1..], sep);
      assert parts == [s[..i]] + rest;
      assert parts[1..] == rest && |parts| >= 2;
      assert Join(parts, [sep]) == s[..i] + [sep] + Join(rest, [sep]);
      JoinSplit(s[i + 1..], sep);
      assert s == s[..i] + [sep] + s[i + 1..];
    } else {
      assert parts == [s];
    }
  }

  /** Splitting a join of separator-free parts gives the parts back. */
  lemma {:induction false} SplitJoin(parts: seq<string>, sep: char)
    requires |parts| > 0
    requires forall k :: 0 <= k < |parts| ==> sep !in parts[k]
    ensures Split(Join(parts, [sep]), sep) == parts
  {
    if |parts| > 1 {
      SplitJoin(parts[1..], sep);
      SplitCons(parts[0], Join(parts[1..], [sep]), sep);
      assert parts == [parts[0]] + parts[1..];
    } else {
      IndexAfterFree(parts[0], "", sep);
      assert parts[0] + "" == parts[0];
    }
  }

  lemma SplitCons(a: string, b: string, sep: char)
    requires sep !in a
    ensures Split(a + [sep] + b, sep) == [a] + Split(b, sep)
  {
    var s := a + [sep] + b;
    assert s == a + ([sep] + b);
    IndexAfterFree(a, [sep] + b, sep);
    assert s[..|a|] == a;
    assert s[|a| + 1..] == b;
  }

  lemma IndexAfterFree(a: string, b: string, c: char)
    requires c !in a && (|b| > 0 ==> b[0] == c)
    ensures IndexOf(a + b, c) == |a|
  {
    if |a| > 0 {
      IndexAfterFree(a[1..], b, c);
      assert (a + b)[1..] == a[1..] + b;
    }
  }

  /** Python's `s.split()`: the maximal runs of non-white-space characters. */
  function Words(s: string): seq<string>
    decreases |s|
  {
    var t := StripLeft(s);
    if |t| == 0 then []
    else
      var i := FirstSpace(t);
      assert !IsSpace(t[0]) && 0 < i && |t[i..]| < |s|;
      [t[..i]] + Words(t[i..])
  }

  /**
   * No word of `s.split()` is empty or holds white space, and there are no
   * words exactly when s is all white space.
   */
  lemma {:induction false} WordsFacts(s: string)
    ensures forall k :: 0 <= k < |Words(s)| ==> |Words(s)[k]| > 0
    ensures forall k, j :: 0 <= k < |Words(s)| && 0 <= j < |Words(s)[k]| ==> !IsSpace(Words(s)[k][j])
    ensures |Words(s)| == 0 <==> forall i :: 0 <= i < |s| ==> IsSpace(s[i])
    decreases |s|
  {
    var t := StripLeft(s);
    if |t| > 0 {
      var i := FirstSpace(t);
      var rest := Words(t[i..]);
      WordsFacts(t[i..]);
      var ws := Words(s);
      assert ws == [t[..i]] + rest;
      forall k | 0 <= k < |ws|
        ensures |ws[k]| > 0 && forall j :: 0 <= j < |ws[k]| ==> !IsSpace(ws[k][j])
      {
        if k > 0 {
          assert ws[k] == rest[k - 1];
        }
      }
      assert !IsSpace(s[|s| - |t|]);
    }
  }

  function FirstSpace(s: string): (i: nat)
    ensures i <= |s| && (i < |s| ==> IsSpace(s[i]))
    ensures forall j :: 0 <= j < i ==> !IsSpace(s[j])
  {
    if |s| == 0 || IsSpace(s[0]) then 0 else 1 + FirstSpace(s[1..])
  }

  // ---------------------------------------------------------------------
  // splitlines
  // ---------------------------------------------------------------------

  function FirstBreak(s: string): (i: nat)
    ensures i <= |s| && (i < |s| ==> IsLineBreak(s[i]))
    ensures forall j :: 0 <= j < i ==> !IsLineBreak(s[j])
  {
    if |s| == 0 || IsLineBreak(s[0]) then 0 else 1 + FirstBreak(s[1..])
  }

  /** Python's `s.splitlines()`: "\r\n" is one boundary; a final boundary ends the last line. */
  function SplitLines(s: string): (lines: seq<string>)
    ensures forall k, j :: 0 <= k < |lines| && 0 <= j < |lines[k]| ==> !IsLineBreak(lines[k][j])
    decreases |s|
  {
    if |s| == 0 then []
    else
      var i := FirstBreak(s);
      if i == |s| then [s]
      else
        var skip := if s[i] == '\r' && i + 1 < |s| && s[i + 1] == '\n' then 2 else 1;
        [s[..i]] + SplitLines(s[i + skip..])
  }

  /** Lines each terminated by "\n". */
  function Terminated(lines: seq<string>): string
  {
    if |lines| == 0 then "" else lines[0] + "\n" + Terminated(lines[1..])
  }

  /** splitlines undoes writing break-free lines one per "\n"-terminated row. */
  lemma {:induction false} SplitLinesTerminated(lines: seq<string>)
    requires forall k, j :: 0 <= k < |lines| && 0 <= j < |lines[k]| ==> !IsLineBreak(lines[k][j])
    ensures SplitLines(Terminated(lines)) == lines
  {
    if |lines| > 0 {
      var a := lines[0];
      var rest := Terminated(lines[1..]);
      assert Terminated(lines) == a + "\n" + rest;
      assert forall j :: 0 <= j < |a| ==> !IsLineBreak(a[j]);
      SplitLinesCons(a, rest);
      var tl := lines[1..];
      forall k, j | 0 <= k < |tl| && 0 <= j < |tl[k]| ensures !IsLineBreak(tl[k][j]) {
        assert tl[k] == lines[k + 1];
      }
      SplitLinesTerminated(tl);
      assert lines == [a] + lines[1..];
    }
  }

  /** A break-free line followed by "\n" is split off as the first line. */
  lemma SplitLinesCons(a: string, rest: string)
    requires forall j :: 0 <= j < |a| ==> !IsLineBreak(a[j])
    ensures SplitLines(a + "\n" + rest) == [a] + SplitLines(rest)
  {
    var s := a + "\n" + rest;
    BreakAfterFree(a, "\n" + rest);
    assert s == a + ("\n" + rest);
    var i := FirstBreak(s);
    assert i == |a| && s[i] == '\n' && s[i] != '\r';
    assert s[..i] == a;
    assert s[i + 1..] == rest;
  }

  lemma BreakAfterFree(a: string, b: string)
    requires forall j :: 0 <= j < |a| ==> !IsLineBreak(a[j])
    requires |b| > 0 && IsLineBreak(b[0])
    ensures FirstBreak(a + b) == |a|
  {
    var ab := a + b;
    if |a| > 0 {
      assert ab[0] == a[0] && !IsLineBreak(ab[0]);
      assert ab[1..] == a[1..] + b;
      assert forall j :: 0 <= j < |a[1..]| ==> a[1..][j] == a[j + 1];
      BreakAfterFree(a[1..], b);
    } else {
      assert ab == b;
    }
  }
}
