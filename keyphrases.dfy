/**
 * `extract_keyphrases` (app.py:578-588): the most frequent words of a
 * text, for the source-trace queries. A word is a maximal run of at least
 * two characters of `[A-Za-z가-힣0-9]` in the lower-cased text; stop words
 * are not counted; the distinct words are ranked by frequency, largest
 * first, ties in order of first occurrence (the insertion order of the
 * `freq` dict, kept by the stable sort); words shorter than 3 characters
 * are dropped and the first `topk` kept.
 */
module Keyphrases {
  import opened Text
  import opened Ordering
  import Tokens

  /** The class `[A-Za-z가-힣0-9]`. */
  predicate IsKeyChar(c: char)
  {
    ('A' <= c <= 'Z') || ('a' <= c <= 'z') || ('가' <= c <= '힣') || ('0' <= c <= '9')
  }

  /** `re.findall("<cls>{min,}", s[i:])`: the maximal class runs of at least `min` characters. */
  function Runs(s: string, i: nat, cls: char -> bool, min: nat): seq<string>
    requires i <= |s|
    decreases |s| - i
  {
    if i == |s| then []
    else if !cls(s[i]) then Runs(s, i + 1, cls, min)
    else
      var e := Tokens.RunEnd(s, i, cls);
      (if e - i >= min then [s[i..e]] else []) + Runs(s, e, cls, min)
  }

  /** Each run is a substring of s of at least `min` class characters. */
  lemma {:induction false} RunsFacts(s: string, i: nat, cls: char -> bool, min: nat)
    requires i <= |s|
    ensures forall k :: 0 <= k < |Runs(s, i, cls, min)| ==>
      var w := Runs(s, i, cls, min)[k];
      |w| >= min && (forall m :: 0 <= m < |w| ==> cls(w[m])) && Contains(s, w)
    decreases |s| - i
  {
    if i < |s| {
      if !cls(s[i]) {
        RunsFacts(s, i + 1, cls, min);
      } else {
        var e := Tokens.RunEnd(s, i, cls);
        RunsFacts(s, e, cls, min);
        assert SubstringAt(s, s[i..e], i);
      }
    }
  }

  const Stop: set<string> := {
    "the", "and", "you", "for", "with", "this", "that", "are", "from",
    "제", "것", "해서", "그리고", "하지만", "그러나", "근데", "이건", "저건", "에서", "하다"
  }

  predicate NotStop(w: string) { w !in Stop }

  predicate Long(w: string) { |w| >= 3 }

  /** `re.findall(r"[A-Za-z가-힣0-9]{2,}", text.lower())` */
  function WordsOf(text: string): seq<string>
  {
    Runs(Lower(text), 0, IsKeyChar, 2)
  }

  /** The words the `freq` loop counts. */
  function Counted(text: string): seq<string>
  {
    Filter(WordsOf(text), NotStop)
  }

  /** How often w is counted. */
  function Freq(ws: seq<string>, w: string): nat
  {
    multiset(ws)[w]
  }

  function FreqKey(ws: seq<string>): string -> seq<int>
  {
    w => [Freq(ws, w)]
  }

  /** The result of `extract_keyphrases(text, topk=topk)`. */
  function Keyphrases(text: string, topk: nat): seq<string>
  {
    if text == "" then []
    else
      var ws := Counted(text);
      Take(Filter(Sort(Dedup(ws), FreqKey(ws), true), Long), topk)
  }

  /** One more word: the counted words grow by it unless it is a stop word. */
  lemma CountedStep(words: seq<string>, i: nat)
    requires i < |words|
    ensures Filter(words[..i + 1], NotStop)
         == Filter(words[..i], NotStop) + (if NotStop(words[i]) then [words[i]] else [])
  {
    assert words[..i + 1][..i] == words[..i];
  }

  /** `dict` insertion order: a new key goes to the end, a known one stays where it is. */
  lemma DedupStep(c: seq<string>, w: string)
    ensures w in Dedup(c) <==> w in c
    ensures Dedup(c + [w]) == if w in c then Dedup(c) else Dedup(c) + [w]
  {
    DedupCharacterized(c);
    var id: string -> string := Id;
    assert (c + [w])[..|c|] == c;
    assert HasKey(c, id, w) <==> w in c by {
      if w in c {
        var j :| 0 <= j < |c| && c[j] == w;
        assert id(c[j]) == w;
      }
    }
  }

  /** Counting one more word keeps the dict's keys in first-occurrence order and its counts exact. */
  lemma CountWord(order: seq<string>, freq: map<string, nat>, counted: seq<string>, w: string)
    requires order == Dedup(counted)
    requires forall x :: x in freq <==> x in order
    requires forall x :: x in freq ==> freq[x] == Freq(counted, x)
    ensures var order' := if w in freq then order else order + [w];
      var freq' := freq[w := if w in freq then freq[w] + 1 else 1];
      && order' == Dedup(counted + [w])
      && (forall x :: x in freq' <==> x in order')
      && (forall x :: x in freq' ==> freq'[x] == Freq(counted + [w], x))
  {
    DedupStep(counted, w);
  }

  /** `extract_keyphrases`: the `freq` dict is filled in first-occurrence order, then sorted. */
  method ExtractKeyphrases(text: string, topk: nat) returns (keys: seq<string>)
    ensures keys == Keyphrases(text, topk)
  {
    if text == "" {
      return [];
    }
    var words := WordsOf(text);
    var freq: map<string, nat> := map[];
    var order: seq<string> := [];
    for i := 0 to |words|
      invariant order == Dedup(Filter(words[..i], NotStop))
      invariant forall w :: w in freq <==> w in order
      invariant forall w :: w in freq ==> freq[w] == Freq(Filter(words[..i], NotStop), w)
    {
      var w := words[i];
      CountedStep(words, i);
      if w in Stop {
        assert Filter(words[..i + 1], NotStop) == Filter(words[..i], NotStop);
        continue;
      }
      assert Filter(words[..i + 1], NotStop) == Filter(words[..i], NotStop) + [w];
      CountWord(order, freq, Filter(words[..i], NotStop), w);
      if w !in freq {
        order := order + [w];
        freq := freq[w := 1];
      } else {
        freq := freq[w := freq[w] + 1];
      }
    }
    assert words[..|words|] == words;
    CountsKey(order, freq, Counted(text));
    var ranked := Sort(order, CountKey(freq), true);
    keys := Take(Filter(ranked, Long), topk);
  }

  /** The sort key `lambda x: x[1]` on the items of the `freq` dict. */
  function CountKey(freq: map<string, nat>): string -> seq<int>
  {
    w => [if w in freq then freq[w] else 0]
  }

  /** Sorting the dict's keys by their counts is sorting the words by frequency. */
  lemma CountsKey(order: seq<string>, freq: map<string, nat>, ws: seq<string>)
    requires forall w :: w in freq <==> w in order
    requires forall w :: w in freq ==> freq[w] == Freq(ws, w)
    ensures Sort(order, CountKey(freq), true) == Sort(order, FreqKey(ws), true)
  {
    forall k | 0 <= k < |order| ensures CountKey(freq)(order[k]) == FreqKey(ws)(order[k]) {
      assert order[k] in freq;
    }
    SortCongruent(order, CountKey(freq), FreqKey(ws), true);
  }

  /** Every key phrase is a counted word of 3 or more characters. */
  lemma KeyphrasesCounted(text: string, topk: nat)
    ensures forall w :: w in Keyphrases(text, topk) ==> w in Counted(text) && |w| >= 3
  {
    if text != "" {
      var ws := Counted(text);
      var order := Dedup(ws);
      var key := FreqKey(ws);
      var ranked := Sort(order, key, true);
      var kept := Filter(ranked, Long);
      DedupCharacterized(ws);
      SortMembers(order, key, true);
      FilterMembers(ranked, Long);
      forall w | w in Keyphrases(text, topk) ensures w in ws && |w| >= 3 {
        assert w in kept;
      }
    }
  }

  /**
   * The key phrases are at most `topk` lower-case words of the text, each
   * of 3 or more characters and not a stop word.
   */
  lemma KeyphrasesWords(text: string, topk: nat)
    ensures var r := Keyphrases(text, topk);
      && |r| <= topk
      && (forall w :: w in r ==> |w| >= 3 && w !in Stop && w in WordsOf(text) && Lower(w) == w)
  {
    KeyphrasesCounted(text, topk);
    FilterMembers(WordsOf(text), NotStop);
    WordsLowerCase(text);
  }

  /** No key phrase is repeated. */
  lemma KeyphrasesDistinct(text: string, topk: nat)
    ensures var r := Keyphrases(text, topk);
      forall i, j :: 0 <= i < j < |r| ==> r[i] != r[j]
  {
    if text != "" {
      var ws := Counted(text);
      var order := Dedup(ws);
      var key := FreqKey(ws);
      var ranked := Sort(order, key, true);
      DedupCharacterized(ws);
      SortSortedPermutation(order, key, true);
      DistinctAfterFilter(ranked, order, Long);
      var kept := Filter(ranked, Long);
      var r := Take(kept, topk);
      forall i, j | 0 <= i < j < |r| ensures r[i] != r[j] {
        assert r[i] == kept[i] && r[j] == kept[j];
      }
    }
  }

  /** A key phrase is a non-empty run of word characters: it holds no space. */
  lemma KeyphrasesNoSpace(text: string, topk: nat)
    ensures forall w :: w in Keyphrases(text, topk) ==> w != "" && ' ' !in w
  {
    KeyphrasesWords(text, topk);
    forall w | w in Keyphrases(text, topk) ensures w != "" && ' ' !in w {
      WordKeyChars(text, w);
      forall m | 0 <= m < |w| ensures w[m] != ' ' {
        assert IsKeyChar(w[m]);
      }
    }
  }

  /** A word of the text is two or more word characters. */
  lemma WordKeyChars(text: string, w: string)
    requires w in WordsOf(text)
    ensures |w| >= 2 && forall m :: 0 <= m < |w| ==> IsKeyChar(w[m])
  {
    RunsFacts(Lower(text), 0, IsKeyChar, 2);
    var k :| 0 <= k < |WordsOf(text)| && WordsOf(text)[k] == w;
  }

  /** The key phrases come in order of non-increasing frequency. */
  lemma KeyphrasesByFrequency(text: string, topk: nat)
    ensures var r := Keyphrases(text, topk);
      forall i, j :: 0 <= i < j < |r| ==> Freq(Counted(text), r[i]) >= Freq(Counted(text), r[j])
  {
    if text != "" {
      var ws := Counted(text);
      var key := FreqKey(ws);
      var ranked := Sort(Dedup(ws), key, true);
      var kept := Filter(ranked, Long);
      var r := Take(kept, topk);
      SortSortedPermutation(Dedup(ws), key, true);
      FilterSorted(ranked, Long, key, true);
      forall i, j | 0 <= i < j < |r| ensures Freq(ws, r[i]) >= Freq(ws, r[j]) {
        assert Precedes(key, true, kept[i], kept[j]);
      }
    }
  }

  /** Equally frequent key phrases appear in the order the text first uses them. */
  lemma KeyphrasesTies(text: string, topk: nat)
    ensures var r := Keyphrases(text, topk);
      var ws := Counted(text);
      forall i, j :: 0 <= i < j < |r| && Freq(ws, r[i]) == Freq(ws, r[j]) ==>
        HasKey(ws, Id, r[i]) && HasKey(ws, Id, r[j]) && First(ws, Id, r[i]) < First(ws, Id, r[j])
  {
    if text != "" {
      var ws := Counted(text);
      var ranked := Sort(Dedup(ws), FreqKey(ws), true);
      FrequencyTies(ws, Dedup(ws), ranked, Filter(ranked, Long));
    }
  }

  /**
   * A counted word of 3 or more characters is left out only when `topk`
   * words were kept, none of them less frequent than it.
   */
  lemma KeyphrasesTopK(text: string, topk: nat)
    ensures var r := Keyphrases(text, topk);
      var ws := Counted(text);
      forall w :: w in ws && |w| >= 3 && w !in r ==>
        |r| == topk && forall i :: 0 <= i < |r| ==> Freq(ws, r[i]) >= Freq(ws, w)
  {
    if text != "" {
      var ws := Counted(text);
      var order := Dedup(ws);
      var key := FreqKey(ws);
      var ranked := Sort(order, key, true);
      var kept := Filter(ranked, Long);
      var r := Take(kept, topk);
      DedupCharacterized(ws);
      SortSortedPermutation(order, key, true);
      SortMembers(order, key, true);
      FilterMembers(ranked, Long);
      FilterSorted(ranked, Long, key, true);
      forall w | w in ws && |w| >= 3 && w !in r
        ensures |r| == topk && forall i :: 0 <= i < |r| ==> Freq(ws, r[i]) >= Freq(ws, w)
      {
        assert w in kept;
        var k :| 0 <= k < |kept| && kept[k] == w;
        assert k >= |r|;
        forall i | 0 <= i < |r| ensures Freq(ws, r[i]) >= Freq(ws, w) {
          assert Precedes(key, true, kept[i], kept[k]);
        }
      }
    }
  }

  /** Filtering a permutation of a repeat-free list leaves no repeats. */
  lemma DistinctAfterFilter(ranked: seq<string>, order: seq<string>, p: string -> bool)
    requires multiset(ranked) == multiset(order)
    requires forall i, j :: 0 <= i < j < |order| ==> order[i] != order[j]
    ensures forall i, j :: 0 <= i < j < |Filter(ranked, p)| ==> Filter(ranked, p)[i] != Filter(ranked, p)[j]
  {
    forall i, j | 0 <= i < j < |ranked| ensures ranked[i] != ranked[j] {
      DistinctPermutation(order, ranked, i, j);
    }
    DistinctFilter(ranked, p);
  }

  lemma {:induction false} DistinctFilter<T>(s: seq<T>, p: T -> bool)
    requires forall i, j :: 0 <= i < j < |s| ==> s[i] != s[j]
    ensures forall i, j :: 0 <= i < j < |Filter(s, p)| ==> Filter(s, p)[i] != Filter(s, p)[j]
  {
    if |s| > 0 {
      var q := s[..|s| - 1];
      var last := s[|s| - 1];
      assert forall i, j :: 0 <= i < j < |q| ==> q[i] != q[j] by {
        forall i, j | 0 <= i < j < |q| ensures q[i] != q[j] {
          assert q[i] == s[i] && q[j] == s[j];
        }
      }
      DistinctFilter(q, p);
      var fq := Filter(q, p);
      var f := fq + (if p(last) then [last] else []);
      assert Filter(s, p) == f;
      forall i, j | 0 <= i < j < |f| ensures f[i] != f[j] {
        if j < |fq| {
          assert f[i] == fq[i] && f[j] == fq[j];
          assert fq[i] != fq[j];
        } else {
          var k := FilterIndex(q, p, i);
          assert f[i] == fq[i] == q[k] == s[k];
          assert k < |s| - 1 && f[j] == last == s[|s| - 1];
          assert s[k] != s[|s| - 1];
        }
      }
    }
  }

  /** The words are runs of the lower-cased text, so they hold no upper-case letter. */
  lemma WordsLowerCase(text: string)
    ensures forall w :: w in WordsOf(text) ==> Lower(w) == w
  {
    var s := Lower(text);
    RunsFacts(s, 0, IsKeyChar, 2);
    forall w | w in WordsOf(text) ensures Lower(w) == w {
      var i: nat :| i <= |s| && SubstringAt(s, w, i);
      forall m | 0 <= m < |w| ensures !('A' <= w[m] <= 'Z') {
        assert w[m] == s[i + m];
      }
      LowerNoUpper(w);
    }
  }

  /** Equally frequent words keep the order of their first occurrence. */
  lemma FrequencyTies(ws: seq<string>, order: seq<string>, ranked: seq<string>, kept: seq<string>)
    requires order == Dedup(ws)
    requires ranked == Sort(order, FreqKey(ws), true)
    requires kept == Filter(ranked, Long)
    ensures forall i, j :: 0 <= i < j < |kept| && Freq(ws, kept[i]) == Freq(ws, kept[j]) ==>
      HasKey(ws, Id, kept[i]) && HasKey(ws, Id, kept[j]) && First(ws, Id, kept[i]) < First(ws, Id, kept[j])
  {
    var id: string -> string := Id;
    var rank := (w: string) => if HasKey(ws, id, w) then First(ws, id, w) as int else -1;
    var key := FreqKey(ws);
    DedupCharacterized(ws);
    forall i, j | 0 <= i < j < |order| ensures rank(order[i]) < rank(order[j]) {
    }
    SortTiesRanked(order, key, true, rank);
    FilterTiesRanked(ranked, Long, key, rank);
    SortMembers(order, key, true);
    FilterMembers(ranked, Long);
    forall i, j | 0 <= i < j < |kept| && Freq(ws, kept[i]) == Freq(ws, kept[j])
      ensures HasKey(ws, id, kept[i]) && HasKey(ws, id, kept[j]) && First(ws, id, kept[i]) < First(ws, id, kept[j])
    {
      assert kept[i] in order && kept[j] in order;
      assert key(kept[i]) == key(kept[j]);
    }
  }
}
