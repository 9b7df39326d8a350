/**
 * The source-trace tokens (app.py:516-544): `extract_tokens_from_text`
 * collects the matches of `@[\w\.\-]{3,}` (handles such as `@some.user`)
 * and `#[0-9]{4,}` (number tags such as `#20240101`) in a text, and
 * `collect_source_tokens` unites those of a video's title, description
 * and, optionally, the OCR text of its thumbnail.
 *
 * `re.findall` is modelled by `FindAll`, a left-to-right scan for
 * non-overlapping matches; `\w` is ASCII letters, digits and `_`, plus
 * the Hangul syllables 가-힣, so a handle such as `@홍길동` is a token.
 */
module Tokens {
  import opened KeyRotation

  predicate IsWordChar(c: char)
  {
    ('a' <= c <= 'z') || ('A' <= c <= 'Z') || ('0' <= c <= '9') || c == '_' || ('가' <= c <= '힣')
  }

  /** The class `[\w\.\-]` of a handle after its `@`. */
  predicate IsHandleChar(c: char)
  {
    IsWordChar(c) || c == '.' || c == '-'
  }

  predicate IsDigit(c: char)
  {
    '0' <= c <= '9'
  }

  /** Where the run of `cls` characters starting at j ends. */
  function RunEnd(s: string, j: nat, cls: char -> bool): (k: nat)
    requires j <= |s|
    ensures j <= k <= |s|
    ensures forall m :: j <= m < k ==> cls(s[m])
    ensures k < |s| ==> !cls(s[k])
    decreases |s| - j
  {
    if j == |s| || !cls(s[j]) then j else RunEnd(s, j + 1, cls)
  }

  /**
   * A match of `<marker><cls>{min,}` starts at p: the marker, followed by
   * at least `min` class characters (the greedy match takes all of them).
   */
  predicate MatchAt(s: string, p: nat, marker: char, cls: char -> bool, min: nat)
  {
    p < |s| && s[p] == marker && RunEnd(s, p + 1, cls) - (p + 1) >= min
  }

  /** The text of the match starting at p. */
  function MatchText(s: string, p: nat, cls: char -> bool): string
    requires p < |s|
  {
    s[p..RunEnd(s, p + 1, cls)]
  }

  /** `re.findall("<marker><cls>{min,}", s[i:])`, scanning left to right without overlaps. */
  function FindAll(s: string, i: nat, marker: char, cls: char -> bool, min: nat): seq<string>
    requires i <= |s|
    decreases |s| - i
  {
    if i == |s| then []
    else if MatchAt(s, i, marker, cls, min) then
      [MatchText(s, i, cls)] + FindAll(s, RunEnd(s, i + 1, cls), marker, cls, min)
    else FindAll(s, i + 1, marker, cls, min)
  }

  /**
   * As the marker is not a class character, no match starts inside an
   * earlier one: findall returns the match of every marker position.
   */
  lemma {:induction false} FindAllMatches(s: string, i: nat, marker: char, cls: char -> bool, min: nat)
    requires i <= |s| && !cls(marker)
    ensures forall t :: t in FindAll(s, i, marker, cls, min) <==>
      exists p :: i <= p && MatchAt(s, p, marker, cls, min) && t == MatchText(s, p, cls)
    decreases |s| - i
  {
    if i < |s| {
      if MatchAt(s, i, marker, cls, min) {
        var e := RunEnd(s, i + 1, cls);
        FindAllMatches(s, e, marker, cls, min);
        forall p | i < p < e ensures !MatchAt(s, p, marker, cls, min) {
          assert cls(s[p]);
        }
      } else {
        FindAllMatches(s, i + 1, marker, cls, min);
      }
    }
  }

  /** Every match is the marker followed by at least `min` class characters. */
  lemma MatchShape(s: string, p: nat, marker: char, cls: char -> bool, min: nat)
    requires MatchAt(s, p, marker, cls, min)
    ensures var t := MatchText(s, p, cls);
      |t| >= min + 1 && t[0] == marker && forall m :: 1 <= m < |t| ==> cls(t[m])
  {
  }

  /** The matches of `@[\w\.\-]{3,}`. */
  function Handles(s: string): seq<string>
  {
    FindAll(s, 0, '@', IsHandleChar, 3)
  }

  /** The matches of `#[0-9]{4,}`. */
  function NumberTags(s: string): seq<string>
  {
    FindAll(s, 0, '#', IsDigit, 4)
  }

  /** `s` has a handle or number-tag match at p whose text is t. */
  predicate IsToken(s: string, t: string)
  {
    || (exists p :: 0 <= p < |s| && MatchAt(s, p, '@', IsHandleChar, 3) && t == MatchText(s, p, IsHandleChar))
    || (exists p :: 0 <= p < |s| && MatchAt(s, p, '#', IsDigit, 4) && t == MatchText(s, p, IsDigit))
  }

  /** `extract_tokens_from_text` */
  function ExtractTokens(txt: string): set<string>
  {
    if txt == "" then {}
    else
      var found := set t | t in Handles(txt) + NumberTags(txt);
      set t | t in found && |t| >= 4
  }

  /**
   * The tokens of a text are exactly its handle and number-tag matches;
   * each has at least 4 characters, so the final length filter drops
   * nothing.
   */
  lemma ExtractTokensMeaning(txt: string)
    ensures forall t :: t in ExtractTokens(txt) <==> IsToken(txt, t)
    ensures forall t :: t in ExtractTokens(txt) ==> |t| >= 4 && (t[0] == '@' || t[0] == '#')
  {
    FindAllMatches(txt, 0, '@', IsHandleChar, 3);
    FindAllMatches(txt, 0, '#', IsDigit, 4);
    forall p | MatchAt(txt, p, '@', IsHandleChar, 3)
      ensures |MatchText(txt, p, IsHandleChar)| >= 4 && MatchText(txt, p, IsHandleChar)[0] == '@'
    {
      MatchShape(txt, p, '@', IsHandleChar, 3);
    }
    forall p | MatchAt(txt, p, '#', IsDigit, 4)
      ensures |MatchText(txt, p, IsDigit)| >= 5 && MatchText(txt, p, IsDigit)[0] == '#'
    {
      MatchShape(txt, p, '#', IsDigit, 4);
    }
  }

  /**
   * `collect_source_tokens`: `ocrText` is the text read from the thumbnail,
   * None when OCR is unavailable, there is no thumbnail, or reading fails
   * (`ocr_tokens_from_thumb` then contributes no tokens).
   */
  function CollectSourceTokens(title: string, description: string, ocrText: Option<string>, tryOcr: bool): set<string>
  {
    var ocr := if tryOcr && ocrText.Some? then ExtractTokens(ocrText.value) else {};
    var toks := ExtractTokens(title) + ExtractTokens(description) + ocr;
    set t | t in toks && |t| >= 4
  }

  /** A source token is a token of the title, of the description or, when OCR is tried, of the thumbnail text. */
  lemma CollectSourceTokensMeaning(title: string, description: string, ocrText: Option<string>, tryOcr: bool)
    ensures forall t :: t in CollectSourceTokens(title, description, ocrText, tryOcr) <==>
      || IsToken(title, t) || IsToken(description, t)
      || (tryOcr && ocrText.Some? && IsToken(ocrText.value, t))
  {
    ExtractTokensMeaning(title);
    ExtractTokensMeaning(description);
    if ocrText.Some? {
      ExtractTokensMeaning(ocrText.value);
    }
  }
}
