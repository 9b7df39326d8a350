/**
 * `chunk_transcript` (app.py:838-846): cut a transcript into numbered
 * chunks of whole lines. Lines are added to the current chunk while the
 * chunk, joined with spaces, stays within `maxChars`; the line that would
 * overflow it starts the next chunk. The caller in the transcript view
 * passes 350 (app.py:926); the default is 300.
 */
module Transcript {
  import opened Text

  const DefaultMaxChars: int := 300

  /** A chunk as the source's `{"idx": ..., "text": ...}`. */
  datatype Chunk = Chunk(idx: nat, text: string)

  /** The loop state: the closed line groups and the open buffer. */
  datatype Acc = Acc(groups: seq<seq<string>>, buf: seq<string>)

  /** One line through the loop. */
  function Step(a: Acc, line: string, maxChars: int): Acc
  {
    if |Join(a.buf + [line], " ")| > maxChars then Acc(a.groups + [a.buf], [line])
    else Acc(a.groups, a.buf + [line])
  }

  /** The loop over a prefix of the lines. */
  function Fold(lines: seq<string>, maxChars: int): Acc
  {
    if |lines| == 0 then Acc([], [])
    else Step(Fold(lines[..|lines| - 1], maxChars), lines[|lines| - 1], maxChars)
  }

  /** The line groups of the chunks: the closed groups, then the buffer if it holds a line. */
  function Groups(lines: seq<string>, maxChars: int): seq<seq<string>>
  {
    var a := Fold(lines, maxChars);
    if a.buf != [] then a.groups + [a.buf] else a.groups
  }

  /** Groups numbered from 1, each joined with spaces. */
  function Render(gs: seq<seq<string>>): seq<Chunk>
  {
    seq(|gs|, k requires 0 <= k < |gs| => Chunk(k + 1, Join(gs[k], " ")))
  }

  /** What `chunk_transcript(transcript, maxChars)` returns. */
  function Chunks(transcript: string, maxChars: int): seq<Chunk>
  {
    Render(Groups(SplitLines(transcript), maxChars))
  }

  /** The lines of the groups, in order. */
  function Concat(gs: seq<seq<string>>): seq<string>
  {
    if |gs| == 0 then [] else Concat(gs[..|gs| - 1]) + gs[|gs| - 1]
  }

  lemma ConcatAppend(gs: seq<seq<string>>, g: seq<string>)
    ensures Concat(gs + [g]) == Concat(gs) + g
  {
    assert (gs + [g])[..|gs|] == gs;
  }

  lemma LinesStep(lines: seq<string>, i: nat, maxChars: int)
    requires i < |lines|
    ensures Fold(lines[..i + 1], maxChars) == Step(Fold(lines[..i], maxChars), lines[i], maxChars)
  {
    assert lines[..i + 1][..i] == lines[..i];
  }

  method ChunkTranscript(transcript: string, maxChars: int) returns (chunks: seq<Chunk>)
    ensures chunks == Chunks(transcript, maxChars)
  {
    var lines := SplitLines(transcript);
    chunks := [];
    var buf: seq<string> := [];
    for i := 0 to |lines|
      invariant chunks == Render(Fold(lines[..i], maxChars).groups)
      invariant buf == Fold(lines[..i], maxChars).buf
    {
      var line := lines[i];
      LinesStep(lines, i, maxChars);
      ghost var gs := Fold(lines[..i], maxChars).groups;
      if |Join(buf + [line], " ")| > maxChars {
        assert Render(gs + [buf]) == chunks + [Chunk(|chunks| + 1, Join(buf, " "))];
        chunks := chunks + [Chunk(|chunks| + 1, Join(buf, " "))];
        buf := [line];
      } else {
        buf := buf + [line];
      }
    }
    assert lines[..|lines|] == lines;
    if buf != [] {
      ghost var gs := Fold(lines, maxChars).groups;
      assert Render(gs + [buf]) == chunks + [Chunk(|chunks| + 1, Join(buf, " "))];
      chunks := chunks + [Chunk(|chunks| + 1, Join(buf, " "))];
    }
  }

  /** A group of two or more lines fits in `maxChars`. */
  predicate Fits(g: seq<string>, maxChars: int)
  {
    |g| >= 2 ==> |Join(g, " ")| <= maxChars
  }

  /** Adding `next` to the group would overflow `maxChars`. */
  predicate Overflows(g: seq<string>, next: string, maxChars: int)
  {
    |Join(g + [next], " ")| > maxChars
  }

  /** Every group was closed because the first line of the next one would have overflowed it. */
  ghost predicate Closed(gs: seq<seq<string>>, maxChars: int)
  {
    forall k :: 0 <= k < |gs| - 1 && gs[k + 1] != [] ==> Overflows(gs[k], gs[k + 1][0], maxChars)
  }

  /**
   * What the loop keeps: only the first closed group may be empty; a group
   * of two or more lines fits in `maxChars`; each closed group was closed
   * because the first line after it would have overflowed it; the buffer
   * holds a line once a line was read; and no line is lost or reordered.
   */
  ghost predicate Kept(a: Acc, lines: seq<string>, maxChars: int)
  {
    && (forall k :: 0 < k < |a.groups| ==> a.groups[k] != [])
    && (forall k :: 0 <= k < |a.groups| ==> Fits(a.groups[k], maxChars))
    && Fits(a.buf, maxChars)
    && Closed(a.groups, maxChars)
    && (|a.groups| > 0 ==> a.buf != [] && Overflows(a.groups[|a.groups| - 1], a.buf[0], maxChars))
    && (lines != [] <==> a.buf != [])
    && Concat(a.groups) + a.buf == lines
  }

  lemma {:induction false} FoldKept(lines: seq<string>, maxChars: int)
    ensures Kept(Fold(lines, maxChars), lines, maxChars)
  {
    if |lines| > 0 {
      var p := lines[..|lines| - 1];
      FoldKept(p, maxChars);
      assert lines == p + [lines[|lines| - 1]];
      StepKept(Fold(p, maxChars), p, lines[|lines| - 1], maxChars);
    }
  }

  lemma StepKept(a: Acc, lines: seq<string>, line: string, maxChars: int)
    requires Kept(a, lines, maxChars)
    ensures Kept(Step(a, line, maxChars), lines + [line], maxChars)
  {
    if Overflows(a.buf, line, maxChars) {
      StepKeptClose(a, lines, line, maxChars);
    } else {
      StepKeptExtend(a, lines, line, maxChars);
    }
  }

  /** The line that overflows the buffer starts a new one. */
  lemma StepKeptClose(a: Acc, lines: seq<string>, line: string, maxChars: int)
    requires Kept(a, lines, maxChars) && Overflows(a.buf, line, maxChars)
    ensures Kept(Step(a, line, maxChars), lines + [line], maxChars)
  {
    var b := Step(a, line, maxChars);
    assert b.groups == a.groups + [a.buf] && b.buf == [line];
    ConcatAppend(a.groups, a.buf);
    CloseGroup(a.groups, a.buf, maxChars);
    assert Concat(b.groups) + b.buf == lines + [line];
  }

  /** A line that fits joins the buffer. */
  lemma StepKeptExtend(a: Acc, lines: seq<string>, line: string, maxChars: int)
    requires Kept(a, lines, maxChars) && !Overflows(a.buf, line, maxChars)
    ensures Kept(Step(a, line, maxChars), lines + [line], maxChars)
  {
    var b := Step(a, line, maxChars);
    assert b.groups == a.groups && b.buf == a.buf + [line];
    assert Fits(b.buf, maxChars);
    assert Concat(b.groups) + b.buf == lines + [line];
    if a.buf != [] {
      assert b.buf[0] == a.buf[0];
    }
  }

  /** Closing the buffer keeps the groups' invariants. */
  lemma CloseGroup(gs: seq<seq<string>>, buf: seq<string>, maxChars: int)
    requires forall k :: 0 < k < |gs| ==> gs[k] != []
    requires forall k :: 0 <= k < |gs| ==> Fits(gs[k], maxChars)
    requires Fits(buf, maxChars)
    requires Closed(gs, maxChars)
    requires |gs| > 0 ==> buf != [] && Overflows(gs[|gs| - 1], buf[0], maxChars)
    ensures var hs := gs + [buf];
      && (forall k :: 0 < k < |hs| ==> hs[k] != [])
      && (forall k :: 0 <= k < |hs| ==> Fits(hs[k], maxChars))
      && Closed(hs, maxChars)
  {
    var hs := gs + [buf];
    forall k | 0 <= k < |hs| - 1 && hs[k + 1] != [] ensures Overflows(hs[k], hs[k + 1][0], maxChars) {
      assert hs[k] == gs[k];
      if k + 1 < |gs| { assert hs[k + 1] == gs[k + 1]; }
    }
    forall k | 0 <= k < |hs| ensures Fits(hs[k], maxChars) && (k > 0 ==> hs[k] != []) {
      if k < |gs| { assert hs[k] == gs[k]; }
    }
  }

  /** The groups hold the transcript's lines, every one once, in order. */
  lemma GroupsAreLines(lines: seq<string>, maxChars: int)
    ensures Concat(Groups(lines, maxChars)) == lines
  {
    var a := Fold(lines, maxChars);
    FoldKept(lines, maxChars);
    if a.buf != [] {
      ConcatAppend(a.groups, a.buf);
    } else {
      assert a.buf + [] == a.buf;
    }
  }

  /**
   * A chunk of two or more lines fits in `maxChars`, and a chunk stops
   * only where adding the next line would overflow it.
   */
  lemma GroupsBounded(lines: seq<string>, maxChars: int)
    ensures forall k :: 0 <= k < |Groups(lines, maxChars)| ==> Fits(Groups(lines, maxChars)[k], maxChars)
    ensures forall k :: 0 < k < |Groups(lines, maxChars)| ==> Groups(lines, maxChars)[k] != []
    ensures Closed(Groups(lines, maxChars), maxChars)
  {
    FoldKept(lines, maxChars);
    var a := Fold(lines, maxChars);
    if a.buf != [] {
      CloseGroup(a.groups, a.buf, maxChars);
    }
  }

  /**
   * No lines, no chunks; otherwise the first chunk is empty exactly when
   * the first line alone is longer than `maxChars`.
   */
  lemma FirstChunk(lines: seq<string>, maxChars: int)
    ensures Groups(lines, maxChars) == [] <==> lines == []
    ensures lines != [] ==> (Groups(lines, maxChars)[0] == [] <==> |lines[0]| > maxChars)
  {
    FoldKept(lines, maxChars);
    if lines != [] {
      FirstGroup(lines, |lines|, maxChars);
      assert lines[..|lines|] == lines;
    }
  }

  /** From the first line on, the first group is fixed: empty if that line overflows alone, else it starts with it. */
  lemma {:induction false} FirstGroup(lines: seq<string>, n: nat, maxChars: int)
    requires 0 < n <= |lines|
    ensures var a := Fold(lines[..n], maxChars);
      var gs := if a.buf != [] then a.groups + [a.buf] else a.groups;
      && gs != []
      && (|lines[0]| > maxChars ==> gs[0] == [])
      && (|lines[0]| <= maxChars ==> gs[0] != [] && gs[0][0] == lines[0])
  {
    LinesStep(lines, n - 1, maxChars);
    if n == 1 {
      assert lines[..0] == [];
      assert Join([] + [lines[0]], " ") == lines[0];
    } else {
      FirstGroup(lines, n - 1, maxChars);
      var p := Fold(lines[..n - 1], maxChars);
      var a := Step(p, lines[n - 1], maxChars);
      if p.groups != [] {
        assert a.groups[0] == p.groups[0];
      } else {
        assert p.buf != [];
        assert a.groups == [p.buf] || (a.groups == [] && a.buf[0] == p.buf[0]);
      }
    }
  }

  /**
   * Chunks are numbered 1, 2, ... in order; an empty transcript has none;
   * a first line longer than `maxChars` on its own gives an empty first
   * chunk; a chunk of two or more lines fits in `maxChars`; and after the
   * first, a chunk has text unless it is one empty line.
   */
  lemma ChunksFacts(transcript: string, maxChars: int)
    ensures var lines := SplitLines(transcript);
      var c := Chunks(transcript, maxChars);
      && (forall i :: 0 <= i < |c| ==> c[i].idx == i + 1)
      && (transcript == "" ==> c == [])
      && (c == [] <==> lines == [])
      && (lines != [] && |lines[0]| > maxChars ==> c[0].text == "")
      && (forall i :: 0 <= i < |c| ==> (|Groups(lines, maxChars)[i]| >= 2 ==> |c[i].text| <= maxChars))
      && (forall i :: 0 < i < |c| ==> c[i].text != "" || Groups(lines, maxChars)[i] == [""])
  {
    var lines := SplitLines(transcript);
    FirstChunk(lines, maxChars);
    GroupsBounded(lines, maxChars);
  }
}
