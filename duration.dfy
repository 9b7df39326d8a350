/**
 * `parse_iso8601_duration` (app.py:118-123): the `PT[nH][nM][nS]` time part
 * of an ISO 8601 duration (ISO 8601-1, section 5.5.2), as YouTube reports
 * `contentDetails.duration`, turned into seconds; 0 for anything else.
 *
 * `Match` models `re.match(r"^PT(?:(\d+)H)?(?:(\d+)M)?(?:(\d+)S)?$", s)`
 * with `\d` taken as the ASCII digits 0-9: it returns the three capture
 * groups. Python's `$` also matches just before a final "\n", so one
 * trailing newline is accepted. `Render` writes groups
 * back as a string; the two lemmas `MatchRender` and `RenderMatch` show that
 * `Match` accepts exactly the rendered strings and recovers their groups.
 */
module Duration {
  import opened KeyRotation

  /** The capture groups for hours, minutes and seconds. */
  datatype Groups = Groups(h: Option<string>, m: Option<string>, s: Option<string>)

  /** An ASCII decimal digit (Python's `\d` also takes other Unicode digits). */
  predicate IsDigit(c: char)
  {
    '0' <= c <= '9'
  }

  /** What `(\d+)` captures: a non-empty run of decimal digits. */
  predicate DigitRun(s: string)
  {
    |s| > 0 && forall i :: 0 <= i < |s| ==> IsDigit(s[i])
  }

  /** The length of the run of digits at the start of s. */
  function LeadingDigits(s: string): (i: nat)
    ensures i <= |s| && (i < |s| ==> !IsDigit(s[i]))
    ensures forall j :: 0 <= j < i ==> IsDigit(s[j])
  {
    if |s| > 0 && IsDigit(s[0]) then 1 + LeadingDigits(s[1..]) else 0
  }

  /**
   * The optional group `(?:(\d+)L)?` at the start of r: the captured digits
   * and what is left. The digits are taken only when a run of them is
   * followed by L. Backtracking cannot do better: with the group skipped,
   * what is left starts with digits followed by L, which no later group and
   * not `$` accepts.
   */
  function Component(r: string, letter: char): (Option<string>, string)
  {
    var i := LeadingDigits(r);
    if 0 < i < |r| && r[i] == letter then (Some(r[..i]), r[i + 1..]) else (None, r)
  }

  /** `PT(?:(\d+)H)?(?:(\d+)M)?(?:(\d+)S)?` against the whole of t. */
  function MatchBody(t: string): Option<Groups>
  {
    if |t| >= 2 && t[..2] == "PT" then
      var hours := Component(t[2..], 'H');
      var minutes := Component(hours.1, 'M');
      var seconds := Component(minutes.1, 'S');
      if seconds.1 == "" then Some(Groups(hours.0, minutes.0, seconds.0)) else None
    else None
  }

  /** The whole pattern, `^` to `$`, with Python's `$` accepting one final "\n". */
  function Match(s: string): Option<Groups>
  {
    var t := if |s| > 0 && s[|s| - 1] == '\n' then s[..|s| - 1] else s;
    var whole := MatchBody(s);
    if whole.Some? then whole else if t != s then MatchBody(t) else None
  }

  /** The decimal value of a digit string (`int(...)`). */
  function Value(ds: string): nat
  {
    if |ds| == 0 then 0 else 10 * Value(ds[..|ds| - 1]) + DigitValue(ds[|ds| - 1])
  }

  function DigitValue(c: char): nat
  {
    if IsDigit(c) then (c as int - '0' as int) else 0
  }

  /** `int(m.group(k) or 0)` */
  function GroupValue(g: Option<string>): nat
  {
    if g.Some? then Value(g.value) else 0
  }

  /** `parse_iso8601_duration(s)`: never fails; 0 for empty or non-matching input. */
  function ParseDuration(s: string): nat
  {
    if s == "" then 0
    else
      match Match(s)
      case None => 0
      case Some(g) => GroupValue(g.h) * 3600 + GroupValue(g.m) * 60 + GroupValue(g.s)
  }

  // ---------------------------------------------------------------------
  // The strings the pattern accepts
  // ---------------------------------------------------------------------

  predicate WellFormed(g: Groups)
  {
    PartOk(g.h) && PartOk(g.m) && PartOk(g.s)
  }

  predicate PartOk(o: Option<string>)
  {
    o.Some? ==> DigitRun(o.value)
  }

  function Part(o: Option<string>, letter: char): string
  {
    if o.Some? then o.value + [letter] else ""
  }

  /** The duration string with the given groups. */
  function Render(g: Groups): string
  {
    "PT" + Part(g.h, 'H') + Part(g.m, 'M') + Part(g.s, 'S')
  }

  /** A present group is taken with its designator. */
  lemma ComponentTakes(ds: string, letter: char, rest: string)
    requires DigitRun(ds) && !IsDigit(letter)
    ensures Component(ds + [letter] + rest, letter) == (Some(ds), rest)
  {
    var r := ds + [letter] + rest;
    assert r[|ds|] == letter;
    assert forall j :: 0 <= j < |ds| ==> r[j] == ds[j];
    assert LeadingDigits(r) == |ds|;
    assert r[..|ds|] == ds && r[|ds| + 1..] == rest;
  }

  /** An absent group consumes nothing when what follows starts with another designator's group, or is empty. */
  lemma ComponentSkips(o: Option<string>, other: char, rest: string, letter: char)
    requires PartOk(o) && !IsDigit(other) && other != letter
    requires o.Some? || rest == ""
    ensures Component(Part(o, other) + rest, letter) == (None, Part(o, other) + rest)
    ensures o.None? ==> Part(o, other) + rest == rest
  {
    if o.Some? {
      var ds := o.value;
      var r := ds + [other] + rest;
      assert r == Part(o, other) + rest;
      assert r[|ds|] == other;
      assert forall j :: 0 <= j < |ds| ==> r[j] == ds[j];
      assert LeadingDigits(r) == |ds|;
    } else {
      assert Part(o, other) + rest == rest;
    }
  }

  /** What a group leaves is the rest of the string after it. */
  lemma ComponentSplits(r: string, letter: char)
    ensures PartOk(Component(r, letter).0)
    ensures r == Part(Component(r, letter).0, letter) + Component(r, letter).1
  {
    var i := LeadingDigits(r);
    if 0 < i < |r| && r[i] == letter {
      assert r == r[..i] + [letter] + r[i + 1..];
    }
  }

  /** The pattern accepts every rendered duration and captures its groups. */
  lemma MatchRender(g: Groups)
    requires WellFormed(g)
    ensures MatchBody(Render(g)) == Some(g)
  {
    var x2 := Part(g.s, 'S');
    var x1 := Part(g.m, 'M') + x2;
    var x0 := Part(g.h, 'H') + x1;
    Regroup("PT", Part(g.h, 'H'), Part(g.m, 'M'), x2);
    HoursGroup(g);
    MinutesGroup(g);
    SecondsGroup(g);
    MatchBodyOfGroups(Render(g), x0, x1, x2, g);
  }

  lemma Regroup(p: string, a: string, b: string, c: string)
    ensures p + a + b + c == p + (a + (b + c))
  {
  }

  /** The pattern captures g when each group, read in turn, takes its part of what follows "PT". */
  lemma MatchBodyOfGroups(t: string, x0: string, x1: string, x2: string, g: Groups)
    requires t == "PT" + x0
    requires Component(x0, 'H') == (g.h, x1) && Component(x1, 'M') == (g.m, x2) && Component(x2, 'S') == (g.s, "")
    ensures MatchBody(t) == Some(g)
  {
    assert t[..2] == "PT" && t[2..] == x0;
  }

  lemma HoursGroup(g: Groups)
    requires WellFormed(g)
    ensures Component(Part(g.h, 'H') + (Part(g.m, 'M') + Part(g.s, 'S')), 'H') == (g.h, Part(g.m, 'M') + Part(g.s, 'S'))
  {
    var x1 := Part(g.m, 'M') + Part(g.s, 'S');
    if g.h.Some? {
      ComponentTakes(g.h.value, 'H', x1);
      assert Part(g.h, 'H') + x1 == g.h.value + ['H'] + x1;
    } else {
      assert Part(g.h, 'H') + x1 == x1;
      NoHours(g.m, g.s);
    }
  }

  /** Without hours, the hours group takes nothing of the minutes and seconds parts. */
  lemma NoHours(m: Option<string>, s: Option<string>)
    requires PartOk(m) && PartOk(s)
    ensures Component(Part(m, 'M') + Part(s, 'S'), 'H') == (None, Part(m, 'M') + Part(s, 'S'))
  {
    if m.Some? {
      ComponentSkips(m, 'M', Part(s, 'S'), 'H');
    } else {
      ComponentSkips(s, 'S', "", 'H');
      assert Part(s, 'S') + "" == Part(s, 'S');
      assert Part(m, 'M') + Part(s, 'S') == Part(s, 'S');
    }
  }

  lemma MinutesGroup(g: Groups)
    requires WellFormed(g)
    ensures var x2 := Part(g.s, 'S');
      Component(Part(g.m, 'M') + x2, 'M') == (g.m, x2)
  {
    var x2 := Part(g.s, 'S');
    if g.m.Some? {
      ComponentTakes(g.m.value, 'M', x2);
      assert Part(g.m, 'M') + x2 == g.m.value + ['M'] + x2;
    } else {
      ComponentSkips(g.s, 'S', "", 'M');
      assert x2 + "" == x2;
      assert Part(g.m, 'M') + x2 == x2;
    }
  }

  lemma SecondsGroup(g: Groups)
    requires WellFormed(g)
    ensures Component(Part(g.s, 'S'), 'S') == (g.s, "")
  {
    if g.s.Some? {
      ComponentTakes(g.s.value, 'S', "");
      assert g.s.value + ['S'] + "" == Part(g.s, 'S');
    }
  }

  /** Whatever the pattern accepts is the rendering of the groups it captures. */
  lemma RenderMatch(t: string)
    requires MatchBody(t).Some?
    ensures WellFormed(MatchBody(t).value) && Render(MatchBody(t).value) == t
  {
    var hours := Component(t[2..], 'H');
    var minutes := Component(hours.1, 'M');
    var seconds := Component(minutes.1, 'S');
    ComponentSplits(t[2..], 'H');
    ComponentSplits(hours.1, 'M');
    ComponentSplits(minutes.1, 'S');
    var g := Groups(hours.0, minutes.0, seconds.0);
    assert MatchBody(t) == Some(g);
    assert seconds.1 == "";
    Reassemble(t, Part(g.h, 'H'), Part(g.m, 'M'), Part(g.s, 'S'), hours.1, minutes.1);
  }

  lemma Reassemble(t: string, a: string, b: string, c: string, r1: string, r2: string)
    requires |t| >= 2 && t[..2] == "PT" && t[2..] == a + r1 && r1 == b + r2 && r2 == c + ""
    ensures t == "PT" + a + b + c
  {
    assert t == t[..2] + t[2..];
    assert r2 == c;
  }

  // ---------------------------------------------------------------------
  // What the function returns
  // ---------------------------------------------------------------------

  /** A rendered duration parses to h*3600 + m*60 + s, with absent parts counting 0. */
  lemma ParseRendered(g: Groups)
    requires WellFormed(g)
    ensures ParseDuration(Render(g)) == GroupValue(g.h) * 3600 + GroupValue(g.m) * 60 + GroupValue(g.s)
  {
    MatchRender(g);
  }

  /** One trailing newline does not change the result. */
  lemma ParseTrailingNewline(g: Groups)
    requires WellFormed(g)
    ensures ParseDuration(Render(g) + "\n") == ParseDuration(Render(g))
  {
    MatchRender(g);
    MatchWithNewline(Render(g));
  }

  /** A matched string is matched as a whole, and with one more "\n" it is matched without it. */
  lemma MatchWithNewline(t: string)
    requires MatchBody(t).Some?
    ensures Match(t) == MatchBody(t) && Match(t + "\n") == MatchBody(t)
  {
    var s := t + "\n";
    assert s[..|s| - 1] == t && s[|s| - 1] == '\n';
    MatchBodyEndsWithLetter(s);
  }

  lemma RenderEndsWithLetter(g: Groups)
    ensures var r := Render(g); r[|r| - 1] != '\n'
  {
  }

  lemma MatchBodyEndsWithLetter(t: string)
    ensures MatchBody(t).Some? ==> t[|t| - 1] != '\n'
  {
    if MatchBody(t).Some? {
      RenderMatch(t);
      RenderEndsWithLetter(MatchBody(t).value);
    }
  }

  /** Whatever `Match` accepts is a rendered duration, possibly followed by one "\n". */
  lemma MatchAccepts(s: string)
    requires Match(s).Some?
    ensures var g := Match(s).value;
      WellFormed(g) && (s == Render(g) || s == Render(g) + "\n")
  {
    if MatchBody(s).Some? {
      assert Match(s) == MatchBody(s);
      RenderMatch(s);
    } else {
      MatchFallback(s);
      var t := s[..|s| - 1];
      RenderMatch(t);
      NewlineAppended(s, t);
    }
  }

  lemma NewlineAppended(s: string, t: string)
    requires |s| > 0 && s[|s| - 1] == '\n' && t == s[..|s| - 1]
    ensures s == t + "\n"
  {
  }

  lemma MatchFallback(s: string)
    requires Match(s).Some? && MatchBody(s).None?
    ensures |s| > 0 && s[|s| - 1] == '\n' && Match(s) == MatchBody(s[..|s| - 1])
  {
  }

  // ---------------------------------------------------------------------
  // The canonical writing of a number of seconds
  // ---------------------------------------------------------------------

  /** The decimal digits of n (`str(n)`). */
  function Digits(n: nat): (ds: string)
    ensures DigitRun(ds)
  {
    if n < 10 then [('0' as int + n) as char] else Digits(n / 10) + [('0' as int + n % 10) as char]
  }

  lemma {:induction false} ValueOfDigits(n: nat)
    ensures Value(Digits(n)) == n
  {
    if n >= 10 {
      ValueOfDigits(n / 10);
      var ds := Digits(n);
      assert ds[..|ds| - 1] == Digits(n / 10);
    }
  }

  /** The groups of "PT{h}H{m}M{s}S". */
  function Canonical(h: nat, m: nat, s: nat): (g: Groups)
    ensures WellFormed(g)
  {
    Groups(Some(Digits(h)), Some(Digits(m)), Some(Digits(s)))
  }

  /** "PT{h}H{m}M{s}S" parses to h*3600 + m*60 + s. */
  lemma ParseHoursMinutesSeconds(h: nat, m: nat, s: nat)
    ensures ParseDuration(Render(Canonical(h, m, s))) == h * 3600 + m * 60 + s
  {
    var g := Canonical(h, m, s);
    ParseRendered(g);
    ValueOfDigits(h);
    ValueOfDigits(m);
    ValueOfDigits(s);
  }

  /** "PT1H2M3S" is 3723 seconds. */
  lemma ParseFullExample()
    ensures ParseDuration("PT1H2M3S") == 3723
  {
    var g := Groups(Some("1"), Some("2"), Some("3"));
    assert Render(g) == "PT1H2M3S";
    ParseRendered(g);
  }

  /** One trailing newline is accepted: "PT4M\n" is 240 seconds. */
  lemma ParseNewlineExample()
    ensures ParseDuration("PT4M\n") == 240
  {
    var g := Groups(None, Some("4"), None);
    assert Render(g) == "PT4M";
    assert Render(g) + "\n" == "PT4M\n";
    assert Value("4") == 4 by {
      assert "4"[..0] == "";
    }
    ParseRendered(g);
    ParseTrailingNewline(g);
  }

  /** The bare designator "PT" and the empty string are 0 seconds. */
  lemma ParseEmptyExamples()
    ensures ParseDuration("PT") == 0
    ensures ParseDuration("") == 0
  {
    var g := Groups(None, None, None);
    assert Render(g) == "PT";
    ParseRendered(g);
  }

  /** Designators out of order, a date part or a missing number are not matched: 0 seconds. */
  lemma ParseRejectExamples()
    ensures ParseDuration("PT3S1M") == 0
    ensures ParseDuration("P1D") == 0
    ensures ParseDuration("PTH") == 0
  {
    RejectOutOfOrder();
    RejectDate();
    RejectMissingNumber();
  }

  lemma RejectOutOfOrder()
    ensures ParseDuration("PT3S1M") == 0
  {
    assert "PT3S1M"[..2] == "PT" && "PT3S1M"[2..] == "3S1M";
    assert LeadingDigits("3S1M") == 1;
    assert Component("3S1M", 'H') == (None, "3S1M");
    assert Component("3S1M", 'M') == (None, "3S1M");
    assert "3S1M"[..1] == "3" && "3S1M"[2..] == "1M";
    assert Component("3S1M", 'S') == (Some("3"), "1M");
    assert MatchBody("PT3S1M") == None;
  }

  lemma RejectDate()
    ensures ParseDuration("P1D") == 0
  {
    assert "P1D"[..2][1] != "PT"[1];
    assert MatchBody("P1D") == None;
  }

  lemma RejectMissingNumber()
    ensures ParseDuration("PTH") == 0
  {
    assert "PTH"[..2] == "PT" && "PTH"[2..] == "H";
    assert LeadingDigits("H") == 0;
    assert LeadingDigits("") == 0;
    assert MatchBody("PTH") == None;
  }
}
