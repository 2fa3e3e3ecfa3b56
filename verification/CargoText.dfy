/** The text operations that the Cargo version rewriter is built from: Python's
    `str.strip`, `str.partition` and `str.splitlines(keepends=True)`. */
module CargoText {
  // ----- strip -----

  predicate IsSpace(c: char) {
    || ('\t' <= c <= '\r') || ('\U{1c}' <= c <= ' ') || c == '\U{85}' || c == '\U{a0}' || c == '\U{1680}'
    || ('\U{2000}' <= c <= '\U{200a}') || c == '\U{2028}' || c == '\U{2029}' || c == '\U{202f}' || c == '\U{205f}'
    || c == '\U{3000}'
  }

  predicate AllSpace(s: string) {
    forall i :: 0 <= i < |s| ==> IsSpace(s[i])
  }

  function StripLeft(s: string): string {
    if s != "" && IsSpace(s[0]) then StripLeft(s[1..]) else s
  }

  function StripRight(s: string): string {
    if s != "" && IsSpace(s[|s| - 1]) then StripRight(s[..|s| - 1]) else s
  }

  function Strip(s: string): string {
    StripRight(StripLeft(s))
  }

  lemma {:induction false} StripLeftSplits(s: string) returns (lead: string)
    ensures AllSpace(lead) && s == lead + StripLeft(s)
  {
    if s != "" && IsSpace(s[0]) {
      lead := StripLeftSplits(s[1..]);
      lead := [s[0]] + lead;
    } else {
      lead := "";
    }
  }

  lemma {:induction false} StripRightSplits(s: string) returns (trail: string)
    ensures AllSpace(trail) && s == StripRight(s) + trail
  {
    if s != "" && IsSpace(s[|s| - 1]) {
      trail := StripRightSplits(s[..|s| - 1]);
      trail := trail + [s[|s| - 1]];
    } else {
      trail := "";
    }
  }

  lemma {:induction false} StripLeftSkips(lead: string, s: string)
    requires AllSpace(lead) && s != "" && !IsSpace(s[0])
    ensures StripLeft(lead + s) == s
  {
    if lead == "" {
      assert lead + s == s;
    } else {
      StripLeftSkips(lead[1..], s);
      assert (lead + s)[1..] == lead[1..] + s;
    }
  }

  lemma {:induction false} StripRightKeeps(s: string, t: string)
    requires s != "" && !IsSpace(s[|s| - 1])
    ensures StripRight(s + t) == s + StripRight(t)
  {
    if t == "" {
      assert s + t == s;
    } else if IsSpace(t[|t| - 1]) {
      StripRightKeeps(s, t[..|t| - 1]);
      assert (s + t)[..|s + t| - 1] == s + t[..|t| - 1];
    }
  }

  // ----- partition -----

  /** Where the first '=' is; the length if there is none. */
  function EqualsAt(line: string): (k: nat)
    ensures k <= |line| && (k < |line| ==> line[k] == '=') && '=' !in line[..k]
    ensures forall j :: 0 <= j < |line| && line[j] == '=' ==> k <= j
  {
    if line == "" || line[0] == '=' then 0
    else
      var k := EqualsAt(line[1..]);
      assert line[..k + 1] == [line[0]] + line[1..][..k];
      1 + k
  }

  function Key(line: string): string {
    line[..EqualsAt(line)]
  }

  /** The text before the first '=' stays the key whatever follows. */
  lemma KeyOf(key: string, rest: string)
    requires '=' !in key
    ensures Key(key + "=" + rest) == key
  {
    var line := key + "=" + rest;
    assert line[|key|] == '=';
    assert forall j :: 0 <= j < |key| ==> line[j] == key[j];
  }

  // ----- splitlines -----

  predicate IsBreak(c: char) {
    || ('\n' <= c <= '\r') || ('\U{1c}' <= c <= '\U{1e}') || c == '\U{85}' || c == '\U{2028}' || c == '\U{2029}'
  }

  predicate BreakFree(s: string) {
    forall i :: 0 <= i < |s| ==> !IsBreak(s[i])
  }

  /** The length of the first line, with its line break. */
  function LineLength(t: string): (n: nat)
    requires t != ""
    ensures 0 < n <= |t|
  {
    if t[0] == '\r' && |t| > 1 && t[1] == '\n' then 2
    else if IsBreak(t[0]) || |t| == 1 then 1
    else 1 + LineLength(t[1..])
  }

  function SplitLines(t: string): seq<string> {
    if t == "" then [] else [t[..LineLength(t)]] + SplitLines(t[LineLength(t)..])
  }

  function Join(lines: seq<string>): string {
    if lines == [] then "" else lines[0] + Join(lines[1..])
  }

  lemma {:induction false} JoinOfSplit(t: string)
    ensures Join(SplitLines(t)) == t
  {
    if t != "" {
      JoinOfSplit(t[LineLength(t)..]);
    }
  }

  /** Each line is what splitting the rest of the text from there on would give. */
  predicate AreLines(lines: seq<string>) {
    lines == [] || (lines[0] != "" && LineLength(Join(lines)) == |lines[0]| && AreLines(lines[1..]))
  }

  lemma {:induction false} SplitAreLines(t: string)
    ensures AreLines(SplitLines(t))
  {
    if t != "" {
      SplitAreLines(t[LineLength(t)..]);
      JoinOfSplit(t);
    }
  }

  lemma {:induction false} SplitOfJoin(lines: seq<string>)
    requires AreLines(lines)
    ensures SplitLines(Join(lines)) == lines
  {
    if lines != [] {
      SplitOfJoin(lines[1..]);
      assert Join(lines)[..|lines[0]|] == lines[0] && Join(lines)[|lines[0]|..] == Join(lines[1..]);
    }
  }

  /** Lines can be put together and taken apart again exactly if they are lines. */
  lemma SplitJoinExactly(lines: seq<string>)
    ensures SplitLines(Join(lines)) == lines <==> AreLines(lines)
  {
    if AreLines(lines) {
      SplitOfJoin(lines);
    }
    SplitAreLines(Join(lines));
  }

  // ----- where a line ends -----

  /** A line that a rewriter puts together: text without breaks, then LF, CRLF or nothing. */
  lemma {:induction false} LineEndsAt(body: string, ending: string, rest: string)
    requires BreakFree(body) && (ending == "\n" || ending == "\r\n" || (ending == "" && rest == ""))
    requires body + ending != ""
    ensures LineLength(body + ending + rest) == |body + ending|
  {
    var t := body + ending + rest;
    if |body| > 0 && |t| > 1 {
      assert t[0] == body[0];
      assert t[1..] == body[1..] + ending + rest;
      if body[1..] + ending != "" {
        LineEndsAt(body[1..], ending, rest);
      }
    }
  }

  /** Whether a line ends where it does depends only on the next character. */
  lemma {:induction false} LineEndIsLocal(line: string, rest: string, rest': string)
    requires line != "" && rest != "" && rest' != "" && rest[0] == rest'[0]
    requires LineLength(line + rest) == |line|
    ensures LineLength(line + rest') == |line|
  {
    var t, t' := line + rest, line + rest';
    assert t[0] == t'[0] && t[1] == t'[1];
    if !IsBreak(t[0]) {
      assert |line| > 1 by {
        assert t[1..] != "";
      }
      assert t[1..] == line[1..] + rest && t'[1..] == line[1..] + rest';
      LineEndIsLocal(line[1..], rest, rest');
    }
  }

  /** A break inside a text ends its first line there at the latest. */
  lemma {:induction false} BreakEndsLine(t: string, i: nat)
    requires i < |t| && IsBreak(t[i])
    ensures LineLength(t) <= i + 2
    ensures t[i] != '\r' || i + 1 == |t| || t[i + 1] != '\n' ==> LineLength(t) <= i + 1
  {
    if i > 0 && !IsBreak(t[0]) {
      BreakEndsLine(t[1..], i - 1);
    }
  }

  /** A line that does not end in a break is the last one. */
  lemma {:induction false} UnbrokenIsLast(t: string)
    requires t != ""
    ensures !IsBreak(t[LineLength(t) - 1]) ==> LineLength(t) == |t|
  {
    if !IsBreak(t[0]) && |t| > 1 {
      UnbrokenIsLast(t[1..]);
    }
  }

  /** Text without breaks in front of a line makes that line longer. */
  lemma {:induction false} PrefixExtendsLine(body: string, t: string)
    requires BreakFree(body) && t != ""
    ensures LineLength(body + t) == |body| + LineLength(t)
  {
    if body == "" {
      assert body + t == t;
    } else {
      PrefixExtendsLine(body[1..], t);
      assert (body + t)[1..] == body[1..] + t;
    }
  }

  // ----- what strip and splitlines come to -----

  /** Python's white space. */
  const SPACES := "\t\n\U{b}\U{c}\r\U{1c}\U{1d}\U{1e}\U{1f} \U{85}\U{a0}\U{1680}\U{2000}\U{2001}\U{2002}" +
                  "\U{2003}\U{2004}\U{2005}\U{2006}\U{2007}\U{2008}\U{2009}\U{200a}\U{2028}\U{2029}" +
                  "\U{202f}\U{205f}\U{3000}"

  /** The line boundaries of `str.splitlines`. */
  const BREAKS := "\n\U{b}\U{c}\r\U{1c}\U{1d}\U{1e}\U{85}\U{2028}\U{2029}"

  lemma SpacesAndBreaks(c: char)
    ensures IsSpace(c) <==> c in SPACES
    ensures IsBreak(c) <==> c in BREAKS
  {
  }

  lemma {:induction false} SpaceStripsAway(s: string)
    requires AllSpace(s)
    ensures StripRight(s) == ""
  {
    if s != "" {
      SpaceStripsAway(s[..|s| - 1]);
    }
  }

  /** What is between the white space at either end. */
  lemma StripOf(lead: string, core: string, trail: string)
    requires AllSpace(lead) && AllSpace(trail)
    requires core != "" && !IsSpace(core[0]) && !IsSpace(core[|core| - 1])
    ensures Strip(lead + core + trail) == core
  {
    assert lead + core + trail == lead + (core + trail);
    StripLeftSkips(lead, core + trail);
    StripRightKeeps(core, trail);
    SpaceStripsAway(trail);
  }

  /** The first line ends at its first break, both characters of a CR LF taken together. */
  predicate EndsFirstLine(t: string, n: nat) {
    && 0 < n <= |t| && (n < |t| ==> IsBreak(t[n - 1]) && !(t[n - 1] == '\r' && t[n] == '\n'))
    && forall j :: 0 <= j < n - 1 && IsBreak(t[j]) ==> j == n - 2 && t[j] == '\r' && t[j + 1] == '\n'
  }

  lemma {:induction false} LineLengthEnds(t: string)
    requires t != ""
    ensures EndsFirstLine(t, LineLength(t))
  {
    if !IsBreak(t[0]) && |t| > 1 {
      LineLengthEnds(t[1..]);
      assert forall j :: 1 <= j < |t| ==> t[j] == t[1..][j - 1];
    }
  }

  lemma LineLengthExactly(t: string, n: nat)
    requires t != ""
    ensures EndsFirstLine(t, n) <==> n == LineLength(t)
  {
    LineLengthEnds(t);
    hide LineLength;
  }
}
