/** The release script's rewriting of version lines in Cargo.toml and Cargo.lock. */
module CargoVersion {
  import opened CargoText

  datatype Error = InvalidVersionLine | NoPackageVersion | WrongMatches(found: nat)
  datatype Result<T> = Ok(value: T) | Err(error: Error)

  predicate EndsWith(s: string, t: string) {
    |t| <= |s| && s[|s| - |t|..] == t
  }

  predicate StartsWith(s: string, t: string) {
    |t| <= |s| && s[..|t|] == t
  }

  // ----- one line -----

  predicate IsVersionLine(line: string) {
    Strip(Key(line)) == "version"
  }

  /** The line endings that the rewriter knows. */
  function Ending(line: string): string {
    if EndsWith(line, "\r\n") then "\r\n" else if EndsWith(line, "\n") then "\n" else ""
  }

  function NewLine(line: string, version: string): string {
    Key(line) + "= \"" + version + "\"" + Ending(line)
  }

  function ReplaceVersionLine(line: string, version: string): Result<string> {
    if EqualsAt(line) == |line| || !IsVersionLine(line) then Err(InvalidVersionLine) else Ok(NewLine(line, version))
  }

  lemma StripIsInfix(s: string) returns (lead: string, trail: string)
    ensures AllSpace(lead) && AllSpace(trail) && s == lead + Strip(s) + trail
  {
    lead := StripLeftSplits(s);
    trail := StripRightSplits(StripLeft(s));
  }

  /** A version line starts with the word, whatever blanks surround it. */
  lemma VersionLineStarts(line: string)
    requires IsVersionLine(line)
    ensures StartsWith(Strip(line), "version")
  {
    var lead, trail := StripIsInfix(Key(line));
    var rest := trail + line[EqualsAt(line)..];
    assert line == lead + ("version" + rest);
    StripLeftSkips(lead, "version" + rest);
    StripRightKeeps("version", rest);
    assert Strip(line) == "version" + StripRight(rest);
  }

  /** A rewritten line keeps its key text, is a version line again, and rewriting it a
      second time forgets the first version. */
  lemma NewLineIsVersionLine(line: string, v: string, w: string)
    requires IsVersionLine(line)
    ensures var line' := NewLine(line, v);
            && Key(line') == Key(line) && IsVersionLine(line') && EqualsAt(line') < |line'|
            && Ending(line') == Ending(line) && NewLine(line', w) == NewLine(line, w)
  {
    hide Strip;
    NewLineKey(line, v);
    var before := Key(line) + "= \"" + v + "\"";
    assert NewLine(line, v) == before + Ending(line) && before[|before| - 1] == '"';
    EndingOf(before, Ending(line));
    hide Key, Ending;
  }

  lemma NewLineKey(line: string, v: string)
    ensures var line' := NewLine(line, v); Key(line') == Key(line) && EqualsAt(line') < |line'|
  {
    var rest := " \"" + v + "\"" + Ending(line);
    hide Ending;
    assert NewLine(line, v) == Key(line) + "=" + rest;
    KeyOf(Key(line), rest);
    hide NewLine;
    assert |NewLine(line, v)| > |Key(line)|;
  }

  lemma EndingOf(before: string, ending: string)
    requires before != "" && before[|before| - 1] == '"' && (ending == "" || ending == "\n" || ending == "\r\n")
    ensures Ending(before + ending) == ending
  {
    var s := before + ending;
    assert s[|before| - 1] == '"';
    if ending == "\r\n" {
      assert s[|s| - 2..] == "\r\n";
    } else if ending == "\n" {
      assert s[|s| - 2] == '"';
      assert s[|s| - 1..] == "\n";
    } else {
      assert s[|s| - 1] == '"';
    }
  }

  predicate IsHeader(line: string) {
    StartsWith(Strip(line), "[") && EndsWith(Strip(line), "]")
  }

  predicate IsStart(line: string) {
    Strip(line) == "[[package]]"
  }

  predicate IsSource(line: string) {
    StartsWith(Strip(line), "source =")
  }

  predicate IsName(line: string, name: string) {
    Strip(line) == "name = \"" + name + "\""
  }

  /** A version line is nothing else that the rewriter looks for. */
  lemma VersionLineRole(line: string, name: string)
    requires IsVersionLine(line)
    ensures !IsHeader(line) && !IsStart(line) && !IsSource(line) && !IsName(line, name)
  {
    VersionLineStarts(line);
    hide Strip, Key;
    var text := Strip(line);
    FirstOf(text, "version");
    if IsHeader(line) {
      FirstOf(text, "[");
    }
    if IsSource(line) {
      FirstOf(text, "source =");
    }
  }

  lemma FirstOf(s: string, t: string)
    requires StartsWith(s, t) && t != ""
    ensures s != "" && s[0] == t[0]
  {
    assert s[..|t|][0] == s[0];
  }

  // ----- the manifest -----

  /** Whether the last section header before line i is the package section's. */
  predicate InPackage(lines: seq<string>, i: nat)
    requires i <= |lines|
  {
    i > 0 && (if IsHeader(lines[i - 1]) then Strip(lines[i - 1]) == "[package]" else InPackage(lines, i - 1))
  }

  predicate IsPackageVersion(lines: seq<string>, i: nat) {
    i < |lines| && InPackage(lines, i) && IsVersionLine(lines[i])
  }

  predicate IsFirstVersion(lines: seq<string>, i: nat) {
    IsPackageVersion(lines, i) && forall j :: 0 <= j < i ==> !IsPackageVersion(lines, j)
  }

  /** The file with line i rewritten. */
  function Rewrite(lines: seq<string>, i: nat, version: string): Result<string>
    requires i < |lines|
  {
    var line := ReplaceVersionLine(lines[i], version);
    if line.Err? then Err(line.error) else Ok(Join(lines[i := line.value]))
  }

  /** What the manifest update amounts to: the first version line of the package section
      is rewritten. */
  ghost function ManifestUpdate(text: string, version: string): Result<string> {
    var lines := SplitLines(text);
    if i: nat :| IsFirstVersion(lines, i) then Rewrite(lines, i, version) else Err(NoPackageVersion)
  }

  method UpdateManifest(text: string, version: string) returns (r: Result<string>)
    ensures r == ManifestUpdate(text, version)
  {
    hide SplitLines, Strip, Key, Join;
    var lines := SplitLines(text);
    var inPackageSection, updated := false, false;
    var index := 0;
    while index < |lines|
      invariant 0 <= index <= |lines| && !updated && lines == SplitLines(text)
      invariant inPackageSection == InPackage(lines, index)
      invariant forall j :: 0 <= j < index ==> !IsPackageVersion(lines, j)
    {
      var line := lines[index];
      var stripped := Strip(line);
      if IsVersionLine(line) {
        VersionLineStarts(line);
        VersionLineRole(line, "");
      }
      if StartsWith(stripped, "[") && EndsWith(stripped, "]") {
        inPackageSection := stripped == "[package]";
      } else if inPackageSection && StartsWith(stripped, "version") {
        if Strip(Key(line)) == "version" {
          assert IsFirstVersion(lines, index);
          FirstIsUnique(lines, index);
          var replaced := ReplaceVersionLine(line, version);
          if replaced.Err? {
            return Err(replaced.error);
          }
          lines := lines[index := replaced.value];
          updated := true;
          break;
        }
      }
      index := index + 1;
    }
    if !updated {
      return Err(NoPackageVersion);
    }
    r := Ok(Join(lines));
  }

  lemma FirstIsUnique(lines: seq<string>, i: nat)
    requires IsFirstVersion(lines, i)
    ensures forall j :: IsFirstVersion(lines, j) ==> j == i
  {
    hide InPackage, IsVersionLine;
    forall j | IsFirstVersion(lines, j) ensures j == i {
      assert IsPackageVersion(lines, i) && IsPackageVersion(lines, j);
    }
  }

  // ----- the lock file -----

  predicate Sourced(lines: seq<string>, s: nat, e: nat)
    requires s <= e <= |lines|
  {
    exists k :: s <= k < e && IsSource(lines[k])
  }

  predicate Named(lines: seq<string>, s: nat, e: nat, name: string)
    requires s <= e <= |lines|
  {
    exists k :: s <= k < e && IsName(lines[k], name)
  }

  /** A block runs from one package header to the next, or to the end of the file. */
  predicate IsBlock(lines: seq<string>, s: nat, e: nat) {
    && s < e <= |lines| && IsStart(lines[s])
    && (forall k :: s < k < e ==> !IsStart(lines[k]))
    && (e < |lines| ==> IsStart(lines[e]))
  }

  /** Line i is a version line in a block of the named package that has no source. */
  ghost predicate Matches(lines: seq<string>, name: string, i: nat) {
    i < |lines| && IsVersionLine(lines[i])
    && exists s: nat, e: nat :: IsBlock(lines, s, e) && s <= i < e && !Sourced(lines, s, e) && Named(lines, s, e, name)
  }

  ghost function MatchesBefore(lines: seq<string>, name: string, n: nat): seq<nat> {
    if n == 0 then [] else MatchesBefore(lines, name, n - 1) + (if Matches(lines, name, n - 1) then [n - 1] else [])
  }

  /** What the lock file update amounts to: there must be exactly one matching line. */
  ghost function LockUpdate(text: string, name: string, version: string): Result<string> {
    var lines := SplitLines(text);
    var found := MatchesBefore(lines, name, |lines|);
    MatchesInRange(lines, name, |lines|);
    if |found| == 1 then Rewrite(lines, found[0], version) else Err(WrongMatches(|found|))
  }

  lemma {:induction false} MatchesInRange(lines: seq<string>, name: string, n: nat)
    ensures forall k :: 0 <= k < |MatchesBefore(lines, name, n)| ==>
              var i := MatchesBefore(lines, name, n)[k]; i < n && Matches(lines, name, i)
  {
    hide Matches;
    if n > 0 {
      MatchesInRange(lines, name, n - 1);
    }
  }

  method PackageStarts(lines: seq<string>) returns (starts: seq<nat>)
    ensures |starts| > 0 && starts[|starts| - 1] == |lines|
    ensures forall k :: 0 <= k < |starts| - 1 ==> IsBlock(lines, starts[k], starts[k + 1])
    ensures starts[0] <= |lines| && forall i :: 0 <= i < starts[0] ==> !IsStart(lines[i])
  {
    starts := [];
    var index := 0;
    while index < |lines|
      invariant 0 <= index <= |lines|
      invariant forall k :: 0 <= k < |starts| - 1 ==> IsBlock(lines, starts[k], starts[k + 1])
      invariant starts != [] ==> starts[0] <= starts[|starts| - 1] < index && IsStart(lines[starts[|starts| - 1]])
      invariant starts != [] ==> forall i :: starts[|starts| - 1] < i < index ==> !IsStart(lines[i])
      invariant forall i :: 0 <= i < (if starts == [] then index else starts[0]) ==> !IsStart(lines[i])
    {
      if Strip(lines[index]) == "[[package]]" {
        starts := starts + [index];
      }
      index := index + 1;
    }
    starts := starts + [|lines|];
  }

  /** The matching lines of one block. */
  method BlockMatches(lines: seq<string>, name: string, start: nat, end: nat) returns (found: seq<nat>)
    requires IsBlock(lines, start, end)
    ensures MatchesBefore(lines, name, start) + found == MatchesBefore(lines, name, end)
  {
    hide Strip, Key, StartsWith;
    found := [];
    if Sourced(lines, start, end) || !Named(lines, start, end, name) {
      NoneInBlock(lines, name, start, end, end);
      return;
    }
    var offset := start;
    while offset < end
      invariant start <= offset <= end
      invariant MatchesBefore(lines, name, start) + found == MatchesBefore(lines, name, offset)
    {
      InBlock(lines, name, start, end, offset);
      if Strip(Key(lines[offset])) == "version" {
        found := found + [offset];
      }
      offset := offset + 1;
    }
  }

  /** A line's block is determined by the line. */
  lemma InBlock(lines: seq<string>, name: string, s: nat, e: nat, i: nat)
    requires IsBlock(lines, s, e) && s <= i < e
    ensures Matches(lines, name, i) <==> IsVersionLine(lines[i]) && !Sourced(lines, s, e) && Named(lines, s, e, name)
  {
    hide IsStart, IsVersionLine, IsName, IsSource;
    forall s': nat, e': nat | IsBlock(lines, s', e') && s' <= i < e' ensures s' == s && e' == e {
    }
  }

  lemma {:induction false} NoneInBlock(lines: seq<string>, name: string, s: nat, e: nat, n: nat)
    requires IsBlock(lines, s, e) && s <= n <= e && (Sourced(lines, s, e) || !Named(lines, s, e, name))
    ensures MatchesBefore(lines, name, n) == MatchesBefore(lines, name, s)
  {
    hide Matches, IsBlock, Sourced, Named;
    if n > s {
      NoneInBlock(lines, name, s, e, n - 1);
      assert n - 1 < e;
      InBlock(lines, name, s, e, n - 1);
    }
  }

  lemma {:induction false} NoneBeforeBlocks(lines: seq<string>, name: string, n: nat)
    requires n <= |lines| && forall i :: 0 <= i < n ==> !IsStart(lines[i])
    ensures MatchesBefore(lines, name, n) == []
  {
    hide IsStart, IsVersionLine, Sourced, Named;
    if n > 0 {
      NoneBeforeBlocks(lines, name, n - 1);
    }
  }

  method UpdateLock(text: string, name: string, version: string) returns (r: Result<string>)
    ensures r == LockUpdate(text, name, version)
  {
    hide SplitLines, IsBlock, IsStart, Strip, Key, Join, Matches, ReplaceVersionLine;
    var lines := SplitLines(text);
    var starts := PackageStarts(lines);
    NoneBeforeBlocks(lines, name, starts[0]);
    var matching := [];
    var k := 0;
    while k < |starts| - 1
      invariant 0 <= k < |starts|
      invariant matching == MatchesBefore(lines, name, starts[k])
    {
      var found := BlockMatches(lines, name, starts[k], starts[k + 1]);
      matching := matching + found;
      k := k + 1;
    }
    MatchesInRange(lines, name, |lines|);
    if |matching| != 1 {
      return Err(WrongMatches(|matching|));
    }
    var replaced := ReplaceVersionLine(lines[matching[0]], version);
    if replaced.Err? {
      return Err(replaced.error);
    }
    r := Ok(Join(lines[matching[0] := replaced.value]));
  }

  // ----- what an update keeps -----

  /** The rewritten file splits into the same lines, but for the one rewritten, exactly if
      the version has no line break and the line's ending was one the rewriter knows (or
      the line was the last). */
  lemma RewriteKeepsLines(text: string, i: nat, v: string)
    requires i < |SplitLines(text)| && ReplaceVersionLine(SplitLines(text)[i], v).Ok?
    ensures var lines := SplitLines(text);
            var lines' := lines[i := NewLine(lines[i], v)];
            SplitLines(Join(lines')) == lines' <==> BreakFree(v) && (EndingKept(lines[i]) || i == |lines| - 1)
  {
    var lines := SplitLines(text);
    var lines' := lines[i := NewLine(lines[i], v)];
    SplitAreLines(text);
    SplitJoinExactly(lines');
    ReplacedAreLines(lines, i, v);
  }

  /** LF, CRLF, or no ending at all. */
  predicate EndingKept(line: string) {
    line == "" || !IsBreak(line[|line| - 1]) || Ending(line) != ""
  }

  lemma {:induction false} ReplacedAreLines(lines: seq<string>, i: nat, v: string)
    requires AreLines(lines) && i < |lines| && ReplaceVersionLine(lines[i], v).Ok?
    ensures AreLines(lines[i := NewLine(lines[i], v)]) <==> BreakFree(v) && (EndingKept(lines[i]) || i == |lines| - 1)
  {
    if i == 0 {
      ReplacedFirst(lines, v);
    } else {
      hide NewLine, EndingKept, BreakFree, IsVersionLine, LineLength;
      ReplacedAreLines(lines[1..], i - 1, v);
      ReplacedLater(lines, i, v);
    }
  }

  lemma ReplacedFirst(lines: seq<string>, v: string)
    requires AreLines(lines) && lines != [] && ReplaceVersionLine(lines[0], v).Ok?
    ensures AreLines(lines[0 := NewLine(lines[0], v)]) <==> BreakFree(v) && (EndingKept(lines[0]) || |lines| == 1)
  {
    FirstReplaced(lines[0], Join(lines[1..]), v);
    JoinEmpty(lines[1..]);
    hide NewLine, EndingKept, BreakFree, LineLength, IsVersionLine;
    assert lines[0 := NewLine(lines[0], v)][1..] == lines[1..];
  }

  lemma ReplacedLater(lines: seq<string>, i: nat, v: string)
    requires AreLines(lines) && 0 < i < |lines| && ReplaceVersionLine(lines[i], v).Ok?
    ensures AreLines(lines[i := NewLine(lines[i], v)]) <==> AreLines(lines[1..][i - 1 := NewLine(lines[1..][i - 1], v)])
  {
    var lines' := lines[i := NewLine(lines[i], v)];
    assert lines'[1..] == lines[1..][i - 1 := NewLine(lines[1..][i - 1], v)];
    SameFirstChar(lines[1..], i - 1, v);
    hide NewLine, IsVersionLine, LineLength;
    LineEndIsLocal(lines[0], Join(lines[1..]), Join(lines'[1..]));
  }

  lemma JoinEmpty(lines: seq<string>)
    requires AreLines(lines)
    ensures Join(lines) == "" <==> lines == []
  {
    if lines != [] {
      assert |Join(lines)| == |lines[0]| + |Join(lines[1..])|;
    }
  }

  /** The text from the rewritten line on still starts with the same character. */
  lemma SameFirstChar(lines: seq<string>, i: nat, v: string)
    requires AreLines(lines) && i < |lines| && IsVersionLine(lines[i])
    ensures var lines' := lines[i := NewLine(lines[i], v)];
            Join(lines) != "" && Join(lines') != "" && Join(lines')[0] == Join(lines)[0]
  {
    assert Key(lines[i]) != "";
    assert lines[i][0] == Key(lines[i])[0] == NewLine(lines[i], v)[0];
  }

  /** A key has no line break in it. */
  lemma KeyIsBreakFree(line: string, rest: string)
    requires line != "" && LineLength(line + rest) == |line| && EqualsAt(line) < |line|
    ensures BreakFree(Key(line))
  {
    var k, t := EqualsAt(line), line + rest;
    forall j | 0 <= j < k ensures !IsBreak(line[j]) {
      assert t[j] == line[j] && t[j + 1] == line[j + 1] && (j + 1 == k ==> t[j + 1] == '=');
      if IsBreak(t[j]) {
        BreakEndsLine(t, j);
      }
    }
  }

  lemma FirstReplaced(line: string, rest: string, v: string)
    requires line != "" && LineLength(line + rest) == |line| && EqualsAt(line) < |line|
    ensures NewLine(line, v) != ""
    ensures LineLength(NewLine(line, v) + rest) == |NewLine(line, v)| <==>
              BreakFree(v) && (EndingKept(line) || rest == "")
  {
    KeyIsBreakFree(line, rest);
    var body, ending := Key(line) + "= \"" + v + "\"", Ending(line);
    var t := body + ending + rest;
    assert NewLine(line, v) == body + ending;
    if !BreakFree(v) {
      var j :| 0 <= j < |v| && IsBreak(v[j]);
      BrokenVersion(Key(line), v, ending + rest, j);
      assert t == Key(line) + "= \"" + v + "\"" + (ending + rest);
    } else {
      BodyIsBreakFree(Key(line), v);
      hide Key, BreakFree;
      if ending != "" {
        LineEndsAt(body, ending, rest);
      } else if rest == "" {
        LineEndsAt(body, "", "");
        assert body + "" + "" == t;
      } else {
        UnbrokenIsLast(line + rest);
        UnbrokenIsLast(t);
        assert (line + rest)[|line| - 1] == line[|line| - 1];
        assert t[|body| - 1] == '"';
      }
    }
  }

  lemma BodyIsBreakFree(key: string, v: string)
    requires BreakFree(key) && BreakFree(v)
    ensures BreakFree(key + "= \"" + v + "\"")
  {
    var a, b := key + "= \"", key + "= \"" + v;
    assert BreakFree(a);
    assert BreakFree(b);
  }

  /** A break in the version cuts the new line short. */
  lemma BrokenVersion(key: string, v: string, after: string, j: nat)
    requires j < |v| && IsBreak(v[j])
    ensures LineLength(key + "= \"" + v + "\"" + after) < |key| + 4 + |v|
  {
    var t := key + "= \"" + v + "\"" + after;
    var p := |key| + 3 + j;
    assert t[p] == v[j];
    assert t[p + 1] == if j + 1 < |v| then v[j + 1] else '"';
    BreakEndsLine(t, p);
  }

  /** The lines after a rewrite that loses an ending: two lines have become one. */
  function Merged(lines: seq<string>, i: nat, v: string): seq<string>
    requires i + 1 < |lines|
  {
    lines[..i] + [NewLine(lines[i], v) + lines[i + 1]] + lines[i + 2..]
  }

  /** After any other ending (a lone carriage return, say), the rewritten line swallows the
      line that follows it. */
  lemma LostEndingMergesLines(text: string, i: nat, v: string)
    requires i + 1 < |SplitLines(text)| && ReplaceVersionLine(SplitLines(text)[i], v).Ok? && BreakFree(v)
    requires !EndingKept(SplitLines(text)[i])
    ensures SplitLines(Rewrite(SplitLines(text), i, v).value) == Merged(SplitLines(text), i, v)
  {
    SplitAreLines(text);
    MergedAreLines(SplitLines(text), i, v);
    SplitOfJoin(Merged(SplitLines(text), i, v));
  }

  lemma {:induction false} MergedAreLines(lines: seq<string>, i: nat, v: string)
    requires AreLines(lines) && i + 1 < |lines| && ReplaceVersionLine(lines[i], v).Ok? && BreakFree(v) &&
             !EndingKept(lines[i])
    ensures AreLines(Merged(lines, i, v)) && Join(Merged(lines, i, v)) == Join(lines[i := NewLine(lines[i], v)])
  {
    if i == 0 {
      MergedFirst(lines, v);
    } else {
      hide NewLine, EndingKept, BreakFree, IsVersionLine, LineLength;
      MergedAreLines(lines[1..], i - 1, v);
      MergedLater(lines, i, v);
    }
  }

  lemma MergedFirst(lines: seq<string>, v: string)
    requires AreLines(lines) && 1 < |lines| && ReplaceVersionLine(lines[0], v).Ok? && BreakFree(v) &&
             !EndingKept(lines[0])
    ensures AreLines(Merged(lines, 0, v)) && Join(Merged(lines, 0, v)) == Join(lines[0 := NewLine(lines[0], v)])
  {
    KeyIsBreakFree(lines[0], Join(lines[1..]));
    BodyIsBreakFree(Key(lines[0]), v);
    var line := NewLine(lines[0], v);
    assert line == Key(lines[0]) + "= \"" + v + "\"";
    PrefixExtendsLine(line, Join(lines[1..]));
    hide NewLine, LineLength, EndingKept, BreakFree, IsVersionLine, Key;
    MergedTail(lines, v);
    assert Join(lines[0 := line]) == line + Join(lines[1..]);
  }

  lemma MergedTail(lines: seq<string>, v: string)
    requires |lines| > 1
    ensures var m, line := Merged(lines, 0, v), NewLine(lines[0], v);
            && m != [] && m[0] == line + lines[1] && m[1..] == lines[1..][1..] && lines[0 := line][1..] == lines[1..]
            && Join(m) == line + Join(lines[1..])
  {
    hide NewLine;
    var m, line := Merged(lines, 0, v), NewLine(lines[0], v);
    assert m[1..] == lines[1..][1..] && lines[0 := line][1..] == lines[1..];
    assert line + (lines[1] + Join(lines[1..][1..])) == line + lines[1] + Join(lines[1..][1..]);
  }

  lemma MergedLater(lines: seq<string>, i: nat, v: string)
    requires AreLines(lines) && 0 < i && i + 1 < |lines| && ReplaceVersionLine(lines[i], v).Ok?
    requires AreLines(Merged(lines[1..], i - 1, v))
    requires Join(Merged(lines[1..], i - 1, v)) == Join(lines[1..][i - 1 := NewLine(lines[1..][i - 1], v)])
    ensures AreLines(Merged(lines, i, v)) && Join(Merged(lines, i, v)) == Join(lines[i := NewLine(lines[i], v)])
  {
    var lines' := lines[i := NewLine(lines[i], v)];
    assert lines'[1..] == lines[1..][i - 1 := NewLine(lines[1..][i - 1], v)];
    assert Merged(lines, i, v)[1..] == Merged(lines[1..], i - 1, v);
    SameFirstChar(lines[1..], i - 1, v);
    hide NewLine, IsVersionLine, LineLength, Merged;
    LineEndIsLocal(lines[0], Join(lines[1..]), Join(lines'[1..]));
  }

  // ----- the last writer wins -----

  /** Lines play the same part in the file. */
  predicate SameRole(a: string, b: string, name: string) {
    && IsHeader(a) == IsHeader(b) && (IsHeader(a) ==> a == b) && IsVersionLine(a) == IsVersionLine(b)
    && IsStart(a) == IsStart(b) && IsSource(a) == IsSource(b) && IsName(a, name) == IsName(b, name)
  }

  predicate SameRoles(lines: seq<string>, lines': seq<string>, name: string) {
    |lines'| == |lines| && forall k :: 0 <= k < |lines| ==> SameRole(lines[k], lines'[k], name)
  }

  lemma ReplacedHasSameRoles(lines: seq<string>, i: nat, v: string, name: string)
    requires i < |lines| && IsVersionLine(lines[i])
    ensures SameRoles(lines, lines[i := NewLine(lines[i], v)], name)
  {
    NewLineIsVersionLine(lines[i], v, v);
    VersionLineRole(lines[i], name);
    VersionLineRole(NewLine(lines[i], v), name);
  }

  lemma {:induction false} SamePackage(lines: seq<string>, lines': seq<string>, name: string, i: nat)
    requires SameRoles(lines, lines', name) && i <= |lines|
    ensures InPackage(lines, i) == InPackage(lines', i)
  {
    if i > 0 {
      SamePackage(lines, lines', name, i - 1);
      assert SameRole(lines[i - 1], lines'[i - 1], name);
    }
  }

  lemma SameFirstVersion(lines: seq<string>, lines': seq<string>, i: nat)
    requires SameRoles(lines, lines', "")
    ensures IsFirstVersion(lines, i) == IsFirstVersion(lines', i)
  {
    hide IsHeader, IsVersionLine, InPackage;
    forall j: nat | j < |lines| ensures IsPackageVersion(lines, j) == IsPackageVersion(lines', j) {
      SamePackage(lines, lines', "", j);
      assert SameRole(lines[j], lines'[j], "");
    }
  }

  predicate SamePart(lines: seq<string>, lines': seq<string>, name: string, s: nat, e: nat)
    requires s <= e <= |lines| == |lines'|
  {
    && IsBlock(lines, s, e) == IsBlock(lines', s, e)
    && Sourced(lines, s, e) == Sourced(lines', s, e)
    && Named(lines, s, e, name) == Named(lines', s, e, name)
  }

  lemma SameMatches(lines: seq<string>, lines': seq<string>, name: string, i: nat)
    requires SameRoles(lines, lines', name)
    ensures Matches(lines, name, i) == Matches(lines', name, i)
  {
    hide IsHeader, IsVersionLine, IsStart, IsSource, IsName;
    forall s: nat, e: nat | s <= e <= |lines|
      ensures SamePart(lines, lines', name, s, e)
    {
      SameBlock(lines, lines', name, s, e);
    }
    assert forall s: nat, e: nat | s <= e <= |lines| :: IsBlock(lines, s, e) == IsBlock(lines', s, e);
    assert i < |lines| ==> SameRole(lines[i], lines'[i], name);
  }

  lemma SameBlock(lines: seq<string>, lines': seq<string>, name: string, s: nat, e: nat)
    requires SameRoles(lines, lines', name) && s <= e <= |lines|
    ensures SamePart(lines, lines', name, s, e)
  {
    hide IsHeader, IsVersionLine, IsStart, IsSource, IsName;
    forall k | 0 <= k < |lines| ensures SameRole(lines[k], lines'[k], name) {
    }
  }

  lemma {:induction false} SameMatchesBefore(lines: seq<string>, lines': seq<string>, name: string, n: nat)
    requires SameRoles(lines, lines', name)
    ensures MatchesBefore(lines, name, n) == MatchesBefore(lines', name, n)
  {
    hide Matches, SameRoles;
    if n > 0 {
      SameMatchesBefore(lines, lines', name, n - 1);
      SameMatches(lines, lines', name, n - 1);
    }
  }

  /** Rewriting a line twice, with the file put together and split again in between. */
  lemma RewriteTwice(text: string, i: nat, v: string, w: string, name: string)
    requires var lines := SplitLines(text);
             i < |lines| && Rewrite(lines, i, v).Ok? && BreakFree(v) && (EndingKept(lines[i]) || i == |lines| - 1)
    ensures var lines, lines' := SplitLines(text), SplitLines(Rewrite(SplitLines(text), i, v).value);
            && |lines'| == |lines| && lines' == lines[i := lines'[i]] && Key(lines'[i]) == Key(lines[i])
            && SameRoles(lines, lines', name)
            && Rewrite(lines', i, w) == Rewrite(lines, i, w)
  {
    var lines := SplitLines(text);
    var lines' := lines[i := NewLine(lines[i], v)];
    RewriteKeepsLines(text, i, v);
    ReplacedHasSameRoles(lines, i, v, name);
    NewLineIsVersionLine(lines[i], v, w);
    hide Join, Key, Strip, NewLine, SplitLines, SameRoles;
    assert lines'[i := NewLine(lines[i], w)] == lines[i := NewLine(lines[i], w)];
  }

  /** Writing one version and then another gives the same file as writing the other at
      once; with w == v, writing twice is writing once. */
  lemma ManifestLastWriterWins(text: string, v: string, w: string, i: nat)
    requires IsFirstVersion(SplitLines(text), i) && ManifestUpdate(text, v).Ok? && BreakFree(v)
    requires EndingKept(SplitLines(text)[i]) || i == |SplitLines(text)| - 1
    ensures ManifestUpdate(ManifestUpdate(text, v).value, w) == ManifestUpdate(text, w)
  {
    var lines := SplitLines(text);
    FirstIsUnique(lines, i);
    RewriteTwice(text, i, v, w, "");
    var lines' := SplitLines(Rewrite(lines, i, v).value);
    SameFirstVersion(lines, lines', i);
    hide SplitLines, Rewrite, IsFirstVersion, SameRoles;
    FirstIsUnique(lines', i);
  }

  lemma LockLastWriterWins(text: string, name: string, v: string, w: string, i: nat)
    requires MatchesBefore(SplitLines(text), name, |SplitLines(text)|) == [i] && LockUpdate(text, name, v).Ok? &&
             BreakFree(v)
    requires i < |SplitLines(text)| ==> EndingKept(SplitLines(text)[i]) || i == |SplitLines(text)| - 1
    ensures LockUpdate(LockUpdate(text, name, v).value, name, w) == LockUpdate(text, name, w)
  {
    var lines := SplitLines(text);
    MatchesInRange(lines, name, |lines|);
    assert MatchesBefore(lines, name, |lines|)[0] == i;
    hide Matches, MatchesBefore;
    RewriteTwice(text, i, v, w, name);
    var lines' := SplitLines(Rewrite(lines, i, v).value);
    SameMatchesBefore(lines, lines', name, |lines|);
    hide SplitLines, Rewrite, SameRoles;
  }

  /** The manifest update fails for want of a version line exactly if there is none. */
  lemma NoPackageVersionExactly(text: string, v: string)
    ensures ManifestUpdate(text, v) == Err(NoPackageVersion) <==>
            forall i: nat :: i < |SplitLines(text)| ==> !IsPackageVersion(SplitLines(text), i)
  {
    var lines := SplitLines(text);
    hide IsPackageVersion, Join, SplitLines;
    if i: nat :| IsFirstVersion(lines, i) {
      InFile(lines, i);
      FirstIsUnique(lines, i);
      assert ManifestUpdate(text, v) == Rewrite(lines, i, v);
      assert IsPackageVersion(SplitLines(text), i);
    } else {
      forall j: nat | j < |lines| ensures !IsPackageVersion(lines, j) {
        if IsPackageVersion(lines, j) {
          var i := FirstBelow(lines, j);
        }
      }
    }
  }

  lemma InFile(lines: seq<string>, i: nat)
    requires IsFirstVersion(lines, i)
    ensures i < |lines| && IsPackageVersion(lines, i)
  {
  }

  lemma {:induction false} FirstBelow(lines: seq<string>, j: nat) returns (i: nat)
    requires IsPackageVersion(lines, j)
    ensures IsFirstVersion(lines, i)
  {
    hide IsPackageVersion;
    if k: nat :| k < j && IsPackageVersion(lines, k) {
      i := FirstBelow(lines, k);
    } else {
      i := j;
    }
  }
}
