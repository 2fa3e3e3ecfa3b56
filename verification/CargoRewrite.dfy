/** What the two updates do to a file, said of its characters: which line is rewritten, and
    what the new file reads.  Sections, blocks and keys are told by their text here, and not
    by the predicates that the updates are specified with. */
module CargoRewrite {
  import opened CargoText
  import opened CargoVersion

  // ----- lines -----

  /** The first k characters are the key: everything up to the first '=' if there is one. */
  predicate KeyAt(line: string, k: nat) {
    k <= |line| && (forall j :: 0 <= j < k ==> line[j] != '=') && (k < |line| ==> line[k] == '=')
  }

  predicate NamesVersion(line: string, k: nat) {
    KeyAt(line, k) && Strip(line[..k]) == "version"
  }

  predicate IsHeading(line: string) {
    var t := Strip(line);
    t != "" && t[0] == '[' && t[|t| - 1] == ']'
  }

  /** The line end that survives a rewrite. */
  function LineEnd(line: string): string {
    if |line| >= 2 && line[|line| - 2] == '\r' && line[|line| - 1] == '\n' then "\r\n"
    else if |line| >= 1 && line[|line| - 1] == '\n' then "\n"
    else ""
  }

  /** The file with a new version in line i, whose key has k characters; without an '='
      there is no place for it. */
  function Rewritten(lines: seq<string>, i: nat, k: nat, version: string): Result<string>
    requires i < |lines| && k <= |lines[i]|
  {
    if k == |lines[i]| then Err(InvalidVersionLine)
    else
      Ok(Join(lines[..i]) + (lines[i][..k] + "= \"" + version + "\"" + LineEnd(lines[i])) + Join(lines[i + 1..]))
  }

  lemma {:induction false} JoinAppend(a: seq<string>, b: seq<string>)
    ensures Join(a + b) == Join(a) + Join(b)
  {
    if a == [] {
      assert a + b == b;
    } else {
      JoinAppend(a[1..], b);
      assert (a + b)[1..] == a[1..] + b && (a + b)[0] == a[0];
      Associate(a[0], Join(a[1..]), Join(b));
    }
  }

  lemma Associate(a: string, b: string, c: string)
    ensures a + (b + c) == a + b + c
  {
  }

  /** The rest of the file stays as it was. */
  lemma TextAround(text: string, i: nat)
    requires i < |SplitLines(text)|
    ensures var lines := SplitLines(text); text == Join(lines[..i]) + lines[i] + Join(lines[i + 1..])
  {
    JoinOfSplit(text);
    JoinAround(SplitLines(text), i, SplitLines(text)[i]);
    assert SplitLines(text)[i := SplitLines(text)[i]] == SplitLines(text);
  }

  lemma JoinAround(lines: seq<string>, i: nat, line: string)
    requires i < |lines|
    ensures Join(lines[i := line]) == Join(lines[..i]) + line + Join(lines[i + 1..])
  {
    var rest := [line] + lines[i + 1..];
    assert lines[i := line] == lines[..i] + rest && rest[1..] == lines[i + 1..];
    JoinAppend(lines[..i], rest);
  }

  lemma KeyIsAt(line: string, k: nat)
    ensures KeyAt(line, k) <==> k == EqualsAt(line)
  {
    assert forall j :: 0 <= j < EqualsAt(line) ==> line[..EqualsAt(line)][j] == line[j];
  }

  lemma VersionNamed(line: string, k: nat)
    ensures NamesVersion(line, k) <==> IsVersionLine(line) && k == EqualsAt(line)
  {
    KeyIsAt(line, k);
  }

  lemma HeadingExactly(line: string)
    ensures IsHeading(line) <==> IsHeader(line)
  {
    var t := Strip(line);
    assert t != "" ==> t[..1] == [t[0]] && t[|t| - 1..] == [t[|t| - 1]];
  }

  lemma RewrittenExactly(lines: seq<string>, i: nat, version: string)
    requires i < |lines| && IsVersionLine(lines[i])
    ensures Rewrite(lines, i, version) == Rewritten(lines, i, EqualsAt(lines[i]), version)
  {
    EndExactly(lines[i]);
    hide Ending, LineEnd, IsVersionLine;
    JoinAround(lines, i, NewLine(lines[i], version));
  }

  lemma EndExactly(line: string)
    ensures Ending(line) == LineEnd(line)
  {
    var n := |line|;
    assert n >= 2 ==> line[n - 2..] == [line[n - 2], line[n - 1]];
    assert n >= 1 ==> line[n - 1..] == [line[n - 1]];
  }

  // ----- the manifest -----

  /** Line i names the version, and the last heading before it is "[package]" in line h. */
  predicate PackageVersionAt(lines: seq<string>, h: nat, i: nat, k: nat) {
    && h < i < |lines| && Strip(lines[h]) == "[package]" && NamesVersion(lines[i], k)
    && forall j :: h < j < i ==> !IsHeading(lines[j])
  }

  lemma {:induction false} InPackageExactly(lines: seq<string>, i: nat) returns (h: nat)
    requires i <= |lines|
    ensures InPackage(lines, i) ==>
              h < i && Strip(lines[h]) == "[package]" && forall j :: h < j < i ==> !IsHeading(lines[j])
  {
    h := 0;
    if InPackage(lines, i) {
      HeadingExactly(lines[i - 1]);
      hide IsHeading, Strip;
      if IsHeader(lines[i - 1]) {
        h := i - 1;
      } else {
        h := InPackageExactly(lines, i - 1);
      }
    }
  }

  lemma {:induction false} PackageIsEntered(lines: seq<string>, h: nat, i: nat)
    requires h < i <= |lines| && Strip(lines[h]) == "[package]" && forall j :: h < j < i ==> !IsHeading(lines[j])
    ensures InPackage(lines, i)
  {
    HeadingExactly(lines[i - 1]);
    if i - 1 > h {
      hide IsHeading, Strip, IsHeader;
      PackageIsEntered(lines, h, i - 1);
    } else {
      PackageIsHeading(lines[h]);
    }
  }

  lemma PackageIsHeading(line: string)
    requires Strip(line) == "[package]"
    ensures IsHeading(line) && IsHeader(line)
  {
    HeadingExactly(line);
  }

  ghost predicate PackageVersion(lines: seq<string>, i: nat) {
    exists h: nat, k: nat :: PackageVersionAt(lines, h, i, k)
  }

  lemma PackageVersionExactly(lines: seq<string>, i: nat)
    ensures PackageVersion(lines, i) <==> IsPackageVersion(lines, i)
  {
    if IsPackageVersion(lines, i) {
      var h := InPackageExactly(lines, i);
      VersionNamed(lines[i], EqualsAt(lines[i]));
      hide Strip, IsHeading, NamesVersion;
      assert PackageVersionAt(lines, h, i, EqualsAt(lines[i]));
    }
    hide IsHeading, Strip;
    if h: nat, k: nat :| PackageVersionAt(lines, h, i, k) {
      PackageIsEntered(lines, h, i);
      VersionNamed(lines[i], k);
      hide InPackage;
    }
  }

  /** The manifest update fails for want of a version exactly if no line of a package section
      names it. */
  lemma ManifestFailsExactly(text: string, version: string)
    ensures ManifestUpdate(text, version) == Err(NoPackageVersion) <==>
              forall i: nat :: !PackageVersion(SplitLines(text), i)
  {
    var lines := SplitLines(text);
    NoPackageVersionExactly(text, version);
    forall i: nat ensures PackageVersion(lines, i) <==> IsPackageVersion(lines, i) {
      PackageVersionExactly(lines, i);
    }
    InFileOnly(lines);
    hide SplitLines, PackageVersion, IsPackageVersion;
  }

  lemma InFileOnly(lines: seq<string>)
    ensures forall i: nat :: IsPackageVersion(lines, i) ==> i < |lines|
  {
  }

  /** Otherwise it rewrites the first line that does, and nothing else. */
  lemma ManifestRewritesFirst(text: string, version: string, h: nat, i: nat, k: nat)
    requires PackageVersionAt(SplitLines(text), h, i, k)
    requires forall j: nat :: j < i ==> !PackageVersion(SplitLines(text), j)
    ensures ManifestUpdate(text, version) == Rewritten(SplitLines(text), i, k, version)
  {
    var lines := SplitLines(text);
    VersionNamed(lines[i], k);
    RewrittenExactly(lines, i, version);
    hide SplitLines, Rewritten, Rewrite, IsVersionLine, PackageVersionAt;
    assert PackageVersion(lines, i);
    hide PackageVersion;
    forall j: nat ensures PackageVersion(lines, j) <==> IsPackageVersion(lines, j) {
      PackageVersionExactly(lines, j);
    }
    hide IsPackageVersion;
    assert IsFirstVersion(lines, i);
    FirstIsUnique(lines, i);
  }

  /** The ordinary case, by what a reader sees: the only package heading so far is in line h,
      and line i is the first after it that is a heading or names the version. */
  lemma OrdinaryManifest(text: string, version: string, h: nat, i: nat, k: nat)
    requires var lines := SplitLines(text);
             && h < i < |lines| && Strip(lines[h]) == "[package]" && NamesVersion(lines[i], k) && k < |lines[i]|
             && (forall j :: 0 <= j < h ==> Strip(lines[j]) != "[package]")
             && (forall j :: h < j < i ==> !IsHeading(lines[j]) && forall l: nat :: !NamesVersion(lines[j], l))
    ensures var lines := SplitLines(text);
            && text == Join(lines[..i]) + lines[i] + Join(lines[i + 1..])
            && ManifestUpdate(text, version) ==
                 Ok(Join(lines[..i]) + (lines[i][..k] + "= \"" + version + "\"" + LineEnd(lines[i])) +
                    Join(lines[i + 1..]))
  {
    var lines := SplitLines(text);
    TextAround(text, i);
    forall j: nat | j < i ensures !PackageVersion(lines, j) {
      forall g: nat, l: nat ensures !PackageVersionAt(lines, g, j, l) {
        if g < |lines| && Strip(lines[g]) == "[package]" {
          PackageIsHeading(lines[g]);
        }
        hide SplitLines, Strip, NamesVersion, IsHeading;
      }
    }
    hide SplitLines, Strip, NamesVersion, Join, LineEnd, PackageVersion, IsHeading;
    assert PackageVersionAt(lines, h, i, k);
    ManifestRewritesFirst(text, version, h, i, k);
  }

  // ----- the lock file -----

  /** From one "[[package]]" line to the next, or to the end; of this name, and local. */
  predicate IsLocalBlock(lines: seq<string>, name: string, s: nat, e: nat) {
    && s < e <= |lines| && Strip(lines[s]) == "[[package]]" && (e < |lines| ==> Strip(lines[e]) == "[[package]]")
    && (forall j :: s < j < e ==> Strip(lines[j]) != "[[package]]")
    && (forall j :: s <= j < e ==> !("source =" <= Strip(lines[j])))
    && exists j :: s <= j < e && Strip(lines[j]) == "name = \"" + name + "\""
  }

  ghost predicate LocalVersion(lines: seq<string>, name: string, i: nat) {
    && i < |lines| && (exists k: nat :: NamesVersion(lines[i], k))
    && exists s: nat, e: nat :: IsLocalBlock(lines, name, s, e) && s <= i < e
  }

  lemma LocalBlockExactly(lines: seq<string>, name: string, s: nat, e: nat)
    ensures IsLocalBlock(lines, name, s, e) <==>
              IsBlock(lines, s, e) && !Sourced(lines, s, e) && Named(lines, s, e, name)
  {
    hide Strip;
    if s < e <= |lines| {
      forall j | s <= j < e ensures IsSource(lines[j]) <==> "source =" <= Strip(lines[j]) {
      }
      if IsLocalBlock(lines, name, s, e) {
        var j :| s <= j < e && Strip(lines[j]) == "name = \"" + name + "\"";
        assert IsName(lines[j], name);
      }
    }
  }

  lemma LocalVersionExactly(lines: seq<string>, name: string, i: nat)
    ensures LocalVersion(lines, name, i) <==> Matches(lines, name, i)
  {
    if LocalVersion(lines, name, i) {
      var k: nat :| NamesVersion(lines[i], k);
      VersionNamed(lines[i], k);
      var s: nat, e: nat :| IsLocalBlock(lines, name, s, e) && s <= i < e;
      LocalBlockExactly(lines, name, s, e);
    }
    if Matches(lines, name, i) {
      VersionNamed(lines[i], EqualsAt(lines[i]));
      var s: nat, e: nat :|
        IsBlock(lines, s, e) && s <= i < e && !Sourced(lines, s, e) && Named(lines, s, e, name);
      LocalBlockExactly(lines, name, s, e);
    }
    hide Strip, NamesVersion, IsBlock, Sourced, Named, IsLocalBlock, IsVersionLine;
  }

  /** The lines to choose from. */
  ghost function LocalVersions(lines: seq<string>, name: string, n: nat): set<nat> {
    set i: nat | i < n && LocalVersion(lines, name, i)
  }

  /** The same lines, once each. */
  ghost predicate Lists(found: seq<nat>, places: set<nat>) {
    |found| == |places| && forall i: nat :: i in found <==> i in places
  }

  lemma ListsMore(found: seq<nat>, places: set<nat>, more: bool, n: nat)
    requires Lists(found, places) && n !in places
    ensures Lists(found + (if more then [n] else []), places + (if more then {n} else {}))
  {
    assert found + [] == found && places + {} == places;
  }

  lemma {:induction false} CountLocal(lines: seq<string>, name: string, n: nat)
    ensures Lists(MatchesBefore(lines, name, n), LocalVersions(lines, name, n))
  {
    hide Matches, LocalVersion;
    if n == 0 {
      assert LocalVersions(lines, name, 0) == {};
    } else {
      hide LocalVersions, Lists;
      CountLocal(lines, name, n - 1);
      LocalVersionExactly(lines, name, n - 1);
      NextLocal(lines, name, n);
      ListsMore(MatchesBefore(lines, name, n - 1), LocalVersions(lines, name, n - 1),
                LocalVersion(lines, name, n - 1), n - 1);
    }
  }

  lemma NextLocal(lines: seq<string>, name: string, n: nat)
    requires n > 0
    ensures LocalVersions(lines, name, n) ==
              LocalVersions(lines, name, n - 1) + if LocalVersion(lines, name, n - 1) then {n - 1} else {}
    ensures n - 1 !in LocalVersions(lines, name, n - 1)
  {
    hide LocalVersion;
  }

  /** The lock file update fails unless exactly one line names the version of a local package
      of that name, and says how many do. */
  lemma LockFailsExactly(text: string, name: string, version: string, n: nat)
    ensures var lines := SplitLines(text);
            LockUpdate(text, name, version) == Err(WrongMatches(n)) <==>
              n != 1 && n == |LocalVersions(lines, name, |lines|)|
  {
    var lines := SplitLines(text);
    CountLocal(lines, name, |lines|);
    MatchesInRange(lines, name, |lines|);
    hide SplitLines, MatchesBefore, LocalVersions, Matches, Join, NewLine, IsVersionLine;
  }

  /** That line it rewrites, and nothing else. */
  lemma LockRewritesOnly(text: string, name: string, version: string, i: nat, k: nat)
    requires LocalVersion(SplitLines(text), name, i) && KeyAt(SplitLines(text)[i], k)
    requires forall j: nat :: LocalVersion(SplitLines(text), name, j) ==> j == i
    ensures var lines := SplitLines(text);
            && text == Join(lines[..i]) + lines[i] + Join(lines[i + 1..])
            && LockUpdate(text, name, version) == Rewritten(lines, i, k, version)
  {
    var lines := SplitLines(text);
    TextAround(text, i);
    KeyIsAt(lines[i], k);
    LocalVersionExactly(lines, name, i);
    assert IsVersionLine(lines[i]);
    RewrittenExactly(lines, i, version);
    CountLocal(lines, name, |lines|);
    hide SplitLines, Rewritten, Rewrite, IsVersionLine, Matches, MatchesBefore, Join, KeyAt;
    assert LocalVersions(lines, name, |lines|) == {i};
    hide LocalVersion, LocalVersions;
    var found := MatchesBefore(lines, name, |lines|);
    assert |found| == 1 && found[0] in found;
  }

  // ----- two files -----

  /** Other lines that name a version, before the package section and under another key. */
  const MANIFEST := [
    "[workspace.package]" + "\n",
    "version = \"9.9.9\"" + "\n",
    "[package]" + "\r\n",
    "version.workspace = true" + "\n",
    "\tversion = \"0.1.0\"" + "\r\n",
    "edition = \"2021\"" + "\n"]

  /** A registry package and the local one, of the same name. */
  const LOCK := [
    "version = 4" + "\n",
    "[[package]]" + "\n",
    "name = \"host\"" + "\n",
    "version = \"0.9.0\"" + "\n",
    "source = \"registry\"" + "\n",
    "[[package]]" + "\n",
    "name = \"host\"" + "\n",
    "version = \"0.1.0\"" + "\n"]

  /** A line is its body and a line end. */
  predicate IsLine(line: string, body: string, end: string) {
    line == body + end && body != "" && BreakFree(body) && (end == "\n" || end == "\r\n")
  }

  lemma {:induction false} LinesSplit(lines: seq<string>, bodies: seq<string>, ends: seq<string>)
    requires |lines| == |bodies| == |ends| && forall i :: 0 <= i < |lines| ==> IsLine(lines[i], bodies[i], ends[i])
    ensures AreLines(lines) && SplitLines(Join(lines)) == lines
  {
    if lines == [] {
    } else {
      LinesSplit(lines[1..], bodies[1..], ends[1..]);
      assert IsLine(lines[0], bodies[0], ends[0]);
      LineEndsAt(bodies[0], ends[0], Join(lines[1..]));
      hide LineLength, IsLine;
    }
    SplitOfJoin(lines);
  }

  lemma HeadingLines()
    ensures BreakFree("[workspace.package]") && BreakFree("[package]") && BreakFree("version.workspace = true")
    ensures BreakFree("edition = \"2021\"")
  {
  }

  lemma ManifestLines()
    ensures BreakFree("version = \"9.9.9\"") && BreakFree("\tversion = \"0.1.0\"")
  {
  }

  lemma LockLines()
    ensures BreakFree("version = 4") && BreakFree("[[package]]") && BreakFree("name = \"host\"")
  {
  }

  lemma BlockLines()
    ensures BreakFree("version = \"0.9.0\"") && BreakFree("source = \"registry\"") && BreakFree("version = \"0.1.0\"")
  {
  }

  lemma ManifestSplits()
    ensures SplitLines(Join(MANIFEST)) == MANIFEST
  {
    var bodies := ["[workspace.package]", "version = \"9.9.9\"", "[package]", "version.workspace = true",
                   "\tversion = \"0.1.0\"", "edition = \"2021\""];
    var ends := ["\n", "\n", "\r\n", "\n", "\r\n", "\n"];
    hide AreLines, SplitLines, Join;
    hide BreakFree, IsBreak;
    HeadingLines();
    ManifestLines();
    assert forall i :: 0 <= i < 6 ==> IsLine(MANIFEST[i], bodies[i], ends[i]);
    hide IsLine;
    LinesSplit(MANIFEST, bodies, ends);
  }

  lemma LockSplits()
    ensures SplitLines(Join(LOCK)) == LOCK
  {
    var bodies := ["version = 4", "[[package]]", "name = \"host\"", "version = \"0.9.0\"", "source = \"registry\"",
                   "[[package]]", "name = \"host\"", "version = \"0.1.0\""];
    var ends := seq(8, _ => "\n");
    hide AreLines, SplitLines, Join;
    hide BreakFree, IsBreak;
    LockLines();
    BlockLines();
    assert forall i :: 0 <= i < 8 ==> IsLine(LOCK[i], bodies[i], ends[i]);
    hide IsLine;
    LinesSplit(LOCK, bodies, ends);
  }

  lemma BodyStrips(body: string)
    requires body != "" && !IsSpace(body[0]) && !IsSpace(body[|body| - 1])
    ensures Strip(body) == body && Strip(body + "\n") == body && Strip(body + "\r\n") == body
  {
    StripOf("", body, "");
    StripOf("", body, "\n");
    StripOf("", body, "\r\n");
    hide Strip;
    assert "" + body + "" == body && "" + body + "\n" == body + "\n" && "" + body + "\r\n" == body + "\r\n";
  }

  lemma KeyNames(line: string, key: string, rest: string)
    requires line == key + "=" + rest && '=' !in key
    ensures forall k: nat :: NamesVersion(line, k) <==> k == |key| && Strip(key) == "version"
    ensures KeyAt(line, |key|)
  {
    hide Strip;
    KeyOf(key, rest);
    assert line[|key|] == '=' && line[..|key|] == key;
    forall k: nat ensures KeyAt(line, k) <==> k == |key| {
      KeyIsAt(line, k);
      KeyIsAt(line, |key|);
      assert forall j :: 0 <= j < |key| ==> line[j] == key[j];
    }
  }

  lemma NoKey(line: string)
    requires '=' !in line && Strip(line) != "version"
    ensures forall k: nat :: !NamesVersion(line, k)
  {
    hide Strip;
    forall k: nat ensures !NamesVersion(line, k) {
      if k <= |line| {
        assert k == |line| ==> line[..k] == line;
      }
    }
  }

  lemma ManifestTexts()
    ensures Strip(MANIFEST[0]) == "[workspace.package]" && Strip(MANIFEST[1]) == "version = \"9.9.9\""
    ensures Strip(MANIFEST[2]) == "[package]" && Strip(MANIFEST[3]) == "version.workspace = true"
  {
    hide Strip;
    BodyStrips("[workspace.package]");
    BodyStrips("version = \"9.9.9\"");
    BodyStrips("[package]");
    BodyStrips("version.workspace = true");
  }

  lemma VersionKey(line: string, rest: string)
    requires line == "version " + "=" + rest || line == "\tversion " + "=" + rest
    ensures forall k: nat :: NamesVersion(line, k) <==> k == (if line == "version " + "=" + rest then 8 else 9)
    ensures KeyAt(line, if line == "version " + "=" + rest then 8 else 9)
  {
    StripOf("", "version", " ");
    StripOf("\t", "version", " ");
    hide Strip, NamesVersion, KeyAt;
    assert "" + "version" + " " == "version " && "\t" + "version" + " " == "\tversion ";
    if line == "version " + "=" + rest {
      KeyNames(line, "version ", rest);
    } else {
      KeyNames(line, "\tversion ", rest);
    }
  }

  /** Any other word as the key. */
  lemma OtherKey(line: string, word: string, rest: string)
    requires line == word + " " + "=" + rest && '=' !in word && word != "version"
    requires word != "" && !IsSpace(word[0]) && !IsSpace(word[|word| - 1])
    ensures forall k: nat :: !NamesVersion(line, k)
  {
    StripOf("", word, " ");
    hide Strip, NamesVersion, KeyAt;
    assert "" + word + " " == word + " ";
    KeyNames(line, word + " ", rest);
  }

  lemma ManifestKeys()
    ensures forall k: nat :: NamesVersion(MANIFEST[4], k) <==> k == 9
    ensures forall k: nat :: !NamesVersion(MANIFEST[3], k)
  {
    var rest3, rest4 := " true" + "\n", " \"0.1.0\"" + "\r\n";
    hide NamesVersion, KeyAt;
    assert MANIFEST[4] == "\tversion " + "=" + rest4;
    assert MANIFEST[4][0] != 'v';
    VersionKey(MANIFEST[4], rest4);
    assert MANIFEST[3] == "version.workspace" + " " + "=" + rest3;
    OtherKey(MANIFEST[3], "version.workspace", rest3);
  }

  /** The version in the package section is rewritten; its key, its indentation and its line
      end stay, and so does the rest of the file. */
  method BumpManifest() returns (r: Result<string>)
    ensures r == Ok(Join(MANIFEST[4 := "\tversion = \"1.2.3\"\r\n"]))
  {
    var text := Join(MANIFEST);
    ManifestSplits();
    ManifestTexts();
    ManifestKeys();
    NoHeading();
    hide Strip, NamesVersion, IsHeading, SplitLines, ManifestUpdate, Join;
    OrdinaryManifest(text, "1.2.3", 2, 4, 9);
    NewManifestLine();
    JoinAround(MANIFEST, 4, "\tversion = \"1.2.3\"\r\n");
    r := UpdateManifest(text, "1.2.3");
  }

  lemma NoHeading()
    ensures !IsHeading(MANIFEST[3])
  {
    ManifestTexts();
    hide Strip;
  }

  lemma NewManifestLine()
    ensures |MANIFEST[4]| > 9
    ensures MANIFEST[4][..9] + "= \"" + "1.2.3" + "\"" + LineEnd(MANIFEST[4]) == "\tversion = \"1.2.3\"\r\n"
  {
    assert MANIFEST[4][..9] == "\tversion ";
  }

  lemma LockTexts()
    ensures Strip(LOCK[0]) == "version = 4" && Strip(LOCK[1]) == Strip(LOCK[5]) == "[[package]]"
    ensures Strip(LOCK[2]) == Strip(LOCK[6]) == "name = \"host\""
    ensures Strip(LOCK[3]) == "version = \"0.9.0\"" && Strip(LOCK[7]) == "version = \"0.1.0\""
    ensures Strip(LOCK[4]) == "source = \"registry\""
  {
    hide Strip;
    BodyStrips("version = 4");
    BodyStrips("[[package]]");
    BodyStrips("name = \"host\"");
    BodyStrips("version = \"0.9.0\"");
    BodyStrips("version = \"0.1.0\"");
    BodyStrips("source = \"registry\"");
  }

  lemma LockKeys()
    ensures forall k: nat :: !NamesVersion(LOCK[1], k) && !NamesVersion(LOCK[2], k) && !NamesVersion(LOCK[4], k)
    ensures NamesVersion(LOCK[7], 8) && KeyAt(LOCK[7], 8)
  {
    hide NamesVersion, Strip, KeyAt;
    var rest7, rest2, rest4 := " \"0.1.0\"" + "\n", " \"host\"" + "\n", " \"registry\"" + "\n";
    assert LOCK[7] == "version " + "=" + rest7;
    VersionKey(LOCK[7], rest7);
    assert LOCK[2] == "name" + " " + "=" + rest2;
    OtherKey(LOCK[2], "name", rest2);
    assert LOCK[4] == "source" + " " + "=" + rest4;
    OtherKey(LOCK[4], "source", rest4);
    BodyStrips("[[package]]");
    NoKey(LOCK[1]);
  }

  /** The local package's version is the only one to choose. */
  lemma OneLocal(lines: seq<string>)
    requires |lines| == 8 && NamesVersion(lines[7], 8) && lines[5] == lines[1] && lines[6] == lines[2]
    requires forall k: nat :: !NamesVersion(lines[1], k) && !NamesVersion(lines[2], k) && !NamesVersion(lines[4], k)
    requires Strip(lines[1]) == "[[package]]" && Strip(lines[2]) == "name = \"" + "host" + "\""
    requires "source =" <= Strip(lines[4])
    requires forall j :: j == 1 || j == 2 || j == 7 ==> !("source =" <= Strip(lines[j]))
    requires forall j :: j == 0 || j == 2 || j == 3 || j == 4 || j == 7 ==> Strip(lines[j]) != "[[package]]"
    ensures LocalVersion(lines, "host", 7)
    ensures forall j: nat :: LocalVersion(lines, "host", j) ==> j == 7
  {
    hide Strip, NamesVersion;
    assert forall j :: 5 <= j < 8 ==> !("source =" <= Strip(lines[j]));
    assert forall j :: 5 < j < 8 ==> Strip(lines[j]) != "[[package]]";
    assert Strip(lines[6]) == "name = \"" + "host" + "\"";
    assert IsLocalBlock(lines, "host", 5, 8);
  }

  lemma LockIsSo()
    ensures "source =" <= Strip(LOCK[4])
    ensures forall j :: j == 1 || j == 2 || j == 7 ==> !("source =" <= Strip(LOCK[j]))
    ensures forall j :: j == 0 || j == 2 || j == 3 || j == 4 || j == 7 ==> Strip(LOCK[j]) != "[[package]]"
    ensures Strip(LOCK[2]) == "name = \"" + "host" + "\""
  {
    LockTexts();
    hide Strip;
    assert "source ="[0] == 's' && Strip(LOCK[1])[0] == '[' && Strip(LOCK[2])[0] == 'n' && Strip(LOCK[7])[0] == 'v';
  }

  /** The version of the local package is rewritten, and that of its namesake is not. */
  method BumpLock() returns (r: Result<string>)
    ensures r == Ok(Join(LOCK[7 := "version = \"1.2.3\"\n"]))
  {
    var text := Join(LOCK);
    LockSplits();
    LockTexts();
    LockKeys();
    LockIsSo();
    hide Strip, NamesVersion, LocalVersion, SplitLines, LockUpdate, Join;
    OneLocal(LOCK);
    NewLockLine();
    LockRewritesOnly(text, "host", "1.2.3", 7, 8);
    JoinAround(LOCK, 7, "version = \"1.2.3\"\n");
    r := UpdateLock(text, "host", "1.2.3");
  }

  lemma NewLockLine()
    ensures |LOCK[7]| > 8
    ensures LOCK[7][..8] + "= \"" + "1.2.3" + "\"" + LineEnd(LOCK[7]) == "version = \"1.2.3\"\n"
  {
    assert LOCK[7][..8] == "version ";
  }
}
