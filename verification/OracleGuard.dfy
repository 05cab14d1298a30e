/**
 * The guard that rejects a candidate patch touching a test or oracle file: the reader of
 * unified-diff headers, the classification of paths, and the reasons to reject.
 */
module OracleGuard {
  import opened Wrappers
  import opened Text

  // ----- classification ---------------------------------------------------------------

  const ORACLE_NAMES := {"repro.py", "reproduce_bug.py", "test_repro.py", "debug_repro.py", "nexus_repro_contract.py",
                         "reproduction.py", "tests.py"}
  const TEST_DIRS := {"tests", "test", "testing"}

  predicate EndsWith(s: string, suffix: string) {
    |s| >= |suffix| && s[|s| - |suffix|..] == suffix
  }

  /** Backslashes count as slashes, and ASCII letters are compared in lower case. */
  function Fold(c: char): char {
    if c == '\\' then '/' else if 'A' <= c <= 'Z' then ((c as int) + 32) as char else c
  }

  function FoldAll(s: string): string {
    seq(|s|, i requires 0 <= i < |s| => Fold(s[i]))
  }

  /** The parts of a PurePosixPath below its root. */
  function Components(parts: seq<string>): seq<string> {
    if parts == [] then []
    else if parts[0] == "" || parts[0] == "." then Components(parts[1..])
    else [parts[0]] + Components(parts[1..])
  }

  function PathParts(path: string): seq<string> {
    Components(Split(FoldAll(path), '/'))
  }

  predicate IsOracleName(name: string) {
    || name in ORACLE_NAMES
    || name == "conftest.py"
    || ("test_" <= name && EndsWith(name, ".py"))
    || EndsWith(name, "_test.py")
    || EndsWith(name, "_tests.py")
  }

  predicate TouchesTests(parts: seq<string>) {
    parts != [] &&
    (IsOracleName(parts[|parts| - 1]) || exists i :: 0 <= i < |parts| - 1 && parts[i] in TEST_DIRS)
  }

  /** `is_test_or_oracle_path`. */
  predicate IsTestPath(path: string) {
    TouchesTests(PathParts(path))
  }

  /** A leading component that is no test directory never matters. */
  lemma LeadingPartIsNeutral(first: string, parts: seq<string>)
    requires first !in TEST_DIRS && !IsOracleName(first)
    ensures TouchesTests([first] + parts) == TouchesTests(parts)
  {
    var all := [first] + parts;
    if parts != [] {
      if exists i :: 0 <= i < |parts| - 1 && parts[i] in TEST_DIRS {
        var i :| 0 <= i < |parts| - 1 && parts[i] in TEST_DIRS;
        assert all[i + 1] in TEST_DIRS;
      }
    }
  }

  lemma {:induction false} ComponentsAppend(a: seq<string>, b: seq<string>)
    ensures Components(a + b) == Components(a) + Components(b)
  {
    if a == [] {
      assert a + b == b;
    } else {
      ComponentsAppend(a[1..], b);
      assert (a + b)[1..] == a[1..] + b;
    }
  }

  lemma PartsAppend(a: string, b: string)
    ensures PathParts(a + "/" + b) == PathParts(a) + PathParts(b)
  {
    assert FoldAll(a + "/" + b) == FoldAll(a) + ['/'] + FoldAll(b);
    SplitAppend(FoldAll(a), '/', FoldAll(b));
    ComponentsAppend(Split(FoldAll(a), '/'), Split(FoldAll(b), '/'));
  }

  lemma IdleHasNoParts(idle: string)
    requires idle == "" || idle == "."
    ensures PathParts(idle) == []
  {
    SplitWhole(idle, '/');
    assert FoldAll(idle) == idle;
    assert Components([]) == [] && [idle][1..] == [] && Components([idle]) == Components([idle][1..]);
  }

  /** An empty part or a single dot changes nothing, at the front, at the end or inside. */
  lemma IdlePartIsNeutral(front: string, idle: string, back: string)
    requires idle == "" || idle == "."
    ensures IsTestPath(front + "/" + idle) == IsTestPath(front)
    ensures IsTestPath(idle + "/" + back) == IsTestPath(back)
    ensures IsTestPath(front + "/" + idle + "/" + back) == IsTestPath(front + "/" + back)
  {
    IdleHasNoParts(idle);
    PartsAppend(front, idle);
    PartsAppend(idle, back);
    PartsAppend(front, back);
    PartsAppend(front + "/" + idle, back);
    assert PathParts(front) + [] == PathParts(front) && [] + PathParts(back) == PathParts(back);
  }

  /** Stripping one leading `a/` or `b/` never changes the classification of a path. */
  lemma SideIsNeutral(side: char, path: string)
    requires side == 'a' || side == 'b'
    ensures IsTestPath([side, '/'] + path) == IsTestPath(path)
  {
    var whole := FoldAll([side, '/'] + path);
    assert whole == [side] + ['/'] + FoldAll(path);
    SplitFirst([side], '/', FoldAll(path));
    assert PathParts([side, '/'] + path) == [[side]] + PathParts(path) by {
      assert ([[side]] + Split(FoldAll(path), '/'))[1..] == Split(FoldAll(path), '/');
    }
    LeadingPartIsNeutral([side], PathParts(path));
  }

  // ----- which paths are test paths ---------------------------------------------------

  /** The text in any case of its ASCII letters; `lower` has no capital letter. */
  predicate ReadsAs(s: string, lower: string) {
    |s| == |lower| &&
    forall i :: 0 <= i < |s| ==> s[i] == lower[i] || ('A' <= s[i] <= 'Z' && (s[i] as int) + 32 == lower[i] as int)
  }

  /** A directory or file name as it stands between separators. */
  predicate IsPart(part: string) {
    part != "" && part != "." && '/' !in part && '\\' !in part
  }

  predicate IsTestDir(dir: string) {
    ReadsAs(dir, "tests") || ReadsAs(dir, "test") || ReadsAs(dir, "testing")
  }

  predicate IsOracleScript(name: string) {
    || ReadsAs(name, "repro.py") || ReadsAs(name, "reproduce_bug.py") || ReadsAs(name, "test_repro.py")
    || ReadsAs(name, "debug_repro.py") || ReadsAs(name, "nexus_repro_contract.py")
    || ReadsAs(name, "reproduction.py") || ReadsAs(name, "tests.py")
  }

  /** `test_*.py`, `*_test.py`, `*_tests.py`, a plugin or an oracle script. */
  predicate IsTestFile(name: string) {
    || IsOracleScript(name)
    || ReadsAs(name, "conftest.py")
    || (|name| >= 5 && ReadsAs(name[..5], "test_") && ReadsAs(name[|name| - 3..], ".py"))
    || (|name| >= 8 && ReadsAs(name[|name| - 8..], "_test.py"))
    || (|name| >= 9 && ReadsAs(name[|name| - 9..], "_tests.py"))
  }

  /** Directories and a file name, each directory with the separator behind it. */
  function Built(dirs: seq<(string, char)>, name: string): string {
    if dirs == [] then name else dirs[0].0 + [dirs[0].1] + Built(dirs[1..], name)
  }

  predicate Buildable(dirs: seq<(string, char)>, name: string) {
    && IsPart(name)
    && forall i :: 0 <= i < |dirs| ==> IsPart(dirs[i].0) && (dirs[i].1 == '/' || dirs[i].1 == '\\')
  }

  predicate IsLower(s: string) {
    forall i :: 0 <= i < |s| ==> s[i] != '/' && s[i] != '\\' && !('A' <= s[i] <= 'Z')
  }

  lemma ReadsAsIff(s: string, lower: string)
    requires IsLower(lower)
    ensures ReadsAs(s, lower) <==> FoldAll(s) == lower
  {
    if ReadsAs(s, lower) {
      assert forall i :: 0 <= i < |s| ==> FoldAll(s)[i] == lower[i];
    }
    if FoldAll(s) == lower {
      assert forall i :: 0 <= i < |s| ==> FoldAll(s)[i] == lower[i] && FoldAll(s)[i] == Fold(s[i]);
    }
  }

  lemma IsTestDirIff(dir: string)
    ensures IsTestDir(dir) <==> FoldAll(dir) in TEST_DIRS
  {
    ReadsAsIff(dir, "tests");
    ReadsAsIff(dir, "test");
    ReadsAsIff(dir, "testing");
  }

  /** One name at a time: the folded name is the written one. */
  lemma OneOf(name: string, a: string, b: string, c: string, d: string)
    requires IsLower(a) && IsLower(b) && IsLower(c) && IsLower(d)
    ensures FoldAll(name) in {a, b, c, d} <==>
      ReadsAs(name, a) || ReadsAs(name, b) || ReadsAs(name, c) || ReadsAs(name, d)
  {
    ReadsAsIff(name, a);
    ReadsAsIff(name, b);
    ReadsAsIff(name, c);
    ReadsAsIff(name, d);
  }

  lemma FirstScripts(name: string)
    ensures FoldAll(name) in {"repro.py", "reproduce_bug.py", "test_repro.py", "debug_repro.py"} <==>
      || ReadsAs(name, "repro.py") || ReadsAs(name, "reproduce_bug.py") || ReadsAs(name, "test_repro.py")
      || ReadsAs(name, "debug_repro.py")
  {
    OneOf(name, "repro.py", "reproduce_bug.py", "test_repro.py", "debug_repro.py");
  }

  lemma LastScripts(name: string)
    ensures FoldAll(name) in {"nexus_repro_contract.py", "reproduction.py", "tests.py"} <==>
      ReadsAs(name, "nexus_repro_contract.py") || ReadsAs(name, "reproduction.py") || ReadsAs(name, "tests.py")
  {
    OneOf(name, "nexus_repro_contract.py", "reproduction.py", "tests.py", "tests.py");
  }

  lemma IsOracleScriptIff(name: string)
    ensures IsOracleScript(name) <==> FoldAll(name) in ORACLE_NAMES
  {
    FirstScripts(name);
    LastScripts(name);
  }

  lemma FoldOfSlice(s: string, i: nat, j: nat)
    requires i <= j <= |s|
    ensures FoldAll(s[i..j]) == FoldAll(s)[i..j]
  {
  }

  lemma EndsWithIff(name: string, suffix: string)
    requires IsLower(suffix)
    ensures EndsWith(FoldAll(name), suffix) <==> |name| >= |suffix| && ReadsAs(name[|name| - |suffix|..], suffix)
  {
    if |name| >= |suffix| {
      FoldOfSlice(name, |name| - |suffix|, |name|);
      ReadsAsIff(name[|name| - |suffix|..], suffix);
    }
  }

  lemma IsTestFileIff(name: string)
    ensures IsTestFile(name) <==> IsOracleName(FoldAll(name))
  {
    IsOracleScriptIff(name);
    ReadsAsIff(name, "conftest.py");
    EndsWithIff(name, ".py");
    EndsWithIff(name, "_test.py");
    EndsWithIff(name, "_tests.py");
    if |name| >= 5 {
      FoldOfSlice(name, 0, 5);
      ReadsAsIff(name[..5], "test_");
    }
  }

  /** The parts of a built path are its directories and its name, folded. */
  lemma {:induction false} PartsOfBuilt(dirs: seq<(string, char)>, name: string)
    requires Buildable(dirs, name)
    ensures var parts := PathParts(Built(dirs, name));
      && |parts| == |dirs| + 1 && parts[|dirs|] == FoldAll(name)
      && forall i :: 0 <= i < |dirs| ==> parts[i] == FoldAll(dirs[i].0)
  {
    FoldOfPart(name);
    if dirs == [] {
      SplitWhole(FoldAll(name), '/');
      assert [FoldAll(name)][1..] == [] && Components([]) == [];
      assert Components([FoldAll(name)]) == [FoldAll(name)];
      assert Built(dirs, name) == name;
    } else {
      var dir, rest := dirs[0].0, Built(dirs[1..], name);
      FoldOfPart(dir);
      PartsOfBuilt(dirs[1..], name);
      assert FoldAll(Built(dirs, name)) == FoldAll(dir) + ['/'] + FoldAll(rest);
      SplitFirst(FoldAll(dir), '/', FoldAll(rest));
      assert ([FoldAll(dir)] + Split(FoldAll(rest), '/'))[1..] == Split(FoldAll(rest), '/');
    }
  }

  lemma FoldOfPart(part: string)
    requires IsPart(part)
    ensures FoldAll(part) != "" && FoldAll(part) != "." && '/' !in FoldAll(part)
  {
    assert forall i :: 0 <= i < |part| ==> FoldAll(part)[i] == Fold(part[i]);
    assert FoldAll(part)[0] == '.' ==> part[0] == '.';
  }

  lemma BuiltTouchesIff(dirs: seq<(string, char)>, name: string, named: bool)
    requires Buildable(dirs, name) && (named <==> IsOracleName(FoldAll(name)))
    ensures IsTestPath(Built(dirs, name)) <==> named || exists i :: 0 <= i < |dirs| && IsTestDir(dirs[i].0)
  {
    PartsOfBuilt(dirs, name);
    var parts := PathParts(Built(dirs, name));
    forall i | 0 <= i < |dirs| ensures IsTestDir(dirs[i].0) <==> parts[i] in TEST_DIRS {
      IsTestDirIff(dirs[i].0);
    }
  }

  /**
   * A path is a test path exactly when one of its directories is a test directory or its name is
   * that of a test file, in any case and with either separator.
   */
  lemma BuiltIsTestPathIff(dirs: seq<(string, char)>, name: string)
    requires Buildable(dirs, name)
    ensures IsTestPath(Built(dirs, name)) <==>
      IsTestFile(name) || exists i :: 0 <= i < |dirs| && IsTestDir(dirs[i].0)
  {
    IsTestFileIff(name);
    BuiltTouchesIff(dirs, name, IsTestFile(name));
  }

  // ----- one header line --------------------------------------------------------------

  const GIT := "diff --git "
  const OLD := "--- "
  const NEW := "+++ "
  const BINARY := "Binary files "
  const DEV_NULL := "/dev/null"

  /** `target.strip('"')`. */
  function StripQuotes(s: string): string {
    if s != "" && s[0] == '"' then StripQuotes(s[1..])
    else if s != "" && s[|s| - 1] == '"' then StripQuotes(s[..|s| - 1])
    else s
  }

  function DropSide(s: string): string {
    if "a/" <= s || "b/" <= s then s[2..] else s
  }

  /**
   * `_strip_side`.  Its quoted-escape exception cannot occur: a header line with a quote and a
   * backslash has been rejected before.
   */
  function StripSide(target: string): string {
    var shown := Strip(CutAt(target, '\t').0);
    DropSide(if "\"" <= shown then StripQuotes(shown) else shown)
  }

  /** The tail `"? "?b/(.+?)"?$` of the git header pattern; its group, if it matches. */
  function GitTail(t: string): Option<string> {
    var u := if t != "" && t[0] == '"' then t[1..] else t;
    if u == "" || u[0] != ' ' then None
    else
      var v := if |u| > 1 && u[1] == '"' then u[2..] else u[1..];
      if !("b/" <= v) || |v| == 2 then None
      else if |v| > 3 && v[|v| - 1] == '"' then Some(v[2..|v| - 1])
      else Some(v[2..])
  }

  /** The lazy first group: the shortest one, of length at least `n`, whose tail matches. */
  function GitGroups(body: string, n: nat): Option<(string, string)>
    decreases |body| - n
  {
    if n > |body| then None
    else match GitTail(body[n..])
      case Some(new_) => Some((body[..n], new_))
      case None => GitGroups(body, n + 1)
  }

  /** The pattern for `diff --git` lines. */
  function GitHeader(line: string): Option<(string, string)> {
    if !(GIT <= line) then None
    else
      var rest := line[|GIT|..];
      if "a/" <= rest then GitGroups(rest[2..], 1)
      else if "\"a/" <= rest then GitGroups(rest[3..], 1)
      else None
  }

  const AND := " and "
  const DIFFER := " differ"

  /** The greedy first group of the pattern for `Binary files` lines: the longest one up to `n`. */
  function BinaryGroups(body: string, n: nat): Option<(string, string)>
    requires n <= |body|
  {
    if n == 0 then None
    else if AND <= body[n..] && |body[n..]| > |AND| && EndsWith(body[n + |AND|..], DIFFER) &&
      |body[n + |AND|..]| > |DIFFER|
    then Some((body[..n], body[n + |AND|..][..|body[n + |AND|..]| - |DIFFER|]))
    else BinaryGroups(body, n - 1)
  }

  function BinaryHeader(line: string): Option<(string, string)> {
    if !(BINARY <= line) then None else BinaryGroups(line[|BINARY|..], |line| - |BINARY|)
  }

  predicate IsHeaderLike(line: string) {
    GIT <= line || OLD <= line || NEW <= line || "rename " <= line || "copy " <= line || BINARY <= line
  }

  /** The text after `rename from ` and its three relatives. */
  function RenameTarget(line: string): Option<string> {
    if "rename from " <= line then Some(line[12..])
    else if "rename to " <= line then Some(line[10..])
    else if "copy from " <= line then Some(line[10..])
    else if "copy to " <= line then Some(line[8..])
    else None
  }

  datatype Reading = Reading(paths: seq<string>, malformed: bool)

  const NOTHING := Reading([], false)
  const MALFORMED := Reading([], true)

  /** The body of the loop of `patch_paths` for line `i`. */
  function ReadLine(lines: seq<string>, i: nat): Reading
    requires i < |lines|
  {
    var line := lines[i];
    if IsHeaderLike(line) && '"' in line && '\\' in line then MALFORMED
    else if GIT <= line then
      match GitHeader(line)
      case None => MALFORMED
      case Some((old_, new_)) => Reading([old_, new_], false)
    else if (OLD <= line && i + 1 < |lines| && NEW <= lines[i + 1]) ||
      (NEW <= line && i > 0 && OLD <= lines[i - 1]) then
      var target := StripSide(line[4..]);
      if target == DEV_NULL then NOTHING else if target == "" then MALFORMED else Reading([target], false)
    else if RenameTarget(line).Some? then
      var target := StripQuotes(Strip(RenameTarget(line).value));
      if target == "" then MALFORMED else Reading([target], false)
    else if BINARY <= line then
      match BinaryHeader(line)
      case None => MALFORMED
      case Some((old_, new_)) =>
        Reading((if Strip(old_) == DEV_NULL then [] else [StripSide(old_)])
                + (if Strip(new_) == DEV_NULL then [] else [StripSide(new_)]), false)
    else NOTHING
  }

  // ----- the whole patch --------------------------------------------------------------

  function WithoutReturn(line: string): string {
    if line != "" && line[|line| - 1] == '\r' then line[..|line| - 1] else line
  }

  function Lines(patch: string): (lines: seq<string>) {
    var parts := Split(patch, '\n');
    seq(|parts|, i requires 0 <= i < |parts| => WithoutReturn(parts[i]))
  }

  /** `line[:200]`. */
  function Excerpt(line: string): (start: string)
    ensures start <= line && |start| == if |line| < 200 then |line| else 200
  {
    if |line| <= 200 then line else line[..200]
  }

  /** `list(dict.fromkeys(p for p in paths if p))`. */
  function Unique(paths: seq<string>): seq<string> {
    if paths == [] then []
    else
      var init, last := Unique(paths[..|paths| - 1]), paths[|paths| - 1];
      if last == "" || last in init then init else init + [last]
  }

  lemma {:induction false} UniqueKeepsMembers(paths: seq<string>)
    ensures forall p :: p in Unique(paths) <==> p in paths && p != ""
    ensures forall i, j :: 0 <= i < j < |Unique(paths)| ==> Unique(paths)[i] != Unique(paths)[j]
  {
    if paths != [] {
      UniqueKeepsMembers(paths[..|paths| - 1]);
      assert paths == paths[..|paths| - 1] + [paths[|paths| - 1]];
    }
  }

  function PathsOf(lines: seq<string>, n: nat): seq<string>
    requires n <= |lines|
  {
    if n == 0 then [] else PathsOf(lines, n - 1) + ReadLine(lines, n - 1).paths
  }

  function MalformedOf(lines: seq<string>, n: nat): seq<string>
    requires n <= |lines|
  {
    if n == 0 then []
    else MalformedOf(lines, n - 1) + if ReadLine(lines, n - 1).malformed then [Excerpt(lines[n - 1])] else []
  }

  /** `patch_paths`. */
  method PatchPaths(patch: string) returns (paths: seq<string>, malformed: seq<string>)
    ensures var lines := Lines(patch);
      paths == Unique(PathsOf(lines, |lines|)) && malformed == MalformedOf(lines, |lines|)
  {
    var lines := Lines(patch);
    var found: seq<string> := [];
    malformed := [];
    for index := 0 to |lines|
      invariant found == PathsOf(lines, index) && malformed == MalformedOf(lines, index)
    {
      var reading := ReadLine(lines, index);
      found := found + reading.paths;
      malformed := malformed + if reading.malformed then [Excerpt(lines[index])] else [];
    }
    paths := Unique(found);
  }

  datatype Reason = UnparseableHeader(line: string) | TestOrOracle(path: string)

  function HeaderReasons(malformed: seq<string>): seq<Reason> {
    seq(|malformed|, i requires 0 <= i < |malformed| => UnparseableHeader(malformed[i]))
  }

  function TestReasons(paths: seq<string>): (reasons: seq<Reason>)
    ensures forall path :: TestOrOracle(path) in reasons <==> path in paths && IsTestPath(path)
    ensures reasons == [] <==> forall path :: path in paths ==> !IsTestPath(path)
  {
    if paths == [] then []
    else (if IsTestPath(paths[0]) then [TestOrOracle(paths[0])] else []) + TestReasons(paths[1..])
  }

  /** `patch_violations`: a reason for each malformed header and each test or oracle path. */
  method PatchViolations(patch: string) returns (reasons: seq<Reason>)
    ensures reasons == [] <==> Acceptable(Lines(patch))
    ensures forall path :: TestOrOracle(path) in reasons <==>
      path != "" && IsTestPath(path) && path in PathsOf(Lines(patch), |Lines(patch)|)
  {
    var paths, malformed := PatchPaths(patch);
    reasons := HeaderReasons(malformed) + TestReasons(paths);
    ReasonsAreRight(Lines(patch));
  }

  lemma ReasonsAreRight(lines: seq<string>)
    ensures var found := PathsOf(lines, |lines|);
      var reasons := HeaderReasons(MalformedOf(lines, |lines|)) + TestReasons(Unique(found));
      && (reasons == [] <==> Acceptable(lines))
      && (forall path :: TestOrOracle(path) in reasons <==> path != "" && IsTestPath(path) && path in found)
  {
    UniqueKeepsMembers(PathsOf(lines, |lines|));
    MalformedIff(lines, |lines|);
    var headers := HeaderReasons(MalformedOf(lines, |lines|));
    assert forall path :: TestOrOracle(path) !in headers;
  }

  /** Every header line reads, and none names a test or oracle path. */
  ghost predicate Acceptable(lines: seq<string>) {
    && (forall i :: 0 <= i < |lines| ==> !ReadLine(lines, i).malformed)
    && (forall path :: path in PathsOf(lines, |lines|) && path != "" ==> !IsTestPath(path))
  }

  lemma {:induction false} MalformedIff(lines: seq<string>, n: nat)
    requires n <= |lines|
    ensures MalformedOf(lines, n) == [] <==> forall i :: 0 <= i < n ==> !ReadLine(lines, i).malformed
  {
    if n > 0 {
      MalformedIff(lines, n - 1);
    }
  }

  lemma {:induction false} PathsOfLine(lines: seq<string>, i: nat, n: nat, path: string)
    requires i < n <= |lines| && path in ReadLine(lines, i).paths
    ensures path in PathsOf(lines, n)
  {
    if i < n - 1 {
      PathsOfLine(lines, i, n - 1, path);
    }
  }

  lemma {:induction false} LineOfPath(lines: seq<string>, n: nat, path: string) returns (i: nat)
    requires n <= |lines| && path in PathsOf(lines, n)
    ensures i < n && path in ReadLine(lines, i).paths
  {
    if path in ReadLine(lines, n - 1).paths {
      i := n - 1;
    } else {
      i := LineOfPath(lines, n - 1, path);
    }
  }

  /** Acceptance, line by line. */
  lemma AcceptableIff(lines: seq<string>)
    ensures Acceptable(lines) <==>
      forall i :: 0 <= i < |lines| ==>
        !ReadLine(lines, i).malformed && forall path :: path in ReadLine(lines, i).paths && path != "" ==>
          !IsTestPath(path)
  {
    forall i, path | 0 <= i < |lines| && path in ReadLine(lines, i).paths ensures path in PathsOf(lines, |lines|) {
      PathsOfLine(lines, i, |lines|, path);
    }
    forall path | path in PathsOf(lines, |lines|)
      ensures exists i :: 0 <= i < |lines| && path in ReadLine(lines, i).paths
    {
      var i := LineOfPath(lines, |lines|, path);
    }
  }

  /** The starts of lines that the reader looks at. */
  predicate StartsLikeHeader(line: string) {
    || "diff --git " <= line || "--- " <= line || "+++ " <= line || "rename " <= line || "copy " <= line
    || "Binary files " <= line
  }

  /** A header with a quoted escape rejects the patch, wherever it stands. */
  lemma EscapedHeaderRejects(lines: seq<string>, i: nat)
    requires i < |lines| && StartsLikeHeader(lines[i]) && '"' in lines[i] && '\\' in lines[i]
    ensures !Acceptable(lines)
  {
    assert ReadLine(lines, i).malformed;
  }

  /** A target that names nothing: white space, or quotes around nothing. */
  ghost predicate IsBlank(target: string) {
    AllSpace(target) || forall i :: 0 <= i < |target| ==> target[i] == '"'
  }

  lemma {:induction false} QuotesAreStripped(quotes: string)
    requires forall i :: 0 <= i < |quotes| ==> quotes[i] == '"'
    ensures StripQuotes(quotes) == ""
  {
    if quotes != "" { QuotesAreStripped(quotes[1..]); }
  }

  lemma BlankTarget(blank: string)
    requires IsBlank(blank)
    ensures StripSide(blank) == "" && StripQuotes(Strip(blank)) == ""
  {
    if AllSpace(blank) {
      CutAtPrefix(blank, '\t');
      StripBlank(CutAt(blank, '\t').0);
      StripBlank(blank);
    } else {
      CutAtNone(blank, '\t');
      QuotesAreStripped(blank);
      assert StripLeft(blank) == blank && StripRight(blank) == blank;
    }
  }

  lemma BlankRename(start: string, blank: string)
    requires start in ["rename from ", "rename to ", "copy from ", "copy to "]
    ensures RenameTarget(start + blank) == Some(blank)
  {
    var line := start + blank;
    assert line[|start|..] == blank && line[0] == start[0] && line[5] == start[5] && line[7] == start[7];
    assert "rename from "[7] == 'f' && "rename to "[7] == 't' && "copy from "[5] == 'f' && "copy to "[5] == 't';
  }

  /** A target of a rename, a copy or a header pair that is blank rejects the patch. */
  lemma EmptyTargetRejects(lines: seq<string>, i: nat, start: string, blank: string)
    requires i < |lines| && lines[i] == start + blank && IsBlank(blank)
    requires || start in ["rename from ", "rename to ", "copy from ", "copy to "]
             || (start == OLD && i + 1 < |lines| && NEW <= lines[i + 1])
             || (start == NEW && i > 0 && OLD <= lines[i - 1])
    ensures !Acceptable(lines)
  {
    var line := lines[i];
    assert line[|start|..] == blank && line[0] == start[0] && start <= line;
    assert GIT[0] == 'd' && OLD[0] == '-' && NEW[0] == '+';
    BlankTarget(blank);
    if start != OLD && start != NEW { BlankRename(start, blank); }
    assert ReadLine(lines, i).malformed;
  }

  /** Any other line is read as nothing. */
  lemma QuietIsNothing(lines: seq<string>, i: nat)
    requires i < |lines| && !StartsLikeHeader(lines[i])
    ensures ReadLine(lines, i) == NOTHING
  {
    assert "rename " <= "rename from " && "rename " <= "rename to " && "copy " <= "copy from " && "copy " <= "copy to ";
  }

  /** A quoted target without escapes reads as the path between the quotes, without its side. */
  lemma QuotedTargetIsRead(side: string, path: string, stamp: string)
    requires side in {"a/", "b/"} && path != "" && '"' !in path && '\t' !in path && (stamp == "" || stamp[0] == '\t')
    ensures StripSide("\"" + side + path + "\"" + stamp) == path
  {
    var inner := side + path;
    var quoted := "\"" + inner + "\"";
    assert "\"" + side + path + "\"" + stamp == quoted + stamp;
    QuotedIsRead(inner, stamp);
    assert inner[2..] == path;
  }

  lemma QuotesGo(inner: string)
    requires inner != "" && inner[0] != '"' && inner[|inner| - 1] != '"'
    ensures StripQuotes("\"" + inner + "\"") == inner
  {
    var quoted := "\"" + inner + "\"";
    assert quoted[1..] == inner + "\"" && (inner + "\"")[0] != '"' && (inner + "\"")[..|inner|] == inner;
    assert StripQuotes(inner + "\"") == StripQuotes(inner);
  }

  lemma QuotedIsRead(inner: string, stamp: string)
    requires inner != "" && '"' !in inner && '\t' !in inner && (stamp == "" || stamp[0] == '\t')
    ensures StripSide("\"" + inner + "\"" + stamp) == DropSide(inner)
  {
    var quoted := "\"" + inner + "\"";
    assert '\t' !in quoted;
    QuotesGo(inner);
    if stamp == "" {
      CutAtNone(quoted, '\t');
      assert quoted + stamp == quoted;
    } else {
      CutAtFirst(quoted, '\t', stamp[1..]);
      assert quoted + stamp == quoted + ['\t'] + stamp[1..];
    }
    StripDrops("", quoted, "");
    assert "" + quoted + "" == quoted;
  }
}
