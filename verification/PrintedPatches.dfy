/**
 * Unified diffs as git and diff print them, with unquoted, space-free paths and arbitrary
 * other lines around the headers, and the proof that the guard sees both sides of every
 * change in them.
 */
module PrintedPatches {
  import opened Wrappers
  import opened Text
  import opened OracleGuard

  /** A path that git prints without quoting and without white space. */
  ghost predicate PlainPath(path: string) {
    IsToken(path) && '"' !in path && '\\' !in path
  }

  // ----- one header line at a time ----------------------------------------------------

  lemma {:induction false} StripToken(t: string)
    requires IsToken(t)
    ensures Strip(t) == t
  {
  }

  /** Nothing, or a tab and anything (diff prints a time stamp there). */
  predicate IsStamp(stamp: string) {
    stamp == "" || stamp[0] == '\t'
  }

  /** A `---` or `+++` target may be followed by a stamp. */
  lemma StampedTarget(t: string, stamp: string)
    requires IsToken(t) && '"' !in t && IsStamp(stamp)
    ensures StripSide(t + stamp) == DropSide(t)
  {
    if stamp == "" {
      CutAtNone(t, '\t');
      assert t + stamp == t;
    } else {
      CutAtFirst(t, '\t', stamp[1..]);
      assert t + stamp == t + ['\t'] + stamp[1..];
    }
    StripToken(t);
  }

  lemma GitTailMatches(new_: string)
    requires PlainPath(new_)
    ensures GitTail(" b/" + new_) == Some(new_)
  {
    var u := " b/" + new_;
    assert u[1..] == "b/" + new_;
    assert u[1..][2..] == new_;
    assert u[1] == 'b';
  }

  lemma GitTailFails(t: string)
    requires t != "" && !IsSpace(t[0]) && t[0] != '"'
    ensures GitTail(t) == None
  {
  }

  lemma {:induction false} GitGroupsFind(old_: string, new_: string, n: nat)
    requires PlainPath(old_) && PlainPath(new_) && 1 <= n <= |old_|
    ensures GitGroups(old_ + " b/" + new_, n) == Some((old_, new_))
    decreases |old_| - n
  {
    var body := old_ + " b/" + new_;
    if n == |old_| {
      GitTailMatches(new_);
      assert body[n..] == " b/" + new_ && body[..n] == old_;
    } else {
      assert body[n..][0] == old_[n];
      GitTailFails(body[n..]);
      GitGroupsFind(old_, new_, n + 1);
    }
  }

  function GitLine(old_: string, new_: string): string {
    GIT + ("a/" + (old_ + " b/" + new_))
  }

  lemma GitLineReads(old_: string, new_: string)
    requires PlainPath(old_) && PlainPath(new_)
    ensures GitHeader(GitLine(old_, new_)) == Some((old_, new_))
  {
    var line := GitLine(old_, new_);
    var body := old_ + " b/" + new_;
    assert line[|GIT|..] == "a/" + body;
    assert ("a/" + body)[2..] == body;
    GitGroupsFind(old_, new_, 1);
  }

  /** A git header line gives both of its sides, wherever it stands. */
  lemma GitLineGivesSides(lines: seq<string>, i: nat, old_: string, new_: string)
    requires i < |lines| && lines[i] == GitLine(old_, new_) && PlainPath(old_) && PlainPath(new_)
    ensures ReadLine(lines, i) == Reading([old_, new_], false)
  {
    GitLineReads(old_, new_);
    assert '"' !in lines[i] by {
      assert '"' !in GIT && '"' !in "a/" && '"' !in " b/";
    }
  }

  function TargetReading(target: string): Reading {
    if target == DEV_NULL then NOTHING else if target == "" then MALFORMED else Reading([target], false)
  }

  /** An adjacent pair of `---` and `+++` lines gives its two targets. */
  lemma PairGivesTargets(lines: seq<string>, i: nat, old_: string, new_: string)
    requires i + 1 < |lines| && lines[i] == OLD + old_ && lines[i + 1] == NEW + new_
    requires '"' !in old_ && '"' !in new_
    ensures ReadLine(lines, i) == TargetReading(StripSide(old_))
    ensures ReadLine(lines, i + 1) == TargetReading(StripSide(new_))
  {
    assert '"' !in OLD && '"' !in NEW;
    assert lines[i][4..] == old_ && lines[i + 1][4..] == new_;
    assert lines[i][0] == '-' && lines[i + 1][0] == '+';
    assert GIT[0] == 'd';
  }

  /** The four rename and copy lines give their path. */
  lemma RenameLineGivesPath(lines: seq<string>, i: nat, notice: string, path: string)
    requires notice in {"rename from ", "rename to ", "copy from ", "copy to "}
    requires i < |lines| && lines[i] == notice + path && PlainPath(path)
    ensures ReadLine(lines, i) == Reading([path], false)
  {
    StripToken(path);
    assert '"' !in notice;
    assert lines[i][|notice|..] == path;
    assert lines[i][0] == notice[0] && (notice[0] == 'r' || notice[0] == 'c');
    assert GIT[0] == 'd' && OLD[0] == '-' && NEW[0] == '+';
    if notice == "rename to " { assert lines[i][7] == 't'; }
    if notice == "copy to " { assert lines[i][5] == 't'; }
  }

  lemma {:induction false} BinaryGroupsFind(x: string, y: string, n: nat)
    requires IsToken(x) && IsToken(y) && y[0] != 'a'
    requires |x| <= n <= |x + AND + y + DIFFER|
    ensures BinaryGroups(x + AND + y + DIFFER, n) == Some((x, y))
    decreases n
  {
    var body := x + AND + y + DIFFER;
    if n == |x| {
      assert body[n..] == AND + (y + DIFFER);
      assert body[n + |AND|..] == y + DIFFER;
      assert (y + DIFFER)[|y|..] == DIFFER && (y + DIFFER)[..|y|] == y;
      assert body[..n] == x;
    } else {
      assert AND[0] == ' ' && AND[1] == 'a' && AND[2] == 'n' && AND[3] == 'd' && AND[4] == ' ' && DIFFER[1] == 'd';
      assert |x| + 5 <= n < |x| + 5 + |y| ==> !IsSpace(y[n - |x| - 5]);
      assert n < |body| ==> body[n..][0] == body[n];
      assert n + 1 < |body| ==> body[n..][1] == body[n + 1];
      assert !(AND <= body[n..]);
      BinaryGroupsFind(x, y, n - 1);
    }
  }

  /** A printed side `a/path` or `b/path` strips to the path and is never `/dev/null`. */
  lemma PrintedSide(side: string, path: string)
    requires side in {"a/", "b/"} && PlainPath(path)
    ensures IsToken(side + path) && '"' !in side + path && (side + path)[0] == side[0]
    ensures StripSide(side + path) == path && Strip(side + path) == side + path && side + path != DEV_NULL
  {
    var target := side + path;
    assert IsToken(target);
    StampedTarget(target, "");
    StripToken(target);
    assert target + "" == target;
    assert target[2..] == path && target[0] == side[0] && DEV_NULL[0] == '/';
  }

  function BinaryLine(old_: string, new_: string): string {
    BINARY + ("a/" + old_ + AND + ("b/" + new_) + DIFFER)
  }

  lemma BinaryLineReads(old_: string, new_: string)
    requires PlainPath(old_) && PlainPath(new_)
    ensures BinaryHeader(BinaryLine(old_, new_)) == Some(("a/" + old_, "b/" + new_))
    ensures '"' !in BinaryLine(old_, new_) && BinaryLine(old_, new_)[0] == 'B'
  {
    var x, y := "a/" + old_, "b/" + new_;
    PrintedSide("a/", old_);
    PrintedSide("b/", new_);
    var body := x + AND + y + DIFFER;
    assert BinaryLine(old_, new_)[|BINARY|..] == body;
    BinaryGroupsFind(x, y, |body|);
    assert '"' !in BINARY && '"' !in AND && '"' !in DIFFER;
  }

  /** A line about binary files gives both sides. */
  lemma BinaryLineGivesSides(lines: seq<string>, i: nat, old_: string, new_: string)
    requires PlainPath(old_) && PlainPath(new_)
    requires i < |lines| && lines[i] == BinaryLine(old_, new_)
    ensures ReadLine(lines, i) == Reading([old_, new_], false)
  {
    BinaryLineReads(old_, new_);
    PrintedSide("a/", old_);
    PrintedSide("b/", new_);
    assert GIT[0] == 'd' && OLD[0] == '-' && NEW[0] == '+';
    assert "rename "[0] == 'r' && "copy "[0] == 'c' && "rename from "[0] == 'r' && "rename to "[0] == 'r';
    assert RenameTarget(lines[i]) == None;
  }

  // ----- whole patches ----------------------------------------------------------------

  datatype Side = Absent | At(path: string)

  /**
   * A change as a patch shows it.  `rest` is anything below the headers: extended headers, a
   * second pair of header lines, hunks, notices, or lines made to look like headers.
   */
  datatype Change =
    | GitChange(old_: string, new_: string, rest: seq<string>)
    | PlainChange(oldSide: Side, newSide: Side, prefixed: bool, stamp: string, rest: seq<string>)

  function SideText(side: Side, prefix: string, stamp: string): string {
    match side
    case Absent => DEV_NULL + stamp
    case At(path) => (prefix + path) + stamp
  }

  function Printed(c: Change): seq<string> {
    match c
    case GitChange(old_, new_, rest) => [GitLine(old_, new_)] + rest
    case PlainChange(oldSide, newSide, prefixed, stamp, rest) =>
      [OLD + SideText(oldSide, if prefixed then "a/" else "", stamp),
       NEW + SideText(newSide, if prefixed then "b/" else "", stamp)] + rest
  }

  function PrintedAll(changes: seq<Change>): seq<string> {
    Flatten(seq(|changes|, i requires 0 <= i < |changes| => Printed(changes[i])))
  }

  /** The paths that a change touches, as the guard is to report them. */
  ghost predicate Touches(c: Change, path: string) {
    match c
    case GitChange(old_, new_, _) => path == old_ || path == new_
    case PlainChange(oldSide, newSide, _, _, _) => oldSide == At(path) || newSide == At(path)
  }

  predicate OneLine(s: string) {
    '\n' !in s && '\r' !in s
  }

  ghost predicate PlainSide(side: Side, prefixed: bool) {
    side.At? ==>
      PlainPath(side.path) && (if prefixed then side.path else DropSide(side.path)) !in {"", DEV_NULL}
  }

  ghost predicate Printable(c: Change) {
    && (forall line :: line in c.rest ==> '\n' !in line)
    && match c
       case GitChange(old_, new_, _) => PlainPath(old_) && PlainPath(new_)
       case PlainChange(oldSide, newSide, prefixed, stamp, _) =>
         && PlainSide(oldSide, prefixed) && PlainSide(newSide, prefixed)
         && IsStamp(stamp) && '"' !in stamp && OneLine(stamp)
  }

  /** The path itself is reported, or the path without one leading `a/` or `b/`, which is classified alike. */
  ghost predicate Reported(lines: seq<string>, path: string) {
    exists shown :: shown in PathsOf(lines, |lines|) && shown != "" && IsTestPath(shown) == IsTestPath(path)
                    && (shown == path || shown == DropSide(path))
  }

  lemma DropSideIsNeutral(path: string)
    ensures IsTestPath(DropSide(path)) == IsTestPath(path)
  {
    if DropSide(path) != path {
      assert path == [path[0], '/'] + path[2..];
      SideIsNeutral(path[0], path[2..]);
    }
  }

  lemma PrintedSideIsRead(path: string, prefixed: bool, side: string, stamp: string)
    requires side in {"a/", "b/"} && PlainSide(At(path), prefixed) && IsStamp(stamp)
    ensures StripSide(SideText(At(path), if prefixed then side else "", stamp)) == if prefixed then path
      else DropSide(path)
  {
    var target := (if prefixed then side else "") + path;
    if prefixed {
      PrintedSide(side, path);
    } else {
      assert target == path;
    }
    StampedTarget(target, stamp);
  }

  /** In any list of lines that holds the printed change, both of its sides are reported. */
  lemma ChangeIsReported(lines: seq<string>, k: nat, c: Change, path: string)
    requires Printable(c) && Touches(c, path)
    requires match c
      case GitChange(old_, new_, _) => k < |lines| && lines[k] == Printed(c)[0]
      case PlainChange(_, _, _, _, _) => k + 1 < |lines| && lines[k] == Printed(c)[0] && lines[k + 1] == Printed(c)[1]
    ensures Reported(lines, path)
  {
    match c
    case GitChange(old_, new_, _) =>
      GitLineGivesSides(lines, k, old_, new_);
      PathsOfLine(lines, k, |lines|, path);
    case PlainChange(oldSide, newSide, prefixed, stamp, _) =>
      var oldText := SideText(oldSide, if prefixed then "a/" else "", stamp);
      var newText := SideText(newSide, if prefixed then "b/" else "", stamp);
      assert '"' !in DEV_NULL;
      PairGivesTargets(lines, k, oldText, newText);
      DropSideIsNeutral(path);
      var shown := if prefixed then path else DropSide(path);
      if oldSide == At(path) {
        PrintedSideIsRead(path, prefixed, "a/", stamp);
        PathsOfLine(lines, k, |lines|, shown);
      } else {
        PrintedSideIsRead(path, prefixed, "b/", stamp);
        PathsOfLine(lines, k + 1, |lines|, shown);
      }
  }

  lemma PrintedAt(changes: seq<Change>, j: nat) returns (k: nat)
    requires j < |changes|
    ensures k + |Printed(changes[j])| <= |PrintedAll(changes)|
    ensures forall i :: 0 <= i < |Printed(changes[j])| ==> PrintedAll(changes)[k + i] == Printed(changes[j])[i]
  {
    var parts := seq(|changes|, i requires 0 <= i < |changes| => Printed(changes[i]));
    var before, after := FlattenHolds(parts, j);
    k := |before|;
    MiddleIsAt(before, parts[j], after);
  }

  lemma MiddleIsAt(before: seq<string>, middle: seq<string>, after: seq<string>)
    ensures forall i :: 0 <= i < |middle| ==> (before + middle + after)[|before| + i] == middle[i]
  {
  }

  lemma GitLineIsOneLine(old_: string, new_: string)
    requires IsToken(old_) && IsToken(new_)
    ensures OneLine(GitLine(old_, new_))
  {
    assert OneLine(GIT) && OneLine("a/") && OneLine(" b/");
  }

  lemma SideIsOneLine(header: string, side: Side, prefix: string, stamp: string)
    requires OneLine(header) && OneLine(prefix) && OneLine(stamp) && (side.At? ==> IsToken(side.path))
    ensures OneLine(header + SideText(side, prefix, stamp))
  {
    assert OneLine(DEV_NULL);
  }

  /** The header lines of a change contain no line break. */
  lemma HeadersAreOneLine(c: Change)
    requires Printable(c)
    ensures OneLine(Printed(c)[0]) && (c.PlainChange? ==> OneLine(Printed(c)[1]))
  {
    assert OneLine(OLD) && OneLine(NEW) && OneLine("a/") && OneLine("b/") && OneLine("");
    match c
    case GitChange(old_, new_, _) => GitLineIsOneLine(old_, new_);
    case PlainChange(oldSide, newSide, prefixed, stamp, _) =>
      SideIsOneLine(OLD, oldSide, if prefixed then "a/" else "", stamp);
      SideIsOneLine(NEW, newSide, if prefixed then "b/" else "", stamp);
  }

  /** Joining printed lines with newlines and reading them back gives the same lines, less a final `\r` each. */
  lemma LinesOfJoin(lines: seq<string>, i: nat)
    requires i < |lines| && forall line :: line in lines ==> '\n' !in line
    ensures |Lines(Join(lines, '\n'))| == |lines| && Lines(Join(lines, '\n'))[i] == WithoutReturn(lines[i])
  {
    SplitJoin(lines, '\n');
  }

  lemma HeaderIsLine(lines: seq<string>, i: nat, header: string)
    requires i < |lines| && (forall line :: line in lines ==> '\n' !in line) && lines[i] == header && OneLine(header)
    ensures i < |Lines(Join(lines, '\n'))| && Lines(Join(lines, '\n'))[i] == header
  {
    LinesOfJoin(lines, i);
  }

  lemma PrintedLinesAreLines(changes: seq<Change>)
    requires forall c :: c in changes ==> Printable(c)
    ensures forall line :: line in PrintedAll(changes) ==> '\n' !in line
  {
    var parts := seq(|changes|, i requires 0 <= i < |changes| => Printed(changes[i]));
    forall line | line in PrintedAll(changes) ensures '\n' !in line {
      var j := FlattenMember(parts, line);
      assert Printable(changes[j]);
      HeadersAreOneLine(changes[j]);
    }
  }

  /** The header lines of each change are lines of the patch text. */
  lemma HeadersAreLines(changes: seq<Change>, j: nat) returns (k: nat)
    requires j < |changes| && forall c :: c in changes ==> Printable(c)
    ensures PrintedAll(changes) != []
    ensures var lines := Lines(Join(PrintedAll(changes), '\n'));
      && k < |lines| && lines[k] == Printed(changes[j])[0]
      && (changes[j].PlainChange? ==> k + 1 < |lines| && lines[k + 1] == Printed(changes[j])[1])
  {
    k := PrintedAt(changes, j);
    var printed, c := PrintedAll(changes), changes[j];
    assert Printable(c);
    PrintedLinesAreLines(changes);
    HeadersAreOneLine(c);
    assert printed[k + 0] == Printed(c)[0];
    HeaderIsLine(printed, k, Printed(c)[0]);
    if c.PlainChange? { HeaderIsLine(printed, k + 1, Printed(c)[1]); }
  }

  lemma ReportedTestIsRejected(lines: seq<string>, path: string)
    requires Reported(lines, path) && IsTestPath(path)
    ensures !Acceptable(lines)
  {
  }

  /**
   * The guard sees through every printed patch: whatever stands between the headers, both
   * sides of every change are reported, and a patch with a test or oracle path on any side of
   * any change is not acceptable.
   */
  lemma TestChangesAreRejected(changes: seq<Change>, j: nat, path: string)
    requires forall c :: c in changes ==> Printable(c)
    requires j < |changes| && Touches(changes[j], path)
    ensures PrintedAll(changes) != []
    ensures Reported(Lines(Join(PrintedAll(changes), '\n')), path)
    ensures IsTestPath(path) ==> !Acceptable(Lines(Join(PrintedAll(changes), '\n')))
  {
    var k := HeadersAreLines(changes, j);
    var lines := Lines(Join(PrintedAll(changes), '\n'));
    assert Printable(changes[j]);
    ChangeIsReported(lines, k, changes[j], path);
    if IsTestPath(path) {
      ReportedTestIsRejected(lines, path);
    }
  }

  // ----- exactly the touched paths ----------------------------------------------------

  /** The lines below the headers do not start like headers. */
  ghost predicate Quiet(c: Change) {
    forall line :: line in c.rest ==> !StartsLikeHeader(line)
  }

  /** Whatever the reading reports is classified like a path that the change touches. */
  ghost predicate ReportsTouched(r: Reading, c: Change) {
    !r.malformed && forall path :: path in r.paths ==>
      exists touched :: Touches(c, touched) && IsTestPath(path) == IsTestPath(touched)
  }

  lemma SideReading(c: Change, side: Side, prefix: string, text: string)
    requires Printable(c) && c.PlainChange? && side in {c.oldSide, c.newSide} && prefix in {"a/", "b/"}
    requires text == SideText(side, if c.prefixed then prefix else "", c.stamp)
    ensures '"' !in text && ReportsTouched(TargetReading(StripSide(text)), c)
  {
    match side
    case Absent =>
      assert IsToken(DEV_NULL) && '"' !in DEV_NULL && !("a/" <= DEV_NULL) && !("b/" <= DEV_NULL);
      StampedTarget(DEV_NULL, c.stamp);
    case At(path) =>
      PrintedSideIsRead(path, c.prefixed, prefix, c.stamp);
      DropSideIsNeutral(path);
      assert Touches(c, path);
  }

  /** The headers of a change read as paths that it touches. */
  lemma HeadersReportTouched(lines: seq<string>, k: nat, c: Change)
    requires Printable(c)
    requires match c
      case GitChange(_, _, _) => k < |lines| && lines[k] == Printed(c)[0]
      case PlainChange(_, _, _, _, _) => k + 1 < |lines| && lines[k] == Printed(c)[0] && lines[k + 1] == Printed(c)[1]
    ensures ReportsTouched(ReadLine(lines, k), c)
    ensures c.PlainChange? ==> ReportsTouched(ReadLine(lines, k + 1), c)
  {
    match c
    case GitChange(old_, new_, _) =>
      GitLineGivesSides(lines, k, old_, new_);
      assert Touches(c, old_) && Touches(c, new_);
    case PlainChange(oldSide, newSide, prefixed, stamp, _) =>
      var oldText := SideText(oldSide, if prefixed then "a/" else "", stamp);
      var newText := SideText(newSide, if prefixed then "b/" else "", stamp);
      SideReading(c, oldSide, "a/", oldText);
      SideReading(c, newSide, "b/", newText);
      PairGivesTargets(lines, k, oldText, newText);
  }

  function Headers(c: Change): nat {
    if c.GitChange? then 1 else 2
  }

  /** The printed change stands in the lines at this place. */
  ghost predicate StandsAt(printed: seq<string>, at: nat, c: Change) {
    at + |Printed(c)| <= |printed| && printed[at..at + |Printed(c)|] == Printed(c)
  }

  lemma HeaderStands(printed: seq<string>, at: nat, c: Change)
    requires StandsAt(printed, at, c)
    ensures at + Headers(c) <= |printed| && printed[at] == Printed(c)[0]
    ensures c.PlainChange? ==> printed[at + 1] == Printed(c)[1]
  {
    var part := printed[at..at + |Printed(c)|];
    assert part[0] == printed[at] && (c.PlainChange? ==> part[1] == printed[at + 1]);
  }

  lemma RestStands(printed: seq<string>, at: nat, c: Change, o: nat)
    requires StandsAt(printed, at, c) && Headers(c) <= o < |Printed(c)|
    ensures at + o < |printed| && printed[at + o] in c.rest
  {
    var part := printed[at..at + |Printed(c)|];
    assert part[o] == printed[at + o] && Printed(c)[o] == c.rest[o - Headers(c)];
  }

  lemma QuietWithoutReturn(line: string)
    requires !StartsLikeHeader(line)
    ensures !StartsLikeHeader(WithoutReturn(line))
  {
    assert WithoutReturn(line) <= line;
  }

  /** All that is read from the `i`-th line is what the change touches. */
  ghost predicate LineTouches(lines: seq<string>, i: nat, c: Change) {
    i < |lines| && forall k :: i <= k <= i ==> ReportsTouched(ReadLine(lines, k), c)
  }

  lemma QuietLineTouches(lines: seq<string>, i: nat, c: Change)
    requires i < |lines| && !StartsLikeHeader(lines[i])
    ensures LineTouches(lines, i, c)
  {
    QuietIsNothing(lines, i);
  }

  lemma HeaderLinesTouch(lines: seq<string>, at: nat, c: Change)
    requires Printable(c) && at + Headers(c) <= |lines| && lines[at] == Printed(c)[0]
    requires c.PlainChange? ==> lines[at + 1] == Printed(c)[1]
    ensures LineTouches(lines, at, c) && (c.PlainChange? ==> LineTouches(lines, at + 1, c))
  {
    HeadersReportTouched(lines, at, c);
  }

  lemma QuietLineStays(printed: seq<string>, i: nat)
    requires i < |printed| && (forall line :: line in printed ==> '\n' !in line) && !StartsLikeHeader(printed[i])
    ensures var lines := Lines(Join(printed, '\n')); i < |lines| && !StartsLikeHeader(lines[i])
  {
    LinesOfJoin(printed, i);
    QuietWithoutReturn(printed[i]);
  }

  lemma HeaderLinesStay(printed: seq<string>, at: nat, c: Change)
    requires Printable(c) && (forall line :: line in printed ==> '\n' !in line)
    requires at + Headers(c) <= |printed| && printed[at] == Printed(c)[0]
    requires c.PlainChange? ==> printed[at + 1] == Printed(c)[1]
    ensures var lines := Lines(Join(printed, '\n'));
      at + Headers(c) <= |lines| && lines[at] == Printed(c)[0] && (c.PlainChange? ==> lines[at + 1] == Printed(c)[1])
  {
    HeadersAreOneLine(c);
    HeaderIsLine(printed, at, Printed(c)[0]);
    if c.PlainChange? { HeaderIsLine(printed, at + 1, Printed(c)[1]); }
  }

  lemma RestLineReports(printed: seq<string>, at: nat, o: nat, c: Change)
    requires Quiet(c) && (forall line :: line in printed ==> '\n' !in line)
    requires StandsAt(printed, at, c) && Headers(c) <= o < |Printed(c)|
    ensures LineTouches(Lines(Join(printed, '\n')), at + o, c)
  {
    RestStands(printed, at, c, o);
    QuietLineStays(printed, at + o);
    QuietLineTouches(Lines(Join(printed, '\n')), at + o, c);
  }

  lemma HeaderLineReports(printed: seq<string>, lines: seq<string>, at: nat, o: nat, c: Change)
    requires Printable(c) && (forall line :: line in printed ==> '\n' !in line)
    requires StandsAt(printed, at, c) && o < Headers(c) && lines == Lines(Join(printed, '\n'))
    ensures LineTouches(lines, at + o, c)
  {
    HeaderStands(printed, at, c);
    HeaderLinesStay(printed, at, c);
    HeaderLinesTouch(lines, at, c);
    assert o == 0 || (o == 1 && c.PlainChange?);
  }

  /** Every line of the patch text is quiet, or a header that reports touched paths of some change. */
  lemma LineReportsTouched(changes: seq<Change>, i: nat) returns (j: nat)
    requires (forall c :: c in changes ==> Printable(c) && Quiet(c)) && i < |PrintedAll(changes)|
    ensures j < |changes| && LineTouches(Lines(Join(PrintedAll(changes), '\n')), i, changes[j])
  {
    var at;
    j, at := FlattenLocate(seq(|changes|, k requires 0 <= k < |changes| => Printed(changes[k])), i);
    assert changes[j] in changes && StandsAt(PrintedAll(changes), at, changes[j]);
    PrintedLinesAreLines(changes);
    if i - at >= Headers(changes[j]) {
      RestLineReports(PrintedAll(changes), at, i - at, changes[j]);
    } else {
      HeaderLineReports(PrintedAll(changes), Lines(Join(PrintedAll(changes), '\n')), at, i - at, changes[j]);
    }
  }

  /**
   * The guard accepts a printed patch, with quiet lines between the headers, exactly when no side
   * of any change is a test or oracle path.
   */
  lemma PrintedIsAcceptableIff(changes: seq<Change>)
    requires changes != [] && forall c :: c in changes ==> Printable(c) && Quiet(c)
    ensures PrintedAll(changes) != []
    ensures Acceptable(Lines(Join(PrintedAll(changes), '\n'))) <==>
      forall j, path :: 0 <= j < |changes| && Touches(changes[j], path) ==> !IsTestPath(path)
  {
    var k := HeadersAreLines(changes, 0);
    var lines := Lines(Join(PrintedAll(changes), '\n'));
    forall j, path | 0 <= j < |changes| && Touches(changes[j], path) && IsTestPath(path) ensures !Acceptable(lines) {
      TestChangesAreRejected(changes, j, path);
    }
    if forall j, path :: 0 <= j < |changes| && Touches(changes[j], path) ==> !IsTestPath(path) {
      PrintedLinesAreLines(changes);
      LinesOfJoin(PrintedAll(changes), 0);
      forall i | 0 <= i < |lines|
        ensures !ReadLine(lines, i).malformed
        ensures forall path :: path in ReadLine(lines, i).paths && path != "" ==> !IsTestPath(path)
      {
        var j := LineReportsTouched(changes, i);
        assert ReportsTouched(ReadLine(lines, i), changes[j]);
      }
      AcceptableIff(lines);
    }
  }

  /** A change to a file under a test directory or with the name of a test file, in any case, is rejected. */
  lemma BuiltTestIsRejected(changes: seq<Change>, j: nat, dirs: seq<(string, char)>, name: string)
    requires forall c :: c in changes ==> Printable(c)
    requires j < |changes| && Buildable(dirs, name) && Touches(changes[j], Built(dirs, name))
    requires IsTestFile(name) || exists i :: 0 <= i < |dirs| && IsTestDir(dirs[i].0)
    ensures PrintedAll(changes) != [] && !Acceptable(Lines(Join(PrintedAll(changes), '\n')))
  {
    BuiltIsTestPathIff(dirs, name);
    TestChangesAreRejected(changes, j, Built(dirs, name));
  }

  /** One quiet change between built paths: accepted exactly when neither is a test path by its parts. */
  lemma BuiltChangeIsAcceptedIff(c: Change, dirs: seq<(string, char)>, name: string)
    requires Printable(c) && Quiet(c) && c.PlainChange? && Buildable(dirs, name)
    requires c.oldSide == At(Built(dirs, name)) && c.newSide == c.oldSide
    ensures PrintedAll([c]) != []
    ensures Acceptable(Lines(Join(PrintedAll([c]), '\n'))) <==>
      !IsTestFile(name) && forall i :: 0 <= i < |dirs| ==> !IsTestDir(dirs[i].0)
  {
    PrintedIsAcceptableIff([c]);
    BuiltIsTestPathIff(dirs, name);
    assert Touches([c][0], Built(dirs, name));
  }
}
