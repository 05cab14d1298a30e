/** Repository paths and the allow/forbid policy over them (nexus/contracts/autonomy_goal.py). */
module PathPolicy {
  import opened Text
  import opened Wrappers

  // ----- Repository paths -----

  const SLASH := '/'

  function ToLower(c: char): char {
    if 'A' <= c <= 'Z' then (c as int + 32) as char else c
  }

  /** Only ASCII letters case-fold to those of ".git", so this test is exact for it. */
  predicate IsGit(part: string) {
    |part| == 4 && part[0] == '.' && ToLower(part[1]) == 'g' && ToLower(part[2]) == 'i' && ToLower(part[3]) == 't'
  }

  predicate PlainChar(c: char) {
    ' ' <= c && c != '\U{7F}' && c != '\\'
  }

  /** The parts that `PurePosixPath` keeps of a relative path. */
  function Kept(parts: seq<string>): (kept: seq<string>)
    ensures forall i :: 0 <= i < |kept| ==> kept[i] in parts && kept[i] != "" && kept[i] != "."
    ensures (forall i :: 0 <= i < |parts| ==> parts[i] != "" && parts[i] != ".") ==> kept == parts
  {
    if parts == [] then []
    else if parts[0] == "" || parts[0] == "." then Kept(parts[1..])
    else [parts[0]] + Kept(parts[1..])
  }

  function AsPosix(value: string): string {
    var parts := Kept(Split(value, SLASH));
    if parts == [] then "." else Join(parts, SLASH)
  }

  /** The values `_repo_path` returns unchanged; it refuses every other one. */
  predicate IsRepoPath(value: string) {
    && value != ""
    && value[0] != SLASH
    && (forall i :: 0 <= i < |value| ==> PlainChar(value[i]))
    && var parts := Kept(Split(value, SLASH));
    && ".." !in parts
    && (forall i :: 0 <= i < |parts| ==> !IsGit(parts[i]))
    && AsPosix(value) == value
  }

  predicate IsSegment(s: string) {
    && s != "" && s != "." && s != ".." && !IsGit(s)
    && forall i :: 0 <= i < |s| ==> PlainChar(s[i]) && s[i] != SLASH
  }

  predicate AreSegments(segments: seq<string>) {
    forall i :: 0 <= i < |segments| ==> IsSegment(segments[i])
  }

  /** The place a path names in the tree; "." is the root. */
  function Segments(path: string): seq<string> {
    if path == "." then [] else Split(path, SLASH)
  }

  function PathOf(segments: seq<string>): string {
    if segments == [] then "." else Join(segments, SLASH)
  }

  lemma {:induction false} JoinHolds(parts: seq<string>, sep: char, i: nat, k: nat) returns (at: nat)
    requires i < |parts| && k < |parts[i]|
    ensures at < |Join(parts, sep)| && Join(parts, sep)[at] == parts[i][k]
  {
    if |parts| == 1 {
      at := k;
    } else if i == 0 {
      at := k;
    } else {
      at := JoinHolds(parts[1..], sep, i - 1, k);
      at := |parts[0]| + 1 + at;
    }
  }

  lemma {:induction false} JoinOfPlain(parts: seq<string>)
    requires |parts| >= 1 && AreSegments(parts)
    ensures var s := Join(parts, SLASH); forall i :: 0 <= i < |s| ==> PlainChar(s[i])
    ensures Join(parts, SLASH) != "" && Join(parts, SLASH)[0] == parts[0][0]
  {
    assert IsSegment(parts[0]);
    if |parts| > 1 {
      JoinOfPlain(parts[1..]);
    }
  }

  /** A path that normalises to itself has no part that normalising would drop. */
  lemma NormalKeepsParts(path: string)
    requires AsPosix(path) == path && path != "."
    ensures Kept(Split(path, SLASH)) == Split(path, SLASH)
  {
    SplitJoin(Kept(Split(path, SLASH)), SLASH);
  }

  /** The segments of an accepted path are well formed and joining them gives the path back. */
  lemma PathHasSegments(path: string)
    requires IsRepoPath(path)
    ensures AreSegments(Segments(path)) && PathOf(Segments(path)) == path
    ensures Segments(path) == [] <==> path == "."
  {
    if path != "." {
      NormalKeepsParts(path);
      var parts := Split(path, SLASH);
      JoinSplit(path, SLASH);
      forall i | 0 <= i < |parts| ensures IsSegment(parts[i]) {
        forall k | 0 <= k < |parts[i]| ensures PlainChar(parts[i][k]) && parts[i][k] != SLASH {
          var at := JoinHolds(parts, SLASH, i, k);
        }
      }
    }
  }

  /** Any list of well-formed segments is the place of exactly one accepted path. */
  lemma SegmentsMakePath(segments: seq<string>)
    requires AreSegments(segments)
    ensures IsRepoPath(PathOf(segments)) && Segments(PathOf(segments)) == segments
  {
    if segments == [] {
      SplitWhole(".", SLASH);
      assert Kept(["."]) == [];
    } else {
      assert IsSegment(segments[0]);
      assert forall i :: 0 <= i < |segments| ==> IsSegment(segments[i]);
      SplitJoin(segments, SLASH);
      JoinOfPlain(segments);
      assert Kept(segments) == segments;
      SplitWhole(".", SLASH);
      assert segments != ["."];
    }
  }

  /** ".git" in any ASCII case. */
  predicate NamesGit(part: string) {
    |part| == 4 && part[0] == '.' && part[1] in {'g', 'G'} && part[2] in {'i', 'I'} && part[3] in {'t', 'T'}
  }

  /** Not empty, neither "." nor ".." nor ".git", and no control character, slash or backslash. */
  predicate IsPlainName(part: string) {
    && part !in ["", ".", ".."] && !NamesGit(part)
    && forall i :: 0 <= i < |part| ==> part[i] as int >= 32 && part[i] as int != 127 && part[i] !in {'/', '\\'}
  }

  lemma SegmentIff(part: string)
    ensures IsSegment(part) <==> IsPlainName(part)
  {
  }

  /** The repository paths: "." and plain names with single slashes between them; any other value raises. */
  lemma RepoPathIff(value: string)
    ensures IsRepoPath(value) <==>
      value == "." || forall i :: 0 <= i < |Split(value, SLASH)| ==> IsPlainName(Split(value, SLASH)[i])
  {
    var parts := Split(value, SLASH);
    forall i | 0 <= i < |parts| ensures IsSegment(parts[i]) <==> IsPlainName(parts[i]) { SegmentIff(parts[i]); }
    if IsRepoPath(value) { PathHasSegments(value); }
    if AreSegments(parts) {
      SegmentsMakePath(parts);
      JoinSplit(value, SLASH);
    }
    if value == "." { SegmentsMakePath([]); }
  }

  // ----- The order behind the string tests -----

  /** `s.startswith(prefix)`. */
  predicate StartsWith(s: string, prefix: string) {
    prefix <= s
  }

  function StripSlashes(s: string): string {
    if s != "" && s[|s| - 1] == SLASH then StripSlashes(s[..|s| - 1]) else s
  }

  /** `path == top or path.startswith(top.rstrip("/") + "/")`. */
  predicate AtOrUnder(path: string, top: string) {
    path == top || StartsWith(path, StripSlashes(top) + [SLASH])
  }

  lemma Regroup<T>(a: seq<T>, b: seq<T>, c: seq<T>, d: seq<T>)
    ensures a + b + c + d == a + (b + c + d)
  {
  }

  lemma PartsRegroup(parts: seq<string>, more: seq<string>)
    requires |parts| >= 1
    ensures parts + more == [parts[0]] + (parts[1..] + more)
  {
  }

  lemma {:induction false} SplitPast(parts: seq<string>, rest: string)
    requires |parts| >= 1 && forall i :: 0 <= i < |parts| ==> SLASH !in parts[i]
    ensures Split(Join(parts, SLASH) + [SLASH] + rest, SLASH) == parts + Split(rest, SLASH)
  {
    if |parts| == 1 {
      SplitFirst(parts[0], SLASH, rest);
    } else {
      var tail := Join(parts[1..], SLASH) + [SLASH] + rest;
      SplitFirst(parts[0], SLASH, tail);
      SplitPast(parts[1..], rest);
      Regroup(parts[0] + [SLASH], Join(parts[1..], SLASH), [SLASH], rest);
      PartsRegroup(parts, Split(rest, SLASH));
    }
  }

  lemma {:induction false} JoinAppend(a: seq<string>, b: seq<string>)
    requires |a| >= 1 && |b| >= 1
    ensures Join(a + b, SLASH) == Join(a, SLASH) + [SLASH] + Join(b, SLASH)
  {
    if |a| == 1 {
      assert (a + b)[1..] == b;
    } else {
      JoinAppend(a[1..], b);
      assert (a + b)[1..] == a[1..] + b;
    }
  }

  lemma {:induction false} LastOfJoin(parts: seq<string>)
    requires |parts| >= 1 && AreSegments(parts)
    ensures var s := Join(parts, SLASH); s != "" && s[|s| - 1] != SLASH
  {
    if |parts| == 1 {
      assert IsSegment(parts[0]);
    } else {
      LastOfJoin(parts[1..]);
    }
  }

  /** An accepted path has no trailing slash for `rstrip` to remove. */
  lemma NothingToStrip(path: string)
    requires IsRepoPath(path)
    ensures StripSlashes(path) == path
  {
    PathHasSegments(path);
    if path != "." { LastOfJoin(Segments(path)); }
  }

  lemma SlashedPrefixIsProper(upper: seq<string>, lower: seq<string>)
    requires |upper| >= 1 && |lower| >= 1 && AreSegments(upper) && AreSegments(lower)
    ensures StartsWith(Join(lower, SLASH), Join(upper, SLASH) + [SLASH]) <==> upper < lower
  {
    var top, path := Join(upper, SLASH) + [SLASH], Join(lower, SLASH);
    assert forall i :: 0 <= i < |upper| ==> IsSegment(upper[i]);
    assert forall i :: 0 <= i < |lower| ==> IsSegment(lower[i]);
    if upper < lower {
      assert lower == upper + lower[|upper|..];
      JoinAppend(upper, lower[|upper|..]);
    }
    if StartsWith(path, top) {
      var rest := path[|top|..];
      assert path == top + rest;
      SplitPast(upper, rest);
      SplitJoin(lower, SLASH);
    }
  }

  /**
   * The string test is the prefix order on segments, for every pair of accepted paths
   * except under ".": the root is the test's own only member.
   */
  lemma AtOrUnderIsPrefix(path: string, top: string)
    requires IsRepoPath(path) && IsRepoPath(top)
    ensures AtOrUnder(path, top) <==> if top == "." then path == "." else Segments(top) <= Segments(path)
  {
    PathHasSegments(path);
    PathHasSegments(top);
    NothingToStrip(top);
    if top == "." {
      RootHasNothingUnder(path);
    } else if path == "." {
      assert |path| == 1;
    } else {
      SlashedPrefixIsProper(Segments(top), Segments(path));
      assert Segments(top) == Segments(path) ==> top == path;
    }
  }

  lemma RootHasNothingUnder(path: string)
    requires IsRepoPath(path)
    ensures !StartsWith(path, "." + [SLASH])
  {
    if StartsWith(path, "." + [SLASH]) {
      var rest := path[2..];
      assert path == "." + [SLASH] + rest;
      SplitFirst(".", SLASH, rest);
      assert !IsSegment((["."] + Split(rest, SLASH))[0]);
      PathHasSegments(path);
    }
  }

  // ----- The policy -----

  /** The sorted tuples without duplicates, as the sets they list. */
  datatype Policy = Policy(allowed: set<string>, forbidden: set<string>)

  datatype Refusal = AllowedInvalid | AllowedRequired | ForbiddenInvalid | PolicyConflict

  predicate AllRepoPaths(paths: seq<string>) {
    forall p :: p in paths ==> IsRepoPath(p)
  }

  function AllowedRefusals(allowed: seq<string>): set<Refusal> {
    if !AllRepoPaths(allowed) then {AllowedInvalid} else if allowed == [] then {AllowedRequired} else {}
  }

  function ForbiddenRefusals(forbidden: seq<string>): set<Refusal> {
    if !AllRepoPaths(forbidden) then {ForbiddenInvalid} else {}
  }

  /** Field validators first, all of them reported; the disjointness test only on valid fields. */
  function MakePolicy(allowed: seq<string>, forbidden: seq<string>): Result<Policy, set<Refusal>> {
    var refused := AllowedRefusals(allowed) + ForbiddenRefusals(forbidden);
    var p := Policy(set p | p in allowed, set p | p in forbidden);
    if refused != {} then Err(refused)
    else if p.allowed * p.forbidden != {} then Err({PolicyConflict})
    else Ok(p)
  }

  predicate ValidPolicy(p: Policy) {
    && p.allowed != {} && p.allowed !! p.forbidden
    && (forall x :: x in p.allowed ==> IsRepoPath(x))
    && (forall x :: x in p.forbidden ==> IsRepoPath(x))
  }

  /** Construction accepts exactly the valid policies, and drops or invents no path. */
  lemma PolicyIsValidIff(allowed: seq<string>, forbidden: seq<string>)
    ensures var p := Policy(set x | x in allowed, set x | x in forbidden);
            MakePolicy(allowed, forbidden) == Ok(p) <==> ValidPolicy(p)
    ensures MakePolicy(allowed, forbidden).Ok? ==> ValidPolicy(MakePolicy(allowed, forbidden).value)
  {
    var p := Policy(set x | x in allowed, set x | x in forbidden);
    var refused := AllowedRefusals(allowed) + ForbiddenRefusals(forbidden);
    assert allowed != [] ==> allowed[0] in p.allowed;
    assert AllRepoPaths(allowed) <==> forall x :: x in p.allowed ==> IsRepoPath(x);
    assert AllRepoPaths(forbidden) <==> forall x :: x in p.forbidden ==> IsRepoPath(x);
    assert AllowedRefusals(allowed) <= refused && ForbiddenRefusals(forbidden) <= refused;
    assert p.allowed !! p.forbidden <==> p.allowed * p.forbidden == {};
  }

  /** Which refusals are reported: bad or missing paths together, a shared path only when there are none. */
  lemma RefusalsIff(allowed: seq<string>, forbidden: seq<string>)
    ensures var outcome := MakePolicy(allowed, forbidden);
      var refused := if outcome.Err? then outcome.error else {};
      && (AllowedInvalid in refused <==> exists p :: p in allowed && !IsRepoPath(p))
      && (AllowedRequired in refused <==> allowed == [])
      && (ForbiddenInvalid in refused <==> exists p :: p in forbidden && !IsRepoPath(p))
      && (PolicyConflict in refused <==>
            && allowed != [] && (forall p :: p in allowed || p in forbidden ==> IsRepoPath(p))
            && exists p :: p in allowed && p in forbidden)
  {
    var p := Policy(set x | x in allowed, set x | x in forbidden);
    if x :| x in allowed && x in forbidden { assert x in p.allowed * p.forbidden; }
    assert AllowedRefusals(allowed) <= AllowedRefusals(allowed) + ForbiddenRefusals(forbidden);
    assert ForbiddenRefusals(forbidden) <= AllowedRefusals(allowed) + ForbiddenRefusals(forbidden);
  }

  predicate Within(allowed: set<string>, path: string) {
    exists a :: a in allowed && AtOrUnder(path, a)
  }

  predicate Meets(path: string, denied: string) {
    AtOrUnder(path, denied) || StartsWith(denied, StripSlashes(path) + [SLASH])
  }

  predicate Overlaps(forbidden: set<string>, path: string) {
    exists d :: d in forbidden && Meets(path, d)
  }

  /** `allows`; a value that is not a repository path raises instead of being refused. */
  function Allows(p: Policy, value: string): Result<bool, Refusal> {
    if IsRepoPath(value) then Ok(Within(p.allowed, value) && !Overlaps(p.forbidden, value))
    else Err(AllowedInvalid)
  }

  lemma AllowsRaisesIff(p: Policy, value: string)
    ensures Allows(p, value).Err? <==>
      value != "." && exists i :: 0 <= i < |Split(value, SLASH)| && !IsPlainName(Split(value, SLASH)[i])
  {
    RepoPathIff(value);
  }

  /** One place lies at, above or below the other. */
  predicate OneLine(x: seq<string>, y: seq<string>) {
    x <= y || y <= x
  }

  lemma MeetsIsOneLine(path: string, denied: string)
    requires IsRepoPath(path) && IsRepoPath(denied)
    ensures Meets(path, denied) <==>
            (path == denied || (path != "." && denied != "." && OneLine(Segments(path), Segments(denied))))
  {
    AtOrUnderIsPrefix(path, denied);
    AtOrUnderIsPrefix(denied, path);
    NothingToStrip(path);
    PathHasSegments(path);
    PathHasSegments(denied);
  }

  /** Some listed path, "." aside, is at or above the place. */
  ghost predicate Covered(paths: set<string>, place: seq<string>) {
    exists a :: a in paths && a != "." && Segments(a) <= place
  }

  /** No listed path, "." aside, is at, above or below the place. */
  ghost predicate Clear(paths: set<string>, place: seq<string>) {
    forall d :: d in paths && d != "." ==> !OneLine(place, Segments(d))
  }

  lemma WithinIffCovered(allowed: set<string>, path: string)
    requires IsRepoPath(path) && forall a :: a in allowed ==> IsRepoPath(a)
    ensures Within(allowed, path) <==> if path == "." then "." in allowed else Covered(allowed, Segments(path))
  {
    PathHasSegments(path);
    forall a | a in allowed
      ensures AtOrUnder(path, a) <==> if a == "." then path == "." else Segments(a) <= Segments(path)
    {
      AtOrUnderIsPrefix(path, a);
    }
    if path == "." {
      forall a | a in allowed && AtOrUnder(path, a) ensures a == "." { PathHasSegments(a); }
      assert AtOrUnder(".", ".");
    }
  }

  lemma OverlapsIffNotClear(forbidden: set<string>, path: string)
    requires IsRepoPath(path) && forall d :: d in forbidden ==> IsRepoPath(d)
    ensures Overlaps(forbidden, path) <==> if path == "." then "." in forbidden else !Clear(forbidden, Segments(path))
  {
    forall d | d in forbidden
      ensures Meets(path, d) <==>
              (path == d || (path != "." && d != "." && OneLine(Segments(path), Segments(d))))
    {
      MeetsIsOneLine(path, d);
    }
  }

  /** What the answer means for the tree: a place under an allowed one, on no line with a forbidden one. */
  lemma AllowsIff(p: Policy, value: string)
    requires ValidPolicy(p) && IsRepoPath(value)
    ensures Allows(p, value) == Ok(true) <==>
            if value == "." then "." in p.allowed
            else Covered(p.allowed, Segments(value)) && Clear(p.forbidden, Segments(value))
  {
    WithinIffCovered(p.allowed, value);
    OverlapsIffNotClear(p.forbidden, value);
  }

  // ----- Consequences -----

  /** A segment longer than every path of a set. */
  lemma {:induction false} LongSegment(paths: set<string>) returns (s: string)
    ensures |s| > 4 && IsSegment(s) && forall p :: p in paths ==> |p| < |s|
    decreases paths
  {
    if paths == {} {
      s := "xxxxx";
    } else {
      var p :| p in paths;
      s := LongSegment(paths - {p});
      s := s + Repeated(|p|);
      assert forall q :: q in paths ==> q == p || q in paths - {p};
    }
  }

  function Repeated(n: nat): (s: string)
    ensures |s| == n + 1 && forall i :: 0 <= i < |s| ==> s[i] == 'x'
  {
    if n == 0 then "x" else "x" + Repeated(n - 1)
  }

  lemma UnlistedSegment(p: Policy) returns (s: string)
    requires ValidPolicy(p)
    ensures IsRepoPath(s) && Segments(s) == [s] && Allows(p, s) != Ok(true)
  {
    s := LongSegment(p.allowed);
    SegmentsMakePath([s]);
    AllowsIff(p, s);
    forall a | a in p.allowed && a != "." ensures !(Segments(a) <= [s]) {
      PathHasSegments(a);
      assert Segments(a) <= [s] ==> Segments(a) == [s];
    }
  }

  lemma {:induction false} PlacesUnder(p: Policy, v: seq<string>, w: seq<string>)
    requires v <= w && Covered(p.allowed, v) && Clear(p.forbidden, v)
    ensures Covered(p.allowed, w) && Clear(p.forbidden, w)
  {
    forall d | d in p.forbidden && d != "." ensures !OneLine(w, Segments(d)) {
      if OneLine(w, Segments(d)) { PrefixesOfOneAreOneLine(v, Segments(d), w); }
    }
  }

  /** A path answers for everything under it exactly when it is not ".". */
  lemma PermissionReachesDown(p: Policy, value: string)
    requires ValidPolicy(p) && IsRepoPath(value) && Allows(p, value) == Ok(true)
    ensures (forall w :: IsRepoPath(w) && Segments(value) <= Segments(w) ==> Allows(p, w) == Ok(true)) <==> value != "."
  {
    AllowsIff(p, value);
    PathHasSegments(value);
    if value == "." {
      var s := UnlistedSegment(p);
      assert Segments(value) <= Segments(s);
    } else {
      forall w | IsRepoPath(w) && Segments(value) <= Segments(w) ensures Allows(p, w) == Ok(true) {
        PathHasSegments(w);
        AllowsIff(p, w);
        PlacesUnder(p, Segments(value), Segments(w));
      }
    }
  }

  lemma PrefixesOfOneAreOneLine(v: seq<string>, d: seq<string>, w: seq<string>)
    requires v <= w && OneLine(w, d)
    ensures OneLine(v, d)
  {
    if d <= w {
      if |v| <= |d| { assert v == w[..|v|] == d[..|v|]; } else { assert d == w[..|d|] == v[..|d|]; }
    } else {
      assert v == w[..|v|] == d[..|v|];
    }
  }

  /** An allowed path keeps clear of every forbidden one exactly when "." is on neither side. */
  lemma AllowedKeepsClear(p: Policy, value: string)
    requires ValidPolicy(p) && IsRepoPath(value) && Allows(p, value) == Ok(true)
    ensures (forall d :: d in p.forbidden ==> !OneLine(Segments(value), Segments(d))) <==>
            (p.forbidden == {} || (value != "." && "." !in p.forbidden))
  {
    AllowsIff(p, value);
    if value == "." && p.forbidden != {} {
      var d :| d in p.forbidden;
      assert Segments(value) <= Segments(d);
    }
    if "." in p.forbidden {
      assert Segments(".") <= Segments(value);
    }
  }

  /** Forbidding the root forbids nothing under it. */
  lemma ForbiddenRootIsNoShield(file: string)
    requires IsSegment(file)
    ensures MakePolicy([file], ["."]).Ok? && Allows(MakePolicy([file], ["."]).value, file) == Ok(true)
    ensures Segments(".") <= Segments(file)
  {
    SegmentsMakePath([file]);
    SegmentsMakePath([]);
    var p := Policy(set x | x in [file], set x | x in ["."]);
    assert file in p.allowed && p.forbidden == {"."} && p.allowed == {file};
    PolicyIsValidIff([file], ["."]);
    AllowsIff(p, file);
  }
}
