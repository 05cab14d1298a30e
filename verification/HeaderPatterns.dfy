/** What the two patterns of the header reader match: git headers and notices about binary files. */
module HeaderPatterns {
  import opened Wrappers
  import opened OracleGuard

  // ----- git headers ------------------------------------------------------------------

  predicate IsQuote(q: string) {
    q == "" || q == "\""
  }

  /** The last group: the text without a quote at its end, which is never empty. */
  predicate IsGroup(text: string, group: string) {
    && group != ""
    && (text == group + "\"" || (text == group && !(|text| > 1 && text[|text| - 1] == '"')))
  }

  /** Behind the old side: perhaps a quote, a blank, perhaps a quote, and the new side. */
  predicate TailIs(t: string, q: string, r: string, text: string) {
    t == q + (" " + (r + ("b/" + text)))
  }

  ghost predicate TailReads(t: string, new_: string) {
    exists q, r, text :: IsQuote(q) && IsQuote(r) && TailIs(t, q, r, text) && IsGroup(text, new_)
  }

  function WithoutQuote(s: string): string {
    if s != "" && s[0] == '"' then s[1..] else s
  }

  lemma QuoteGoes(q: string, u: string)
    requires IsQuote(q) && u != "" && u[0] != '"'
    ensures WithoutQuote(q + u) == u
  {
    assert (q + u)[|q|..] == u;
  }

  function GroupOf(text: string): Option<string> {
    if text == "" then None
    else if |text| > 1 && text[|text| - 1] == '"' then Some(text[..|text| - 1])
    else Some(text)
  }

  lemma GroupIff(text: string, group: string)
    ensures GroupOf(text) == Some(group) <==> IsGroup(text, group)
  {
    if |text| > 1 && text[|text| - 1] == '"' { assert text == text[..|text| - 1] + "\""; }
    if text == group + "\"" { assert text[..|text| - 1] == group; }
  }

  /** The reader in three steps: a quote, a blank and a quote, and the side with its group. */
  function TextOfTail(t: string): Option<string> {
    var u := WithoutQuote(t);
    if u == "" || u[0] != ' ' then None
    else
      var v := WithoutQuote(u[1..]);
      if "b/" <= v then Some(v[2..]) else None
  }

  lemma GitTailInSteps(t: string)
    ensures GitTail(t) == match TextOfTail(t) case None => None case Some(text) => GroupOf(text)
  {
    var u := WithoutQuote(t);
    if u != "" && u[0] == ' ' {
      var v := WithoutQuote(u[1..]);
      assert v == if |u| > 1 && u[1] == '"' then u[2..] else u[1..];
      if "b/" <= v && |v| > 3 { assert v[2..][..|v| - 3] == v[2..|v| - 1]; }
    }
  }

  lemma TailIsRead(t: string, q: string, r: string, text: string)
    requires IsQuote(q) && IsQuote(r) && TailIs(t, q, r, text)
    ensures TextOfTail(t) == Some(text)
  {
    var v := "b/" + text;
    QuoteGoes(q, " " + (r + v));
    assert (" " + (r + v))[1..] == r + v;
    QuoteGoes(r, v);
    assert v[2..] == text;
  }

  lemma QuoteStands(s: string) returns (q: string)
    ensures IsQuote(q) && s == q + WithoutQuote(s)
  {
    q := if s != "" && s[0] == '"' then "\"" else "";
  }

  lemma BlankFirst(u: string)
    requires u != "" && u[0] == ' '
    ensures u == " " + u[1..]
  {
  }

  lemma ReadTailIs(t: string) returns (q: string, r: string)
    requires TextOfTail(t).Some?
    ensures IsQuote(q) && IsQuote(r) && TailIs(t, q, r, TextOfTail(t).value)
  {
    q := QuoteStands(t);
    var u := WithoutQuote(t);
    var x := u[1..];
    r := QuoteStands(x);
    var v := WithoutQuote(x);
    assert u == " " + x by { BlankFirst(u); }
    assert v == "b/" + v[2..];
  }

  lemma GitTailIff(t: string, new_: string)
    ensures GitTail(t) == Some(new_) <==> TailReads(t, new_)
  {
    GitTailInSteps(t);
    if TextOfTail(t).Some? {
      var q, r := ReadTailIs(t);
      GroupIff(TextOfTail(t).value, new_);
    }
    if TailReads(t, new_) {
      var q, r, text :| IsQuote(q) && IsQuote(r) && TailIs(t, q, r, text) && IsGroup(text, new_);
      TailIsRead(t, q, r, text);
    }
  }

  /** The sides of a git header: the old one is the shortest after which the rest reads as a new one. */
  ghost predicate NamesSides(body: string, old_: string, new_: string) {
    && 1 <= |old_| <= |body| && old_ == body[..|old_|] && TailReads(body[|old_|..], new_)
    && forall k :: 1 <= k < |old_| ==> NoTailAt(body, k)
  }

  ghost predicate NoTailAt(body: string, k: nat)
    requires k <= |body|
  {
    forall new_ :: !TailReads(body[k..], new_)
  }

  lemma NoTailIff(body: string, k: nat)
    requires k <= |body|
    ensures GitTail(body[k..]) == None <==> NoTailAt(body, k)
  {
    forall new_ ensures GitTail(body[k..]) == Some(new_) <==> TailReads(body[k..], new_) {
      GitTailIff(body[k..], new_);
    }
    if GitTail(body[k..]).Some? { assert TailReads(body[k..], GitTail(body[k..]).value); }
  }

  lemma {:induction false} GitGroupsIff(body: string, n: nat, old_: string, new_: string)
    ensures GitGroups(body, n) == Some((old_, new_)) <==>
      && n <= |old_| <= |body| && old_ == body[..|old_|] && GitTail(body[|old_|..]) == Some(new_)
      && forall k :: n <= k < |old_| ==> GitTail(body[k..]) == None
    decreases |body| - n
  {
    if n <= |body| { GitGroupsIff(body, n + 1, old_, new_); }
  }

  lemma GroupsNameSides(body: string, old_: string, new_: string)
    ensures GitGroups(body, 1) == Some((old_, new_)) <==> NamesSides(body, old_, new_)
  {
    GitGroupsIff(body, 1, old_, new_);
    if |old_| <= |body| {
      GitTailIff(body[|old_|..], new_);
      forall k | 1 <= k < |old_| ensures GitTail(body[k..]) == None <==> NoTailAt(body, k) { NoTailIff(body, k); }
    }
  }

  predicate HeadIs(line: string, q: string, body: string) {
    line == GIT + (q + ("a/" + body))
  }

  lemma HeadIsRead(line: string, q: string, body: string)
    requires IsQuote(q) && HeadIs(line, q, body)
    ensures GitHeader(line) == GitGroups(body, 1)
  {
    var rest := q + ("a/" + body);
    assert line[|GIT|..] == rest && rest[|q|..] == "a/" + body && rest[|q| + 2..] == body;
    if q != "" { assert rest[0] == '"'; }
  }

  lemma ReadHeadIs(line: string) returns (q: string, body: string)
    requires GitHeader(line).Some?
    ensures IsQuote(q) && HeadIs(line, q, body)
  {
    var rest := line[|GIT|..];
    assert line == GIT + rest;
    q := if "a/" <= rest then "" else "\"";
    body := rest[|q| + 2..];
    assert rest == q + ("a/" + body);
  }

  /** Which lines are git headers, and the two sides that they name; any other `diff --git` line is malformed. */
  lemma GitHeaderIff(line: string, old_: string, new_: string)
    ensures GitHeader(line) == Some((old_, new_)) <==>
      exists q, body :: IsQuote(q) && HeadIs(line, q, body) && NamesSides(body, old_, new_)
  {
    if GitHeader(line) == Some((old_, new_)) {
      var q, body := ReadHeadIs(line);
      HeadIsRead(line, q, body);
      GroupsNameSides(body, old_, new_);
    }
    if q, body :| IsQuote(q) && HeadIs(line, q, body) && NamesSides(body, old_, new_) {
      HeadIsRead(line, q, body);
      GroupsNameSides(body, old_, new_);
    }
  }

  // ----- notices about binary files ---------------------------------------------------

  /** The notice splits into two sides here. */
  predicate SplitsAt(body: string, x: string, y: string) {
    x != "" && y != "" && body == x + (AND + (y + DIFFER))
  }

  predicate SplitsBehind(body: string, n: nat)
    requires n <= |body|
  {
    var tail := body[n..];
    AND <= tail && |tail| > |AND| + |DIFFER| && EndsWith(tail[|AND|..], DIFFER)
  }

  function Behind(body: string, n: nat): string
    requires n <= |body| && SplitsBehind(body, n)
  {
    var tail := body[n..];
    tail[|AND|..|tail| - |DIFFER|]
  }

  lemma SplitBehind(body: string, n: nat)
    requires 0 < n <= |body| && SplitsBehind(body, n)
    ensures SplitsAt(body, body[..n], Behind(body, n))
  {
    var tail := body[n..];
    assert tail == AND + tail[|AND|..];
    assert tail[|AND|..] == Behind(body, n) + DIFFER;
  }

  lemma SplitIsBehind(body: string, x: string, y: string)
    requires SplitsAt(body, x, y)
    ensures |x| <= |body| && x == body[..|x|] && SplitsBehind(body, |x|) && y == Behind(body, |x|)
  {
    var tail := AND + (y + DIFFER);
    assert body[|x|..] == tail && tail[|AND|..] == y + DIFFER;
  }

  lemma BinaryGroupsStep(body: string, n: nat)
    requires 0 < n <= |body|
    ensures BinaryGroups(body, n) ==
      if SplitsBehind(body, n) then Some((body[..n], Behind(body, n))) else BinaryGroups(body, n - 1)
  {
    var tail := body[n..];
    if AND <= tail {
      assert body[n + |AND|..] == tail[|AND|..];
      if |tail| >= |AND| + |DIFFER| {
        assert tail[|AND|..][..|tail| - |AND| - |DIFFER|] == tail[|AND|..|tail| - |DIFFER|];
      }
    }
  }

  ghost predicate NoLongerSplit(body: string, x: string, n: nat) {
    forall a, b :: SplitsAt(body, a, b) && |a| <= n ==> |a| <= |x|
  }

  ghost predicate IsLongestSplit(body: string, n: nat, x: string, y: string) {
    |x| <= n && SplitsAt(body, x, y) && NoLongerSplit(body, x, n)
  }

  lemma LongestIsHere(body: string, n: nat, x: string, y: string)
    requires 0 < n <= |body| && SplitsBehind(body, n)
    ensures IsLongestSplit(body, n, x, y) <==> x == body[..n] && y == Behind(body, n)
  {
    SplitBehind(body, n);
    if IsLongestSplit(body, n, x, y) { SplitIsBehind(body, x, y); }
  }

  lemma LongestIsBefore(body: string, n: nat, x: string, y: string)
    requires 0 < n <= |body| && !SplitsBehind(body, n)
    ensures IsLongestSplit(body, n, x, y) <==> IsLongestSplit(body, n - 1, x, y)
  {
    forall a, b | SplitsAt(body, a, b) ensures |a| != n { SplitIsBehind(body, a, b); }
  }

  lemma {:induction false} BinaryGroupsIff(body: string, n: nat, x: string, y: string)
    requires n <= |body|
    ensures BinaryGroups(body, n) == Some((x, y)) <==> IsLongestSplit(body, n, x, y)
  {
    if n > 0 {
      BinaryGroupsStep(body, n);
      if SplitsBehind(body, n) {
        LongestIsHere(body, n, x, y);
      } else {
        BinaryGroupsIff(body, n - 1, x, y);
        LongestIsBefore(body, n, x, y);
      }
    }
  }

  /** Which lines are notices, and their sides: the old one as long as possible, and neither empty. */
  lemma BinaryHeaderIff(line: string, x: string, y: string)
    ensures BinaryHeader(line) == Some((x, y)) <==>
      BINARY <= line && SplitsAt(line[|BINARY|..], x, y) && NoLongerSplit(line[|BINARY|..], x, |line|)
  {
    if BINARY <= line {
      var body := line[|BINARY|..];
      BinaryGroupsIff(body, |body|, x, y);
      forall a, b | SplitsAt(body, a, b) ensures |a| <= |body| { SplitIsBehind(body, a, b); }
    }
  }

  // ----- what follows for a patch -----------------------------------------------------

  ghost predicate IsGitHeader(line: string, old_: string, new_: string) {
    exists q, body :: IsQuote(q) && HeadIs(line, q, body) && NamesSides(body, old_, new_)
  }

  /** A git header without escapes, quoted or not, gives the sides that it names. */
  lemma GitHeaderReports(lines: seq<string>, i: nat, old_: string, new_: string)
    requires i < |lines| && IsGitHeader(lines[i], old_, new_) && ('"' !in lines[i] || '\\' !in lines[i])
    ensures ReadLine(lines, i) == Reading([old_, new_], false)
  {
    GitHeaderIff(lines[i], old_, new_);
  }

  lemma NoGitHeaderIff(line: string)
    ensures GitHeader(line) == None <==> forall old_, new_ :: !IsGitHeader(line, old_, new_)
  {
    forall old_, new_ ensures GitHeader(line) == Some((old_, new_)) <==> IsGitHeader(line, old_, new_) {
      GitHeaderIff(line, old_, new_);
    }
    if GitHeader(line).Some? { assert IsGitHeader(line, GitHeader(line).value.0, GitHeader(line).value.1); }
  }

  lemma NoticeSplits(line: string)
    requires BINARY <= line && BinaryHeader(line).Some?
    ensures exists x, y :: SplitsAt(line[|BINARY|..], x, y)
  {
    BinaryHeaderIff(line, BinaryHeader(line).value.0, BinaryHeader(line).value.1);
  }

  /** A `diff --git` line that names no two sides, and a notice that does not split, reject the patch. */
  lemma UnreadableHeaderRejects(lines: seq<string>, i: nat)
    requires i < |lines|
    requires || (GIT <= lines[i] && forall old_, new_ :: !IsGitHeader(lines[i], old_, new_))
             || (BINARY <= lines[i] && forall x, y :: !SplitsAt(lines[i][|BINARY|..], x, y))
    ensures !Acceptable(lines)
  {
    var line := lines[i];
    NoGitHeaderIff(line);
    if BINARY <= line {
      assert line[0] == 'B' && GIT[0] == 'd' && OLD[0] == '-' && NEW[0] == '+';
      assert "rename from "[0] == 'r' && "rename to "[0] == 'r' && "copy from "[0] == 'c' && "copy to "[0] == 'c';
      assert RenameTarget(line) == None;
      if BinaryHeader(line).Some? { NoticeSplits(line); }
    }
    assert ReadLine(lines, i).malformed;
  }
}
