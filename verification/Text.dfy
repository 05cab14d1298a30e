/** The string operations of Python that several components lean on. */
module Text {
  /** Python's `str.isspace` characters. */
  predicate IsSpace(c: char) {
    c in {'\t', '\n', '\r', ' ', '\U{0B}', '\U{0C}', '\U{1C}', '\U{1D}', '\U{1E}', '\U{1F}', '\U{85}', '\U{A0}',
          '\U{1680}', '\U{2028}', '\U{2029}', '\U{202F}', '\U{205F}', '\U{3000}'} || '\U{2000}' <= c <= '\U{200A}'
  }

  /** The same by code point. */
  lemma SpaceIff(c: char)
    ensures var n := c as int;
      IsSpace(c) <==> 9 <= n <= 13 || 28 <= n <= 32 || n in {133, 160, 5760} || 8192 <= n <= 8202
                      || n in {8232, 8233, 8239, 8287, 12288}
  {
  }

  /** `s.split(sep)` for a one-character separator. */
  function Split(s: string, sep: char): (parts: seq<string>)
    ensures |parts| >= 1
    ensures forall i :: 0 <= i < |parts| ==> sep !in parts[i]
  {
    if s == "" then [""]
    else
      var rest := Split(s[1..], sep);
      if s[0] == sep then [""] + rest else [[s[0]] + rest[0]] + rest[1..]
  }

  /** `sep.join(parts)`. */
  function Join(parts: seq<string>, sep: char): string
    requires |parts| >= 1
  {
    if |parts| == 1 then parts[0] else parts[0] + [sep] + Join(parts[1..], sep)
  }

  lemma {:induction false} SplitWhole(a: string, sep: char)
    requires sep !in a
    ensures Split(a, sep) == [a]
  {
    if a != "" {
      SplitWhole(a[1..], sep);
      assert [a[0]] + a[1..] == a;
    }
  }

  lemma ReplaceFirst(first: string, front: seq<string>, back: seq<string>)
    requires front != []
    ensures [first] + (front + back)[1..] == [first] + front[1..] + back && (front + back)[0] == front[0]
    ensures [first] + (front + back) == [first] + front + back
  {
  }

  /** A separator anywhere splits what stands before it and what stands behind it. */
  lemma {:induction false} SplitAppend(a: string, sep: char, b: string)
    ensures Split(a + [sep] + b, sep) == Split(a, sep) + Split(b, sep)
  {
    var s := a + [sep] + b;
    if a == "" {
      assert s[1..] == b;
    } else {
      var front, back := Split(a[1..], sep), Split(b, sep);
      SplitAppend(a[1..], sep, b);
      assert s[0] == a[0] && s[1..] == a[1..] + [sep] + b;
      ReplaceFirst(if a[0] == sep then "" else [a[0]] + front[0], front, back);
    }
  }

  /** The first separator ends the first part. */
  lemma SplitFirst(a: string, sep: char, b: string)
    requires sep !in a
    ensures Split(a + [sep] + b, sep) == [a] + Split(b, sep)
  {
    SplitAppend(a, sep, b);
    SplitWhole(a, sep);
  }

  /** Splitting undoes joining. */
  lemma {:induction false} SplitJoin(parts: seq<string>, sep: char)
    requires |parts| >= 1 && forall i :: 0 <= i < |parts| ==> sep !in parts[i]
    ensures Split(Join(parts, sep), sep) == parts
  {
    if |parts| == 1 {
      SplitWhole(parts[0], sep);
    } else {
      SplitFirst(parts[0], sep, Join(parts[1..], sep));
      SplitJoin(parts[1..], sep);
      assert parts == [parts[0]] + parts[1..];
    }
  }

  /** Joining undoes splitting. */
  lemma {:induction false} JoinSplit(s: string, sep: char)
    ensures Join(Split(s, sep), sep) == s
  {
    if s != "" {
      var rest := Split(s[1..], sep);
      JoinSplit(s[1..], sep);
      if s[0] == sep {
        assert ([""] + rest)[1..] == rest;
      } else {
        var parts := [[s[0]] + rest[0]] + rest[1..];
        assert parts[1..] == rest[1..];
      }
    }
  }

  /** `s.partition(c)`: the text before and after the first `c`. */
  function CutAt(s: string, c: char): (string, string) {
    if s == "" then ("", "")
    else if s[0] == c then ("", s[1..])
    else var (head, tail) := CutAt(s[1..], c); ([s[0]] + head, tail)
  }

  lemma {:induction false} CutAtFirst(a: string, c: char, b: string)
    requires c !in a
    ensures CutAt(a + [c] + b, c) == (a, b)
  {
    var s := a + [c] + b;
    if a == "" {
      assert s[1..] == b;
    } else {
      CutAtFirst(a[1..], c, b);
      assert s[1..] == a[1..] + [c] + b;
      assert [a[0]] + a[1..] == a;
    }
  }

  lemma {:induction false} CutAtNone(a: string, c: char)
    requires c !in a
    ensures CutAt(a, c) == (a, "")
  {
    if a != "" {
      CutAtNone(a[1..], c);
      assert [a[0]] + a[1..] == a;
    }
  }

  lemma {:induction false} CutAtPrefix(s: string, c: char)
    ensures CutAt(s, c).0 <= s
  {
    if s != "" { CutAtPrefix(s[1..], c); }
  }

  ghost predicate IsToken(t: string) {
    t != "" && forall i :: 0 <= i < |t| ==> !IsSpace(t[i])
  }

  /** The longest prefix without white space. */
  function Word(s: string): (w: string)
    ensures |w| <= |s| && w == s[..|w|]
  {
    if s == "" || IsSpace(s[0]) then "" else [s[0]] + Word(s[1..])
  }

  /** `s.split()`: the maximal runs without white space. */
  function Fields(s: string): seq<string>
    decreases |s|
  {
    if s == "" then []
    else if IsSpace(s[0]) then Fields(s[1..])
    else [Word(s)] + Fields(s[|Word(s)|..])
  }

  lemma {:induction false} WordStops(t: string, rest: string)
    requires forall i :: 0 <= i < |t| ==> !IsSpace(t[i])
    requires rest == "" || IsSpace(rest[0])
    ensures Word(t + rest) == t
  {
    if t == "" {
      assert t + rest == rest;
    } else {
      WordStops(t[1..], rest);
      assert (t + rest)[1..] == t[1..] + rest;
      assert [t[0]] + t[1..] == t;
    }
  }

  /** A token and then white space or the end. */
  lemma FieldsFirst(t: string, rest: string)
    requires IsToken(t) && (rest == "" || IsSpace(rest[0]))
    ensures Fields(t + rest) == [t] + Fields(rest)
  {
    WordStops(t, rest);
    assert (t + rest)[0] == t[0] && (t + rest)[|t|..] == rest;
  }

  /** `s.strip()`. */
  function Strip(s: string): string {
    StripRight(StripLeft(s))
  }

  function StripLeft(s: string): string {
    if s != "" && IsSpace(s[0]) then StripLeft(s[1..]) else s
  }

  function StripRight(s: string): string {
    if s != "" && IsSpace(s[|s| - 1]) then StripRight(s[..|s| - 1]) else s
  }

  ghost predicate AllSpace(s: string) {
    forall i :: 0 <= i < |s| ==> IsSpace(s[i])
  }

  lemma {:induction false} StripLeftDrops(a: string, t: string)
    requires AllSpace(a) && t != "" && !IsSpace(t[0])
    ensures StripLeft(a + t) == t
  {
    if a == "" {
      assert a + t == t;
    } else {
      StripLeftDrops(a[1..], t);
      assert (a + t)[1..] == a[1..] + t;
    }
  }

  lemma {:induction false} StripRightDrops(t: string, b: string)
    requires AllSpace(b) && t != "" && !IsSpace(t[|t| - 1])
    ensures StripRight(t + b) == t
  {
    if b == "" {
      assert t + b == t;
    } else {
      StripRightDrops(t, b[..|b| - 1]);
      assert (t + b)[..|t + b| - 1] == t + b[..|b| - 1];
    }
  }

  lemma {:induction false} StripBlank(s: string)
    requires AllSpace(s)
    ensures Strip(s) == ""
  {
    if s != "" { StripBlank(s[1..]); }
  }

  /** White space at both ends goes, what is between them stays. */
  lemma StripDrops(a: string, t: string, b: string)
    requires AllSpace(a) && AllSpace(b) && t != "" && !IsSpace(t[0]) && !IsSpace(t[|t| - 1])
    ensures Strip(a + t + b) == t
  {
    assert a + t + b == a + (t + b);
    StripLeftDrops(a, t + b);
    StripRightDrops(t, b);
  }

  /** All the parts, one after the other. */
  function Flatten<T>(parts: seq<seq<T>>): seq<T> {
    if parts == [] then [] else parts[0] + Flatten(parts[1..])
  }

  /** Each part is found whole in the flattened sequence. */
  lemma {:induction false} FlattenHolds<T>(parts: seq<seq<T>>, j: nat) returns (before: seq<T>, after: seq<T>)
    requires j < |parts|
    ensures Flatten(parts) == before + parts[j] + after
  {
    if j == 0 {
      before, after := [], Flatten(parts[1..]);
    } else {
      before, after := FlattenHolds(parts[1..], j - 1);
      assert parts[0] + (before + parts[j] + after) == (parts[0] + before) + parts[j] + after;
      before := parts[0] + before;
    }
  }

  /** Every place in the flattened sequence is a place in one of its parts. */
  lemma {:induction false} FlattenLocate<T>(parts: seq<seq<T>>, i: nat) returns (j: nat, at: nat)
    requires i < |Flatten(parts)|
    ensures j < |parts| && at <= i < at + |parts[j]| && at + |parts[j]| <= |Flatten(parts)|
    ensures Flatten(parts)[at..at + |parts[j]|] == parts[j]
  {
    if i < |parts[0]| {
      j, at := 0, 0;
    } else {
      var rest := Flatten(parts[1..]);
      j, at := FlattenLocate(parts[1..], i - |parts[0]|);
      assert (parts[0] + rest)[|parts[0]| + at..|parts[0]| + at + |parts[1..][j]|] == rest[at..at + |parts[1..][j]|];
      j, at := j + 1, |parts[0]| + at;
    }
  }

  lemma {:induction false} FlattenMember<T>(parts: seq<seq<T>>, x: T) returns (j: nat)
    requires x in Flatten(parts)
    ensures j < |parts| && x in parts[j]
  {
    if x in parts[0] {
      j := 0;
    } else {
      j := FlattenMember(parts[1..], x);
      j := j + 1;
    }
  }
}
