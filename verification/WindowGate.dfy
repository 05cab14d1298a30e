/** The sliding-window gate over a run's rounds (Autoresearch/formal_research_hardening.py). */
module WindowGate {
  import opened Rounding
  import opened Wrappers

  // ----- Percentages -----

  /** `_pct` in hundredths of a percent, on the exact quotient. */
  function Pct(n: int, d: int): int {
    if d <= 0 then 0 else RoundHalfEven(10000 * n, d)
  }

  lemma PctIsMonotone(a: int, b: int, d: int)
    requires a <= b
    ensures Pct(a, d) <= Pct(b, d)
  {
    if d > 0 { RoundingIsMonotone(10000 * a, 10000 * b, d); }
  }

  /** A rate is reached exactly when the quotient is at most half a step short of it, or less than that if odd. */
  lemma PctReachesIff(n: int, d: int, rate: int)
    requires d > 0
    ensures Pct(n, d) >= rate <==>
      if rate % 2 == 0 then 20000 * n >= 2 * (rate * d) - d else 20000 * n > 2 * (rate * d) - d
  {
    var x := RoundHalfEven(10000 * n, d);
    RoundHalfEvenIsNear(10000 * n, d);
    TimesOrder(x, rate, d);
    TimesOrder(rate, x, d);
    ReachesIff(x, rate, x * d, rate * d, 20000 * n, d);
  }

  /** The argument on the products alone: half a step short rounds up to an even rate and down from an odd one. */
  lemma ReachesIff(x: int, rate: int, xd: int, rateD: int, n: int, d: int)
    requires d > 0 && n - d <= 2 * xd <= n + d
    requires 2 * xd == n - d || 2 * xd == n + d ==> x % 2 == 0
    requires x >= rate ==> xd >= rateD
    requires x >= rate + 1 ==> xd >= rateD + d
    requires x <= rate - 1 ==> xd <= rateD - d
    requires x <= rate - 2 ==> xd <= rateD - 2 * d
    ensures x >= rate <==> if rate % 2 == 0 then n >= 2 * rateD - d else n > 2 * rateD - d
  {
  }

  // ----- The gate -----

  /** Percentages and ratios are in hundredths of a percent. */
  datatype Thresholds = Thresholds(
    checkMin: int, proofMin: int, freezeMax: int, minPatches: int,
    window: int, required: int, passRateMin: int, warmup: int)

  const DEFAULTS := Thresholds(7000, 9500, 2000, 10, 20, 3, 8000, 30)

  /** `verdict` stands for the two keys that `analyze` sets alike. */
  datatype Row = Row(
    checks: bool, generated: int, proofPassed: int, frozen: bool,
    proofRatio: int, freezeRatio: int,
    bucket: Option<string>, reason: Option<string>, mode: Option<string>, verdict: Option<bool>)

  datatype Sums = Sums(checks: nat, generated: int, proofPassed: int, frozen: nat)

  function SumsOf(rows: seq<Row>): Sums {
    if rows == [] then Sums(0, 0, 0, 0)
    else
      var s, r := SumsOf(rows[1..]), rows[0];
      Sums(s.checks + (if r.checks then 1 else 0), s.generated + r.generated,
           s.proofPassed + r.proofPassed, s.frozen + (if r.frozen then 1 else 0))
  }

  datatype Metrics = Metrics(checkRatio: int, proofRatio: int, freezeRatio: int, generated: int, enough: bool,
    passed: bool)

  /** `_evaluate_gate`. */
  function EvaluateGate(rows: seq<Row>, t: Thresholds): Metrics {
    var s := SumsOf(rows);
    var check, proof, freeze := Pct(s.checks, |rows|), Pct(s.proofPassed, s.generated), Pct(s.frozen, |rows|);
    var enough := s.generated >= t.minPatches;
    Metrics(check, proof, freeze, s.generated, enough,
            enough && check >= t.checkMin && proof >= t.proofMin && freeze < t.freezeMax)
  }

  lemma SumsOfNone()
    ensures SumsOf([]) == Sums(0, 0, 0, 0)
  {
  }

  lemma {:induction false} SumsOfAppend(a: seq<Row>, b: seq<Row>)
    ensures var x, y, z := SumsOf(a), SumsOf(b), SumsOf(a + b);
            z == Sums(x.checks + y.checks, x.generated + y.generated, x.proofPassed + y.proofPassed,
              x.frozen + y.frozen)
  {
    if a == [] {
      assert a + b == b;
    } else {
      SumsOfAppend(a[1..], b);
      assert (a + b)[1..] == a[1..] + b;
    }
  }

  /** What one more row adds: its patches, and one for a check that ran and for frozen learning. */
  lemma SumsOfOneMore(rows: seq<Row>, row: Row)
    ensures var s, more := SumsOf(rows), SumsOf(rows + [row]);
      && more.checks == (if row.checks then s.checks + 1 else s.checks)
      && more.frozen == (if row.frozen then s.frozen + 1 else s.frozen)
      && more.generated == s.generated + row.generated && more.proofPassed == s.proofPassed + row.proofPassed
  {
    SumsOfAppend(rows, [row]);
    assert [row][1..] == [];
  }

  /** At least `rate` hundredths of a percent of `d`, to the nearest step and ties to the even one. */
  ghost predicate Reaches(n: int, d: int, rate: int) {
    if d <= 0 then rate <= 0
    else if rate % 2 == 0 then 20000 * n >= 2 * (rate * d) - d else 20000 * n > 2 * (rate * d) - d
  }

  /** When the gate passes, on the counts and without rounding. */
  lemma GatePassesIff(rows: seq<Row>, t: Thresholds)
    ensures var s := SumsOf(rows);
      EvaluateGate(rows, t).passed <==>
        && s.generated >= t.minPatches
        && Reaches(s.checks, |rows|, t.checkMin)
        && Reaches(s.proofPassed, s.generated, t.proofMin)
        && !Reaches(s.frozen, |rows|, t.freezeMax)
  {
    var s := SumsOf(rows);
    if rows != [] {
      PctReachesIff(s.checks, |rows|, t.checkMin);
      PctReachesIff(s.frozen, |rows|, t.freezeMax);
    }
    if s.generated > 0 { PctReachesIff(s.proofPassed, s.generated, t.proofMin); }
  }

  /** The default gate: ten patches, checks in 70 % of the rounds, proofs for 95 %, learning frozen in under 20 %. */
  lemma DefaultGateIff(rows: seq<Row>)
    ensures var s, n := SumsOf(rows), |rows|;
      EvaluateGate(rows, DEFAULTS).passed <==>
        && s.generated >= 10
        && 20000 * s.checks >= 13999 * n
        && 20000 * s.proofPassed >= 18999 * s.generated
        && 20000 * s.frozen < 3999 * n
  {
    GatePassesIff(rows, DEFAULTS);
    if rows == [] { SumsOfNone(); }
  }

  function FailBucket(row: Row, t: Thresholds): string {
    if row.bucket.Some? && row.bucket.value != "none" then row.bucket.value
    else
      var proofFail, freezeFail := row.proofRatio < t.proofMin, row.freezeRatio > t.freezeMax;
      if proofFail && freezeFail then "both_fail"
      else if proofFail then "proof_fail"
      else if freezeFail then "freeze_fail"
      else "none"
  }

  /** A bucket that the row brings is kept; otherwise the bucket names the ratios that miss their limits. */
  lemma BucketNames(row: Row, t: Thresholds)
    ensures row.bucket.Some? && row.bucket.value != "none" ==> Some(FailBucket(row, t)) == row.bucket
    ensures row.bucket in {None, Some("none")} ==>
      && (FailBucket(row, t) in {"both_fail", "proof_fail"} <==> row.proofRatio < t.proofMin)
      && (FailBucket(row, t) in {"both_fail", "freeze_fail"} <==> row.freezeRatio > t.freezeMax)
      && FailBucket(row, t) in {"both_fail", "proof_fail", "freeze_fail", "none"}
  {
    assert |"none"| == 4 && |"both_fail"| == 9 && |"proof_fail"| == 10 && |"freeze_fail"| == 11;
  }

  /**
   * With enough patches and checks, the bucket of a row that carries the gate's own ratios
   * names a failure exactly when the gate fails, unless the freeze ratio is right at its limit.
   */
  lemma BucketAgreesIff(rows: seq<Row>, row: Row, t: Thresholds)
    requires var m := EvaluateGate(rows, t);
             && m.enough && m.checkRatio >= t.checkMin && row.bucket == None
             && row.proofRatio == m.proofRatio && row.freezeRatio == m.freezeRatio
    ensures (FailBucket(row, t) == "none" <==> EvaluateGate(rows, t).passed)
            <==> (row.freezeRatio != t.freezeMax || row.proofRatio < t.proofMin)
  {
    assert |"none"| == 4 && |"both_fail"| == 9 && |"proof_fail"| == 10 && |"freeze_fail"| == 11;
  }

  // ----- Windows and histories -----

  /** The rows of the window that ends with the last row. */
  function LastWindow(rows: seq<Row>, size: int): seq<Row> {
    if size <= 0 then [] else if size >= |rows| then rows else rows[|rows| - size..]
  }

  function GatePasses(rows: seq<Row>, t: Thresholds): bool {
    EvaluateGate(LastWindow(rows, t.window), t).passed
  }

  /** One verdict per row, that of the window ending there. */
  function History(rows: seq<Row>, t: Thresholds): (h: seq<bool>)
    ensures |h| == |rows|
  {
    if rows == [] then [] else History(rows[..|rows| - 1], t) + [GatePasses(rows, t)]
  }

  lemma {:induction false} HistoryAt(rows: seq<Row>, t: Thresholds, i: nat)
    requires i < |rows|
    ensures History(rows, t)[i] == GatePasses(rows[..i + 1], t)
  {
    if i == |rows| - 1 {
      assert rows[..i + 1] == rows;
    } else {
      HistoryAt(rows[..|rows| - 1], t, i);
      assert rows[..|rows| - 1][..i + 1] == rows[..i + 1];
    }
  }

  /** The verdict of a round, with the defaults: the gate over that round and the up to 19 before it. */
  lemma VerdictIff(rows: seq<Row>, i: nat)
    requires i < |rows|
    ensures var from := if i < 19 then 0 else i - 19; var window := rows[from..i + 1]; var s := SumsOf(window);
      History(rows, DEFAULTS)[i] <==>
        && s.generated >= 10
        && 20000 * s.checks >= 13999 * |window|
        && 20000 * s.proofPassed >= 18999 * s.generated
        && 20000 * s.frozen < 3999 * |window|
  {
    var from := if i < 19 then 0 else i - 19;
    HistoryAt(rows, DEFAULTS, i);
    assert LastWindow(rows[..i + 1], 20) == rows[from..i + 1];
    DefaultGateIff(rows[from..i + 1]);
  }

  function Count(h: seq<bool>): (c: nat)
    ensures c <= |h|
  {
    if h == [] then 0 else Count(h[..|h| - 1]) + (if h[|h| - 1] then 1 else 0)
  }

  /** The count is that of the places that hold. */
  lemma {:induction false} CountIsCardinality(h: seq<bool>)
    ensures Count(h) == |set i | 0 <= i < |h| && h[i]|
  {
    var places := set i | 0 <= i < |h| && h[i];
    if h == [] {
      assert places == {};
    } else {
      var front := h[..|h| - 1];
      CountIsCardinality(front);
      var before := set i | 0 <= i < |front| && front[i];
      if h[|h| - 1] { assert places == before + {|h| - 1}; } else { assert places == before; }
    }
  }

  /** `n` passing windows in a row from the `i`-th on. */
  predicate PassesFrom(h: seq<bool>, i: int, n: int) {
    0 <= i <= i + n <= |h| && forall k :: i <= k < i + n ==> h[k]
  }

  ghost predicate HasRun(h: seq<bool>, r: int) {
    r <= 0 || exists i :: PassesFrom(h, i, r)
  }

  /** `m` is the length of the longest block of passing windows. */
  ghost predicate IsLongestRun(h: seq<bool>, m: nat) {
    (exists i :: PassesFrom(h, i, m)) && (forall i, n :: PassesFrom(h, i, n) ==> n <= m)
  }

  /** A run of `r` exists exactly when the longest one is that long. */
  lemma HasRunIff(h: seq<bool>, m: nat, r: int)
    requires IsLongestRun(h, m)
    ensures r <= m <==> HasRun(h, r)
  {
    var i :| PassesFrom(h, i, m);
    if 0 < r <= m { assert PassesFrom(h, i, r); }
  }

  // ----- The pigeonhole -----

  lemma {:induction false} CountOfAppend(a: seq<bool>, b: seq<bool>)
    ensures Count(a + b) == Count(a) + Count(b)
  {
    if b == [] {
      assert a + b == a;
    } else {
      CountOfAppend(a, b[..|b| - 1]);
      assert (a + b)[..|a + b| - 1] == a + b[..|b| - 1];
    }
  }

  lemma {:induction false} FailureIsNotCounted(h: seq<bool>, k: nat)
    requires k < |h| && !h[k]
    ensures Count(h) < |h|
  {
    if k < |h| - 1 { FailureIsNotCounted(h[..|h| - 1], k); }
  }

  /** The disjoint blocks of `r` that fit in `n`. */
  function Blocks(n: nat, r: nat): (q: nat)
    requires r >= 1
    ensures q * r <= n < q * r + r
  {
    if n < r then 0 else
      var q := Blocks(n - r, r);
      assert (q + 1) * r == q * r + r;
      q + 1
  }

  /** Without a run of `r`, each disjoint block of `r` windows holds a failure. */
  lemma {:induction false} NoRunBoundsCount(h: seq<bool>, r: nat)
    requires r >= 1 && !HasRun(h, r)
    ensures Count(h) <= |h| - Blocks(|h|, r)
  {
    if |h| >= r {
      var cut := |h| - r;
      var front, block := h[..cut], h[cut..];
      assert h == front + block;
      assert !PassesFrom(h, cut, r);
      var k :| cut <= k < |h| && !h[k];
      FailureIsNotCounted(block, k - cut);
      assert forall i :: PassesFrom(front, i, r) ==> PassesFrom(h, i, r);
      NoRunBoundsCount(front, r);
      CountOfAppend(front, block);
    }
  }

  function Passing(n: nat): (h: seq<bool>)
    ensures |h| == n && Count(h) == n && forall i :: 0 <= i < n ==> h[i]
  {
    if n == 0 then []
    else
      var h := Passing(n - 1) + [true];
      assert h[..|h| - 1] == Passing(n - 1);
      h
  }

  /** Every `r`-th window fails. */
  function Sparse(n: nat, r: nat): (h: seq<bool>)
    requires r >= 1
    ensures |h| == n
  {
    if n < r then Passing(n) else Passing(r - 1) + [false] + Sparse(n - r, r)
  }

  lemma {:induction false} SparseCount(n: nat, r: nat)
    requires r >= 1
    ensures Count(Sparse(n, r)) == n - Blocks(n, r)
  {
    if n >= r {
      SparseCount(n - r, r);
      CountOfAppend(Passing(r - 1) + [false], Sparse(n - r, r));
      CountOfAppend(Passing(r - 1), [false]);
      assert Count([false]) == 0;
    }
  }

  lemma {:induction false} SparseHasNoRun(n: nat, r: nat, i: int)
    requires r >= 1
    ensures !PassesFrom(Sparse(n, r), i, r)
  {
    if n >= r {
      var h, rest := Sparse(n, r), Sparse(n - r, r);
      SparseHasNoRun(n - r, r, i - r);
      assert !h[r - 1];
      assert forall k :: 0 <= k < |rest| ==> rest[k] == h[k + r];
    }
  }

  function PassRate(h: seq<bool>): int {
    Pct(Count(h), |h|)
  }

  /** Among all histories of a length, the rate test forces the run exactly when the sparsest one misses the rate. */
  lemma RateForcesRunIff(n: nat, r: nat, rate: int)
    requires r >= 1
    ensures (forall h :: |h| == n && PassRate(h) >= rate ==> HasRun(h, r)) <==> Pct(n - Blocks(n, r), n) < rate
  {
    var most := n - Blocks(n, r);
    if Pct(most, n) < rate {
      forall h: seq<bool> | |h| == n && PassRate(h) >= rate ensures HasRun(h, r) {
        if !HasRun(h, r) {
          NoRunBoundsCount(h, r);
          PctIsMonotone(Count(h), most, n);
        }
      }
    } else {
      SparseCount(n, r);
      forall i ensures !PassesFrom(Sparse(n, r), i, r) { SparseHasNoRun(n, r, i); }
      assert PassRate(Sparse(n, r)) >= rate && !HasRun(Sparse(n, r), r);
    }
  }

  // ----- `analyze` -----

  datatype Report = Report(
    rows: seq<Row>, converged: bool, passRate: int, longest: nat,
    buckets: multiset<string>, reasons: multiset<string>)

  predicate SameRound(a: Row, b: Row) {
    a.checks == b.checks && a.generated == b.generated && a.proofPassed == b.proofPassed && a.frozen == b.frozen
  }

  function EvaluateRow(row: Row, number: nat, pass: bool, t: Thresholds): Row {
    row.(verdict := Some(pass), bucket := Some(FailBucket(row, t)),
         mode := Some(
           if number <= t.warmup then "conservative" else if row.mode.Some? then row.mode.value else "explore"))
  }

  /** Every row of the report is the source row with its own verdict, bucket and mode. */
  ghost predicate Evaluates(result: seq<Row>, rows: seq<Row>, verdicts: seq<bool>, t: Thresholds) {
    && |result| == |rows| == |verdicts|
    && forall i :: 0 <= i < |rows| ==> result[i] == EvaluateRow(rows[i], i + 1, verdicts[i], t)
  }

  /** What a row of the report says beside its bucket; the first 30 rounds are conservative by default. */
  lemma ReportedRow(result: seq<Row>, rows: seq<Row>, verdicts: seq<bool>, t: Thresholds, i: nat)
    requires Evaluates(result, rows, verdicts, t) && i < |rows|
    ensures result[i].verdict == Some(verdicts[i]) && SameRound(result[i], rows[i])
    ensures result[i].bucket == Some(FailBucket(rows[i], t)) && result[i].reason == rows[i].reason
    ensures result[i].proofRatio == rows[i].proofRatio && result[i].freezeRatio == rows[i].freezeRatio
    ensures i < t.warmup ==> result[i].mode == Some("conservative")
    ensures i >= t.warmup ==> result[i].mode == if rows[i].mode == None then Some("explore") else rows[i].mode
    ensures DEFAULTS.warmup == 30
  {
  }

  /** The buckets that `fail_buckets` counts, in order. */
  function Failures(rows: seq<Row>, t: Thresholds): seq<string> {
    if rows == [] then []
    else
      var bucket := FailBucket(rows[|rows| - 1], t);
      Failures(rows[..|rows| - 1], t) + (if bucket == "none" then [] else [bucket])
  }

  /** `row.get("fail_fast_reason", bucket)`. */
  function ReasonOf(row: Row, t: Thresholds): string {
    if row.reason.Some? then row.reason.value else FailBucket(row, t)
  }

  function Reasons(rows: seq<Row>, t: Thresholds): (s: seq<string>)
    ensures |s| == |Failures(rows, t)|
  {
    if rows == [] then []
    else
      var row := rows[|rows| - 1];
      Reasons(rows[..|rows| - 1], t) + (if FailBucket(row, t) == "none" then [] else [ReasonOf(row, t)])
  }

  /** Each failing row is counted once under its bucket. */
  lemma {:induction false} BucketIsCounted(rows: seq<Row>, t: Thresholds, bucket: string, h: seq<bool>)
    requires bucket != "none" && |h| == |rows|
    requires forall i :: 0 <= i < |rows| ==> (h[i] <==> FailBucket(rows[i], t) == bucket)
    ensures multiset(Failures(rows, t))[bucket] == Count(h) && multiset(Failures(rows, t))["none"] == 0
  {
    if rows != [] {
      var n := |rows| - 1;
      BucketIsCounted(rows[..n], t, bucket, h[..n]);
    }
  }

  /** A failing row is counted under the reason that it gives, or else under its bucket. */
  ghost predicate GivesReason(row: Row, t: Thresholds, reason: string) {
    FailBucket(row, t) != "none" &&
      (row.reason == Some(reason) || (row.reason == None && FailBucket(row, t) == reason))
  }

  lemma ReasonIsGiven(row: Row, t: Thresholds, reason: string)
    ensures GivesReason(row, t, reason) <==> FailBucket(row, t) != "none" && ReasonOf(row, t) == reason
  {
  }

  lemma ReasonsGrow(rows: seq<Row>, t: Thresholds, reason: string)
    requires rows != []
    ensures multiset(Reasons(rows, t))[reason] == multiset(Reasons(rows[..|rows| - 1], t))[reason] +
      (if GivesReason(rows[|rows| - 1], t, reason) then 1 else 0)
  {
    ReasonIsGiven(rows[|rows| - 1], t, reason);
  }

  lemma {:induction false} ReasonIsCounted(rows: seq<Row>, t: Thresholds, reason: string, h: seq<bool>)
    requires |h| == |rows| && forall i :: 0 <= i < |rows| ==> (h[i] <==> GivesReason(rows[i], t, reason))
    ensures multiset(Reasons(rows, t))[reason] == Count(h)
  {
    if rows != [] {
      var n := |rows| - 1;
      ReasonsGrow(rows, t, reason);
      ReasonIsCounted(rows[..n], t, reason, h[..n]);
    }
  }

  ghost predicate Converges(rows: seq<Row>, t: Thresholds) {
    PassRate(History(rows, t)) >= t.passRateMin && HasRun(History(rows, t), t.required)
  }

  ghost predicate ThreeInARow(h: seq<bool>) {
    exists i :: 0 <= i < |h| - 2 && h[i] && h[i + 1] && h[i + 2]
  }

  lemma RunOfThreeIff(h: seq<bool>)
    ensures HasRun(h, 3) <==> ThreeInARow(h)
  {
    if i :| PassesFrom(h, i, 3) { assert h[i] && h[i + 1] && h[i + 2]; }
    if i :| 0 <= i < |h| - 2 && h[i] && h[i + 1] && h[i + 2] { assert PassesFrom(h, i, 3); }
  }

  lemma DefaultRateIff(passed: nat, n: nat)
    requires n > 0
    ensures Pct(passed, n) >= 8000 <==> 20000 * passed >= 15999 * n
  {
    PctReachesIff(passed, n, 8000);
  }

  /** With the defaults: four of five windows pass, and three in a row somewhere. */
  lemma DefaultConvergesIff(rows: seq<Row>)
    requires rows != []
    ensures var h := History(rows, DEFAULTS);
      Converges(rows, DEFAULTS) <==> 20000 * Count(h) >= 15999 * |h| && ThreeInARow(h)
  {
    DefaultRateIff(Count(History(rows, DEFAULTS)), |rows|);
    RunOfThreeIff(History(rows, DEFAULTS));
  }

  /** `rows[max(0, idx + 1 - window_size) : idx + 1]`. */
  function WindowAt(rows: seq<Row>, i: nat, size: int): seq<Row>
    requires i < |rows|
  {
    var start := if i + 1 - size > 0 then i + 1 - size else 0;
    if start <= i + 1 then rows[start..i + 1] else []
  }

  /** The loop's two counters: the longest run so far and the run that is still open. */
  ghost predicate Tracks(h: seq<bool>, longest: nat, open: nat) {
    && IsLongestRun(h, longest)
    && open <= |h| && PassesFrom(h, |h| - open, open)
    && (open < |h| ==> !h[|h| - open - 1])
  }

  /** The local variables of the loop. */
  datatype Progress = Progress(
    history: seq<bool>, longest: nat, current: nat,
    evaluated: seq<Row>, buckets: multiset<string>, reasons: multiset<string>)

  /** What the loop has collected from `rows`. */
  ghost predicate Collects(rows: seq<Row>, t: Thresholds, p: Progress) {
    && p.history == History(rows, t)
    && Evaluates(p.evaluated, rows, p.history, t)
    && p.buckets == multiset(Failures(rows, t))
    && p.reasons == multiset(Reasons(rows, t))
  }

  /** `p` after a row with this verdict. */
  function Advance(p: Progress, row: Row, number: nat, pass: bool, t: Thresholds): Progress {
    var current := if pass then p.current + 1 else 0;
    var named := FailBucket(row, t) != "none";
    Progress(p.history + [pass], if current > p.longest then current else p.longest, current,
             p.evaluated + [EvaluateRow(row, number, pass, t)],
             if named then p.buckets + multiset{FailBucket(row, t)} else p.buckets,
             if named then p.reasons + multiset{ReasonOf(row, t)} else p.reasons)
  }

  /** One turn of the loop: what was collected from the rows before is now collected with this one. */
  method AnalyzeRow(rows: seq<Row>, i: nat, t: Thresholds, p: Progress) returns (next: Progress)
    requires i < |rows| && Collects(rows[..i], t, p) && Tracks(p.history, p.longest, p.current)
    ensures Collects(rows[..i + 1], t, next) && Tracks(next.history, next.longest, next.current)
  {
    var row, longest, current, buckets, reasons := rows[i], p.longest, p.current, p.buckets, p.reasons;
    var pass := EvaluateGate(WindowAt(rows, i, t.window), t).passed;
    if pass {
      current := current + 1;
      if current > longest { longest := current; }
    } else {
      current := 0;
    }
    var bucket := FailBucket(row, t);
    if bucket != "none" {
      buckets := buckets + multiset{bucket};
      reasons := reasons + multiset{ReasonOf(row, t)};
    }
    var evaluated := p.evaluated + [EvaluateRow(row, i + 1, pass, t)];
    next := Progress(p.history + [pass], longest, current, evaluated, buckets, reasons);
    AdvanceKeeps(rows, i, t, p);
    assert next == Advance(p, row, i + 1, pass, t);
  }

  lemma AdvanceKeeps(rows: seq<Row>, i: nat, t: Thresholds, p: Progress)
    requires i < |rows| && Collects(rows[..i], t, p) && Tracks(p.history, p.longest, p.current)
    ensures var next := Advance(p, rows[i], i + 1, EvaluateGate(WindowAt(rows, i, t.window), t).passed, t);
            Collects(rows[..i + 1], t, next) && Tracks(next.history, next.longest, next.current)
  {
    var pass := EvaluateGate(WindowAt(rows, i, t.window), t).passed;
    TracksStep(p.history, p.longest, p.current, pass);
    HistoryGrows(rows, i, t);
    EvaluatesGrows(p.evaluated, rows, i, p.history, pass, t);
    CountersGrow(rows, i, t);
  }

  method Analyze(rows: seq<Row>, t: Thresholds) returns (outcome: Result<Report, string>)
    ensures outcome.Err? <==> rows == []
    ensures outcome.Ok? ==>
              && Evaluates(outcome.value.rows, rows, History(rows, t), t)
              && outcome.value.passRate == PassRate(History(rows, t))
              && IsLongestRun(History(rows, t), outcome.value.longest)
              && (outcome.value.converged <==> Converges(rows, t))
              && outcome.value.buckets == multiset(Failures(rows, t))
              && outcome.value.reasons == multiset(Reasons(rows, t))
  {
    if rows == [] { return Err("No rows found"); }
    var p := Progress([], 0, 0, [], multiset{}, multiset{});
    NothingCollected(t);
    for i := 0 to |rows|
      invariant Collects(rows[..i], t, p) && Tracks(p.history, p.longest, p.current)
    {
      p := AnalyzeRow(rows, i, t, p);
    }
    assert rows[..|rows|] == rows;
    HasRunIff(p.history, p.longest, t.required);
    var passed := CountTrue(p.history);
    var rate := Pct(passed, |p.history|);
    var converged := rate >= t.passRateMin && p.longest >= t.required;
    outcome := Ok(Report(p.evaluated, converged, rate, p.longest, p.buckets, p.reasons));
  }

  lemma NothingCollected(t: Thresholds)
    ensures var p := Progress([], 0, 0, [], multiset{}, multiset{});
            Collects([], t, p) && Tracks(p.history, 0, 0)
  {
    assert PassesFrom([], 0, 0);
  }

  /** `sum(1 for x in history if x)`. */
  method CountTrue(history: seq<bool>) returns (passed: nat)
    ensures passed == Count(history)
  {
    passed := 0;
    for i := 0 to |history|
      invariant passed == Count(history[..i])
    {
      assert history[..i + 1][..i] == history[..i];
      if history[i] { passed := passed + 1; }
    }
    assert history[..|history|] == history;
  }

  lemma HistoryGrows(rows: seq<Row>, i: nat, t: Thresholds)
    requires i < |rows|
    ensures History(rows[..i + 1], t) == History(rows[..i], t) + [EvaluateGate(WindowAt(rows, i, t.window), t).passed]
  {
    assert rows[..i + 1][..i] == rows[..i];
    assert WindowAt(rows, i, t.window) == LastWindow(rows[..i + 1], t.window);
  }

  lemma EvaluatesGrows(evaluated: seq<Row>, rows: seq<Row>, i: nat, history: seq<bool>, pass: bool, t: Thresholds)
    requires i < |rows| && Evaluates(evaluated, rows[..i], history, t)
    ensures Evaluates(evaluated + [EvaluateRow(rows[i], i + 1, pass, t)], rows[..i + 1], history + [pass], t)
  {
  }

  lemma CountersGrow(rows: seq<Row>, i: nat, t: Thresholds)
    requires i < |rows|
    ensures var named := FailBucket(rows[i], t) != "none";
            && multiset(Failures(rows[..i + 1], t))
               == multiset(Failures(rows[..i], t)) + (if named then multiset{FailBucket(rows[i], t)} else multiset{})
            && multiset(Reasons(rows[..i + 1], t))
               == multiset(Reasons(rows[..i], t)) + (if named then multiset{ReasonOf(rows[i], t)} else multiset{})
  {
    assert rows[..i + 1][..i] == rows[..i];
  }

  /** One more window either extends the open run or ends it. */
  lemma TracksStep(h: seq<bool>, longest: nat, open: nat, pass: bool)
    requires Tracks(h, longest, open)
    ensures var now := if pass then open + 1 else 0;
            Tracks(h + [pass], if now > longest then now else longest, now)
  {
    var next := h + [pass];
    assert h == next[..|h|];
    var now := if pass then open + 1 else 0;
    var m := if now > longest then now else longest;
    var i :| PassesFrom(h, i, longest);
    assert PassesFrom(next, i, longest) && PassesFrom(next, |next| - now, now);
    assert next[|h|] == pass && (open < |h| ==> !next[|h| - open - 1]);
    forall a, n | PassesFrom(next, a, n) ensures n <= m {
      assert a + n <= |h| ==> PassesFrom(h, a, n);
    }
  }

  // ----- What the defaults decide -----

  /** The default rate and run: the sparsest history misses the rate at every length but 1, 2 and 5. */
  lemma DefaultRateForcesRunIff(n: nat)
    requires n >= 1
    ensures Pct(n - Blocks(n, 3), n) < 8000 <==> n !in {1, 2, 5}
  {
    PctReachesIff(n - Blocks(n, 3), n, 8000);
  }

  lemma RateDecidesHistory(h: seq<bool>)
    requires |h| !in {0, 1, 2, 5} && PassRate(h) >= 8000
    ensures HasRun(h, 3)
  {
    DefaultRateForcesRunIff(|h|);
    RateForcesRunIff(|h|, 3, 8000);
  }

  /** With the default rate and run the run test changes nothing, except at lengths 1, 2 and 5. */
  lemma RateDecides(rows: seq<Row>, t: Thresholds)
    requires |rows| !in {0, 1, 2, 5} && t.passRateMin == 8000 && t.required == 3
    ensures Converges(rows, t) <==> PassRate(History(rows, t)) >= 8000
  {
    var h := History(rows, t);
    if PassRate(h) >= 8000 { RateDecidesHistory(h); }
  }

  const GOOD := Row(true, 10, 10, false, 10000, 0, None, None, None, None)

  function GoodRows(n: nat): (rows: seq<Row>)
    ensures |rows| == n && forall i :: 0 <= i < n ==> rows[i] == GOOD
  {
    if n == 0 then [] else [GOOD] + GoodRows(n - 1)
  }

  lemma {:induction false} SumsOfGood(n: nat)
    ensures SumsOf(GoodRows(n)) == Sums(n, 10 * n, 10 * n, 0)
  {
    if n > 0 {
      SumsOfGood(n - 1);
      assert GoodRows(n)[1..] == GoodRows(n - 1);
    }
  }

  /** What the default gate asks of a window of good rounds some of which ran no check. */
  lemma DefaultGate(rows: seq<Row>)
    requires 1 <= |rows| <= 20
    requires SumsOf(rows).generated == SumsOf(rows).proofPassed == 10 * |rows| && SumsOf(rows).frozen == 0
    ensures GatePasses(rows, DEFAULTS) <==> 20000 * SumsOf(rows).checks >= 13999 * |rows|
  {
    DefaultGateIff(rows);
  }

  lemma HistoryStep(rows: seq<Row>, row: Row)
    ensures History(rows + [row], DEFAULTS) == History(rows, DEFAULTS) + [GatePasses(rows + [row], DEFAULTS)]
  {
    assert (rows + [row])[..|rows|] == rows;
  }

  lemma {:induction false} GoodRowsAllPass(n: nat)
    requires n <= 20
    ensures History(GoodRows(n), DEFAULTS) == Passing(n)
  {
    if n > 0 {
      GoodRowsAllPass(n - 1);
      SumsOfGood(n);
      DefaultGate(GoodRows(n));
      assert GoodRows(n) == GoodRows(n - 1) + [GOOD];
      HistoryStep(GoodRows(n - 1), GOOD);
    }
  }

  /** One or two good rounds meet the rate and cannot make a run of three. */
  lemma TooFewRows(n: nat)
    requires n in {1, 2}
    ensures PassRate(History(GoodRows(n), DEFAULTS)) >= 8000 && !Converges(GoodRows(n), DEFAULTS)
  {
    GoodRowsAllPass(n);
    PctReachesIff(n, n, 8000);
    assert forall i :: !PassesFrom(Passing(n), i, 3);
  }

  /** Two good rounds, one without a check, and two more good ones. */
  function GapRows(n: nat): seq<Row>
    requires n <= 2
  {
    GoodRows(2) + [GOOD.(checks := false)] + GoodRows(n)
  }

  /** The window that ends with the missed check is the only one to fail. */
  lemma GapGate(n: nat)
    requires n <= 2
    ensures GatePasses(GapRows(n), DEFAULTS) <==> n > 0
  {
    var missed := GOOD.(checks := false);
    SumsOfGood(2);
    SumsOfGood(n);
    assert [missed][1..] == [];
    SumsOfAppend(GoodRows(2), [missed]);
    SumsOfAppend(GoodRows(2) + [missed], GoodRows(n));
    DefaultGate(GapRows(n));
  }

  lemma GapStart()
    ensures History(GapRows(0), DEFAULTS) == [true, true, false]
  {
    var missed := GOOD.(checks := false);
    GapGate(0);
    GoodRowsAllPass(2);
    HistoryStep(GoodRows(2), missed);
    assert GapRows(0) == GoodRows(2) + [missed];
    assert Passing(2) == [true, true];
  }

  lemma GapRowsGrow(n: nat)
    requires 1 <= n <= 2
    ensures GapRows(n) == GapRows(n - 1) + [GOOD]
  {
  }

  lemma {:induction false} GapHistory(n: nat)
    requires n <= 2
    ensures History(GapRows(n), DEFAULTS) == [true, true, false] + Passing(n)
  {
    if n == 0 {
      GapStart();
    } else {
      GapHistory(n - 1);
      GapGate(n);
      GapRowsGrow(n);
      HistoryStep(GapRows(n - 1), GOOD);
    }
  }

  /** Four of five windows pass, never three in a row. */
  lemma FiveRows()
    ensures PassRate(History(GapRows(2), DEFAULTS)) >= 8000 && !Converges(GapRows(2), DEFAULTS)
  {
    GapHistory(2);
    var h := History(GapRows(2), DEFAULTS);
    CountOfAppend([true, true, false], Passing(2));
    CountOfAppend(Passing(2), [false]);
    assert [true, true, false] == Passing(2) + [false] && Count([false]) == 0;
    PctReachesIff(4, 5, 8000);
    forall i ensures !PassesFrom(h, i, 3) {
      assert !h[2];
    }
  }

  /** The run test is redundant for all runs of a length exactly when that length is not 1, 2 or 5. */
  lemma RunTestIsRedundantIff(n: nat)
    requires n >= 1
    ensures (forall rows :: |rows| == n ==>
               (Converges(rows, DEFAULTS) <==> PassRate(History(rows, DEFAULTS)) >= 8000))
            <==> n !in {1, 2, 5}
  {
    if n in {1, 2} {
      TooFewRows(n);
      assert |GoodRows(n)| == n;
    } else if n == 5 {
      FiveRows();
      assert |GapRows(2)| == n;
    } else {
      forall rows: seq<Row> | |rows| == n
        ensures Converges(rows, DEFAULTS) <==> PassRate(History(rows, DEFAULTS)) >= 8000
      {
        RateDecides(rows, DEFAULTS);
      }
    }
  }

  // ----- Running it on its own output -----

  lemma {:induction false} SumsAgree(a: seq<Row>, b: seq<Row>)
    requires |a| == |b| && forall i :: 0 <= i < |a| ==> SameRound(a[i], b[i])
    ensures SumsOf(a) == SumsOf(b)
  {
    if a != [] {
      assert SameRound(a[0], b[0]);
      SumsAgree(a[1..], b[1..]);
    }
  }

  lemma {:induction false} HistoriesAgree(a: seq<Row>, b: seq<Row>, t: Thresholds)
    requires |a| == |b| && forall i :: 0 <= i < |a| ==> SameRound(a[i], b[i])
    ensures History(a, t) == History(b, t)
  {
    if a != [] {
      HistoriesAgree(a[..|a| - 1], b[..|b| - 1], t);
      SumsAgree(LastWindow(a, t.window), LastWindow(b, t.window));
    }
  }

  lemma {:induction false} FailuresAgree(a: seq<Row>, b: seq<Row>, t: Thresholds)
    requires |a| == |b| && forall i :: 0 <= i < |a| ==>
      FailBucket(a[i], t) == FailBucket(b[i], t) && a[i].reason == b[i].reason
    ensures Failures(a, t) == Failures(b, t) && Reasons(a, t) == Reasons(b, t)
  {
    if a != [] { FailuresAgree(a[..|a| - 1], b[..|a| - 1], t); }
  }

  lemma EvaluatedRowIsStable(row: Row, number: nat, pass: bool, t: Thresholds)
    ensures EvaluateRow(EvaluateRow(row, number, pass, t), number, pass, t) == EvaluateRow(row, number, pass, t)
    ensures FailBucket(EvaluateRow(row, number, pass, t), t) == FailBucket(row, t)
  {
    var bucket := FailBucket(row, t);
    if bucket == "none" {
      assert row.proofRatio >= t.proofMin && row.freezeRatio <= t.freezeMax by {
        assert |"none"| == 4 && |"both_fail"| == 9 && |"proof_fail"| == 10 && |"freeze_fail"| == 11;
      }
    }
  }

  /** Analysing a report's rows again gives the same rows, verdicts and counters. */
  lemma AnalysisIsStable(result: seq<Row>, rows: seq<Row>, t: Thresholds)
    requires Evaluates(result, rows, History(rows, t), t)
    ensures Evaluates(result, result, History(result, t), t) && History(result, t) == History(rows, t)
    ensures Converges(result, t) <==> Converges(rows, t)
    ensures Failures(result, t) == Failures(rows, t) && Reasons(result, t) == Reasons(rows, t)
  {
    HistoriesAgree(result, rows, t);
    forall i | 0 <= i < |rows|
      ensures result[i] == EvaluateRow(result[i], i + 1, History(result, t)[i], t)
      ensures FailBucket(result[i], t) == FailBucket(rows[i], t)
    {
      EvaluatedRowIsStable(rows[i], i + 1, History(rows, t)[i], t);
    }
    FailuresAgree(result, rows, t);
  }
}
