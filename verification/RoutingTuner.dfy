/** The dispatch-weight tuner (nexus/autopilot/tuner.py). Weights are in thousandths. */
module RoutingTuner {
  import opened Rounding
  import opened Wrappers

  datatype Dimension = Latency | CapMatch | Load | Gain

  /** The key order of the dictionaries. */
  const ORDER := [Latency, CapMatch, Load, Gain]

  type Weights = map<Dimension, int>

  predicate Complete(w: Weights) {
    forall d: Dimension :: d in w
  }

  const DEFAULTS: Weights := map[Latency := 400, CapMatch := 300, Load := 200, Gain := 100]

  lemma EveryDimension(d: Dimension)
    ensures d in ORDER && ORDER[Rank(d)] == d
  {
    match d
    case Latency => assert ORDER[0] == Latency;
    case CapMatch => assert ORDER[1] == CapMatch;
    case Load => assert ORDER[2] == Load;
    case Gain => assert ORDER[3] == Gain;
  }

  lemma DefaultsAreComplete()
    ensures Complete(DEFAULTS)
  {
    forall d: Dimension ensures d in DEFAULTS { EveryDimension(d); }
  }

  function Total(w: Weights): int
    requires Complete(w)
  {
    w[Latency] + w[CapMatch] + w[Load] + w[Gain]
  }

  // ----- Credit for one dispatch -----

  /** One log entry, with the defaults of the missing keys filled in. */
  datatype Entry = Entry(success: bool, latency: real, languageKnown: bool, load: real, gain: real)

  function Score(e: Entry, d: Dimension): real {
    match d
    case Latency => 1.0 - (if e.latency / 200.0 <= 1.0 then e.latency / 200.0 else 1.0)
    case CapMatch => if e.languageKnown then 1.0 else 0.5
    case Load => 1.0 - e.load
    case Gain => e.gain / 100.0
  }

  /** A dispatch of 200 or more has no score for latency, a faster one the rest of the way. */
  lemma LatencyScore(e: Entry)
    ensures e.latency >= 200.0 ==> Score(e, Latency) == 0.0
    ensures e.latency <= 200.0 ==> 200.0 * Score(e, Latency) == 200.0 - e.latency
  {
  }

  function Rank(d: Dimension): nat {
    match d
    case Latency => 0
    case CapMatch => 1
    case Load => 2
    case Gain => 3
  }

  /** No dimension scores better than `d`, and none before it as well. */
  predicate Dominates(e: Entry, d: Dimension) {
    forall c: Dimension :: Score(e, c) <= Score(e, d) && (Score(e, c) == Score(e, d) ==> Rank(d) <= Rank(c))
  }

  lemma RanksDiffer(c: Dimension, d: Dimension)
    requires Rank(c) == Rank(d)
    ensures c == d
  {
  }

  /** `max(scores, key=scores.get)` keeps the first of the best. */
  method Dominant(e: Entry) returns (best: Dimension)
    ensures Dominates(e, best)
  {
    best := ORDER[0];
    for i := 1 to |ORDER|
      invariant Rank(best) < i
      invariant forall c: Dimension :: Rank(c) < i ==>
                  Score(e, c) <= Score(e, best) && (Score(e, c) == Score(e, best) ==> Rank(best) <= Rank(c))
    {
      EveryRank(i);
      if Score(e, ORDER[i]) > Score(e, best) { best := ORDER[i]; }
    }
  }

  lemma OneDominates(e: Entry, c: Dimension, d: Dimension)
    requires Dominates(e, c) && Dominates(e, d)
    ensures c == d
  {
    RanksDiffer(c, d);
  }

  lemma SomeDominates(e: Entry) returns (best: Dimension)
    ensures Dominates(e, best)
  {
    best := Latency;
    if Score(e, CapMatch) > Score(e, best) { best := CapMatch; }
    if Score(e, Load) > Score(e, best) { best := Load; }
    if Score(e, Gain) > Score(e, best) { best := Gain; }
  }

  predicate Beats(e: Entry, d: Dimension, c: Dimension) {
    Score(e, c) <= Score(e, d) && (Score(e, c) == Score(e, d) ==> Rank(d) <= Rank(c))
  }

  lemma DominatesEach(e: Entry, d: Dimension)
    ensures Dominates(e, d) <==> Beats(e, d, Latency) && Beats(e, d, CapMatch) && Beats(e, d, Load) && Beats(e, d, Gain)
  {
    if Beats(e, d, Latency) && Beats(e, d, CapMatch) && Beats(e, d, Load) && Beats(e, d, Gain) {
      forall c: Dimension
        ensures Score(e, c) <= Score(e, d) && (Score(e, c) == Score(e, d) ==> Rank(d) <= Rank(c))
      {
        match c
        case Latency => assert Beats(e, d, Latency);
        case CapMatch => assert Beats(e, d, CapMatch);
        case Load => assert Beats(e, d, Load);
        case Gain => assert Beats(e, d, Gain);
      }
    }
  }

  /** Where the credit goes, in the numbers of the log: ties go to the dimension that comes first. */
  lemma DominatesIff(e: Entry)
    ensures Dominates(e, Latency) <==>
      && e.latency <= (if e.languageKnown then 0.0 else 100.0)
      && e.latency <= 200.0 * e.load && e.latency + 2.0 * e.gain <= 200.0
    ensures Dominates(e, CapMatch) <==>
      && e.latency > (if e.languageKnown then 0.0 else 100.0)
      && e.load >= (if e.languageKnown then 0.0 else 0.5) && e.gain <= (if e.languageKnown then 100.0 else 50.0)
    ensures Dominates(e, Load) <==>
      && e.latency > 200.0 * e.load && e.load < 1.0
      && e.load < (if e.languageKnown then 0.0 else 0.5) && e.gain + 100.0 * e.load <= 100.0
    ensures Dominates(e, Gain) <==>
      && e.latency + 2.0 * e.gain > 200.0 && e.gain > 0.0
      && e.gain > (if e.languageKnown then 100.0 else 50.0) && e.gain + 100.0 * e.load > 100.0
  {
    DominatesEach(e, Latency);
    DominatesEach(e, CapMatch);
    DominatesEach(e, Load);
    DominatesEach(e, Gain);
  }

  // ----- Adjustments over a sample -----

  function Credit(e: Entry, d: Dimension): int {
    if !Dominates(e, d) then 0 else if e.success then 10 else -20
  }

  function Adjustment(sample: seq<Entry>, d: Dimension): int {
    if sample == [] then 0 else Adjustment(sample[..|sample| - 1], d) + Credit(sample[|sample| - 1], d)
  }

  function Successes(sample: seq<Entry>): (n: nat)
    ensures n <= |sample|
  {
    if sample == [] then 0
    else Successes(sample[..|sample| - 1]) + (if sample[|sample| - 1].success then 1 else 0)
  }

  function TotalAdjustment(sample: seq<Entry>): int {
    Adjustment(sample, Latency) + Adjustment(sample, CapMatch) + Adjustment(sample, Load) + Adjustment(sample, Gain)
  }

  /** Every dispatch is credited to one dimension: +10 for a success, -20 for a failure. */
  lemma {:induction false} AdjustmentsAreConserved(sample: seq<Entry>)
    ensures TotalAdjustment(sample) == 10 * Successes(sample) - 20 * (|sample| - Successes(sample))
  {
    if sample != [] {
      var e := sample[|sample| - 1];
      AdjustmentsAreConserved(sample[..|sample| - 1]);
      CreditsSum(e);
    }
  }

  lemma CreditsSum(e: Entry)
    ensures Credit(e, Latency) + Credit(e, CapMatch) + Credit(e, Load) + Credit(e, Gain) == if e.success then 10
      else -20
  {
    var best := SomeDominates(e);
    forall d | Dominates(e, d) ensures d == best { OneDominates(e, d, best); }
  }

  /** The credit that raises weights, dimension by dimension, stays within 10 for each entry. */
  lemma {:induction false} RaisesAreBounded(sample: seq<Entry>)
    ensures Raise(sample, Latency) + Raise(sample, CapMatch) + Raise(sample, Load) + Raise(sample,
      Gain) <= 10 * |sample|
    ensures forall d :: Adjustment(sample, d) <= Raise(sample, d)
  {
    if sample != [] {
      var e := sample[|sample| - 1];
      RaisesAreBounded(sample[..|sample| - 1]);
      var best := SomeDominates(e);
      forall d | Dominates(e, d) ensures d == best { OneDominates(e, d, best); }
    }
  }

  /** The successes credited to one dimension. */
  function Raise(sample: seq<Entry>, d: Dimension): (n: nat) {
    if sample == [] then 0
    else
      var e := sample[|sample| - 1];
      Raise(sample[..|sample| - 1], d) + (if Dominates(e, d) && e.success then 10 else 0)
  }

  // ----- One tuning -----

  function Raised(w: Weights, sample: seq<Entry>, d: Dimension): int
    requires Complete(w)
  {
    Floored(w[d] + Adjustment(sample, d))
  }

  function RaisedTotal(w: Weights, sample: seq<Entry>): int
    requires Complete(w)
  {
    Raised(w, sample, Latency) + Raised(w, sample, CapMatch) + Raised(w, sample, Load) + Raised(w, sample, Gain)
  }

  /** `next` is `w` moved by the sample, floored, and scaled to a total of 1000 with rounding. */
  ghost predicate IsTuned(next: Weights, w: Weights, sample: seq<Entry>) {
    && Complete(w) && Complete(next)
    && RaisedTotal(w, sample) > 0
    && forall d: Dimension :: next[d] == RoundHalfEven(1000 * Raised(w, sample, d), RaisedTotal(w, sample))
  }

  /** What `tune_weights` leaves: the weights move only on a non-empty sample. */
  ghost predicate Tunes(next: Weights, w: Weights, sample: seq<Entry>) {
    if sample == [] then next == w else IsTuned(next, w, sample)
  }

  /** `logs[-window:]`; for a window of 0 or less Python counts from the front. */
  function Sample(logs: seq<Entry>, window: int): seq<Entry> {
    if window > 0 then (if window >= |logs| then logs else logs[|logs| - window..])
    else if -window <= |logs| then logs[-window..] else []
  }

  /** A positive window gives the last entries; a window of 0 or less leaves out that many of the first. */
  lemma SampleIs(logs: seq<Entry>, window: int)
    ensures var sample := Sample(logs, window);
      |sample| <= |logs| && logs[|logs| - |sample|..] == sample
    ensures 0 < window <= |logs| ==> |Sample(logs, window)| == window
    ensures window > |logs| || window == 0 ==> Sample(logs, window) == logs
    ensures window < 0 ==> |Sample(logs, window)| == if |logs| + window >= 0 then |logs| + window else 0
  {
  }

  /** The log file: absent, or lines that parse or do not. */
  type LogFile = Option<seq<Option<Entry>>>

  function Parsed(lines: seq<Option<Entry>>): seq<Entry> {
    if lines == [] then []
    else
      var last := lines[|lines| - 1];
      Parsed(lines[..|lines| - 1]) + (if last.Some? then [last.value] else [])
  }

  function SampleOf(log: LogFile, window: int): seq<Entry> {
    if log.None? then [] else Sample(Parsed(log.value), window)
  }

  class Tuner {
    var weights: Weights
    var saved: Option<Weights>
    const window: int

    ghost predicate Valid()
      reads this
    {
      Complete(weights)
    }

    /** `None` stands for a weights file that is missing or does not parse. */
    constructor (file: Option<Weights>, window: int := 200)
      requires file.Some? ==> Complete(file.value)
      ensures Valid() && saved == file && this.window == window
      ensures weights == if file.Some? then file.value else DEFAULTS
    {
      this.window := window;
      saved := file;
      weights := if file.Some? then file.value else DEFAULTS;
      DefaultsAreComplete();
    }

    method TuneWeights(log: LogFile)
      requires Valid()
      modifies this
      ensures Valid()
      ensures Tunes(weights, old(weights), SampleOf(log, window))
      ensures saved == if SampleOf(log, window) == [] then old(saved) else Some(weights)
    {
      if log.None? { return; }
      var logs := Parse(log.value);
      var sample := Sample(logs, window);
      if sample == [] { return; }
      var next := Tune(weights, sample);
      weights := next;
      saved := Some(weights);
    }
  }

  method Tune(w: Weights, sample: seq<Entry>) returns (next: Weights)
    requires Complete(w)
    ensures IsTuned(next, w, sample)
  {
    var adjustments := Adjust(sample);
    var moved := Move(w, adjustments);
    next := Normalize(moved);
    StagesTune(w, sample, adjustments, moved, next);
  }

  lemma StagesTune(w: Weights, sample: seq<Entry>, adjustments: map<Dimension, int>, moved: Weights, next: Weights)
    requires Complete(w) && Complete(adjustments) && Complete(moved) && Complete(next)
    requires forall d: Dimension :: adjustments[d] == Adjustment(sample, d)
    requires forall d: Dimension :: moved[d] == Floored(w[d] + adjustments[d])
    requires Total(moved) > 0
    requires forall d: Dimension :: next[d] == RoundHalfEven(1000 * moved[d], Total(moved))
    ensures IsTuned(next, w, sample)
  {
    forall d: Dimension ensures moved[d] == Raised(w, sample, d) {}
    assert Total(moved) == RaisedTotal(w, sample);
  }

  /** The lines that parse, in order. */
  method Parse(lines: seq<Option<Entry>>) returns (logs: seq<Entry>)
    ensures logs == Parsed(lines)
  {
    logs := [];
    for i := 0 to |lines|
      invariant logs == Parsed(lines[..i])
    {
      assert lines[..i + 1][..i] == lines[..i];
      if lines[i].Some? { logs := logs + [lines[i].value]; }
    }
    assert lines[..|lines|] == lines;
  }

  method Adjust(sample: seq<Entry>) returns (adjustments: map<Dimension, int>)
    ensures Complete(adjustments) && forall d: Dimension :: adjustments[d] == Adjustment(sample, d)
  {
    adjustments := map[Latency := 0, CapMatch := 0, Load := 0, Gain := 0];
    forall d: Dimension ensures d in adjustments && adjustments[d] == 0 { EveryDimension(d); }
    for i := 0 to |sample|
      invariant Complete(adjustments)
      invariant forall d: Dimension :: adjustments[d] == Adjustment(sample[..i], d)
    {
      assert sample[..i + 1][..i] == sample[..i];
      var e := sample[i];
      var best := Dominant(e);
      forall d | Dominates(e, d) ensures d == best { OneDominates(e, d, best); }
      adjustments := adjustments[best := adjustments[best] + (if e.success then 10 else -20)];
    }
    assert sample[..|sample|] == sample;
  }

  /** The larger of the weight and 0.05. */
  function Floored(x: int): (y: int)
    ensures y >= x && y >= 50 && (y == x || y == 50)
  {
    if x > 50 then x else 50
  }

  method Move(w: Weights, adjustments: map<Dimension, int>) returns (moved: Weights)
    requires Complete(w) && Complete(adjustments)
    ensures Complete(moved) && Total(moved) > 0
    ensures forall d: Dimension :: moved[d] == Floored(w[d] + adjustments[d])
  {
    moved := map[];
    for i := 0 to |ORDER|
      invariant forall d: Dimension :: Rank(d) < i ==> d in moved && moved[d] == Floored(w[d] + adjustments[d])
    {
      EveryRank(i);
      var d := ORDER[i];
      moved := moved[d := Floored(w[d] + adjustments[d])];
    }
  }

  method Normalize(moved: Weights) returns (next: Weights)
    requires Complete(moved) && Total(moved) > 0
    ensures Complete(next) && forall d: Dimension :: next[d] == RoundHalfEven(1000 * moved[d], Total(moved))
  {
    var total := moved[Latency] + moved[CapMatch] + moved[Load] + moved[Gain];
    next := map[];
    for i := 0 to |ORDER|
      invariant forall d: Dimension :: Rank(d) < i ==> d in next && next[d] == RoundHalfEven(1000 * moved[d], total)
    {
      EveryRank(i);
      var d := ORDER[i];
      next := next[d := RoundHalfEven(1000 * moved[d], total)];
    }
  }

  lemma EveryRank(i: nat)
    requires i < |ORDER|
    ensures Rank(ORDER[i]) == i && forall d: Dimension :: Rank(d) == i ==> d == ORDER[i]
  {
    forall d: Dimension | Rank(d) == i ensures d == ORDER[i] { RanksDiffer(d, ORDER[i]); }
  }

  // ----- Many tunings -----

  /** What holds of the weights between tunings. */
  ghost predicate Balanced(w: Weights) {
    Complete(w) && 998 <= Total(w) <= 1002 && forall d: Dimension :: w[d] >= 0
  }

  lemma RaisedTotalIsBounded(w: Weights, sample: seq<Entry>)
    requires Balanced(w)
    ensures 200 <= RaisedTotal(w, sample) <= 1152 + 10 * |sample|
  {
    RaisesAreBounded(sample);
  }

  lemma NearThousand(sum: int, t: int)
    requires t > 0 && 1998 * t - 2 * t <= 2 * (sum * t) <= 2002 * t + 2 * t
    ensures 998 <= sum <= 1002
  {
    TimesDifference(sum, 1002, t);
    Times(sum - 1002, t);
    TimesDifference(998, sum, t);
    Times(998 - sum, t);
  }

  lemma SumTimes(w: int, x: int, y: int, z: int, t: int)
    ensures (w + x + y + z) * t == w * t + x * t + y * t + z * t
  {
  }

  /** Four roundings of shares of 1000 are at most 2 off together. */
  lemma SharesSum(a: int, b: int, c: int, d: int, t: int)
    requires t == a + b + c + d > 0
    ensures 998 <= RoundHalfEven(1000 * a, t) + RoundHalfEven(1000 * b, t)
                   + RoundHalfEven(1000 * c, t) + RoundHalfEven(1000 * d, t) <= 1002
  {
    var w, x, y, z := RoundHalfEven(1000 * a, t), RoundHalfEven(1000 * b, t), RoundHalfEven(1000 * c, t),
      RoundHalfEven(1000 * d, t);
    RoundHalfEvenIsNear(1000 * a, t);
    RoundHalfEvenIsNear(1000 * b, t);
    RoundHalfEvenIsNear(1000 * c, t);
    RoundHalfEvenIsNear(1000 * d, t);
    SumTimes(w, x, y, z, t);
    NearThousand(w + x + y + z, t);
  }

  /** A share of at least 50 out of at most 3152 rounds to at least 16. */
  lemma ShareIsAtLeast(raised: int, total: int)
    requires raised >= 50 && 0 < total <= 3152
    ensures RoundHalfEven(1000 * raised, total) >= 16
  {
    var r := RoundHalfEven(1000 * raised, total);
    RoundHalfEvenIsNear(1000 * raised, total);
    TimesDifference(15, r, total);
    Times(15 - r, total);
  }

  /** One tuning on at most 200 entries keeps the balance and leaves every weight at 0.016 or more. */
  lemma TuningBalances(next: Weights, w: Weights, sample: seq<Entry>)
    requires Balanced(w) && |sample| <= 200 && IsTuned(next, w, sample)
    ensures Balanced(next) && forall d: Dimension :: next[d] >= 16
  {
    RaisedTotalIsBounded(w, sample);
    forall d: Dimension ensures next[d] >= 16 {
      ShareIsAtLeast(Raised(w, sample, d), RaisedTotal(w, sample));
    }
    SharesSum(Raised(w, sample, Latency), Raised(w, sample, CapMatch), Raised(w, sample, Load), Raised(w, sample, Gain),
              RaisedTotal(w, sample));
  }

  /** A tuner's life: `states[i + 1]` is what one tuning makes of `states[i]`. */
  ghost predicate IsRun(states: seq<Weights>, samples: seq<seq<Entry>>) {
    && |states| == |samples| + 1
    && states[0] == DEFAULTS
    && forall i :: 0 <= i < |samples| ==> Tunes(states[i + 1], states[i], samples[i])
  }

  /** After any number of tunings from the defaults, on any logs, no weight has died out. */
  lemma {:induction false} WeightsStayAlive(states: seq<Weights>, samples: seq<seq<Entry>>, n: nat)
    requires IsRun(states, samples) && n < |states|
    requires forall i :: 0 <= i < |samples| ==> |samples[i]| <= 200
    ensures Balanced(states[n]) && forall d: Dimension :: states[n][d] >= 16
  {
    if n == 0 {
      DefaultsAreComplete();
      forall d: Dimension ensures states[0][d] >= 16 { EveryDimension(d); }
    } else {
      WeightsStayAlive(states, samples, n - 1);
      assert Tunes(states[n - 1 + 1], states[n - 1], samples[n - 1]);
      if samples[n - 1] != [] { TuningBalances(states[n], states[n - 1], samples[n - 1]); }
    }
  }

  /** The default window is within the bound; a window of 0 or less, or above 200, is not. */
  lemma SampleIsBoundedIff(window: int)
    ensures (forall logs :: |Sample(logs, window)| <= 200) <==> 1 <= window <= 200
  {
    if window > 200 || window <= 0 {
      var e := Entry(true, 0.0, true, 0.0, 0.0);
      var n := if window > 0 then window else 201 - window;
      var logs := seq(n, _ => e);
      assert |Sample(logs, window)| > 200;
    }
  }

  /** Tuning never swaps two weights after moving them: the shares keep the order. */
  lemma SharesKeepOrder(next: Weights, w: Weights, sample: seq<Entry>, c: Dimension, d: Dimension)
    requires IsTuned(next, w, sample) && Raised(w, sample, c) <= Raised(w, sample, d)
    ensures next[c] <= next[d]
  {
    RoundingIsMonotone(1000 * Raised(w, sample, c), 1000 * Raised(w, sample, d), RaisedTotal(w, sample));
  }

  // ----- The bound is exact -----

  const FAST := Entry(true, 0.0, true, 0.5, 50.0)

  function Repeated(n: nat): (sample: seq<Entry>)
    ensures |sample| == n
  {
    if n == 0 then [] else Repeated(n - 1) + [FAST]
  }

  lemma {:induction false} LatencyGetsIt(n: nat, d: Dimension)
    ensures Adjustment(Repeated(n), d) == if d == Latency then 10 * n else 0
  {
    if n > 0 {
      LatencyGetsIt(n - 1, d);
      assert Repeated(n)[..n - 1] == Repeated(n - 1);
      assert Score(FAST, Latency) == 1.0 == Score(FAST, CapMatch);
    }
  }

  function W(latency: int, capMatch: int, load: int, gain: int): Weights {
    map[Latency := latency, CapMatch := capMatch, Load := load, Gain := gain]
  }

  /** 200 successes for latency: its weight gains 2.0 before the shares are taken. */
  lemma LatencyWins(a: int, b: int, c: int, d: int, next: Weights)
    requires a > 0 && Complete(next)
    requires var t := a + 2000 + Floored(b) + Floored(c) + Floored(d);
             && next[Latency] == RoundHalfEven(1000 * (a + 2000), t)
             && next[CapMatch] == RoundHalfEven(1000 * Floored(b), t)
             && next[Load] == RoundHalfEven(1000 * Floored(c), t) && next[Gain] == RoundHalfEven(1000 * Floored(d), t)
    ensures Complete(W(a, b, c, d)) && IsTuned(next, W(a, b, c, d), Repeated(200))
  {
    var w := W(a, b, c, d);
    forall x: Dimension ensures x in w { EveryDimension(x); }
    LatencyGetsIt(200, Latency);
    LatencyGetsIt(200, CapMatch);
    LatencyGetsIt(200, Load);
    LatencyGetsIt(200, Gain);
    forall x: Dimension
      ensures next[x] == RoundHalfEven(1000 * Raised(w, Repeated(200), x), RaisedTotal(w, Repeated(200)))
    {
      EveryDimension(x);
    }
  }

  lemma LatencyShares(a: int, b: int, c: int, d: int, w: int, x: int, y: int, z: int)
    requires a > 0
    requires var t := a + 2000 + Floored(b) + Floored(c) + Floored(d);
             && w == RoundHalfEven(1000 * (a + 2000), t) && x == RoundHalfEven(1000 * Floored(b), t)
             && y == RoundHalfEven(1000 * Floored(c), t) && z == RoundHalfEven(1000 * Floored(d), t)
    ensures IsTuned(W(w, x, y, z), W(a, b, c, d), Repeated(200))
  {
    forall k: Dimension ensures k in W(w, x, y, z) { EveryDimension(k); }
    LatencyWins(a, b, c, d, W(w, x, y, z));
  }

  lemma FirstTuning()
    ensures IsTuned(W(800, 100, 67, 33), W(400, 300, 200, 100), Repeated(200))
  {
    LatencyShares(400, 300, 200, 100, 800, 100, 67, 33);
  }

  lemma SecondTuning()
    ensures IsTuned(W(928, 33, 22, 17), W(800, 100, 67, 33), Repeated(200))
  {
    LatencyShares(800, 100, 67, 33, 928, 33, 22, 17);
  }

  lemma ThirdTuning()
    ensures IsTuned(W(951, 16, 16, 16), W(928, 33, 22, 17), Repeated(200))
  {
    LatencyShares(928, 33, 22, 17, 951, 16, 16, 16);
  }

  /** Three tunings on 200 fast dispatches each take three of the weights down to 0.016. */
  lemma FloorIsReached()
    ensures DEFAULTS == W(400, 300, 200, 100)
    ensures IsTuned(W(800, 100, 67, 33), W(400, 300, 200, 100), Repeated(200))
    ensures IsTuned(W(928, 33, 22, 17), W(800, 100, 67, 33), Repeated(200))
    ensures IsTuned(W(951, 16, 16, 16), W(928, 33, 22, 17), Repeated(200))
  {
    FirstTuning();
    SecondTuning();
    ThirdTuning();
  }
}
