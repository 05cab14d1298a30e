/**
 * The runs of NightShift in git mode, as values.  A round leaves the work tree (and, being
 * untrusted, even HEAD and the index) in any state; it is promoted with a commit, or the last
 * promoted commit is restored.  Everything that the outside decides is a `Night`, so the
 * states of a run are a function of it, and the theorems here speak of every run.
 */
module NightShiftRuns {
  import opened Wrappers
  import opened WorkTree

  datatype Status = SCORED | MODEL_EXHAUSTED | GENERATION_FAILED | OTHER

  /** `quotaBlocked`: the summary of a failed generation speaks of quota or capacity. */
  datatype RoundOutcome = RoundOutcome(status: Status, score: real, quotaBlocked: bool)

  /** A git step works, or it fails and leaves anything behind. */
  datatype Try = Works | Fails(left: Git)

  datatype GitSteps = GitSteps(add: Try, listings: bool, commit: Try, revParse: bool, reset: Try, clean: Try)

  const ALL_WORK := GitSteps(Works, true, Works, true, Works, Works)

  /** Everything that the outside decides about one round. */
  datatype RoundWorld = RoundWorld(timeOver: bool, outcome: RoundOutcome, left: Git, steps: GitSteps)

  /** The settings of a run, the leased state it starts from, and the rounds to come. */
  datatype Night = Night(
    rules: IgnoreRules, isProjectRoot: bool, maxRounds: nat, patience: nat, initial: Git, worlds: nat -> RoundWorld)

  datatype Mark = Improved | Refused | Rejected

  datatype Stop = RoundsUsedUp | Budget | Exhausted | QuotaBlocked | Converged | RestoreFailed

  // ----- the streak -------------------------------------------------------------------

  /** Rounds since the last new best score, where a refused commit itself counts as one. */
  function Streak(marks: seq<Mark>): nat {
    if marks == [] then 0
    else match marks[|marks| - 1]
      case Improved => 0
      case Refused => 1
      case Rejected => Streak(marks[..|marks| - 1]) + 1
  }

  /** A rejected round after which the streak has reached the patience ends the run. */
  ghost predicate EndsRun(marks: seq<Mark>, patience: nat) {
    marks != [] && marks[|marks| - 1] == Rejected && Streak(marks) >= patience
  }

  ghost predicate NoneEndsRun(marks: seq<Mark>, patience: nat) {
    forall n :: 0 <= n <= |marks| ==> !EndsRun(marks[..n], patience)
  }

  lemma ExtendMarks(marks: seq<Mark>, mark: Mark, patience: nat)
    ensures NoneEndsRun(marks + [mark], patience) <==>
      NoneEndsRun(marks, patience) && !EndsRun(marks + [mark], patience)
    ensures Streak(marks + [mark]) ==
      match mark case Improved => 0 case Refused => 1 case Rejected => Streak(marks) + 1
  {
    var all := marks + [mark];
    assert all[..|marks|] == marks && all[..|all|] == all;
    forall n | 0 <= n <= |marks| ensures all[..n] == marks[..n] {}
  }

  // ----- one round --------------------------------------------------------------------

  /** Every git step of the commit works and the round added, moved or removed no embedded repository. */
  ghost predicate CommitLands(rules: IgnoreRules, g: Git, steps: GitSteps) {
    && steps.add.Works? && steps.listings && steps.commit.Works? && steps.revParse
    && GitlinksOf(Added(rules, g)) == GitlinksOf(g.head.tree)
  }

  /** A round counts only when it is scored above everything promoted so far. */
  predicate BeatsBest(outcome: RoundOutcome, bestScore: real) {
    outcome.status == SCORED && outcome.score > bestScore
  }

  ghost function MarkOf(rules: IgnoreRules, world: RoundWorld, bestScore: real): Mark {
    if !BeatsBest(world.outcome, bestScore) then Rejected
    else if CommitLands(rules, world.left, world.steps) then Improved
    else Refused
  }

  /** The commit of what a round left hangs off the HEAD that the round left. */
  function Promotion(rules: IgnoreRules, g: Git, score: real): Commit {
    Promoted(g.head, Added(rules, g), score)
  }

  /** What a commit that is refused part-way leaves. */
  function AfterRefusal(rules: IgnoreRules, g: Git, score: real, steps: GitSteps): Git {
    var staged := g.(index := Added(rules, g));
    if steps.add.Fails? then steps.add.left
    else if !steps.listings || GitlinksOf(staged.index) != GitlinksOf(g.head.tree) then staged
    else if steps.commit.Fails? then steps.commit.left
    else staged.(head := Promotion(rules, g, score))
  }

  /** What the restore after a round that was not promoted finds. */
  function Found(rules: IgnoreRules, world: RoundWorld, mark: Mark): Git {
    if mark == Refused then AfterRefusal(rules, world.left, world.outcome.score, world.steps) else world.left
  }

  /** Between two rounds. */
  datatype State = State(git: Git, base: Commit, best: real, marks: seq<Mark>)

  /** After one more whole round whose restore, if it needed one, worked. */
  ghost function Advance(rules: IgnoreRules, s: State, world: RoundWorld): State {
    var mark := MarkOf(rules, world, s.best);
    if mark == Improved then
      var c := Promotion(rules, world.left, world.outcome.score);
      State(Git(c, c.tree, world.left.work), c, world.outcome.score, s.marks + [mark])
    else
      s.(git := Restored(rules, Found(rules, world, mark), s.base), marks := s.marks + [mark])
  }

  /** After `n` whole rounds, where the next one starts. */
  ghost function StateAfter(night: Night, n: nat): (s: State)
    ensures |s.marks| == n
  {
    if n == 0 then State(night.initial, night.initial.head, 0.0, [])
    else Advance(night.rules, StateAfter(night, n - 1), night.worlds(n - 1))
  }

  ghost function MarkIn(night: Night, k: nat): Mark {
    MarkOf(night.rules, night.worlds(k), StateAfter(night, k).best)
  }

  /** What the restore of the `k`-th round finds, if that round is restored. */
  ghost function FoundIn(night: Night, k: nat): Git {
    Found(night.rules, night.worlds(k), MarkIn(night, k))
  }

  /** The commits promoted in the first `n` rounds, in order. */
  ghost function PromotedIn(night: Night, n: nat): seq<Commit> {
    if n == 0 then []
    else PromotedIn(night, n - 1) + if MarkIn(night, n - 1) == Improved then [StateAfter(night, n).base] else []
  }

  // ----- where a run ends -------------------------------------------------------------

  predicate RestoreWorks(isProjectRoot: bool, steps: GitSteps) {
    !isProjectRoot && steps.reset.Works? && steps.clean.Works?
  }

  /** Whether, and why, the run ends with a round that has been marked. */
  ghost function StopAfter(world: RoundWorld, isProjectRoot: bool, marks: seq<Mark>, patience: nat): Option<Stop>
    requires marks != []
  {
    var mark := marks[|marks| - 1];
    if mark == Improved then None
    else if !RestoreWorks(isProjectRoot, world.steps) then Some(RestoreFailed)
    else if mark == Refused then None
    else if world.outcome.status == GENERATION_FAILED && world.outcome.quotaBlocked then Some(QuotaBlocked)
    else if EndsRun(marks, patience) then Some(Converged)
    else None
  }

  /** Whether, and why, the run ends in its `k`-th round (counted from 0). */
  ghost function StopIn(night: Night, k: nat): Option<Stop> {
    if night.worlds(k).timeOver then Some(Budget)
    else if night.worlds(k).outcome.status == MODEL_EXHAUSTED then Some(Exhausted)
    else StopAfter(night.worlds(k), night.isProjectRoot, StateAfter(night, k + 1).marks, night.patience)
  }

  /** The run goes on after each of its first `n` rounds. */
  ghost predicate GoesOn(night: Night, n: nat) {
    forall k :: 0 <= k < n ==> StopIn(night, k) == None
  }

  /** The run ends for `stop` in round `last`, the first in which it may, or after all rounds. */
  ghost predicate EndsIn(night: Night, last: nat, stop: Stop) {
    && last <= night.maxRounds
    && (last == night.maxRounds ==> stop == RoundsUsedUp)
    && forall k :: 0 <= k <= last && k < night.maxRounds ==> StopIn(night, k) == if k < last then None else Some(stop)
  }

  /** The rounds that have been played and marked when the run ends so. */
  function Marked(last: nat, stop: Stop): nat {
    if stop in {Budget, Exhausted, RoundsUsedUp} then last else last + 1
  }

  /** The git state in which the run ends; a failed restore may leave any. */
  ghost predicate LeavesAt(night: Night, last: nat, stop: Stop, git: Git) {
    && (stop == Exhausted ==> git == night.worlds(last).left)
    && (stop != Exhausted && stop != RestoreFailed ==> git == StateAfter(night, Marked(last, stop)).git)
  }

  lemma OneMoreRound(night: Night, n: nat)
    ensures StateAfter(night, n + 1) == Advance(night.rules, StateAfter(night, n), night.worlds(n))
    ensures StateAfter(night, n + 1).marks == StateAfter(night, n).marks + [MarkIn(night, n)]
  {
  }

  /** Convergence is prompt: no rejected round of a run that goes on brought the streak to the patience. */
  lemma {:induction false} RunIsPatient(night: Night, n: nat)
    requires GoesOn(night, n)
    ensures NoneEndsRun(StateAfter(night, n).marks, night.patience)
  {
    if n > 0 {
      RunIsPatient(night, n - 1);
      OneMoreRound(night, n - 1);
      assert StopIn(night, n - 1) == None;
      ExtendMarks(StateAfter(night, n - 1).marks, MarkIn(night, n - 1), night.patience);
    }
  }

  /** A converged run ends with a rejected round whose streak reaches the patience, and had none before. */
  lemma ConvergedRun(night: Night, last: nat)
    requires EndsIn(night, last, Converged)
    ensures EndsRun(StateAfter(night, last + 1).marks, night.patience)
    ensures NoneEndsRun(StateAfter(night, last).marks, night.patience)
  {
    assert StopIn(night, last) == Some(Converged);
    RunIsPatient(night, last);
  }

  /** While every round is scored above zero and its commit refused, nothing is promoted and the streak stays at one. */
  lemma {:induction false} RefusedRounds(night: Night, n: nat)
    requires forall k :: 0 <= k < n ==>
      && BeatsBest(night.worlds(k).outcome, 0.0)
      && !CommitLands(night.rules, night.worlds(k).left, night.worlds(k).steps)
    ensures StateAfter(night, n).best == 0.0 && PromotedIn(night, n) == []
    ensures Streak(StateAfter(night, n).marks) == if n == 0 then 0 else 1
    ensures n > 0 ==> MarkIn(night, n - 1) == Refused
  {
    if n > 0 {
      RefusedRounds(night, n - 1);
      OneMoreRound(night, n - 1);
      ExtendMarks(StateAfter(night, n - 1).marks, Refused, night.patience);
    }
  }

  /** A run of refused commits is bounded only by the number of rounds, whatever the patience. */
  lemma RefusedRunUsesAllRounds(night: Night)
    requires !night.isProjectRoot
    requires forall k :: 0 <= k < night.maxRounds ==>
      && !night.worlds(k).timeOver
      && BeatsBest(night.worlds(k).outcome, 0.0)
      && !CommitLands(night.rules, night.worlds(k).left, night.worlds(k).steps)
      && RestoreWorks(false, night.worlds(k).steps)
    ensures EndsIn(night, night.maxRounds, RoundsUsedUp) && PromotedIn(night, night.maxRounds) == []
  {
    RefusedRounds(night, night.maxRounds);
    forall k | 0 <= k < night.maxRounds ensures StopIn(night, k) == None {
      RefusedRounds(night, k + 1);
      OneMoreRound(night, k);
    }
  }

  // ----- the promoted commits ---------------------------------------------------------

  /** The newest commit of the first `n` promotions. */
  function BaseAfter(leased: Commit, promoted: seq<Commit>, n: nat): Commit
    requires n <= |promoted|
  {
    if n == 0 then leased else promoted[n - 1]
  }

  ghost predicate IsChild(leased: Commit, promoted: seq<Commit>, i: nat)
    requires i < |promoted|
  {
    promoted[i].Promoted? && promoted[i].parent == BaseAfter(leased, promoted, i)
  }

  /** Each promotion is a child of the one before it, the first one of the lease. */
  ghost predicate ParentChain(leased: Commit, promoted: seq<Commit>) {
    forall i :: 0 <= i < |promoted| ==> IsChild(leased, promoted, i)
  }

  lemma ExtendChainIff(leased: Commit, promoted: seq<Commit>, c: Commit)
    ensures ParentChain(leased, promoted + [c]) <==>
      ParentChain(leased, promoted) && c.Promoted? && c.parent == BaseAfter(leased, promoted, |promoted|)
  {
    var n, all := |promoted|, promoted + [c];
    forall i | 0 <= i < n ensures IsChild(leased, all, i) <==> IsChild(leased, promoted, i) {}
    assert IsChild(leased, all, n) <==> c.Promoted? && c.parent == BaseAfter(leased, promoted, n);
    if ParentChain(leased, all) {
      forall i | 0 <= i < n ensures IsChild(leased, promoted, i) { assert IsChild(leased, all, i); }
    }
  }

  /** What a promotion changes, and what any other round leaves as it was. */
  lemma NextState(night: Night, n: nat)
    ensures var s, t, c := StateAfter(night, n), StateAfter(night, n + 1),
                           Promotion(night.rules, night.worlds(n).left, night.worlds(n).outcome.score);
      if MarkIn(night, n) == Improved then
        && t.base == c && t.best == c.score > s.best
        && t.git.head == c && t.git.index == c.tree
        && PromotedIn(night, n + 1) == PromotedIn(night, n) + [c]
      else
        && t.base == s.base && t.best == s.best
        && t.git.head == s.base && t.git.index == s.base.tree
        && PromotedIn(night, n + 1) == PromotedIn(night, n)
  {
    OneMoreRound(night, n);
    RestoreSettlesIff(night.rules, FoundIn(night, n), StateAfter(night, n).base);
  }

  /** However earlier rounds ended, a round starts with HEAD and index at the base, the last promoted commit. */
  lemma {:induction false} StartsAtBase(night: Night, n: nat)
    ensures var s := StateAfter(night, n);
      && s.git.head == s.base
      && s.base == BaseAfter(night.initial.head, PromotedIn(night, n), |PromotedIn(night, n)|)
      && (n > 0 || night.initial.index == night.initial.head.tree <==> s.git.index == s.base.tree)
  {
    if n > 0 {
      StartsAtBase(night, n - 1);
      NextState(night, n - 1);
    }
  }

  /** A round that leaves HEAD on another commit than the one it found there. */
  ghost predicate MovesHead(night: Night, k: nat) {
    night.worlds(k).left.head != StateAfter(night, k).git.head
  }

  /** None of the first `n` rounds was promoted and moved HEAD. */
  ghost predicate WinnersKeepHead(night: Night, n: nat) {
    forall k :: 0 <= k < n ==> !WinsAway(night, k)
  }

  ghost predicate WinsAway(night: Night, k: nat) {
    MarkIn(night, k) == Improved && MovesHead(night, k)
  }

  lemma WinnersKeepHeadStep(night: Night, n: nat)
    ensures WinnersKeepHead(night, n + 1) <==> WinnersKeepHead(night, n) && !WinsAway(night, n)
  {
  }

  /** The commit of the `n`-th round continues the chain exactly when the round did not move HEAD. */
  lemma ChainStep(night: Night, n: nat)
    ensures ParentChain(night.initial.head, PromotedIn(night, n + 1)) <==>
      ParentChain(night.initial.head, PromotedIn(night, n)) && !WinsAway(night, n)
  {
    StartsAtBase(night, n);
    NextState(night, n);
    if MarkIn(night, n) == Improved {
      ExtendChainIff(night.initial.head, PromotedIn(night, n), StateAfter(night, n + 1).base);
    }
  }

  /**
   * The successive base commits form a parent chain from the lease exactly when no PROMOTED
   * round moved HEAD.  Rejected rounds, refused commits and failed steps never matter.
   */
  lemma {:induction false} BasesFormChainIff(night: Night, n: nat)
    ensures ParentChain(night.initial.head, PromotedIn(night, n)) <==>
      WinnersKeepHead(night, n)
  {
    if n > 0 {
      BasesFormChainIff(night, n - 1);
      ChainStep(night, n - 1);
      WinnersKeepHeadStep(night, n - 1);
    }
  }

  /** Every promoted commit has the embedded repositories of its parent; along a chain, those of the lease. */
  lemma {:induction false} PromotionsKeepGitlinks(night: Night, n: nat, i: nat)
    requires i < |PromotedIn(night, n)|
    ensures var c := PromotedIn(night, n)[i]; c.Promoted? && GitlinksOf(c.tree) == GitlinksOf(c.parent.tree)
  {
    OneMoreRound(night, n - 1);
    if i < |PromotedIn(night, n - 1)| { PromotionsKeepGitlinks(night, n - 1, i); }
  }

  lemma {:induction false} ChainKeepsGitlinks(night: Night, n: nat, i: nat)
    requires i < |PromotedIn(night, n)| && ParentChain(night.initial.head, PromotedIn(night, n))
    ensures GitlinksOf(PromotedIn(night, n)[i].tree) == GitlinksOf(night.initial.head.tree)
  {
    PromotionsKeepGitlinks(night, n, i);
    assert IsChild(night.initial.head, PromotedIn(night, n), i);
    if i > 0 { ChainKeepsGitlinks(night, n, i - 1); }
  }

  ghost predicate Increasing(promoted: seq<Commit>) {
    && (forall i :: 0 <= i < |promoted| ==> promoted[i].Promoted? && promoted[i].score > 0.0)
    && (forall i, j :: 0 <= i < j < |promoted| ==> promoted[i].score < promoted[j].score)
  }

  ghost predicate IsLastPromoted(promoted: seq<Commit>, best: real, base: Commit) {
    && Increasing(promoted)
    && (best > 0.0 <==> promoted != [])
    && best == (if promoted == [] then 0.0 else promoted[|promoted| - 1].score)
    && (promoted != [] ==> base == promoted[|promoted| - 1])
  }

  lemma ExtendPromoted(promoted: seq<Commit>, best: real, base: Commit, c: Commit)
    requires IsLastPromoted(promoted, best, base) && c.Promoted? && c.score > best
    ensures IsLastPromoted(promoted + [c], c.score, c)
  {
  }

  /**
   * The best score is positive exactly when something was promoted, is then the score of the
   * last promotion, also after refused commits, and rises with every promotion.
   */
  lemma {:induction false} BestIsLastPromoted(night: Night, n: nat)
    ensures IsLastPromoted(PromotedIn(night, n), StateAfter(night, n).best, StateAfter(night, n).base)
  {
    if n > 0 {
      BestIsLastPromoted(night, n - 1);
      NextState(night, n - 1);
      var promoted, s := PromotedIn(night, n - 1), StateAfter(night, n - 1);
      if MarkIn(night, n - 1) == Improved { ExtendPromoted(promoted, s.best, s.base, StateAfter(night, n).base); }
    }
  }

  // ----- which rounds are promoted, and which end the run -----------------------------

  /** The round was promoted with this score. */
  ghost predicate WonWith(night: Night, j: nat, score: real) {
    MarkIn(night, j) == Improved && night.worlds(j).outcome.score == score
  }

  ghost predicate NotAbove(night: Night, j: nat, score: real) {
    MarkIn(night, j) == Improved ==> night.worlds(j).outcome.score <= score
  }

  lemma BestStep(night: Night, n: nat)
    ensures var best, next := StateAfter(night, n).best, StateAfter(night, n + 1).best;
      if MarkIn(night, n) == Improved then next > best && WonWith(night, n, next) else next == best
  {
    NextState(night, n);
  }

  /** The best score is zero or that of a promoted round, and no promoted round had a higher one. */
  lemma {:induction false} BestIsHighestWinner(night: Night, n: nat)
    ensures var best := StateAfter(night, n).best;
      && best >= 0.0
      && (forall j :: 0 <= j < n ==> NotAbove(night, j, best))
      && (best > 0.0 ==> exists j :: 0 <= j < n && WonWith(night, j, best))
  {
    if n > 0 {
      BestIsHighestWinner(night, n - 1);
      BestStep(night, n - 1);
      RaiseBest(night, n - 1, StateAfter(night, n - 1).best, StateAfter(night, n).best);
    }
  }

  lemma RaiseBest(night: Night, n: nat, best: real, next: real)
    requires best >= 0.0 && forall j :: 0 <= j < n ==> NotAbove(night, j, best)
    requires best > 0.0 ==> exists j :: 0 <= j < n && WonWith(night, j, best)
    requires if MarkIn(night, n) == Improved then next > best && WonWith(night, n, next) else next == best
    ensures forall j :: 0 <= j < n + 1 ==> NotAbove(night, j, next)
    ensures next > 0.0 ==> exists j :: 0 <= j < n + 1 && WonWith(night, j, next)
  {
    forall j | 0 <= j < n + 1 ensures NotAbove(night, j, next) {
      if j < n { assert NotAbove(night, j, best); }
    }
  }

  ghost predicate Outscores(night: Night, k: nat, j: nat) {
    MarkIn(night, j) == Improved ==> night.worlds(k).outcome.score > night.worlds(j).outcome.score
  }

  /** The round is scored above zero and above every round promoted before it. */
  ghost predicate ScoresHighest(night: Night, k: nat) {
    var outcome := night.worlds(k).outcome;
    outcome.status == SCORED && outcome.score > 0.0 && forall j :: 0 <= j < k ==> Outscores(night, k, j)
  }

  /** Every git step of the commit works, and what is staged has the gitlinks of HEAD. */
  ghost predicate StepsLand(rules: IgnoreRules, world: RoundWorld) {
    && world.steps.add == Works && world.steps.listings && world.steps.commit == Works && world.steps.revParse
    && forall link :: link in GitlinksOf(Added(rules, world.left)) <==> link in GitlinksOf(world.left.head.tree)
  }

  lemma ScoresHighestIff(night: Night, k: nat)
    ensures ScoresHighest(night, k) <==> BeatsBest(night.worlds(k).outcome, StateAfter(night, k).best)
  {
    BestIsHighestWinner(night, k);
    var best, score := StateAfter(night, k).best, night.worlds(k).outcome.score;
    if score > best {
      forall j | 0 <= j < k ensures Outscores(night, k, j) { assert NotAbove(night, j, best); }
    } else if best > 0.0 {
      var j :| 0 <= j < k && WonWith(night, j, best);
      assert !Outscores(night, k, j);
    }
  }

  lemma StepsLandIff(rules: IgnoreRules, world: RoundWorld)
    ensures StepsLand(rules, world) <==> CommitLands(rules, world.left, world.steps)
  {
    var staged, known := GitlinksOf(Added(rules, world.left)), GitlinksOf(world.left.head.tree);
    assert staged == known <==> forall link :: link in staged <==> link in known;
  }

  /** A round is promoted exactly when it is scored highest so far and its commit lands. */
  lemma PromotedIff(night: Night, k: nat)
    ensures MarkIn(night, k) == Improved <==> ScoresHighest(night, k) && StepsLand(night.rules, night.worlds(k))
    ensures MarkIn(night, k) == Refused <==> ScoresHighest(night, k) && !StepsLand(night.rules, night.worlds(k))
    ensures MarkIn(night, k) == Rejected <==> !ScoresHighest(night, k)
  {
    ScoresHighestIff(night, k);
    StepsLandIff(night.rules, night.worlds(k));
  }

  /** The commit is the promotion of the `k`-th round, which was scored. */
  ghost predicate IsWinner(night: Night, k: nat, c: Commit) {
    var world := night.worlds(k);
    && MarkIn(night, k) == Improved && world.outcome.status == SCORED && world.outcome.score > 0.0
    && c == Promoted(world.left.head, Added(night.rules, world.left), world.outcome.score)
  }

  lemma PromotedStep(night: Night, n: nat)
    ensures var promoted, next := PromotedIn(night, n), PromotedIn(night, n + 1);
      next == promoted || (|next| == |promoted| + 1 && next[..|promoted|] == promoted
                           && IsWinner(night, n, next[|promoted|]))
  {
    NextState(night, n);
    PromotedIff(night, n);
  }

  /** Every promoted commit comes from a scored round: its HEAD, its staged work and its score. */
  lemma {:induction false} WinnerOf(night: Night, n: nat, i: nat) returns (k: nat)
    requires i < |PromotedIn(night, n)|
    ensures k < n && IsWinner(night, k, PromotedIn(night, n)[i])
  {
    PromotedStep(night, n - 1);
    if i < |PromotedIn(night, n - 1)| {
      k := WinnerOf(night, n - 1, i);
    } else {
      k := n - 1;
    }
  }

  /** The reasons to end the run in a round, each with exactly when it applies. */
  lemma StopInIff(night: Night, k: nat)
    ensures var world, stop := night.worlds(k), StopIn(night, k);
      var played := !world.timeOver && world.outcome.status != MODEL_EXHAUSTED;
      var restored := !night.isProjectRoot && world.steps.reset == Works && world.steps.clean == Works;
      var blocked := world.outcome.status == GENERATION_FAILED && world.outcome.quotaBlocked;
      && (stop == Some(Budget) <==> world.timeOver)
      && (stop == Some(Exhausted) <==> !world.timeOver && world.outcome.status == MODEL_EXHAUSTED)
      && (stop == Some(RestoreFailed) <==> played && MarkIn(night, k) != Improved && !restored)
      && (stop == Some(QuotaBlocked) <==> played && restored && blocked)
      && (stop == Some(Converged) <==> played && restored && !blocked && MarkIn(night, k) == Rejected
                                       && Streak(StateAfter(night, k + 1).marks) >= night.patience)
      && stop != Some(RoundsUsedUp)
  {
    PromotedIff(night, k);
    OneMoreRound(night, k);
  }

  // ----- the work tree at the start of a round ----------------------------------------

  ghost predicate SettledStart(night: Night, n: nat) {
    Settled(night.rules, StateAfter(night, n).git, StateAfter(night, n).base)
  }

  /** The `k`-th round was promoted, or left a state from which a restore settles the tree. */
  ghost predicate RoundSettles(night: Night, k: nat) {
    MarkIn(night, k) == Improved || Restorable(night.rules, FoundIn(night, k), StateAfter(night, k).base)
  }

  /**
   * A round starts with the work tree of its base exactly when the round just before it was
   * promoted or left a restorable state; the first one exactly when the lease was settled.
   * What happened earlier does not matter.
   */
  lemma StartIsSettledIff(night: Night, n: nat)
    ensures SettledStart(night, n) <==>
      if n == 0 then Settled(night.rules, night.initial, night.initial.head) else RoundSettles(night, n - 1)
  {
    if n > 0 {
      OneMoreRound(night, n - 1);
      var world, base := night.worlds(n - 1), StateAfter(night, n - 1).base;
      if MarkIn(night, n - 1) == Improved {
        CommitSettles(night.rules, world.left.(index := Added(night.rules, world.left)), world.outcome.score);
        AddedIsStable(night.rules, world.left);
      } else {
        RestoreSettlesIff(night.rules, FoundIn(night, n - 1), base);
      }
    }
  }

  /** The `k`-th round, if it is restored, leaves no stray ignore file and moves no tracked embedded repository. */
  ghost predicate LeavesNoStray(night: Night, k: nat) {
    MarkIn(night, k) != Improved ==>
      && TrackedReposUnmoved(FoundIn(night, k), StateAfter(night, k).base)
      && forall p :: !StrayIgnoreFile(night.rules, FoundIn(night, k), StateAfter(night, k).base, p)
  }

  lemma NoStraySettles(night: Night, n: nat)
    requires Settled(night.rules, night.initial, night.initial.head)
    requires forall k :: 0 <= k < n ==> LeavesNoStray(night, k)
    ensures SettledStart(night, n)
  {
    StartIsSettledIff(night, n);
    if n > 0 {
      assert LeavesNoStray(night, n - 1);
      if MarkIn(night, n - 1) != Improved {
        NoStrayIgnoreFileSuffices(night.rules, FoundIn(night, n - 1), StateAfter(night, n - 1).base);
      }
    }
  }

  /** The tree promoted by the `k`-th round holds only items of its base and what that very round wrote. */
  ghost predicate PromotesOwnWork(night: Night, k: nat) {
    HoldsOwnWork(night.rules, StateAfter(night, k).git, StateAfter(night, k).base, night.worlds(k).left)
  }

  /**
   * Nothing that a refused or rejected round left rides into a later commit.  In a run whose
   * restored rounds leave no stray ignore file, every promoted tree holds its base's items and
   * what that very round wrote, exactly when the promoted rounds leave the ignored leftovers
   * alone (they neither stage one nor take away the rule that ignores it).
   */
  lemma NothingRidesIntoCommitsIff(night: Night, n: nat)
    requires Settled(night.rules, night.initial, night.initial.head)
    requires forall k :: 0 <= k < n ==> LeavesNoStray(night, k)
    ensures (forall k :: 0 <= k < n && MarkIn(night, k) == Improved ==> PromotesOwnWork(night, k)) <==>
      forall k :: 0 <= k < n && MarkIn(night, k) == Improved ==>
        LeavesLeftovers(night.rules, StateAfter(night, k).git, StateAfter(night, k).base, night.worlds(k).left)
  {
    forall k | 0 <= k < n
      ensures PromotesOwnWork(night, k) <==>
        LeavesLeftovers(night.rules, StateAfter(night, k).git, StateAfter(night, k).base, night.worlds(k).left)
    {
      NoStraySettles(night, k);
      NothingRidesAlongIff(night.rules, StateAfter(night, k).git, StateAfter(night, k).base, night.worlds(k).left);
    }
  }

  /** The `k`-th round changes no ignore file and stages nothing that it found untracked. */
  ghost predicate KeepsIgnores(night: Night, k: nat) {
    var start, left := StateAfter(night, k), night.worlds(k).left;
    && IgnoreFiles(left.work) == IgnoreFiles(start.git.work)
    && forall p :: p in left.index && p in start.git.work ==> p in start.base.tree
  }

  /** Rounds that keep to themselves: no stray ignore file when restored, no touched ignore file when promoted. */
  lemma NothingRidesIntoCommits(night: Night, n: nat)
    requires Settled(night.rules, night.initial, night.initial.head)
    requires forall k :: 0 <= k < n ==>
      LeavesNoStray(night, k) && (MarkIn(night, k) == Improved ==> KeepsIgnores(night, k))
    ensures forall k :: 0 <= k < n && MarkIn(night, k) == Improved ==> PromotesOwnWork(night, k)
  {
    forall k | 0 <= k < n && MarkIn(night, k) == Improved
      ensures LeavesLeftovers(night.rules, StateAfter(night, k).git, StateAfter(night, k).base, night.worlds(k).left)
    {
      NoStraySettles(night, k);
      SameIgnoresSuffice(night.rules, StateAfter(night, k).git, StateAfter(night, k).base, night.worlds(k).left);
    }
    NothingRidesIntoCommitsIff(night, n);
  }

  // ----- what tier 2 judges -----------------------------------------------------------

  /** Tier 2 judges with HEAD at the promoted commit, unless an exhausted round moved it. */
  lemma JudgedAtBaseIff(night: Night, last: nat, stop: Stop, git: Git)
    requires EndsIn(night, last, stop) && LeavesAt(night, last, stop, git) && stop != RestoreFailed
    ensures git.head == StateAfter(night, Marked(last, stop)).base <==> (stop == Exhausted ==> !MovesHead(night, last))
  {
    StartsAtBase(night, Marked(last, stop));
  }

  /** It judges the very tree of the promoted commit exactly when that round starts or leaves it so. */
  lemma JudgedSettledIff(night: Night, last: nat, stop: Stop, git: Git)
    requires EndsIn(night, last, stop) && LeavesAt(night, last, stop, git) && stop != RestoreFailed
    ensures Settled(night.rules, git, StateAfter(night, Marked(last, stop)).base) <==>
      if stop == Exhausted then Settled(night.rules, night.worlds(last).left, StateAfter(night, last).base)
      else if Marked(last, stop) == 0 then Settled(night.rules, night.initial, night.initial.head)
      else RoundSettles(night, Marked(last, stop) - 1)
  {
    StartIsSettledIff(night, Marked(last, stop));
  }

  // ----- two nights that go wrong -----------------------------------------------------

  function NothingIgnored(): IgnoreRules {
    (ignores, p) => false
  }

  const NO_FILES: Tree := map[]

  function Scored(score: real, left: Git): RoundWorld {
    RoundWorld(false, RoundOutcome(SCORED, score, false), left, ALL_WORK)
  }

  /** A night of two rounds on an empty lease. */
  function TwoRounds(first: RoundWorld, second: RoundWorld): Night {
    var leased := Leased(NO_FILES);
    Night(NothingIgnored(), false, 2, 1, Git(leased, NO_FILES, NO_FILES), k => if k == 0 then first else second)
  }

  /** One file in the work tree and a HEAD: a round that adds the file and is promoted. */
  lemma FileIsPromoted(night: Night, k: nat, head: Commit, path: Path, score: real)
    requires night.rules == NothingIgnored() && score > StateAfter(night, k).best && head.tree == NO_FILES
    requires night.worlds(k) == Scored(score, Git(head, NO_FILES, map[path := File("")]))
    ensures MarkIn(night, k) == Improved && StopIn(night, k) == None
    ensures StateAfter(night, k + 1).base == Promoted(head, map[path := File("")], score)
    ensures StateAfter(night, k + 1).best == score
  {
    var left := night.worlds(k).left;
    assert Added(night.rules, left) == map[path := File("")];
    assert GitlinksOf(Added(night.rules, left)) == {} == GitlinksOf(head.tree);
    OneMoreRound(night, k);
  }

  /**
   * The second round moves HEAD back to the lease and is promoted: its commit does not descend
   * from the first winner, whose work is lost to the chain.
   */
  lemma MovedHeadBreaksChain() returns (night: Night)
    ensures EndsIn(night, 2, RoundsUsedUp) && Settled(night.rules, night.initial, night.initial.head)
    ensures |PromotedIn(night, 2)| == 2 && MovesHead(night, 1)
    ensures forall c :: c in PromotedIn(night, 2) ==> c.Promoted? && c.parent == night.initial.head
    ensures !ParentChain(night.initial.head, PromotedIn(night, 2))
  {
    var leased := Leased(NO_FILES);
    var first := Scored(1.0, Git(leased, NO_FILES, map["a" := File("")]));
    var second := Scored(2.0, Git(leased, NO_FILES, map["b" := File("")]));
    night := TwoRounds(first, second);
    FileIsPromoted(night, 0, leased, "a", 1.0);
    FileIsPromoted(night, 1, leased, "b", 2.0);
    StartsAtBase(night, 1);
    assert PromotedIn(night, 1) == [StateAfter(night, 1).base];
    assert PromotedIn(night, 2) == PromotedIn(night, 1) + [StateAfter(night, 2).base];
    assert WinsAway(night, 1);
    BasesFormChainIff(night, 2);
  }

  /**
   * A promoted first round, and a second one that writes a file before the models are found
   * exhausted: the run ends without a restore, and tier 2 judges a tree that was not promoted.
   */
  lemma ExhaustedAfterPromotion() returns (night: Night)
    ensures EndsIn(night, 1, Exhausted) && PromotedIn(night, 1) != []
    ensures forall git :: LeavesAt(night, 1, Exhausted, git) ==>
      && git.head == StateAfter(night, 1).base
      && !Settled(night.rules, git, StateAfter(night, 1).base)
  {
    var leased := Leased(NO_FILES);
    var first := Scored(1.0, Git(leased, NO_FILES, map["a" := File("")]));
    var base := Promoted(leased, map["a" := File("")], 1.0);
    var left := Git(base, base.tree, map["a" := File(""), "receipt.json" := File("")]);
    night := TwoRounds(first, RoundWorld(false, RoundOutcome(MODEL_EXHAUSTED, 0.0, false), left, ALL_WORK));
    FileIsPromoted(night, 0, leased, "a", 1.0);
    assert StateAfter(night, 1).base == base;
    assert StopIn(night, 1) == Some(Exhausted);
    assert "receipt.json" in left.work && "receipt.json" !in base.tree;
    assert PromotedIn(night, 1) == [StateAfter(night, 1).base];
  }
}
