/**
 * The round loop of NightShift in git mode, proved to be the run of `NightShiftRuns` that the
 * outside decided: the loop promotes or restores each round, and hands the winner to tier 2
 * and to the queue.
 */
module NightShift {
  import opened Wrappers
  import opened WorkTree
  import opened NightShiftRuns

  class Runner {
    const rules: IgnoreRules
    const isProjectRoot: bool
    const maxRounds: nat
    const patience: nat
    var git: Git
    var baseCommit: Commit
    var bestScore: real
    var noImproveStreak: nat
    var trace: seq<Mark>
    var judged: Option<Git>                 // the state in which tier 2 ran
    var queued: Option<(Commit, real)>

    /** A run starts from the leased commit, whose id is read from the work path. */
    constructor (rules: IgnoreRules, isProjectRoot: bool, maxRounds: nat, patience: int, git: Git)
      ensures this.rules == rules && this.isProjectRoot == isProjectRoot && this.maxRounds == maxRounds
      ensures this.patience == (if patience < 1 then 1 else patience)
      ensures this.git == git && IsFresh()
    {
      this.rules, this.isProjectRoot, this.maxRounds := rules, isProjectRoot, maxRounds;
      this.patience := if patience < 1 then 1 else patience;
      this.git, baseCommit := git, git.head;
      bestScore, noImproveStreak, trace, judged, queued := 0.0, 0, [], None, None;
    }

    ghost predicate IsFresh()
      reads this
    {
      && baseCommit == git.head && bestScore == 0.0 && noImproveStreak == 0 && trace == []
      && judged == None && queued == None && patience >= 1
    }

    /** All that the outside decides about a run from here. */
    ghost function NightOf(worlds: nat -> RoundWorld): Night
      reads this`git
    {
      Night(rules, isProjectRoot, maxRounds, patience, git, worlds)
    }

    ghost predicate Plays(night: Night) {
      && night.rules == rules && night.isProjectRoot == isProjectRoot && night.maxRounds == maxRounds
      && night.patience == patience && patience >= 1
    }

    /** The fields of the loop are those of the state, apart from git. */
    ghost predicate Shows(s: State)
      reads this`baseCommit, this`bestScore, this`noImproveStreak, this`trace
    {
      baseCommit == s.base && bestScore == s.best && trace == s.marks && noImproveStreak == Streak(trace)
    }

    /**
     * `_commit_improvement`.  True exactly when a child of HEAD now stands at HEAD, in the
     * index and in the work tree, with the same gitlinks, and is the new base.
     */
    method CommitImprovement(score: real, steps: GitSteps) returns (ok: bool)
      modifies this`git, this`baseCommit
      ensures ok <==> CommitLands(rules, old(git), steps)
      ensures ok ==>
        && baseCommit == Promotion(rules, old(git), score)
        && git == Git(baseCommit, baseCommit.tree, old(git).work) && Settled(rules, git, baseCommit)
      ensures !ok ==> baseCommit == old(baseCommit) && git == AfterRefusal(rules, old(git), score, steps)
    {
      match steps.add {
        case Fails(left) => git := left; return false;
        case Works => git := git.(index := Added(rules, git));
      }
      if !steps.listings || GitlinksOf(git.index) != GitlinksOf(git.head.tree) {
        return false;
      }
      match steps.commit {
        case Fails(left) => git := left; return false;
        case Works =>
          AddedIsStable(rules, old(git));
          CommitSettles(rules, git, score);
          git := git.(head := Promoted(git.head, git.index, score));
      }
      if !steps.revParse {
        return false;
      }
      baseCommit := git.head;
      return true;
    }

    /** `_restore_work_tree`: back to `base_commit`, untracked paths included, or false. */
    method RestoreWorkTree(steps: GitSteps) returns (ok: bool)
      modifies this`git
      ensures ok <==> RestoreWorks(isProjectRoot, steps)
      ensures ok ==> git == Restored(rules, old(git), baseCommit)
      ensures ok ==> (Settled(rules, git, baseCommit) <==> Restorable(rules, old(git), baseCommit))
    {
      RestoreSettlesIff(rules, git, baseCommit);
      if isProjectRoot {
        return false;
      }
      match steps.reset {
        case Fails(left) => git := left; return false;
        case Works => git := Reset(git, baseCommit);
      }
      match steps.clean {
        case Fails(left) => git := left; return false;
        case Works => git := CleanUp(rules, git);
      }
      return true;
    }

    /** A new best score: commit it, or take the score back when the commit is refused. */
    method PromoteRound(score: real, steps: GitSteps) returns (ok: bool)
      requires score > bestScore
      modifies this`git, this`baseCommit, this`bestScore, this`noImproveStreak, this`trace
      ensures ok <==> CommitLands(rules, old(git), steps)
      ensures trace == old(trace) + [if ok then Improved else Refused] && noImproveStreak == Streak(trace)
      ensures ok ==> bestScore == score && baseCommit == Promotion(rules, old(git), score)
                     && git == Git(baseCommit, baseCommit.tree, old(git).work)
      ensures !ok ==> bestScore == old(bestScore) && baseCommit == old(baseCommit)
                      && git == AfterRefusal(rules, old(git), score, steps)
    {
      var previousBest := bestScore;
      bestScore := score;
      noImproveStreak := 0;
      ok := CommitImprovement(score, steps);
      ExtendMarks(trace, if ok then Improved else Refused, patience);
      if ok {
        trace := trace + [Improved];
      } else {
        bestScore := previousBest;
        noImproveStreak := noImproveStreak + 1;
        trace := trace + [Refused];
      }
    }

    /** One round after its outcome is known; `None` when the loop goes on to the next round. */
    method FinishRound(world: RoundWorld, ghost s: State) returns (stop: Option<Stop>)
      requires Shows(s) && git == world.left && patience >= 1
      modifies this`git, this`baseCommit, this`bestScore, this`noImproveStreak, this`trace
      ensures Shows(Advance(rules, s, world))
      ensures stop == StopAfter(world, isProjectRoot, Advance(rules, s, world).marks, patience)
      ensures stop != Some(RestoreFailed) ==> git == Advance(rules, s, world).git
    {
      if world.outcome.status == SCORED && world.outcome.score > bestScore {
        var promotedNow := PromoteRound(world.outcome.score, world.steps);
        if !promotedNow {
          var restored := RestoreWorkTree(world.steps);
          return if restored then None else Some(RestoreFailed);
        }
      } else {
        ExtendMarks(trace, Rejected, patience);
        noImproveStreak := noImproveStreak + 1;
        trace := trace + [Rejected];
        var restored := RestoreWorkTree(world.steps);
        if !restored {
          return Some(RestoreFailed);
        }
        if world.outcome.status == GENERATION_FAILED && world.outcome.quotaBlocked {
          return Some(QuotaBlocked);
        }
      }
      return if noImproveStreak >= patience then Some(Converged) else None;
    }

    /** The run has ended in round `last` as the outside decided, and the fields show it. */
    ghost predicate EndedIn(night: Night, last: nat, stop: Stop)
      reads this`git, this`baseCommit, this`bestScore, this`noImproveStreak, this`trace
    {
      && EndsIn(night, last, stop)
      && Shows(StateAfter(night, Marked(last, stop)))
      && LeavesAt(night, last, stop, git)
    }

    /** Base commit and best score are those of the last promoted round. */
    ghost predicate KeepsWinner(night: Night, last: nat, stop: Stop)
      reads this`baseCommit, this`bestScore
    {
      IsLastPromoted(PromotedIn(night, Marked(last, stop)), bestScore, baseCommit)
    }

    /** One turn of the loop; `None` when there may be another. */
    method TurnRound(world: RoundWorld, ghost night: Night, ghost round: nat) returns (stop: Option<Stop>)
      requires Plays(night) && round < maxRounds && world == night.worlds(round) && GoesOn(night, round)
      requires Shows(StateAfter(night, round)) && git == StateAfter(night, round).git
      modifies this`git, this`baseCommit, this`bestScore, this`noImproveStreak, this`trace
      ensures stop.None? ==>
        GoesOn(night, round + 1) && Shows(StateAfter(night, round + 1)) && git == StateAfter(night, round + 1).git
      ensures stop.Some? ==> EndedIn(night, round, stop.value)
    {
      if world.timeOver {
        RoundDecides(night, round);
        return Some(Budget);
      }
      git := world.left;
      if world.outcome.status == MODEL_EXHAUSTED {
        RoundDecides(night, round);
        return Some(Exhausted);
      }
      stop := FinishRound(world, StateAfter(night, round));
      OneMoreRound(night, round);
      RoundDecides(night, round);
    }

    /** The loop of `run`: it ends in the first round in which it may, with the fields of the run. */
    method RunRounds(worlds: nat -> RoundWorld) returns (stop: Stop)
      requires IsFresh()
      modifies this`git, this`baseCommit, this`bestScore, this`noImproveStreak, this`trace
      ensures exists last :: EndedIn(old(NightOf(worlds)), last, stop)
    {
      ghost var night := NightOf(worlds);
      var round := 0;
      while round < maxRounds
        invariant round <= maxRounds && GoesOn(night, round)
        invariant Shows(StateAfter(night, round)) && git == StateAfter(night, round).git
      {
        var stopped := TurnRound(worlds(round), night, round);
        if stopped.Some? {
          return stopped.value;
        }
        round := round + 1;
      }
      AllRoundsPlayed(night);
      assert EndedIn(night, round, RoundsUsedUp);
      return RoundsUsedUp;
    }

    /**
     * The approval gate after the loop: tier 2 judges the work path as the run left it and a
     * winner is queued: the last promoted commit, with its score.
     */
    method Run(worlds: nat -> RoundWorld, tier2Passes: bool) returns (stop: Stop)
      requires IsFresh()
      modifies this
      ensures exists last :: EndedIn(old(NightOf(worlds)), last, stop) && KeepsWinner(old(NightOf(worlds)), last, stop)
      ensures judged == if stop != RestoreFailed && bestScore > 0.0 then Some(git) else None
      ensures queued == if judged.Some? && tier2Passes then Some((baseCommit, bestScore)) else None
      ensures queued.Some? ==> exists k: nat :: IsWinner(old(NightOf(worlds)), k, queued.value.0)
    {
      ghost var night := NightOf(worlds);
      stop := RunRounds(worlds);
      ghost var last :| EndedIn(night, last, stop);
      BestIsLastPromoted(night, Marked(last, stop));
      if stop != RestoreFailed && bestScore > 0.0 {
        ghost var promoted := PromotedIn(night, Marked(last, stop));
        ghost var k := WinnerOf(night, Marked(last, stop), |promoted| - 1);
        judged := Some(git);
        if tier2Passes {
          queued := Some((baseCommit, bestScore));
        }
      }
      assert EndedIn(night, last, stop) && KeepsWinner(night, last, stop);
    }
  }

  /** A round in which the run may end is the one in which it ends. */
  lemma RoundDecides(night: Night, round: nat)
    requires GoesOn(night, round) && round < night.maxRounds
    ensures StopIn(night, round) == None ==> GoesOn(night, round + 1)
    ensures StopIn(night, round).Some? ==> EndsIn(night, round, StopIn(night, round).value)
  {
  }

  lemma AllRoundsPlayed(night: Night)
    requires GoesOn(night, night.maxRounds)
    ensures EndsIn(night, night.maxRounds, RoundsUsedUp)
  {
  }
}
