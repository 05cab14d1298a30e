/**
 * The delivery machine inside `run_auto_flow`: probe, baseline, hyper sprint, verification
 * rescue and guard fallback all write and restore one target file, candidates only under the
 * target lock.  What the outside decides (generation, test results, lock refusals, failing
 * writes, elapsed times) comes in as a world per step.
 */
module AutoFlow {
  import opened Wrappers

  datatype Generation = Generated(text: string, symmetricSource: bool) | GenerationTimedOut | GenerationRaised

  datatype TestRun = Passed | Failed | TimedOut | TestRaised

  /** A write lands, or it raises and leaves anything in the file. */
  datatype WriteRun = Lands | Tears(left: string)

  datatype ApplyWorld = ApplyWorld(
    generation: Generation, seamDenied: bool, lockFree: bool, write: WriteRun, test: TestRun, restore: WriteRun,
    elapsed: real)

  /** `symmetricBound`: the patch is the recorded model candidate, byte for byte. */
  datatype HyperWorld = HyperWorld(raises: bool, success: bool, patch: string, symmetricBound: bool, lockFree: bool,
    write: WriteRun, elapsed: real)

  datatype RescueWorld = RescueWorld(write: WriteRun, test: TestRun, elapsed: real)

  /**
   * `success` is the reported status and `claimed` the text that the report is about; `kept`
   * marks a model file that the symmetric comparison leaves in place although its test failed.
   */
  datatype Outcome = Threw | Finished(success: bool, claimed: string, kept: bool, elapsed: real)

  // ----- the lock ---------------------------------------------------------------------

  datatype Event = Acquired | Released | Wrote(text: string)

  datatype LockState = Free | Held | Violated

  /** Acquire when free, release when held, write anything but the original only when held. */
  function LockStep(state: LockState, event: Event, original: string): LockState {
    match event
    case Acquired => if state == Free then Held else Violated
    case Released => if state == Held then Free else Violated
    case Wrote(text) => if text == original || state == Held then state else Violated
  }

  function LockAfter(log: seq<Event>, original: string): LockState {
    if log == [] then Free else LockStep(LockAfter(log[..|log| - 1], original), log[|log| - 1], original)
  }

  function Count(log: seq<Event>, event: Event): nat {
    if log == [] then 0 else Count(log[..|log| - 1], event) + if log[|log| - 1] == event then 1 else 0
  }

  /** A log that ends free has released every lock it acquired, exactly once. */
  lemma {:induction false} EveryLockReleasedOnce(log: seq<Event>, original: string)
    requires LockAfter(log, original) != Violated
    ensures Count(log, Acquired) == Count(log, Released) + if LockAfter(log, original) == Held then 1 else 0
  {
    if log != [] {
      EveryLockReleasedOnce(log[..|log| - 1], original);
    }
  }

  /** At every point of a log that ends well, candidate text is written only while the lock is held. */
  lemma {:induction false} CandidatesWrittenUnderLock(log: seq<Event>, original: string, i: nat)
    requires LockAfter(log, original) != Violated && i < |log| && log[i].Wrote? && log[i].text != original
    ensures LockAfter(log[..i], original) == Held
  {
    var n := |log| - 1;
    if i < n {
      CandidatesWrittenUnderLock(log[..n], original, i);
      assert log[..n][..i] == log[..i];
    }
  }

  /** A changed candidate that may be written and passes its test. */
  predicate CandidatePasses(world: ApplyWorld, original: string) {
    && world.generation.Generated? && world.generation.text != original
    && !world.seamDenied && world.lockFree && world.write.Lands? && world.test == Passed
  }

  /** A changed candidate of the recorded model that may be written. */
  predicate KeepsCandidate(world: ApplyWorld, original: string) {
    && world.generation.Generated? && world.generation.symmetricSource && world.generation.text != original
    && !world.seamDenied && world.lockFree
  }

  /**
   * The attempt raises: in the generation, in the write, in the test, or in the restore of a text
   * that is not to stay.
   */
  predicate CandidateThrows(world: ApplyWorld, original: string, keepPassing: bool, symmetric: bool) {
    || world.generation.GenerationRaised?
    || (world.generation.Generated? && world.generation.text != original && !world.seamDenied && world.lockFree
        && (world.write.Tears? || world.test == TestRaised || (world.restore.Tears? && !(keepPassing
              && (world.test == Passed || (symmetric && world.generation.symmetricSource))))))
  }

  /** The sprint raises, or the write of the patch that it hands over does. */
  predicate SprintThrows(world: HyperWorld, symmetric: bool) {
    || world.raises
    || (world.patch != "" && (world.success || (symmetric && world.symmetricBound)) && world.lockFree
        && world.write.Tears?)
  }

  predicate RescueThrows(world: RescueWorld) {
    world.write.Tears? || world.test == TestRaised
  }

  /** The sprint's patch is the recorded model candidate and may be written. */
  predicate KeepsPatch(world: HyperWorld) {
    world.patch != "" && world.symmetricBound && world.lockFree
  }

  /** The sprint reports a patch and the lock for writing it is free. */
  predicate SprintDelivers(world: HyperWorld) {
    world.success && world.patch != "" && world.lockFree
  }

  class Delivery {
    const original: string
    const symmetric: bool
    var file: string
    ghost var log: seq<Event>
    ghost var passed: set<string>   // texts that a test run or the sprint has passed

    constructor (original: string, symmetric: bool)
      ensures this.original == original && this.symmetric == symmetric && file == original && log == [] && passed == {}
    {
      this.original, this.symmetric, file, log, passed := original, symmetric, original, [], {};
    }

    ghost predicate Quiet()
      reads this
    {
      LockAfter(log, original) == Free
    }

    /** The file holds the original, and no lock is held. */
    ghost predicate Untouched()
      reads this
    {
      file == original && Quiet()
    }

    ghost method Note(event: Event)
      modifies this`log
      ensures log == old(log) + [event]
      ensures LockAfter(log, original) == LockStep(LockAfter(old(log), original), event, original)
    {
      log := log + [event];
      assert log[..|log| - 1] == old(log);
    }

    method Write(text: string, run: WriteRun) returns (ok: bool)
      modifies this`file, this`log
      ensures log == old(log) + [Wrote(text)]
      ensures LockAfter(log, original) == LockStep(LockAfter(old(log), original), Wrote(text), original)
      ensures ok <==> run.Lands?
      ensures file == if ok then text else run.left
    {
      Note(Wrote(text));
      file := if run.Lands? then text else run.left;
      ok := run.Lands?;
    }

    /**
     * `_run_baseline_apply` (`keepPassing`) and `_run_baseline_probe` (not): write the
     * candidate under the lock, test it, put the original back unless it is to stay, release.
     */
    method TryCandidate(world: ApplyWorld, keepPassing: bool) returns (r: Outcome)
      requires Untouched()
      modifies this`file, this`log, this`passed
      ensures Quiet() && old(passed) <= passed
      ensures r.Finished? ==> file == if keepPassing && (r.success || r.kept) then r.claimed else original
      ensures r.Finished? ==> (r.success <==> CandidatePasses(world, original))
      ensures r.Finished? && r.success ==> r.claimed == world.generation.text && r.claimed in passed
      ensures r.Finished? ==> (r.kept <==> keepPassing && symmetric && KeepsCandidate(world, original))
      ensures r.Finished? && r.kept ==> r.claimed == world.generation.text
      ensures r.Threw? <==> CandidateThrows(world, original, keepPassing, symmetric)
      ensures r.Threw? && world.restore.Lands? && !symmetric ==> file == original
      ensures r.Finished? ==> r.elapsed == world.elapsed
      ensures log == old(log) || (|log| > 0 && log[|log| - 1] == Released)
    {
      if world.generation.GenerationRaised? {
        return Threw;
      }
      if world.generation.GenerationTimedOut? {
        return Finished(false, original, false, world.elapsed);
      }
      var patched := world.generation.text;
      if patched == original || world.seamDenied || !world.lockFree {
        return Finished(false, original, false, world.elapsed);
      }
      Note(Acquired);
      var raised, ok := false, false;
      var written := Write(patched, world.write);
      if !written {
        raised := true;
      } else {
        match world.test {
          case Passed => ok := true; passed := passed + {patched};
          case Failed =>
          case TimedOut =>
          case TestRaised => raised := true;
        }
      }
      // finally: restore, then release, also when the restore raises
      var kept := keepPassing && symmetric && world.generation.symmetricSource;
      if !((keepPassing && ok) || kept) {
        var restored := Write(original, world.restore);
        raised := raised || !restored;
      }
      Note(Released);
      r := if raised then Threw else Finished(ok, patched, kept, world.elapsed);
    }

    /** `run_under_target_lock` around one write; `None` when another task holds the target. */
    method WriteUnderLock(text: string, lockFree: bool, run: WriteRun) returns (done: Option<bool>)
      requires Quiet()
      modifies this`file, this`log
      ensures Quiet()
      ensures done.None? <==> !lockFree
      ensures done.None? ==> file == old(file) && log == old(log)
      ensures done == Some(true) ==> file == text
      ensures done.Some? ==> done.value == run.Lands?
    {
      if !lockFree {
        return None;
      }
      Note(Acquired);
      var ok := Write(text, run);
      Note(Released);
      return Some(ok);
    }

    /** `_run_hyper_apply`, for a sprint that leaves the target file alone. */
    method HyperApply(world: HyperWorld) returns (r: Outcome)
      requires Untouched()
      modifies this`file, this`log, this`passed
      ensures Quiet() && old(passed) <= passed
      ensures r.Finished? ==> file == if r.success || r.kept then r.claimed else original
      ensures r.Finished? ==> (r.success <==> SprintDelivers(world))
      ensures r.Finished? && r.success ==> r.claimed == world.patch && r.claimed in passed
      ensures r.Finished? ==> (r.kept <==> symmetric && KeepsPatch(world))
      ensures r.Finished? && r.kept ==> r.claimed == world.patch
      ensures r.Threw? <==> SprintThrows(world, symmetric)
      ensures r.Threw? && world.write.Lands? ==> file == original
      ensures r.Finished? ==> r.elapsed == world.elapsed
    {
      if world.raises {
        return Threw;
      }
      var ok := world.success && world.patch != "";
      var kept := symmetric && world.patch != "" && world.symmetricBound;
      if ok {
        passed := passed + {world.patch};
      }
      if ok || kept {
        var done := WriteUnderLock(world.patch, world.lockFree, world.write);
        if done.None? {
          ok, kept := false, false;
        } else if !done.value {
          return Threw;
        }
      }
      return Finished(ok, world.patch, kept, world.elapsed);
    }

    /** `_run_original_verification_rescue`: the original text is put back and tested. */
    method Rescue(world: RescueWorld, previousElapsed: real) returns (r: Outcome)
      requires Quiet()
      modifies this`file, this`log, this`passed
      ensures Quiet() && old(passed) <= passed
      ensures r.Finished? ==> file == original && r.claimed == original && !r.kept
      ensures r.Finished? ==> (r.success <==> world.test == Passed) && (r.success ==> original in passed)
      ensures r.Threw? <==> RescueThrows(world)
      ensures r.Finished? ==> r.elapsed == previousElapsed + world.elapsed
      ensures r.Threw? && world.write.Lands? ==> file == original
    {
      var written := Write(original, world.write);
      if !written || world.test == TestRaised {
        return Threw;
      }
      if world.test == Passed {
        passed := passed + {original};
      }
      return Finished(world.test == Passed, original, false, previousElapsed + world.elapsed);
    }

    // ----- the flow selection block -----------------------------------------------------

    /** Lines 1583-1590 and 1650-1656: a failed sprint may be rescued by the original text. */
    method HyperWithRescue(hyper: HyperWorld, rescue: RescueWorld, mayRescue: bool) returns (r: Outcome, rescued: bool)
      requires Untouched()
      modifies this`file, this`log, this`passed
      ensures Quiet() && old(passed) <= passed
      ensures r.Finished? ==> file == if r.success || r.kept then r.claimed else original
      ensures r.Finished? && r.success ==> r.claimed in passed && r.claimed == if rescued then original else hyper.patch
      ensures r.Finished? ==> (r.kept <==> !rescued && symmetric && KeepsPatch(hyper))
      ensures r.Finished? && r.kept ==> r.claimed == hyper.patch
      ensures r.Threw? <==>
        SprintThrows(hyper, symmetric) || (mayRescue && !SprintDelivers(hyper) && RescueThrows(rescue))
      ensures r.Threw? && hyper.write.Lands? && rescue.write.Lands? ==> file == original
      ensures r.Finished? ==> (rescued <==> mayRescue && !SprintDelivers(hyper))
      ensures r.Finished? ==> (r.success <==> SprintDelivers(hyper) || (mayRescue && rescue.test == Passed))
      ensures r.Finished? ==> r.elapsed == hyper.elapsed + if rescued then rescue.elapsed else 0.0
    {
      rescued := false;
      r := HyperApply(hyper);
      if r.Finished? && !r.success && mayRescue {
        rescued := true;
        r := Rescue(rescue, r.elapsed);
      }
    }

    /**
     * Lines 1665-1698: the sprint took too long against the probe, so its file is withdrawn
     * and the baseline is tried once more.  A rejected fallback keeps the sprint's SUCCESS
     * although the original text is back in the file.
     */
    method GuardFallback(hyper: Outcome, put: WriteRun, world: ApplyWorld) returns (r: Outcome, rejected: bool)
      requires Quiet() && hyper.Finished? && hyper.success && hyper.claimed in passed
      modifies this`file, this`log, this`passed
      ensures Quiet() && old(passed) <= passed
      ensures r.Finished? ==> (rejected <==> !CandidatePasses(world, original))
      ensures r.Finished? && !rejected ==>
        r.success && r.claimed in passed && file == r.claimed && (r.kept ==> symmetric)
      ensures r.Finished? && !rejected ==> r.claimed == TextOf(world)
      ensures r.Finished? && rejected ==> r == hyper
      ensures r.Finished? && rejected && !symmetric ==> file == original
      ensures r.Threw? <==> put.Tears? || CandidateThrows(world, original, true, symmetric)
      ensures r.Threw? ==> !rejected
      ensures r.Threw? && put.Lands? && world.restore.Lands? && !symmetric ==> file == original
    {
      var back := Write(original, put);
      if !back {
        return Threw, false;
      }
      var fallback := TryCandidate(world, true);
      if fallback.Threw? {
        return Threw, false;
      }
      return if fallback.success then fallback else hyper, !fallback.success;
    }
  }

  // ----- the whole selection ----------------------------------------------------------

  datatype Plan = Plan(
    baselineChosen: bool,
    forceNone: bool,
    forceHyper: bool,
    llmMode: bool,
    llmBaseline: bool,
    modelAttempted: bool,        // the baseline report counts a model call
    plateauPivot: bool,
    hardTask: bool,
    skipProbeForHard: bool,
    preferDirectHyper: bool,
    forcedHyperNeedsProbe: bool, // lines 1573-1578
    crossModuleRefactor: bool,
    verificationOnlyAllowed: bool,
    fastBaseline: real,
    maxTimeRatio: real
  )

  datatype World = World(
    probe: ApplyWorld, apply: ApplyWorld, fallback: ApplyWorld, hyper: HyperWorld, rescue: RescueWorld,
    shortcutLockFree: bool, shortcutWrite: WriteRun, put: WriteRun)

  /** Whatever puts a text back, or writes one that has passed, lands; a candidate's own write may tear. */
  predicate RewritesLand(world: World) {
    && world.probe.restore.Lands? && world.apply.restore.Lands? && world.fallback.restore.Lands?
    && world.hyper.write.Lands? && world.rescue.write.Lands? && world.shortcutWrite.Lands? && world.put.Lands?
  }

  datatype Strategy = BaselineOnly | ReplanHyper | HyperDirect | HyperSymmetric | FastPath | ProbedHyper
                    | GuardToBaseline | GuardRejected

  const MIN_PROBE_SECONDS := 0.05

  /** The sprint runs without waiting for a probe. */
  predicate GoesDirect(plan: Plan) {
    plan.plateauPivot || plan.forceHyper ||
    (plan.forceNone && plan.hardTask && (plan.skipProbeForHard || plan.preferDirectHyper))
  }

  /** A verification-only success is allowed. */
  predicate MayRescue(plan: Plan) {
    plan.crossModuleRefactor && plan.verificationOnlyAllowed
  }

  /** The probe's patch is taken as it is. */
  predicate TakesFastPath(plan: Plan, world: World, original: string) {
    && plan.forceNone && CandidatePasses(world.probe, original)
    && plan.fastBaseline > 0.0 && world.probe.elapsed <= plan.fastBaseline
  }

  /** The time guard withdraws a delivered sprint (or rescue) that took too long against a passing probe. */
  predicate GuardWithdraws(plan: Plan, world: World, original: string) {
    && CandidatePasses(world.probe, original) && !TakesFastPath(plan, world, original)
    && world.probe.elapsed >= 0.05
    && (SprintDelivers(world.hyper) || (MayRescue(plan) && world.rescue.test == Passed))
    && var rescued := if SprintDelivers(world.hyper) then 0.0 else world.rescue.elapsed;
       world.hyper.elapsed + rescued > plan.maxTimeRatio * world.probe.elapsed
  }

  function TextOf(world: ApplyWorld): string {
    if world.generation.Generated? then world.generation.text else ""
  }

  /** A failed baseline is followed by the sprint. */
  predicate ReplansOn(plan: Plan, world: World, original: string, symmetric: bool) {
    plan.forceNone && plan.llmMode && (!plan.llmBaseline || plan.modelAttempted) &&
      !CandidatePasses(world.apply, original) && !symmetric
  }

  predicate SprintOrRescue(plan: Plan, world: World, mayRescue: bool) {
    SprintDelivers(world.hyper) || (mayRescue && MayRescue(plan) && world.rescue.test == Passed)
  }

  /** When the selection reports SUCCESS. */
  predicate Succeeds(plan: Plan, world: World, original: string, symmetric: bool) {
    if plan.baselineChosen then
      CandidatePasses(world.apply, original) ||
        (ReplansOn(plan, world, original, symmetric) && SprintDelivers(world.hyper))
    else if GoesDirect(plan) || symmetric then SprintOrRescue(plan, world, GoesDirect(plan) && !symmetric)
    else if TakesFastPath(plan, world, original) then
      if TextOf(world.probe) != "" then world.shortcutLockFree else CandidatePasses(world.apply, original)
    else SprintOrRescue(plan, world, true)
  }

  /** The text that a SUCCESS is about. */
  function Delivered(plan: Plan, world: World, original: string, symmetric: bool): string {
    var sprint := if SprintDelivers(world.hyper) then world.hyper.patch else original;
    if plan.baselineChosen then
      if CandidatePasses(world.apply, original) then TextOf(world.apply) else world.hyper.patch
    else if GoesDirect(plan) || symmetric then sprint
    else if TakesFastPath(plan, world, original) then
      if TextOf(world.probe) != "" then TextOf(world.probe) else TextOf(world.apply)
    else if GuardWithdraws(plan, world, original) && CandidatePasses(world.fallback, original) then
      TextOf(world.fallback)
    else sprint
  }

  predicate SprintOrRescueThrows(plan: Plan, world: World, symmetric: bool, mayRescue: bool) {
    || SprintThrows(world.hyper, symmetric)
    || (mayRescue && MayRescue(plan) && !SprintDelivers(world.hyper) && RescueThrows(world.rescue))
  }

  predicate FastPathThrows(world: World, original: string, text: string, symmetric: bool) {
    if text != "" then world.shortcutLockFree && world.shortcutWrite.Tears?
    else world.put.Tears? || CandidateThrows(world.apply, original, true, symmetric)
  }

  /** The flow after a probe raises. */
  predicate ProbedThrows(plan: Plan, world: World, original: string) {
    || CandidateThrows(world.probe, original, false, false)
    || if TakesFastPath(plan, world, original) then FastPathThrows(world, original, TextOf(world.probe), false)
       else
         || SprintOrRescueThrows(plan, world, false, true)
         || (GuardWithdraws(plan, world, original)
             && (world.put.Tears? || CandidateThrows(world.fallback, original, true, false)))
  }

  /** The direct sprint raises, or the probe before it that a forced one needs. */
  predicate DirectThrows(plan: Plan, world: World, original: string, symmetric: bool) {
    || (plan.forceHyper && plan.forcedHyperNeedsProbe && !symmetric
        && CandidateThrows(world.probe, original, false, false))
    || SprintOrRescueThrows(plan, world, symmetric, !symmetric)
  }

  /** When the selection raises instead of reporting. */
  predicate FlowThrows(plan: Plan, world: World, original: string, symmetric: bool) {
    if plan.baselineChosen then
      || CandidateThrows(world.apply, original, true, symmetric)
      || (ReplansOn(plan, world, original, symmetric) && SprintThrows(world.hyper, symmetric))
    else if GoesDirect(plan) then DirectThrows(plan, world, original, symmetric)
    else if symmetric then SprintThrows(world.hyper, true)
    else ProbedThrows(plan, world, original)
  }

  /** What the file must hold, given the reported outcome. */
  function Promised(r: Outcome, original: string): string
    requires r.Finished?
  {
    if r.success || r.kept then r.claimed else original
  }

  /** Lines 1604-1648, the probe's fast path: its passing patch is written again under the lock. */
  method ProbeFastPath(d: Delivery, probe: Outcome, world: World) returns (r: Outcome)
    requires d.Untouched() && probe.Finished? && probe.success && probe.claimed in d.passed &&
      probe.claimed != d.original
    modifies d`file, d`log, d`passed
    ensures r.Finished? ==>
              (r.success <==>
                if probe.claimed != "" then world.shortcutLockFree else CandidatePasses(world.apply, d.original))
    ensures r.Threw? <==> FastPathThrows(world, d.original, probe.claimed, d.symmetric)
    ensures r.Finished? && r.success ==> r.claimed == if probe.claimed != "" then probe.claimed else TextOf(world.apply)
    ensures r.Threw? && RewritesLand(world) && !d.symmetric ==> d.file == d.original
    ensures d.Quiet()
    ensures r.Finished? ==> d.file == Promised(r, d.original) && (r.kept ==> d.symmetric)
    ensures r.Finished? && r.success ==> r.claimed in d.passed
  {
    if probe.claimed != "" && probe.claimed != d.original {
      var done := d.WriteUnderLock(probe.claimed, world.shortcutLockFree, world.shortcutWrite);
      if done.None? {
        return Finished(false, d.original, false, probe.elapsed);
      }
      return if done.value then Finished(true, probe.claimed, false, probe.elapsed) else Threw;
    }
    var back := d.Write(d.original, world.put);
    if !back {
      return Threw;
    }
    r := d.TryCandidate(world.apply, true);
  }

  /** Lines 1603-1698: probe, then the fast path, or the sprint with its guard. */
  method ProbeThenHyper(d: Delivery, plan: Plan, world: World) returns (r: Outcome, strategy: Strategy)
    requires d.Untouched() && !d.symmetric
    modifies d`file, d`log, d`passed
    ensures d.Quiet()
    ensures strategy in {FastPath, ProbedHyper, GuardToBaseline, GuardRejected}
    ensures r.Threw? <==> ProbedThrows(plan, world, d.original)
    ensures r.Threw? && RewritesLand(world) ==> d.file == d.original
    ensures r.Finished? && !plan.baselineChosen && !GoesDirect(plan) ==>
              && (r.success <==> Succeeds(plan, world, d.original, false))
              && (r.success ==> r.claimed == Delivered(plan, world, d.original, false))
    ensures r.Finished? ==> (strategy == FastPath <==> TakesFastPath(plan, world, d.original))
    ensures r.Finished? ==> (strategy in {GuardToBaseline, GuardRejected} <==> GuardWithdraws(plan, world, d.original))
    ensures r.Finished? && GuardWithdraws(plan, world, d.original) ==>
              (strategy == GuardRejected <==> !CandidatePasses(world.fallback, d.original))
    ensures r.Finished? && strategy != GuardRejected ==> d.file == Promised(r, d.original)
    ensures r.Finished? ==> !r.kept
    ensures r.Finished? && r.success ==> r.claimed in d.passed
    ensures r.Finished? && strategy == GuardRejected ==> r.success && d.file == d.original
  {
    strategy := ProbedHyper;
    var probe := d.TryCandidate(world.probe, false);
    if probe.Threw? {
      return Threw, strategy;
    }
    if plan.forceNone && probe.success && plan.fastBaseline > 0.0 && probe.elapsed <= plan.fastBaseline {
      r := ProbeFastPath(d, probe, world);
      return r, FastPath;
    }
    var rescued;
    var mayRescue := plan.crossModuleRefactor && plan.verificationOnlyAllowed;
    r, rescued := d.HyperWithRescue(world.hyper, world.rescue, mayRescue);
    if r.Finished? && probe.success && r.success && probe.elapsed >= MIN_PROBE_SECONDS
       && r.elapsed > plan.maxTimeRatio * probe.elapsed {
      var rejected;
      r, rejected := d.GuardFallback(r, world.put, world.fallback);
      strategy := if rejected then GuardRejected else GuardToBaseline;
    }
  }

  /** Lines 1566-1602: the sprint without or with an ignored probe. */
  method HyperDirectly(d: Delivery, plan: Plan, world: World) returns (r: Outcome)
    requires d.Untouched()
    modifies d`file, d`log, d`passed
    ensures r.Threw? <==> DirectThrows(plan, world, d.original, d.symmetric)
    ensures r.Finished? ==> (r.success <==> SprintOrRescue(plan, world, !d.symmetric))
    ensures r.Finished? ==> (r.kept <==> d.symmetric && KeepsPatch(world.hyper))
    ensures r.Finished? && r.kept ==> r.claimed == world.hyper.patch
    ensures r.Threw? && RewritesLand(world) && !d.symmetric ==> d.file == d.original
    ensures r.Finished? && r.success ==>
      r.claimed == if SprintDelivers(world.hyper) then world.hyper.patch else d.original
    ensures d.Quiet()
    ensures r.Finished? ==> d.file == Promised(r, d.original) && (r.kept ==> d.symmetric)
    ensures r.Finished? && r.success ==> r.claimed in d.passed
  {
    if plan.forceHyper && plan.forcedHyperNeedsProbe && !d.symmetric {
      var probe := d.TryCandidate(world.probe, false);
      if probe.Threw? {
        return Threw;
      }
    }
    var rescued;
    r, rescued := d.HyperWithRescue(world.hyper, world.rescue,
                                    plan.crossModuleRefactor && plan.verificationOnlyAllowed && !d.symmetric);
  }

  /**
   * The block at lines 1536-1698.  On every path that does not raise, the file agrees with the
   * report: a SUCCESS leaves the text that passed, a FAILED leaves the original (or, in the
   * symmetric comparison only, the model's file).  The one exception is the rejected guard
   * fallback, which reports the sprint's SUCCESS over the original text.
   */
  method SelectFlow(d: Delivery, plan: Plan, world: World) returns (r: Outcome, strategy: Strategy)
    requires d.Untouched() && d.log == [] && (d.symmetric ==> plan.llmMode)
    modifies d`file, d`log, d`passed
    ensures d.Quiet()
    ensures r.Threw? <==> FlowThrows(plan, world, d.original, d.symmetric)
    ensures r.Finished? && !r.success && !d.symmetric ==> d.file == d.original
    ensures r.Threw? && RewritesLand(world) && !d.symmetric ==> d.file == d.original
    ensures r.Finished? && r.success ==> r.claimed in d.passed
    ensures r.Finished? && strategy != GuardRejected ==> d.file == Promised(r, d.original)
    ensures r.Finished? && strategy == GuardRejected ==> r.success && d.file == d.original
    ensures r.Finished? ==>
      (d.file == Promised(r, d.original) <==> !(strategy == GuardRejected && r.claimed != d.original))
    ensures r.Finished? ==> (strategy == GuardRejected <==>
              && !plan.baselineChosen && !GoesDirect(plan) && !d.symmetric
              && GuardWithdraws(plan, world, d.original) && !CandidatePasses(world.fallback, d.original))
    ensures r.Finished? ==> (r.success <==> Succeeds(plan, world, d.original, d.symmetric))
    ensures r.Finished? && r.success ==> r.claimed == Delivered(plan, world, d.original, d.symmetric)
    ensures r.Finished? ==> (r.kept <==>
              d.symmetric &&
                if plan.baselineChosen then KeepsCandidate(world.apply, d.original) else KeepsPatch(world.hyper))
    ensures r.Finished? && r.kept ==>
      r.claimed == if plan.baselineChosen then TextOf(world.apply) else world.hyper.patch
    ensures r.Finished? ==>
      (strategy == ReplanHyper <==> plan.baselineChosen && ReplansOn(plan, world, d.original, d.symmetric))
    ensures strategy in {BaselineOnly, ReplanHyper} <==> plan.baselineChosen
    ensures strategy == HyperDirect <==> !plan.baselineChosen && GoesDirect(plan)
    ensures strategy == HyperSymmetric <==> !plan.baselineChosen && !GoesDirect(plan) && d.symmetric
    ensures Count(d.log, Acquired) == Count(d.log, Released)
  {
    if plan.baselineChosen {
      strategy := BaselineOnly;
      r := d.TryCandidate(world.apply, true);
      if r.Finished? && plan.forceNone && plan.llmMode && (!plan.llmBaseline || plan.modelAttempted)
         && !r.success && !d.symmetric {
        strategy := ReplanHyper;
        r := d.HyperApply(world.hyper);
      }
    } else if plan.plateauPivot || plan.forceHyper
              || (plan.forceNone && plan.hardTask && (plan.skipProbeForHard || plan.preferDirectHyper)) {
      strategy := HyperDirect;
      r := HyperDirectly(d, plan, world);
    } else if d.symmetric {
      strategy := HyperSymmetric;
      r := d.HyperApply(world.hyper);
    } else {
      r, strategy := ProbeThenHyper(d, plan, world);
    }
    EveryLockReleasedOnce(d.log, d.original);
  }

  // ----- the limits of the plan -------------------------------------------------------

  /**
   * A verification-only success: where the sprint delivers nothing and no fast path is taken, the
   * original text is reported SUCCESS exactly outside the symmetric comparison, for a cross-module
   * refactor that allows it, and when it passes.
   */
  lemma RescueSucceedsIff(plan: Plan, world: World, original: string, symmetric: bool)
    requires !plan.baselineChosen && !(world.hyper.success && world.hyper.patch != "" && world.hyper.lockFree)
    requires !GoesDirect(plan) && !symmetric ==>
      !(plan.forceNone && CandidatePasses(world.probe, original)
        && plan.fastBaseline > 0.0 && world.probe.elapsed <= plan.fastBaseline)
    ensures Succeeds(plan, world, original, symmetric) <==>
      !symmetric && plan.crossModuleRefactor && plan.verificationOnlyAllowed && world.rescue.test == Passed
    ensures Succeeds(plan, world, original, symmetric) && !CandidatePasses(world.fallback, original) ==>
      Delivered(plan, world, original, symmetric) == original
  {
  }

  /** The fast path is taken up to the tuned time and not above it, never without one, and never for a forced flow. */
  lemma FastPathLimits(plan: Plan, world: World, original: string, elapsed: real)
    requires CandidatePasses(world.probe, original)
    ensures var timed := world.(probe := world.probe.(elapsed := elapsed));
      && (plan.forceNone && plan.fastBaseline > 0.0 ==>
            (TakesFastPath(plan, timed, original) <==> elapsed <= plan.fastBaseline))
      && !TakesFastPath(plan.(fastBaseline := 0.0), timed, original)
      && !TakesFastPath(plan.(forceNone := false), timed, original)
  {
  }

  /**
   * The guard needs a passing probe of at least 0.05 seconds that was not taken as it is, and a
   * delivered sprint strictly above the allowed ratio to it.
   */
  lemma GuardLimits(plan: Plan, world: World, original: string, probed: real, sprinted: real)
    requires CandidatePasses(world.probe, original) && SprintDelivers(world.hyper)
    ensures var timed := world.(probe := world.probe.(elapsed := probed), hyper := world.hyper.(elapsed := sprinted));
      GuardWithdraws(plan, timed, original) <==>
        && probed >= 0.05 && sprinted > plan.maxTimeRatio * probed
        && !(plan.forceNone && plan.fastBaseline > 0.0 && probed <= plan.fastBaseline)
    ensures !GuardWithdraws(plan, world.(probe := world.probe.(test := Failed)), original)
    ensures var undelivered := world.(hyper := world.hyper.(success := false), rescue := world.rescue.(test := Failed));
      !GuardWithdraws(plan, undelivered, original)
  {
  }

  /** A plan without any of the reasons for a direct sprint; each reason alone makes one. */
  lemma DirectRoutes(plan: Plan)
    ensures GoesDirect(plan.(plateauPivot := true)) && GoesDirect(plan.(forceHyper := true))
    ensures var calm := plan.(plateauPivot := false, forceHyper := false);
      && (GoesDirect(calm.(forceNone := true, hardTask := true)) <==> plan.skipProbeForHard || plan.preferDirectHyper)
      && !GoesDirect(calm.(forceNone := false)) && !GoesDirect(calm.(hardTask := false))
  {
  }

  /** A failed baseline is replanned only unforced, in model mode, with a model that was asked, not in a comparison. */
  lemma ReplanLimits(plan: Plan, world: World, original: string)
    requires !CandidatePasses(world.apply, original)
    ensures var free := plan.(forceNone := true, llmMode := true);
      && (ReplansOn(free, world, original, false) <==> plan.llmBaseline ==> plan.modelAttempted)
      && !ReplansOn(free, world, original, true)
    ensures !ReplansOn(plan.(forceNone := false), world, original, false)
    ensures !ReplansOn(plan.(llmMode := false), world, original, false)
  {
  }

  /**
   * The rejected fallback happens: the probe passes in 1 second, the sprint delivers after 100,
   * and the baseline fails when it is tried again.  The report is SUCCESS about the sprint's
   * patch (`SelectFlow`), the file holds the original.
   */
  lemma RejectedFallbackHappens(original: string, patch: string)
    requires patch != original && patch != ""
    ensures exists plan: Plan, world: World ::
              && !plan.baselineChosen && !GoesDirect(plan)
              && GuardWithdraws(plan, world, original) && !CandidatePasses(world.fallback, original)
              && Succeeds(plan, world, original, false) && Delivered(plan, world, original, false) == patch
  {
    var tried := ApplyWorld(Generated(patch, false), false, true, Lands, Passed, Lands, 1.0);
    var world := World(tried, tried, tried.(test := Failed), HyperWorld(false, true, patch, false, true, Lands, 100.0),
                       RescueWorld(Lands, Failed, 1.0), true, Lands, Lands);
    var plan := Plan(false, true, false, true, true, true, false, false, false, false, false, false, false, 0.0, 2.0);
    assert CandidatePasses(world.probe, original) && SprintDelivers(world.hyper);
    assert !TakesFastPath(plan, world, original) && !GoesDirect(plan);
    assert GuardWithdraws(plan, world, original) && !CandidatePasses(world.fallback, original);
    assert Delivered(plan, world, original, false) == patch;
  }
}
