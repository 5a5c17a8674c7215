/** brain/pipeline.go, brain/plan.go: the persisted count of errors over whole histories, and
    what a restart makes of it. */
module PipelineErrors {
  import opened Wrappers
  import opened Pipeline
  import opened PipelineRuns

  /** The handler fails in a way that is counted: not in the validation, not with the pipeline
      paused meanwhile, and not for good. */
  predicate Fails(s: Sys, e: Event) {
    && s.worker.Building? && HasHandler(s.worker.stage) && s.worker.stage != Validate
    && e.outcome.Failure? && !e.outcome.permanent
    && !s.row.paused && e.pausing.None?
  }

  /** The step counts a failure: a turn does, and a crash after the failure was written down. */
  predicate CountsFailure(s: Sys, step: Step) {
    match step
    case Turn(e) => Fails(s, e)
    case Crash(e, at) => Fails(s, e) && 2 <= at < 4
    case _ => false
  }

  /** The step writes another stage, is an update or a fresh build, or a recovery that goes on. */
  predicate StartsAfresh(s: Sys, step: Step, t: Sys) {
    || t.row.stage != s.row.stage
    || (step.Update? && step.ok) || (step.FreshBuild? && step.ok)
    || (step.Restart? && step.mode == ModeBuilding && s.row.errorCount < 3)
  }

  /** The failures counted since the last step that starts afresh. */
  function FailuresSince(states: seq<Sys>, steps: seq<Step>, j: nat): nat
    requires |states| == |steps| + 1 && j < |states|
  {
    if j == 0 then states[0].row.errorCount
    else if StartsAfresh(states[j - 1], steps[j - 1], states[j]) then 0
    else FailuresSince(states, steps, j - 1) + if CountsFailure(states[j - 1], steps[j - 1]) then 1 else 0
  }

  lemma StepCounts(s: Sys, step: Step)
    requires InStep(s) && Enabled(s, step) && Faithful(step)
    ensures
      var t := Next(s, step);
      t.row.errorCount ==
      if StartsAfresh(s, step, t) then 0 else s.row.errorCount + if CountsFailure(s, step) then 1 else 0
  {}

  /** Over every history without failing writes the persisted count is exactly that; in
      particular it is zero right after every change of the stage. */
  lemma {:induction false} ErrorCountIs(states: seq<Sys>, steps: seq<Step>, j: nat)
    requires IsRun(states, steps) && InStep(states[0]) && j < |states|
    requires forall k :: 0 <= k < |steps| ==> Faithful(steps[k])
    ensures states[j].row.errorCount == FailuresSince(states, steps, j)
    ensures forall k :: 0 <= k < j && states[k + 1].row.stage != states[k].row.stage ==> states[k + 1].row.errorCount == 0
    decreases j
  {
    if j > 0 {
      ErrorCountIs(states, steps, j - 1);
      RowAndLoopAgree(states, steps, j - 1);
      assert Faithful(steps[j - 1]);
      StepCounts(states[j - 1], steps[j - 1]);
    }
  }

  // --------------------------------------------------- the count and the retries

  /** What was counted before the loop was entered at its stage: only a wake brings any. */
  function Carried(states: seq<Sys>, steps: seq<Step>, j: nat): nat
    requires |states| == |steps| + 1 && j < |states|
  {
    if j == 0 then 0
    else if steps[j - 1].Wake? && states[j - 1].worker == PausedLoop then states[j].row.errorCount
    else if steps[j - 1].Turn? && states[j].row.stage == states[j - 1].row.stage then Carried(states, steps, j - 1)
    else if StaysBuilding(states[j - 1], steps[j - 1]) then Carried(states, steps, j - 1)
    else 0
  }

  /** Questions and answers do not touch the loop. */
  predicate StaysBuilding(s: Sys, step: Step) { s.worker.Building? && (step.Ask? || step.Answer?) }

  /** The count is that of the retries made at the stage, above what a wake carried over. */
  predicate CountIs(s: Sys, carried: nat) {
    s.worker.Building? ==>
      s.row.errorCount == carried + if s.worker.stage == Validate then 0 else s.worker.retries
  }

  lemma CountStep(s: Sys, step: Step, carried: nat)
    requires InStep(s) && CountIs(s, carried) && Enabled(s, step) && Faithful(step)
    ensures
      var t := Next(s, step);
      CountIs(t, if step.Wake? && s.worker == PausedLoop then t.row.errorCount
                 else if (step.Turn? && t.row.stage == s.row.stage) || StaysBuilding(s, step) then carried else 0)
  {}

  lemma {:induction false} CountIsRetries(states: seq<Sys>, steps: seq<Step>, j: nat)
    requires IsRun(states, steps) && InStep(states[0]) && CountIs(states[0], 0) && j < |states|
    requires forall k :: 0 <= k < |steps| ==> Faithful(steps[k])
    ensures CountIs(states[j], Carried(states, steps, j))
    decreases j
  {
    if j > 0 {
      CountIsRetries(states, steps, j - 1);
      RowAndLoopAgree(states, steps, j - 1);
      assert Faithful(steps[j - 1]);
      CountStep(states[j - 1], steps[j - 1], Carried(states, steps, j - 1));
    }
  }

  lemma {:induction false} NothingCarried(states: seq<Sys>, steps: seq<Step>, j: nat)
    requires IsRun(states, steps) && j < |states|
    requires forall k :: 0 <= k < j && steps[k].Wake? ==> states[k + 1].row.errorCount == 0
    ensures Carried(states, steps, j) == 0
    decreases j
  {
    if j > 0 {
      NothingCarried(states, steps, j - 1);
    }
  }

  /** While no wake takes over errors: a stage that is running has fewer than three counted,
      one for each retry. */
  lemma BelowLimitWhileRunning(states: seq<Sys>, steps: seq<Step>, j: nat)
    requires IsRun(states, steps) && InStep(states[0]) && CountIs(states[0], 0) && j < |states|
    requires forall k :: 0 <= k < |steps| ==> Faithful(steps[k])
    requires forall k :: 0 <= k < j && steps[k].Wake? ==> states[k + 1].row.errorCount == 0
    requires states[j].worker.Building?
    ensures states[j].row.errorCount == (if states[j].worker.stage == Validate then 0 else states[j].worker.retries) < 3
  {
    CountIsRetries(states, steps, j);
    NothingCarried(states, steps, j);
    RowAndLoopAgree(states, steps, j);
  }

  // ------------------------------------------------------------------ restarts

  /** In terms of the history before: a restart in building mode runs the persisted stage
      again, with all its retries, exactly when fewer than three failures were counted since
      the stage was set or recovered, and no pause is left that only the owner lifts. */
  lemma RestartBuildsIff(states: seq<Sys>, steps: seq<Step>, j: nat)
    requires IsRun(states, steps) && InStep(states[0]) && j < |states|
    requires forall k :: 0 <= k < |steps| ==> Faithful(steps[k])
    requires states[j].worker == Stopped
    ensures
      var s := states[j];
      Next(s, Restart(ModeBuilding, FLAWLESS, true)).worker == Building(s.row.stage, 0)
      <==> HasHandler(s.row.stage) && FailuresSince(states, steps, j) < 3 && !(s.row.paused && LockedByReason(s))
  {
    ErrorCountIs(states, steps, j);
    RestartBuildsIfUnlocked(states[j]);
  }

  /** A wake does not clear the count. An owner who resumes a stage that had used up its
      retries runs it, but after a crash the restart does not: it waits, with no pause set. */
  lemma WokenBuildIsNotRecovered(s: Sys, e: Event)
    requires s.worker == PausedLoop && HasHandler(s.row.stage) && s.row.errorCount >= 3
    ensures
      var woken := Next(s, Wake(true, true));
      var crashed := Next(woken, Crash(e, 0));
      var restarted := Next(crashed, Restart(ModeBuilding, FLAWLESS, true));
      && woken.worker == Building(s.row.stage, 0)
      && restarted.worker == PausedLoop && !restarted.row.paused
  {
    assert Next(s, Wake(true, true)).worker == Building(s.row.stage, 0);
  }

  /** The commands of a waiting worker: a fresh build runs the first stage whatever the row
      held, with nothing counted and no pause; an update clears the count and keeps a pause,
      and runs when there is none. */
  lemma CommandsStart(s: Sys)
    requires TakesCommands(s.worker)
    ensures
      var begun := Next(s, FreshBuild(true, true));
      begun.worker == Building(Expand, 0) && begun.row == Row(Expand, 0, false, None)
    ensures
      var updated := Next(s, Update(true, true));
      && updated.row == s.row.(stage := UpdatePlan, errorCount := 0)
      && updated.worker == if s.row.paused then PausedLoop else Building(UpdatePlan, 0)
  {
    assert HasHandler(Expand) && HasHandler(UpdatePlan);
  }
}
