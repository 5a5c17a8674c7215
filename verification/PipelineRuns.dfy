/** brain/pipeline.go over whole histories: the worker that runs, pauses, crashes and is
    started again, and the persisted row it goes by. */
module PipelineRuns {
  import opened Wrappers
  import opened Pipeline

  // ---------------------------------------------------------- crash recovery

  /** Which of the accesses of a recovery succeed. */
  datatype Recovery = Recovery(countRead: bool, clearErrors: bool, clearPause: bool, stateRead: bool,
                               pendingRead: bool, answersRead: bool, resume: bool)

  const FLAWLESS := Recovery(true, true, true, true, true, true, true)

  /** The two reasons a recovery does not clear by itself; SQL's NOT IN is not true of NULL. */
  predicate Cleared(reason: Option<Reason>) { reason == Some(Other) }

  /** The row after a recovery, and whether the build may go on. */
  function Recovered(row: Row, pending: nat, r: Recovery): (Row, bool) {
    if r.countRead && row.errorCount >= MAX_STAGE_RETRIES then (row, false)
    else
      var r1 := if r.clearErrors then row.(errorCount := 0) else row;
      var r2 := if r.clearPause && r1.paused && Cleared(r1.reason) then Resumed(r1, true) else r1;
      var answered := r.stateRead && r2.paused && r2.reason == Some(OwnerAnswers) && r.pendingRead && pending == 0;
      (if answered && r.answersRead then Resumed(r2, r.resume) else r2, true)
  }

  /** The worker's own version, write by write. */
  method AutoRecover(w: PipelineWorker, pending: nat, r: Recovery) returns (proceed: bool)
    modifies w`row
    ensures (w.row, proceed) == Recovered(old(w.row), pending, r)
  {
    var errorCount := 0;
    if r.countRead {
      errorCount := w.row.errorCount;
    }
    if errorCount >= MAX_STAGE_RETRIES {
      return false;
    }
    if r.clearErrors && w.row.errorCount > 0 {
      w.row := w.row.(errorCount := 0);
    }
    if r.clearPause && w.row.paused && Cleared(w.row.reason) {
      w.row := w.row.(paused := false, reason := None);
    }
    var onAnswers := w.row.paused && w.row.reason == Some(OwnerAnswers);
    if r.stateRead && onAnswers && r.pendingRead && pending == 0 && r.answersRead {
      w.ResumePipeline(r.resume);
    }
    return true;
  }

  /** Whatever fails during it, a recovery keeps a pause for an approval, and a pause for the
      owner's answers while one is missing; the stage it never touches. */
  lemma RecoveryKeepsOwnersPauses(row: Row, pending: nat, r: Recovery)
    requires row.paused && (row.reason == Some(Approval) || (row.reason == Some(OwnerAnswers) && pending > 0))
    ensures Recovered(row, pending, r).0.paused && Recovered(row, pending, r).0.reason == row.reason
    ensures Recovered(row, pending, r).0.stage == row.stage
  {}

  // ------------------------------------------------------------ the system

  datatype Worker = Stopped | Building(stage: Stage, retries: nat) | PausedLoop | IdleLoop | MonitoringLoop

  datatype Sys = Sys(row: Row, pending: nat, worker: Worker)

  datatype Mode = ModeBuilding | ModeMonitoring | ModePaused | ModeOther

  datatype Step =
    | Turn(e: Event)
    | Crash(e: Event, at: nat)
    | Restart(mode: Mode, r: Recovery, loaded: bool)
    | Wake(ok: bool, loaded: bool)
    | Update(ok: bool, loaded: bool)
    | FreshBuild(ok: bool, loaded: bool)
    | ToMonitoring
    | ToPaused
    | PauseTick(why: Reason, ok: bool)
    | ToolPause(why: Reason)
    | Ask
    | Answer

  /** Entering the build loop: the row is loaded, and decides. */
  function Entered(row: Row, loaded: bool): Worker {
    if !loaded then Stopped
    else if row.paused then PausedLoop
    else if row.stage == Monitoring then MonitoringLoop
    else if !HasHandler(row.stage) then Stopped
    else Building(row.stage, 0)
  }

  function Arrived(s: Stage, retries: nat): Worker {
    if s == Monitoring then MonitoringLoop else if HasHandler(s) then Building(s, retries) else Stopped
  }

  /** The values the row takes one after the other during a turn. */
  function RowsOf(row: Row, stage: Stage, retries: nat, e: Event): seq<Row>
    requires HasHandler(stage)
  {
    var r := AfterHandler(row, e);
    var counted := if e.outcome.Failure? && stage != Validate && !(e.readOk && r.paused) && !e.outcome.permanent
                   then Counted(r, e.countOk) else r;
    [row, r, counted, Iterate(row, stage, retries, e).row]
  }

  /** A crash leaves the row as it was after some of the writes. */
  function CrashRow(s: Sys, e: Event, at: nat): Row {
    if s.worker.Building? && HasHandler(s.worker.stage) && at < 4
    then RowsOf(s.row, s.worker.stage, s.worker.retries, e)[at] else s.row
  }

  predicate TakesCommands(w: Worker) { w == PausedLoop || w == IdleLoop }

  predicate Enabled(s: Sys, step: Step) {
    match step
    case Turn(_) => s.worker.Building? && HasHandler(s.worker.stage)
    case Crash(_, _) => true
    case Restart(_, _, _) => s.worker == Stopped
    case Wake(_, _) => TakesCommands(s.worker)
    case Update(_, _) => TakesCommands(s.worker)
    case FreshBuild(_, _) => TakesCommands(s.worker)
    case ToMonitoring => TakesCommands(s.worker)
    case ToPaused => TakesCommands(s.worker)
    case PauseTick(_, _) => s.worker == MonitoringLoop
    case ToolPause(_) => s.worker == MonitoringLoop
    case Ask => true
    case Answer => s.pending > 0
  }

  function Next(s: Sys, step: Step): Sys
    requires Enabled(s, step)
  {
    match step
    case Turn(e) =>
      (match Iterate(s.row, s.worker.stage, s.worker.retries, e)
       case Continue(row, stage, retries) => s.(row := row, worker := Arrived(stage, retries))
       case LeavePaused(row) => s.(row := row, worker := PausedLoop))
    case Crash(e, at) => s.(row := CrashRow(s, e, at), worker := Stopped)
    case Restart(mode, r, loaded) => Started(s, mode, r, loaded)
    case Wake(ok, loaded) =>
      if s.worker == IdleLoop then s
      else var row := Resumed(s.row, ok); s.(row := row, worker := Entered(row, loaded))
    case Update(ok, loaded) =>
      var row := Advanced(s.row, UpdatePlan, ok); s.(row := row, worker := Entered(row, loaded))
    case FreshBuild(ok, loaded) =>
      var row := Restarted(s.row, ok); s.(row := row, worker := Entered(row, loaded))
    case ToMonitoring => s.(worker := MonitoringLoop)
    case ToPaused => s.(worker := PausedLoop)
    case PauseTick(why, ok) => s.(row := PausedFor(s.row, why, ok), worker := PausedLoop)
    case ToolPause(why) => s.(row := PausedFor(s.row, why, true))
    case Ask => s.(pending := s.pending + 1)
    case Answer => s.(pending := s.pending - 1)
  }

  function Started(s: Sys, mode: Mode, r: Recovery, loaded: bool): Sys {
    match mode
    case ModeBuilding =>
      var (row, proceed) := Recovered(s.row, s.pending, r);
      s.(row := row, worker := if proceed then Entered(row, loaded) else PausedLoop)
    case ModeMonitoring => s.(worker := MonitoringLoop)
    case ModePaused => s.(worker := PausedLoop)
    case ModeOther => s.(worker := IdleLoop)
  }

  /** A history: each state follows from the one before by an enabled step. */
  ghost predicate IsRun(states: seq<Sys>, steps: seq<Step>) {
    && |states| == |steps| + 1
    && forall i :: 0 <= i < |steps| ==> Enabled(states[i], steps[i]) && states[i + 1] == Next(states[i], steps[i])
  }

  // ------------------------------------------------- the stages of the row

  /** Later in the stage graph, or the same. */
  predicate Reaches(a: Stage, b: Stage)
    decreases Rank(a)
  {
    a == b || (HasHandler(a) && Reaches(Successor(a), b))
  }

  lemma {:induction false} ReachesOn(a: Stage, b: Stage)
    requires Reaches(a, b) && HasHandler(b)
    ensures Reaches(a, Successor(b))
    decreases Rank(a)
  {
    if a == b {
      assert Reaches(Successor(a), Successor(b));
    } else {
      ReachesOn(Successor(a), b);
    }
  }

  lemma {:induction false} ReachesTrans(a: Stage, b: Stage, c: Stage)
    requires Reaches(a, b) && Reaches(b, c)
    ensures Reaches(a, c)
    decreases Rank(a)
  {
    if a != b {
      ReachesTrans(Successor(a), b, c);
    }
  }

  /** The graph has no way back. */
  lemma {:induction false} ReachesRank(a: Stage, b: Stage)
    requires Reaches(a, b)
    ensures Rank(a) >= Rank(b) && (a != b ==> Rank(a) > Rank(b))
    decreases Rank(a)
  {
    if a != b {
      ReachesRank(Successor(a), b);
    }
  }

  lemma NoWayBack(a: Stage, b: Stage)
    requires Reaches(a, b) && a != b
    ensures !Reaches(b, a)
  {
    ReachesRank(a, b);
    if Reaches(b, a) {
      ReachesRank(b, a);
    }
  }

  /** The commands that set the stage on purpose. */
  predicate SetsStage(step: Step) { step.Update? || step.FreshBuild? }

  /** Even when writes fail: the loop is where the row says, or further on. */
  ghost predicate NotBehind(s: Sys) {
    s.worker.Building? ==> HasHandler(s.worker.stage) && Reaches(s.row.stage, s.worker.stage)
  }

  lemma TurnReaches(row: Row, stage: Stage, retries: nat, e: Event)
    requires HasHandler(stage) && Reaches(row.stage, stage)
    ensures
      var turn := Iterate(row, stage, retries, e);
      && Reaches(row.stage, turn.row.stage)
      && (turn.Continue? ==> Reaches(turn.row.stage, turn.stage))
  {
    ReachesOn(row.stage, stage);
  }

  lemma NextNotBehind(s: Sys, step: Step)
    requires NotBehind(s) && Enabled(s, step)
    ensures NotBehind(Next(s, step))
    ensures !SetsStage(step) ==> Reaches(s.row.stage, Next(s, step).row.stage)
  {
    if step.Turn? {
      TurnReaches(s.row, s.worker.stage, s.worker.retries, step.e);
    } else if step.Crash? && s.worker.Building? {
      TurnReaches(s.row, s.worker.stage, s.worker.retries, step.e);
    }
  }

  /** Over every history, whatever writes fail and wherever it crashes: without an update or
      a fresh build the persisted stage only moves on in the graph, which has no way back, so a
      stage that was left is not entered again. */
  lemma {:induction false} StageNeverGoesBack(states: seq<Sys>, steps: seq<Step>, i: nat, j: nat)
    requires IsRun(states, steps) && i <= j < |states| && NotBehind(states[i])
    requires forall k :: i <= k < j ==> !SetsStage(steps[k])
    ensures NotBehind(states[j]) && Reaches(states[i].row.stage, states[j].row.stage)
    ensures states[i].row.stage != states[j].row.stage ==> !Reaches(states[j].row.stage, states[i].row.stage)
    decreases j
  {
    if i < j {
      StageNeverGoesBack(states, steps, i, j - 1);
      assert !SetsStage(steps[j - 1]);
      NextNotBehind(states[j - 1], steps[j - 1]);
      ReachesTrans(states[i].row.stage, states[j - 1].row.stage, states[j].row.stage);
    }
    if states[i].row.stage != states[j].row.stage {
      NoWayBack(states[i].row.stage, states[j].row.stage);
    }
  }

  // ------------------------------------------- the loop and the row in step

  predicate AllOk(e: Event) { e.readOk && e.advanceOk && e.countOk && e.pauseOk }

  /** No access to the database fails in this step. */
  predicate Faithful(step: Step) {
    match step
    case Turn(e) => AllOk(e)
    case Crash(e, _) => AllOk(e)
    case Restart(_, r, loaded) => r == FLAWLESS && loaded
    case Wake(ok, loaded) => ok && loaded
    case Update(ok, loaded) => ok && loaded
    case FreshBuild(ok, loaded) => ok && loaded
    case PauseTick(_, ok) => ok
    case ToolPause(_) => true
    case ToMonitoring => true
    case ToPaused => true
    case Ask => true
    case Answer => true
  }

  /** The stage in memory is the persisted one, and the persisted count of errors covers the
      retries made. */
  predicate InStep(s: Sys) {
    s.worker.Building? ==>
      && HasHandler(s.worker.stage) && s.row.stage == s.worker.stage
      && s.worker.retries < Cap(s.worker.stage)
      && (s.worker.stage != Validate ==> s.row.errorCount >= s.worker.retries)
  }

  lemma NextInStep(s: Sys, step: Step)
    requires InStep(s) && Enabled(s, step) && Faithful(step)
    ensures InStep(Next(s, step))
    ensures SetsStage(step) || Next(s, step).row.stage == s.row.stage
         || (HasHandler(s.row.stage) && Next(s, step).row.stage == Successor(s.row.stage))
  {}

  /** Over every history without failing writes the two stages agree at each head of the
      loop, and the persisted stage takes one edge of the graph at a time. */
  lemma {:induction false} RowAndLoopAgree(states: seq<Sys>, steps: seq<Step>, j: nat)
    requires IsRun(states, steps) && InStep(states[0]) && j < |states|
    requires forall k :: 0 <= k < |steps| ==> Faithful(steps[k])
    ensures InStep(states[j])
    ensures forall k :: 0 <= k < j ==>
      || SetsStage(steps[k]) || states[k + 1].row.stage == states[k].row.stage
      || (HasHandler(states[k].row.stage) && states[k + 1].row.stage == Successor(states[k].row.stage))
    decreases j
  {
    if j > 0 {
      RowAndLoopAgree(states, steps, j - 1);
      assert Faithful(steps[j - 1]);
      NextInStep(states[j - 1], steps[j - 1]);
    }
  }

  /** With failing writes: exactly one of the paths parts the two, a validation that is given
      up while the write of the next stage fails. */
  lemma PartsIff(row: Row, retries: nat, stage: Stage, e: Event)
    requires HasHandler(stage) && row.stage == stage && Iterate(row, stage, retries, e).Continue?
    ensures
      var turn := Iterate(row, stage, retries, e);
      turn.row.stage != turn.stage <==>
        stage == Validate && e.outcome.Failure? && !(retries < 1 && e.outcome.critical) && !e.advanceOk
  {}

  // ------------------------------------------------------------------ pauses

  /** A pause written during a handler stops the loop exactly when that handler fails. */
  lemma PauseStopsIffFailed(row: Row, stage: Stage, retries: nat, e: Event)
    requires HasHandler(stage) && e.pausing.Some? && e.readOk
    ensures Iterate(row, stage, retries, e).LeavePaused? <==> e.outcome.Failure?
    ensures Iterate(row, stage, retries, e).row.paused
  {}

  /** The reason alone keeps a recovery from lifting the pause. */
  predicate LockedByReason(s: Sys) {
    s.row.reason == None || s.row.reason == Some(Approval) || (s.row.reason == Some(OwnerAnswers) && s.pending > 0)
  }

  /** What a recovery will not lift. */
  predicate Locked(s: Sys) {
    s.row.paused && !s.worker.Building? && (s.row.errorCount >= MAX_STAGE_RETRIES || LockedByReason(s))
  }

  /** Crashes, restarts, questions and answers but the last one that is waited for. Where only
      the count of errors locks, a restart has to read it. */
  predicate Quiet(s: Sys, step: Step) {
    match step
    case Crash(_, _) => true
    case Restart(_, r, _) => r.countRead || LockedByReason(s)
    case Ask => true
    case ToMonitoring => true
    case ToPaused => true
    case Answer => s.pending > 1 || s.row.reason != Some(OwnerAnswers) || s.row.errorCount >= MAX_STAGE_RETRIES
    case _ => false
  }

  lemma LockHolds(s: Sys, step: Step)
    requires Locked(s) && Enabled(s, step) && Quiet(s, step)
    ensures Locked(Next(s, step)) && Next(s, step).row.stage == s.row.stage && Next(s, step).row.reason == s.row.reason
  {}

  /** However often the process crashes and is started again: a locked pipeline runs no stage
      until the owner acts. */
  lemma {:induction false} LockSurvivesCrashes(states: seq<Sys>, steps: seq<Step>, j: nat)
    requires IsRun(states, steps) && Locked(states[0]) && j < |states|
    requires forall k :: 0 <= k < |steps| ==> Quiet(states[k], steps[k])
    ensures Locked(states[j]) && !states[j].worker.Building?
    ensures states[j].row.stage == states[0].row.stage && states[j].row.reason == states[0].row.reason
    decreases j
  {
    if j > 0 {
      LockSurvivesCrashes(states, steps, j - 1);
      assert Quiet(states[j - 1], steps[j - 1]);
      LockHolds(states[j - 1], steps[j - 1]);
    }
  }

  /** And only those: with a count of errors below the limit and no lock the persisted stage is
      run again. */
  lemma RestartBuildsIfUnlocked(s: Sys)
    requires s.worker == Stopped
    ensures
      Next(s, Restart(ModeBuilding, FLAWLESS, true)).worker == Building(s.row.stage, 0)
      <==> HasHandler(s.row.stage) && !Locked(s) && s.row.errorCount < MAX_STAGE_RETRIES
  {
    match s.row.reason
    case None =>
    case Some(OwnerAnswers) =>
    case Some(Approval) =>
    case Some(Other) =>
  }

  /** A stage out of retries leaves a locked row behind: locked by the count, not by the reason. */
  lemma ExhaustionLocks(s: Sys, e: Event)
    requires InStep(s) && s.worker.Building? && AllOk(e) && e.pausing.None? && !s.row.paused
    requires e.outcome.Failure? && !e.outcome.permanent && s.worker.stage != Validate
    requires s.worker.retries + 1 == MAX_STAGE_RETRIES
    ensures
      var t := Next(s, Turn(e));
      && Locked(t) && !LockedByReason(t) && t.worker == PausedLoop
      && t.row.stage == s.row.stage && t.row.errorCount == s.row.errorCount + 1
  {}

  /** A pause for a permanent error is locked only when enough errors were counted before:
      otherwise the next restart lifts it and runs the stage again. */
  lemma BreakerLocksIff(s: Sys, e: Event)
    requires InStep(s) && s.worker.Building? && AllOk(e) && e.pausing.None? && !s.row.paused
    requires e.outcome.Failure? && e.outcome.permanent && s.worker.stage != Validate
    ensures
      var t := Next(s, Turn(e));
      && t.worker == PausedLoop && t.row.paused
      && (Locked(t) <==> s.row.errorCount >= MAX_STAGE_RETRIES)
  {}

  /** The steps that may take a pause away. */
  predicate MayLift(step: Step) { step.Wake? || step.FreshBuild? || (step.Restart? && step.mode == ModeBuilding) }

  /** Some update among the first n steps was written down. */
  predicate Updated(steps: seq<Step>, n: nat)
    requires n <= |steps|
  {
    exists k :: 0 <= k < n && steps[k].Update? && steps[k].ok
  }

  lemma PauseHolds(s: Sys, step: Step)
    requires s.row.paused && !s.worker.Building? && Enabled(s, step) && !MayLift(step)
    ensures
      var t := Next(s, step);
      && t.row.paused && !t.worker.Building?
      && t.row.stage == if step.Update? && step.ok then UpdatePlan else s.row.stage
  {}

  /** Whatever happens to a paused pipeline, updates included, it runs no stage until a wake, a
      fresh build or a restart in building mode. A wake then lifts the pause, whatever it was
      for, and starts with the update if there was one, and else with the stage it had. */
  lemma {:induction false} PausedUntilWake(states: seq<Sys>, steps: seq<Step>, j: nat)
    requires IsRun(states, steps) && states[0].row.paused && !states[0].worker.Building? && j < |states|
    requires forall k :: 0 <= k < j ==> !MayLift(steps[k])
    ensures states[j].row.paused && !states[j].worker.Building?
    ensures states[j].row.stage == if Updated(steps, j) then UpdatePlan else states[0].row.stage
    ensures states[j].worker == PausedLoop && HasHandler(states[j].row.stage) ==>
              var t := Next(states[j], Wake(true, true));
              !t.row.paused && t.worker == Building(states[j].row.stage, 0)
    decreases j
  {
    if j > 0 {
      PausedUntilWake(states, steps, j - 1);
      assert !MayLift(steps[j - 1]);
      PauseHolds(states[j - 1], steps[j - 1]);
      assert Updated(steps, j) <==> Updated(steps, j - 1) || (steps[j - 1].Update? && steps[j - 1].ok);
    }
  }

  // ------------------------------------------------------- turns and the loop

  /** Where the worker is when the loop was left. */
  predicate LeftAs(exit: Exit, w: Worker) {
    match exit
    case ReachedMonitoring => w == MonitoringLoop
    case Paused => w == PausedLoop
    case Cancelled => w.Building?
    case UnknownStage => w == Stopped
    case NoState => false
  }

  /** The loop of the worker is a history of turns: the same stages are run, and it ends with
      the same row and in the corresponding loop. */
  lemma {:induction false} LoopIsARun(s: Sys, events: seq<Event>) returns (states: seq<Sys>)
    requires s.worker.Building? && HasHandler(s.worker.stage)
    ensures
      var end := RunFrom(s.row, s.worker.stage, s.worker.retries, events);
      var n := |end.trace|;
      && n <= |events| && IsRun(states, TurnsOf(events[..n])) && states[0] == s
      && states[n].row == end.row && LeftAs(end.exit, states[n].worker)
      && forall k :: 0 <= k < n ==> states[k].worker.Building? && states[k].worker.stage == end.trace[k]
    decreases |events|
  {
    if events == [] {
      return [s];
    }
    var t := Next(s, Turn(events[0]));
    var rest: seq<Sys> := [t];
    if t.worker.Building? {
      rest := LoopIsARun(t, events[1..]);
    }
    states := [s] + rest;
    var end := RunFrom(s.row, s.worker.stage, s.worker.retries, events);
    RunHasTurn(s, t, events);
    OneTurnFirst(s, t, events, |end.trace|, rest);
  }

  /** The loop makes the first turn, and goes on from there if it goes on. */
  lemma RunHasTurn(s: Sys, t: Sys, events: seq<Event>)
    requires s.worker.Building? && HasHandler(s.worker.stage) && events != [] && t == Next(s, Turn(events[0]))
    ensures
      var end := RunFrom(s.row, s.worker.stage, s.worker.retries, events);
      && (t.worker.Building? ==> HasHandler(t.worker.stage))
      && (t.worker.Building? ==>
           end == Before(s.worker.stage, RunFrom(t.row, t.worker.stage, t.worker.retries, events[1..])))
      && (!t.worker.Building? ==> end.row == t.row && end.trace == [s.worker.stage] && LeftAs(end.exit, t.worker))
  {}

  lemma OneTurnFirst(s: Sys, t: Sys, events: seq<Event>, n: nat, rest: seq<Sys>)
    requires s.worker.Building? && HasHandler(s.worker.stage) && 1 <= n <= |events| && t == Next(s, Turn(events[0]))
    requires IsRun(rest, TurnsOf(events[1..][..n - 1])) && rest[0] == t
    ensures IsRun([s] + rest, TurnsOf(events[..n]))
  {
    var states, steps := [s] + rest, TurnsOf(events[..n]);
    TurnsSplit(events, n);
    forall i | 0 <= i < |steps| ensures Enabled(states[i], steps[i]) && states[i + 1] == Next(states[i], steps[i]) {
      if i > 0 {
        assert states[i] == rest[i - 1] && states[i + 1] == rest[i];
        assert steps[i] == TurnsOf(events[1..][..n - 1])[i - 1];
      }
    }
  }

  function TurnsOf(events: seq<Event>): (r: seq<Step>)
    ensures |r| == |events|
  {
    seq(|events|, k requires 0 <= k < |events| => Turn(events[k]))
  }

  lemma TurnsSplit(events: seq<Event>, n: nat)
    requires 1 <= n <= |events|
    ensures TurnsOf(events[..n]) == [Turn(events[0])] + TurnsOf(events[1..][..n - 1])
  {}
}
