/** brain/pipeline.go: the build loop over the stages, with its retries, pauses and the row
    in which the stage is persisted; brain/plan.go: the operations on that row. */
module Pipeline {
  import opened Wrappers

  datatype Stage = Expand | Plan | Build | Validate | Complete | Monitoring | UpdatePlan | Unknown

  /** OwnerAnswers and Approval are the two reasons the code gives a name; any other text is Other. */
  datatype Reason = OwnerAnswers | Approval | Other

  /** The one row of ho_pipeline_state, as far as the loop is concerned; None is SQL's NULL. */
  datatype Row = Row(stage: Stage, errorCount: nat, paused: bool, reason: Option<Reason>)

  const MAX_STAGE_RETRIES := 3

  predicate HasHandler(s: Stage) { s != Monitoring && s != Unknown }

  /** The stage a handler names when it succeeds. */
  function Successor(s: Stage): Stage
    requires HasHandler(s)
  {
    match s
    case Expand => Plan
    case Plan => Build
    case Build => Validate
    case Validate => Complete
    case Complete => Monitoring
    case UpdatePlan => Build
  }

  // ------------------------------------------------------- writes to the row

  /** Each write may fail, and then changes nothing. */
  function Advanced(row: Row, s: Stage, ok: bool): Row { if ok then row.(stage := s, errorCount := 0) else row }

  function PausedFor(row: Row, why: Reason, ok: bool): Row {
    if ok then row.(paused := true, reason := Some(why)) else row
  }

  function Resumed(row: Row, ok: bool): Row { if ok then row.(paused := false, reason := None) else row }

  function Counted(row: Row, ok: bool): Row { if ok then row.(errorCount := row.errorCount + 1) else row }

  function Restarted(row: Row, ok: bool): Row { if ok then Row(Expand, 0, false, None) else row }

  // ------------------------------------------------------ one turn of the loop

  datatype Outcome = Success | Failure(critical: bool, permanent: bool)

  /** What happens around one run of a handler: a tool may pause the pipeline meanwhile, and
      each access to the row may succeed or fail. */
  datatype Event = Event(pausing: Option<Reason>, outcome: Outcome,
                         readOk: bool, advanceOk: bool, countOk: bool, pauseOk: bool)

  datatype Turn = Continue(row: Row, stage: Stage, retries: nat) | LeavePaused(row: Row)

  function AfterHandler(row: Row, e: Event): Row {
    if e.pausing.Some? then PausedFor(row, e.pausing.value, true) else row
  }

  function Iterate(row: Row, stage: Stage, retries: nat, e: Event): Turn
    requires HasHandler(stage)
  {
    var r := AfterHandler(row, e);
    if e.outcome.Success? then
      if e.advanceOk then Continue(Advanced(r, Successor(stage), true), Successor(stage), 0)
      else Continue(r, stage, retries)
    else if e.readOk && r.paused then LeavePaused(r)
    else if stage == Validate then
      if retries < 1 && e.outcome.critical then Continue(r, stage, retries + 1)
      else Continue(Advanced(r, Complete, e.advanceOk), Complete, 0)
    else if e.outcome.permanent then LeavePaused(PausedFor(r, Other, e.pauseOk))
    else if retries + 1 >= MAX_STAGE_RETRIES then LeavePaused(PausedFor(Counted(r, e.countOk), Other, e.pauseOk))
    else Continue(Counted(r, e.countOk), stage, retries + 1)
  }

  datatype Exit = ReachedMonitoring | Paused | Cancelled | UnknownStage | NoState

  /** How a run ended, and the stages whose handlers were run. */
  datatype Ended = Ended(row: Row, exit: Exit, trace: seq<Stage>)

  /** The loop; the context is cancelled when the events are used up. */
  function RunFrom(row: Row, stage: Stage, retries: nat, events: seq<Event>): Ended
    decreases |events|
  {
    if stage == Monitoring then Ended(row, ReachedMonitoring, [])
    else if !HasHandler(stage) then Ended(row, UnknownStage, [])
    else if events == [] then Ended(row, Cancelled, [])
    else
      match Iterate(row, stage, retries, events[0])
      case LeavePaused(r) => Ended(r, Paused, [stage])
      case Continue(r, s, n) => Before(stage, RunFrom(r, s, n, events[1..]))
  }

  function Before(s: Stage, rest: Ended): Ended { rest.(trace := [s] + rest.trace) }

  /** From loading the row to leaving the loop. */
  function Built(row: Row, loaded: bool, events: seq<Event>): Ended {
    if !loaded then Ended(row, NoState, [])
    else if row.paused then Ended(row, Paused, [])
    else RunFrom(row, row.stage, 0, events)
  }

  // ------------------------------------------------------------------ bounds

  /** Every success is written down. */
  ghost predicate Advancing(events: seq<Event>) {
    forall k :: 0 <= k < |events| ==> events[k].outcome.Success? ==> events[k].advanceOk
  }

  /** How often a stage may run. */
  function Cap(s: Stage): nat { if s == Validate then 2 else MAX_STAGE_RETRIES }

  function Left(s: Stage, retries: nat): nat { if retries < Cap(s) then Cap(s) - retries else 1 }

  function Rank(s: Stage): nat {
    match s
    case Expand => 5
    case Plan => 4
    case UpdatePlan => 4
    case Build => 3
    case Validate => 2
    case Complete => 1
    case Monitoring => 0
    case Unknown => 0
  }

  /** Handler runs that may follow from a stage on. */
  function Budget(s: Stage): nat
    decreases Rank(s)
  {
    if HasHandler(s) then Cap(s) + Budget(Successor(s)) else 0
  }

  /** A success whose write fails. */
  predicate LosesAdvance(e: Event) { e.outcome.Success? && !e.advanceOk }

  function Lost(events: seq<Event>): nat {
    if events == [] then 0 else (if LosesAdvance(events[0]) then 1 else 0) + Lost(events[1..])
  }

  /** A turn stays at the stage and uses up a retry, or goes to the next stage; a success whose
      write fails changes neither. */
  lemma TurnMoves(row: Row, stage: Stage, retries: nat, e: Event)
    requires HasHandler(stage) && retries < Cap(stage)
    ensures
      var turn := Iterate(row, stage, retries, e);
      turn.Continue? ==>
        if LosesAdvance(e) then turn.stage == stage && turn.retries == retries
        else
          || (turn.stage == stage && turn.retries == retries + 1 < Cap(stage))
          || (turn.stage == Successor(stage) && turn.retries == 0)
  {}

  /** The chances at a stage and all its successors. */
  function Chances(stage: Stage, retries: nat): nat {
    if HasHandler(stage) then Left(stage, retries) + Budget(Successor(stage)) else 0
  }

  /** A turn that goes on uses up a chance, unless it is a success whose write fails. */
  lemma TurnUsesChance(row: Row, stage: Stage, retries: nat, e: Event)
    requires HasHandler(stage) && retries < Cap(stage)
    ensures
      var turn := Iterate(row, stage, retries, e);
      turn.Continue? ==>
        && (HasHandler(turn.stage) ==> turn.retries < Cap(turn.stage))
        && (LosesAdvance(e) ==> Chances(turn.stage, turn.retries) == Chances(stage, retries))
        && (!LosesAdvance(e) ==> Chances(turn.stage, turn.retries) < Chances(stage, retries))
  {
    TurnMoves(row, stage, retries, e);
  }

  lemma LostHead(events: seq<Event>, n: nat)
    requires n < |events|
    ensures Lost(events[..n + 1]) == (if LosesAdvance(events[0]) then 1 else 0) + Lost(events[1..][..n])
  {
    assert events[..n + 1][1..] == events[1..][..n];
  }

  /** Whatever fails and however long it goes on: the handler runs are at most the chances left
      for the stage and all its successors, and one more for each success whose write was lost. */
  lemma {:induction false} RunsAreBounded(row: Row, stage: Stage, retries: nat, events: seq<Event>)
    requires HasHandler(stage) ==> retries < Cap(stage)
    ensures
      var ended := RunFrom(row, stage, retries, events);
      && |ended.trace| <= |events|
      && |ended.trace| <= Chances(stage, retries) + Lost(events[..|ended.trace|])
      && (ended.exit == Cancelled ==> |ended.trace| == |events|)
      && (ended.exit == Cancelled ==> |ended.trace| < Chances(stage, retries) + Lost(events[..|ended.trace|]))
    decreases |events|
  {
    if events != [] && HasHandler(stage) {
      TurnUsesChance(row, stage, retries, events[0]);
      var turn := Iterate(row, stage, retries, events[0]);
      if turn.Continue? {
        RunsAreBounded(turn.row, turn.stage, turn.retries, events[1..]);
        LostHead(events, |RunFrom(turn.row, turn.stage, turn.retries, events[1..]).trace|);
      }
    }
  }

  lemma {:induction false} NoneLost(events: seq<Event>, n: nat)
    requires Advancing(events) && n <= |events|
    ensures Lost(events[..n]) == 0
    decreases n
  {
    if n > 0 {
      assert events[0].outcome.Success? ==> events[0].advanceOk;
      NoneLost(events[1..], n - 1);
      LostHead(events, n - 1);
    }
  }

  lemma ExitsAre(row: Row, stage: Stage, retries: nat, events: seq<Event>)
    requires HasHandler(stage) && retries < Cap(stage)
    ensures RunFrom(row, stage, retries, events).exit in {ReachedMonitoring, Paused, Cancelled}
    decreases |events|
  {
    if events != [] {
      TurnMoves(row, stage, retries, events[0]);
      var turn := Iterate(row, stage, retries, events[0]);
      if turn.Continue? && HasHandler(turn.stage) {
        ExitsAre(turn.row, turn.stage, turn.retries, events[1..]);
      }
    }
  }

  /** With every success written down the loop ends after at most as many handler runs as are
      left for the stage and all its successors, whatever else fails. */
  lemma LoopIsBounded(row: Row, stage: Stage, retries: nat, events: seq<Event>)
    requires Advancing(events) && HasHandler(stage) && retries < Cap(stage)
    ensures
      var ended := RunFrom(row, stage, retries, events);
      && |ended.trace| <= Chances(stage, retries)
      && (|events| >= Chances(stage, retries) ==> ended.exit.ReachedMonitoring? || ended.exit.Paused?)
  {
    RunsAreBounded(row, stage, retries, events);
    NoneLost(events, |RunFrom(row, stage, retries, events).trace|);
    ExitsAre(row, stage, retries, events);
  }

  /** Fourteen handler runs from the first stage, eleven from an update, and one more for each
      success whose write was lost. */
  lemma FourteenOrEleven(row: Row, events: seq<Event>)
    ensures
      var n := |Built(row, true, events).trace|;
      && n <= |events|
      && (row.stage == Expand ==> n <= 14 + Lost(events[..n]))
      && (row.stage == UpdatePlan ==> n <= 11 + Lost(events[..n]))
    ensures Advancing(events) && row.stage == Expand && |events| >= 14 ==>
              Built(row, true, events).exit in {ReachedMonitoring, Paused}
    ensures Advancing(events) && row.stage == UpdatePlan && |events| >= 11 ==>
              Built(row, true, events).exit in {ReachedMonitoring, Paused}
  {
    BudgetValues();
    if HasHandler(row.stage) && !row.paused {
      RunsAreBounded(row, row.stage, 0, events);
      if Advancing(events) {
        LoopIsBounded(row, row.stage, 0, events);
      }
    }
  }

  lemma BudgetValues()
    ensures Budget(Expand) == 14 && Budget(UpdatePlan) == 11 && Budget(Plan) == 11 && Budget(Build) == 8
  {
    assert Budget(Complete) == 3;
    assert Budget(Validate) == 5;
    assert Budget(Build) == 8;
  }

  function Runs(trace: seq<Stage>, s: Stage): nat {
    if trace == [] then 0 else (if trace[0] == s then 1 else 0) + Runs(trace[1..], s)
  }

  /** Runs of s still within its cap when the loop is at a stage and so many writes were lost. */
  predicate WithinCap(runs: nat, stage: Stage, retries: nat, s: Stage, lost: nat) {
    && runs <= Cap(s) + lost
    && (s == stage ==> runs <= Left(stage, retries) + lost)
    && (s != stage && Rank(s) >= Rank(stage) ==> runs == 0)
  }

  lemma OneMoreRun(rest: nat, stage: Stage, retries: nat, next: Stage, nextRetries: nat, s: Stage, lost: nat)
    requires HasHandler(stage) && retries < Cap(stage)
    requires (next == stage && nextRetries == retries + 1 < Cap(stage)) ||
             (next == Successor(stage) && nextRetries == 0)
    requires if HasHandler(next) then WithinCap(rest, next, nextRetries, s, lost) else rest == 0
    ensures WithinCap((if stage == s then 1 else 0) + rest, stage, retries, s, lost)
  {}

  lemma OneLostRun(rest: nat, stage: Stage, retries: nat, s: Stage, lost: nat)
    requires WithinCap(rest, stage, retries, s, lost)
    ensures WithinCap((if stage == s then 1 else 0) + rest, stage, retries, s, lost + 1)
  {}

  lemma RunSteps(row: Row, stage: Stage, retries: nat, events: seq<Event>)
    requires HasHandler(stage) && events != []
    ensures
      var turn := Iterate(row, stage, retries, events[0]);
      var trace := RunFrom(row, stage, retries, events).trace;
      trace == [stage] + if turn.Continue? then RunFrom(turn.row, turn.stage, turn.retries, events[1..]).trace else []
  {}

  /** The first turn and the bound for the others. */
  lemma TurnWithin(row: Row, stage: Stage, retries: nat, e: Event, rest: nat, s: Stage, lost: nat)
    requires HasHandler(stage) && retries < Cap(stage) && Iterate(row, stage, retries, e).Continue?
    requires
      var turn := Iterate(row, stage, retries, e);
      if HasHandler(turn.stage) then WithinCap(rest, turn.stage, turn.retries, s, lost) else rest == 0
    ensures WithinCap((if stage == s then 1 else 0) + rest, stage, retries, s,
                      (if LosesAdvance(e) then 1 else 0) + lost)
  {
    TurnMoves(row, stage, retries, e);
    var turn := Iterate(row, stage, retries, e);
    if LosesAdvance(e) {
      OneLostRun(rest, stage, retries, s, lost);
    } else {
      OneMoreRun(rest, stage, retries, turn.stage, turn.retries, s, lost);
    }
  }

  /** VALIDATE runs at most twice and every other stage at most three times, and once more for
      each success whose write was lost. */
  lemma {:induction false} EachStageIsBounded(row: Row, stage: Stage, retries: nat, events: seq<Event>, s: Stage)
    requires HasHandler(stage) && retries < Cap(stage)
    ensures
      var trace := RunFrom(row, stage, retries, events).trace;
      |trace| <= |events| && WithinCap(Runs(trace, s), stage, retries, s, Lost(events[..|trace|]))
    decreases |events|, 1
  {
    if events != [] {
      RunSteps(row, stage, retries, events);
      var turn := Iterate(row, stage, retries, events[0]);
      if turn.Continue? {
        var rest := RunFrom(turn.row, turn.stage, turn.retries, events[1..]).trace;
        RunsCons(stage, rest, s);
        LaterWithin(row, stage, retries, events, s);
        LostHead(events, |rest|);
        TurnWithin(row, stage, retries, events[0], Runs(rest, s), s, Lost(events[1..][..|rest|]));
      } else {
        RunsCons(stage, [], s);
      }
    }
  }

  lemma {:induction false} LaterWithin(row: Row, stage: Stage, retries: nat, events: seq<Event>, s: Stage)
    requires HasHandler(stage) && retries < Cap(stage) && events != []
    requires Iterate(row, stage, retries, events[0]).Continue?
    ensures
      var turn := Iterate(row, stage, retries, events[0]);
      var rest := RunFrom(turn.row, turn.stage, turn.retries, events[1..]).trace;
      && |rest| <= |events| - 1
      && if HasHandler(turn.stage)
         then WithinCap(Runs(rest, s), turn.stage, turn.retries, s, Lost(events[1..][..|rest|]))
         else rest == []
    decreases |events|, 0
  {
    TurnUsesChance(row, stage, retries, events[0]);
    var turn := Iterate(row, stage, retries, events[0]);
    if HasHandler(turn.stage) {
      EachStageIsBounded(turn.row, turn.stage, turn.retries, events[1..], s);
    }
  }

  lemma RunsCons(s: Stage, trace: seq<Stage>, x: Stage)
    ensures Runs([s] + trace, x) == (if s == x then 1 else 0) + Runs(trace, x)
  {
    assert ([s] + trace)[1..] == trace;
  }

  /** When the write after a success keeps failing the same stage is run again and again, and
      no retry is counted: the loop is then where it was before. */
  lemma {:induction false} LostAdvanceRepeats(row: Row, stage: Stage, retries: nat, lost: seq<Event>, rest: seq<Event>)
    requires HasHandler(stage)
    requires forall k :: 0 <= k < |lost| ==> LosesAdvance(lost[k]) && lost[k].pausing.None?
    ensures
      var later := RunFrom(row, stage, retries, rest);
      RunFrom(row, stage, retries, lost + rest) == later.(trace := seq(|lost|, _ => stage) + later.trace)
    decreases |lost|
  {
    if lost == [] {
      assert lost + rest == rest;
    } else {
      assert (lost + rest)[1..] == lost[1..] + rest;
      LostAdvanceRepeats(row, stage, retries, lost[1..], rest);
      assert [stage] + seq(|lost| - 1, _ => stage) == seq(|lost|, _ => stage);
    }
  }

  // -------------------------------------------------- a run that uses it all

  const FAIL := Event(None, Failure(true, false), true, true, true, true)

  const PASS := Event(None, Success, true, true, true, true)

  /** A stage that fails until its last chance. */
  function WorstOf(s: Stage): seq<Event>
    requires HasHandler(s)
  {
    if s == Validate then [FAIL, PASS] else [FAIL, FAIL, PASS]
  }

  function Worst(s: Stage): seq<Event>
    decreases Rank(s)
  {
    if HasHandler(s) then WorstOf(s) + Worst(Successor(s)) else []
  }

  lemma RunHead(row: Row, stage: Stage, retries: nat, e: Event, rest: seq<Event>)
    requires HasHandler(stage) && Iterate(row, stage, retries, e).Continue?
    ensures
      var turn := Iterate(row, stage, retries, e);
      RunFrom(row, stage, retries, [e] + rest) == Before(stage, RunFrom(turn.row, turn.stage, turn.retries, rest))
  {
    assert ([e] + rest)[1..] == rest;
  }

  /** A stage that needs all its chances, seen from the loop. */
  lemma WorstStage(row: Row, s: Stage, rest: seq<Event>) returns (after: Row)
    requires HasHandler(s) && !row.paused
    ensures !after.paused
    ensures
      var here, later := RunFrom(row, s, 0, WorstOf(s) + rest), RunFrom(after, Successor(s), 0, rest);
      here.exit == later.exit && |here.trace| == Cap(s) + |later.trace|
  {
    var one := [PASS] + rest;
    var two := [FAIL] + one;
    if s == Validate {
      assert WorstOf(s) + rest == two;
      RunHead(row, s, 0, FAIL, one);
      RunHead(row, s, 1, PASS, rest);
      after := Advanced(row, Successor(s), true);
    } else {
      assert WorstOf(s) + rest == [FAIL] + two;
      var r1 := Counted(row, true);
      var r2 := Counted(r1, true);
      RunHead(row, s, 0, FAIL, two);
      RunHead(r1, s, 1, FAIL, one);
      RunHead(r2, s, 2, PASS, rest);
      after := Advanced(r2, Successor(s), true);
    }
  }

  /** The bound is reached: every stage used up to its last chance, and still the build ends. */
  lemma {:induction false} BoundIsReached(row: Row, stage: Stage)
    requires HasHandler(stage) && !row.paused
    ensures Advancing(Worst(stage))
    ensures RunFrom(row, stage, 0, Worst(stage)).exit == ReachedMonitoring
    ensures |RunFrom(row, stage, 0, Worst(stage)).trace| == Budget(stage)
    decreases Rank(stage)
  {
    var next := Successor(stage);
    var after := WorstStage(row, stage, Worst(next));
    if HasHandler(next) {
      BoundIsReached(after, next);
    }
  }

  const LOSE := Event(None, Success, true, false, true, true)

  lemma {:induction false} LostAdds(n: nat, events: seq<Event>)
    ensures Lost(seq(n, _ => LOSE) + events) == n + Lost(events)
    decreases n
  {
    var all := seq(n, _ => LOSE) + events;
    if n == 0 {
      assert all == events;
    } else {
      assert all[1..] == seq(n - 1, _ => LOSE) + events;
      LostAdds(n - 1, events);
    }
  }

  /** With any number of lost writes the bound is reached too. */
  lemma BoundIsReachedWithLosses(row: Row, stage: Stage, n: nat)
    requires HasHandler(stage) && !row.paused
    ensures
      var events := seq(n, _ => LOSE) + Worst(stage);
      var ended := RunFrom(row, stage, 0, events);
      Lost(events) == n && ended.exit == ReachedMonitoring && |ended.trace| == Budget(stage) + n
  {
    BoundIsReached(row, stage);
    LostAdvanceRepeats(row, stage, 0, seq(n, _ => LOSE), Worst(stage));
    LostAdds(n, Worst(stage));
    assert Worst(stage)[..|Worst(stage)|] == Worst(stage);
    NoneLost(Worst(stage), |Worst(stage)|);
  }

  // ------------------------------------------------------------- the worker

  datatype BrainState = Idle | BuildingState | PausedState | MonitoringState

  class PipelineWorker {
    var row: Row
    var state: BrainState

    constructor (row: Row)
      ensures this.row == row && state == Idle
    {
      this.row := row;
      state := Idle;
    }

    method AdvanceStage(s: Stage, ok: bool)
      modifies this`row
      ensures row == Advanced(old(row), s, ok)
    {
      if ok {
        row := row.(stage := s, errorCount := 0);
      }
    }

    method PausePipeline(why: Reason, ok: bool)
      modifies this`row
      ensures row == PausedFor(old(row), why, ok)
    {
      if ok {
        row := row.(paused := true, reason := Some(why));
      }
    }

    method ResumePipeline(ok: bool)
      modifies this`row
      ensures row == Resumed(old(row), ok)
    {
      if ok {
        row := row.(paused := false, reason := None);
      }
    }

    method IncrementErrorCount(ok: bool)
      modifies this`row
      ensures row == Counted(old(row), ok)
    {
      if ok {
        row := row.(errorCount := row.errorCount + 1);
      }
    }

    /** One run of a handler and what the loop makes of it. */
    method RunStage(stage: Stage, retries: nat, e: Event) returns (leave: bool, nextStage: Stage, nextRetries: nat)
      requires HasHandler(stage)
      modifies this
      ensures
        var turn := Iterate(old(row), stage, retries, e);
        row == turn.row && if leave then turn.LeavePaused? && state == PausedState
                           else turn == Continue(row, nextStage, nextRetries) && state == old(state)
    {
      leave, nextStage, nextRetries := false, stage, retries;
      if e.pausing.Some? {
        PausePipeline(e.pausing.value, true);
      }
      if e.outcome.Failure? {
        if e.readOk && row.paused {
          state := PausedState;
          return true, stage, retries;
        }
        if stage == Validate {
          if retries < 1 && e.outcome.critical {
            return false, stage, retries + 1;
          }
          AdvanceStage(Complete, e.advanceOk);
          return false, Complete, 0;
        }
        if e.outcome.permanent {
          PausePipeline(Other, e.pauseOk);
          state := PausedState;
          return true, stage, retries;
        }
        IncrementErrorCount(e.countOk);
        nextRetries := retries + 1;
        if nextRetries >= MAX_STAGE_RETRIES {
          PausePipeline(Other, e.pauseOk);
          state := PausedState;
          leave := true;
        }
        return;
      }
      AdvanceStage(Successor(stage), e.advanceOk);
      if e.advanceOk {
        nextStage, nextRetries := Successor(stage), 0;
      }
    }

    /** The build loop, one event for each run of a handler. */
    method RunBuildPipeline(loaded: bool, events: seq<Event>) returns (exit: Exit, trace: seq<Stage>)
      modifies this
      ensures Ended(row, exit, trace) == Built(old(row), loaded, events)
      ensures exit == ReachedMonitoring ==> state == MonitoringState
      ensures exit == Paused ==> state == PausedState
    {
      trace := [];
      if !loaded {
        return NoState, [];
      }
      if row.paused {
        state := PausedState;
        return Paused, [];
      }
      var stage, retries, i := row.stage, 0, 0;
      assert events[0..] == events;
      while true
        invariant 0 <= i <= |events|
        invariant Built(old(row), loaded, events) == AfterTrace(trace, RunFrom(row, stage, retries, events[i..]))
        decreases |events| - i
      {
        if stage == Monitoring {
          state := MonitoringState;
          return ReachedMonitoring, trace;
        }
        if !HasHandler(stage) {
          return UnknownStage, trace;
        }
        if i == |events| {
          return Cancelled, trace;
        }
        RunUnrolls(row, stage, retries, events, i, trace);
        var leave, nextStage, nextRetries := RunStage(stage, retries, events[i]);
        trace := trace + [stage];
        if leave {
          return Paused, trace;
        }
        stage, retries, i := nextStage, nextRetries, i + 1;
      }
    }
  }

  function AfterTrace(trace: seq<Stage>, rest: Ended): Ended { rest.(trace := trace + rest.trace) }

  lemma RunUnrolls(row: Row, stage: Stage, retries: nat, events: seq<Event>, i: nat, trace: seq<Stage>)
    requires HasHandler(stage) && i < |events|
    ensures
      var turn := Iterate(row, stage, retries, events[i]);
      AfterTrace(trace, RunFrom(row, stage, retries, events[i..]))
      == if turn.LeavePaused? then Ended(turn.row, Paused, trace + [stage])
         else AfterTrace(trace + [stage], RunFrom(turn.row, turn.stage, turn.retries, events[i + 1..]))
  {
    assert events[i..][0] == events[i] && events[i..][1..] == events[i + 1..];
    var turn := Iterate(row, stage, retries, events[i]);
    if turn.Continue? {
      assert forall t: seq<Stage> :: trace + ([stage] + t) == (trace + [stage]) + t;
    }
  }
}
