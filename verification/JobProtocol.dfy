/** Any number of workers and tools interleaving on the job table, one SQL
    statement at a time. A worker that stops or crashes simply disappears. */
module JobProtocol {
  import opened Wrappers
  import opened JobTable

  /** Where a worker is between two of its statements; an absent worker is between ticks. */
  datatype Phase =
    | Picked(id: nat)                                     // row selected, claim not yet tried
    | Executing(id: nat)                                  // claim succeeded, job is running
    | Failing(id: nat, attempts: nat, maxAttempts: nat)   // job failed, counts already read

  datatype System = System(
    rows: Rows,
    nextId: nat,
    now: int,
    workers: map<nat, Phase>,
    started: seq<nat>)        // ids in the order in which their executions began

  datatype Step =
    | Enqueue(req: Request)
    | Cancel(job: nat)
    | Pick(worker: nat)
    | Claim(worker: nat)
    | Succeed(worker: nat)
    | Fail(worker: nat)
    | Settle(worker: nat)
    | Stop(worker: nat)
    | Wait(seconds: nat)

  const START := System(map[], 1, 0, map[], [])

  function Next(s: System, step: Step): System {
    match step
    case Enqueue(req) =>
      if Accepted(req) then s.(rows := s.rows[s.nextId := NewJob(req, s.now)], nextId := s.nextId + 1) else s
    case Cancel(id) =>
      s.(rows := WithCancelled(s.rows, id))
    case Pick(w) =>
      var r := FirstReady(s.rows, s.now, s.nextId);
      if w !in s.workers && r.Some? then s.(workers := s.workers[w := Picked(r.value)]) else s
    case Claim(w) =>
      if !(w in s.workers && s.workers[w].Picked?) then s
      else
        var id := s.workers[w].id;
        if Claimable(s.rows, id) then
          s.(rows := Claimed(s.rows, id), workers := s.workers[w := Executing(id)], started := s.started + [id])
        else s.(workers := s.workers - {w})
    case Succeed(w) =>
      if !(w in s.workers && s.workers[w].Executing?) then s
      else s.(rows := WithStatus(s.rows, s.workers[w].id, Completed), workers := s.workers - {w})
    case Fail(w) =>
      if !(w in s.workers && s.workers[w].Executing?) then s
      else
        var id := s.workers[w].id;
        var (attempts, maxAttempts) := Attempts(s.rows, id);
        s.(workers := s.workers[w := Failing(id, attempts, maxAttempts)])
    case Settle(w) =>
      if !(w in s.workers && s.workers[w].Failing?) then s
      else
        var Failing(id, attempts, maxAttempts) := s.workers[w];
        s.(rows := AfterFailure(s.rows, id, attempts, maxAttempts, s.now), workers := s.workers - {w})
    case Stop(w) =>
      s.(workers := s.workers - {w})
    case Wait(seconds) =>
      s.(now := s.now + seconds)
  }

  function Run(s: System, steps: seq<Step>): System
    decreases |steps|
  {
    if steps == [] then s else Run(Next(s, steps[0]), steps[1..])
  }

  ghost predicate Reachable(s: System) {
    exists steps :: Run(START, steps) == s
  }

  /** w holds the job: it claimed the row and has not yet written the outcome. */
  predicate Busy(s: System, w: nat, id: nat) {
    w in s.workers && !s.workers[w].Picked? && s.workers[w].id == id
  }

  function Count(log: seq<nat>, id: nat): nat {
    if log == [] then 0 else Count(log[..|log| - 1], id) + (if log[|log| - 1] == id then 1 else 0)
  }

  function Limit(job: Job): nat { if job.maxAttempts < 1 then 1 else job.maxAttempts }

  // ------------------------------------------------------------- the invariant

  ghost predicate RowsOk(s: System) {
    && (forall id :: id in s.rows ==> id < s.nextId)
    && (forall id :: id in s.rows ==> s.rows[id].attempts <= Limit(s.rows[id]))
    && (forall id :: id in s.rows && s.rows[id].status == Pending ==> s.rows[id].attempts < Limit(s.rows[id]))
  }

  ghost predicate LogOk(s: System) {
    && (forall id :: id in s.rows ==> s.rows[id].attempts == Count(s.started, id))
    && (forall id :: id !in s.rows ==> Count(s.started, id) == 0)
  }

  ghost predicate HoldersOk(s: System) {
    && (forall w :: w in s.workers ==> s.workers[w].id in s.rows)
    && (forall w :: w in s.workers && !s.workers[w].Picked? ==>
          var job := s.rows[s.workers[w].id];
          && (job.status == Running || job.status == Cancelled)
          && job.attempts >= 1
          && (s.workers[w].Failing? ==>
                s.workers[w].attempts == job.attempts && s.workers[w].maxAttempts == job.maxAttempts))
    && (forall v, w, id :: Busy(s, v, id) && Busy(s, w, id) ==> v == w)
  }

  ghost predicate Inv(s: System) { RowsOk(s) && LogOk(s) && HoldersOk(s) }

  lemma CountAppend(log: seq<nat>, id: nat, x: nat)
    ensures Count(log + [x], id) == Count(log, id) + (if x == id then 1 else 0)
  {
    assert (log + [x])[..|log|] == log;
  }

  lemma NextKeepsRows(s: System, step: Step)
    requires Inv(s)
    ensures RowsOk(Next(s, step))
  {}

  lemma NextKeepsLog(s: System, step: Step)
    requires Inv(s)
    ensures LogOk(Next(s, step))
  {
    var t := Next(s, step);
    if t.started != s.started {
      var x := s.workers[step.worker].id;
      forall id ensures Count(t.started, id) == Count(s.started, id) + (if x == id then 1 else 0) {
        CountAppend(s.started, id, x);
      }
    }
  }

  /** The row a worker holds after a step is still running or cancelled, with the counts it read. */
  lemma HolderKeepsRow(s: System, step: Step, w: nat)
    requires Inv(s) && w in Next(s, step).workers && !Next(s, step).workers[w].Picked?
    ensures
      var t := Next(s, step);
      var id := t.workers[w].id;
      && id in t.rows
      && (t.rows[id].status == Running || t.rows[id].status == Cancelled)
      && t.rows[id].attempts >= 1
      && (t.workers[w].Failing? ==>
            t.workers[w].attempts == t.rows[id].attempts && t.workers[w].maxAttempts == t.rows[id].maxAttempts)
  {
    var id := Next(s, step).workers[w].id;
    match step {
      case Succeed(v) => assert Busy(s, w, id) && (Busy(s, v, id) ==> v == w);
      case Settle(v) => assert Busy(s, w, id) && (Busy(s, v, id) ==> v == w);
      case _ =>
    }
  }

  lemma NextKeepsSoleHolder(s: System, step: Step, v: nat, w: nat, id: nat)
    requires Inv(s) && Busy(Next(s, step), v, id) && Busy(Next(s, step), w, id)
    ensures v == w
  {
    assert !Busy(s, v, id) ==> step == Claim(v);
    assert !Busy(s, w, id) ==> step == Claim(w);
  }

  lemma NextKeepsHolders(s: System, step: Step)
    requires Inv(s)
    ensures HoldersOk(Next(s, step))
  {
    var t := Next(s, step);
    forall w | w in t.workers ensures t.workers[w].id in t.rows {
      if w in s.workers {
        assert s.workers[w].id in s.rows;
      }
    }
    forall w | w in t.workers && !t.workers[w].Picked?
      ensures
        var job := t.rows[t.workers[w].id];
        && (job.status == Running || job.status == Cancelled)
        && job.attempts >= 1
        && (t.workers[w].Failing? ==>
              t.workers[w].attempts == job.attempts && t.workers[w].maxAttempts == job.maxAttempts)
    {
      HolderKeepsRow(s, step, w);
    }
    forall v, w, id | Busy(t, v, id) && Busy(t, w, id) ensures v == w {
      NextKeepsSoleHolder(s, step, v, w, id);
    }
  }

  lemma NextKeepsInv(s: System, step: Step)
    requires Inv(s)
    ensures Inv(Next(s, step))
  {
    NextKeepsRows(s, step);
    NextKeepsLog(s, step);
    NextKeepsHolders(s, step);
  }

  lemma {:induction false} RunKeepsInv(s: System, steps: seq<Step>)
    requires Inv(s)
    ensures Inv(Run(s, steps))
    decreases |steps|
  {
    if steps != [] {
      NextKeepsInv(s, steps[0]);
      RunKeepsInv(Next(s, steps[0]), steps[1..]);
    }
  }

  lemma StartInv()
    ensures Inv(START)
  {}

  lemma ReachableInv(s: System)
    requires Reachable(s)
    ensures Inv(s)
  {
    var steps :| Run(START, steps) == s;
    StartInv();
    RunKeepsInv(START, steps);
  }

  // ------------------------------------------------------------------- safety

  /** At most one worker holds a job at a time. */
  lemma AtMostOneExecutor(s: System, v: nat, w: nat, id: nat)
    requires Reachable(s) && Busy(s, v, id) && Busy(s, w, id)
    ensures v == w
  {
    ReachableInv(s);
  }

  /** `attempts` counts the executions begun, and they never exceed max(1, max_attempts). */
  lemma AttemptsCountExecutions(s: System, id: nat)
    requires Reachable(s) && id in s.rows
    ensures s.rows[id].attempts == Count(s.started, id) <= Limit(s.rows[id])
  {
    ReachableInv(s);
  }

  lemma RowSurvivesStep(s: System, step: Step, id: nat)
    requires Inv(s) && id in s.rows
    ensures id in Next(s, step).rows && Next(s, step).rows[id].maxAttempts == s.rows[id].maxAttempts
  {}

  /** No statement ever removes a row or changes its limit. */
  lemma {:induction false} RowsSurvive(s: System, steps: seq<Step>, id: nat)
    requires Inv(s) && id in s.rows
    ensures id in Run(s, steps).rows && Run(s, steps).rows[id].maxAttempts == s.rows[id].maxAttempts
    decreases |steps|
  {
    if steps != [] {
      NextKeepsInv(s, steps[0]);
      RowSurvivesStep(s, steps[0], id);
      RowsSurvive(Next(s, steps[0]), steps[1..], id);
    }
  }

  ghost predicate Held(s: System, id: nat) { exists w :: Busy(s, w, id) }

  predicate Over(job: Job) { job.status == Completed || job.status == Failed || job.status == Cancelled }

  /** Nobody takes hold of a row that is not pending, so its execution count stands still. */
  lemma UnheldStaysUnheld(s: System, step: Step, id: nat)
    requires Inv(s) && id in s.rows && s.rows[id].status != Pending && !Held(s, id)
    ensures !Held(Next(s, step), id)
    ensures Count(Next(s, step).started, id) == Count(s.started, id)
  {
    var t := Next(s, step);
    forall w ensures !Busy(t, w, id) {
      assert !Busy(s, w, id);
    }
    if t.started != s.started {
      CountAppend(s.started, id, s.workers[step.worker].id);
    }
  }

  /** Only a cancel of a running row can write a row that is not pending and not held. */
  lemma UnheldRowIsLeftAlone(s: System, step: Step, id: nat)
    requires Inv(s) && id in s.rows && s.rows[id].status != Pending && !Held(s, id)
    ensures id in Next(s, step).rows
    ensures Next(s, step).rows[id] == if step == Cancel(id) && s.rows[id].status == Running
                                      then s.rows[id].(status := Cancelled) else s.rows[id]
  {
    match step {
      case Succeed(w) => assert !Busy(s, w, id);
      case Settle(w) => assert !Busy(s, w, id);
      case _ =>
    }
  }

  /** A finished row that no worker holds is never written again. */
  lemma {:induction false} SettledIsForever(s: System, steps: seq<Step>, id: nat)
    requires Inv(s) && id in s.rows && Over(s.rows[id]) && !Held(s, id)
    ensures id in Run(s, steps).rows && Run(s, steps).rows[id] == s.rows[id]
    ensures Count(Run(s, steps).started, id) == Count(s.started, id)
    decreases |steps|
  {
    if steps != [] {
      NextKeepsInv(s, steps[0]);
      UnheldRowIsLeftAlone(s, steps[0], id);
      UnheldStaysUnheld(s, steps[0], id);
      SettledIsForever(Next(s, steps[0]), steps[1..], id);
    }
  }

  /** Completed and failed are final, whatever happens next. */
  lemma CompletedAndFailedAreFinal(s: System, steps: seq<Step>, id: nat)
    requires Reachable(s) && id in s.rows
    requires s.rows[id].status == Completed || s.rows[id].status == Failed
    ensures id in Run(s, steps).rows && Run(s, steps).rows[id] == s.rows[id]
  {
    ReachableInv(s);
    SettledIsForever(s, steps, id);
  }

  ghost predicate StaysCancelled(s: System, id: nat) {
    forall steps :: CancelledAfter(s, steps, id)
  }

  predicate CancelledAfter(s: System, steps: seq<Step>, id: nat) {
    var t := Run(s, steps);
    id in t.rows && t.rows[id].status == Cancelled
  }

  /** The worker's own final update is not guarded, so it overwrites the cancellation. */
  lemma HolderOverwritesCancel(s: System, w: nat, id: nat)
    requires Inv(s) && Busy(s, w, id)
    ensures exists steps :: !CancelledAfter(s, steps, id)
  {
    var step := if s.workers[w].Executing? then Succeed(w) else Settle(w);
    RunUnfold(s, [step]);
    assert Next(s, step).rows[id].status != Cancelled;
    assert !CancelledAfter(s, [step], id);
  }

  /** Cancelling is final exactly when no worker holds the job at that moment; in particular
      for a job cancelled while pending. */
  lemma CancelledIsFinalIffNotHeld(s: System, id: nat)
    requires Reachable(s) && id in s.rows && s.rows[id].status == Cancelled
    ensures StaysCancelled(s, id) <==> !Held(s, id)
  {
    ReachableInv(s);
    if Held(s, id) {
      var w :| Busy(s, w, id);
      HolderOverwritesCancel(s, w, id);
    } else {
      forall steps ensures CancelledAfter(s, steps, id) {
        SettledIsForever(s, steps, id);
      }
    }
  }

  lemma CancelledWhilePendingIsFinal(s: System, steps: seq<Step>, id: nat)
    requires Reachable(s) && id in s.rows && s.rows[id].status == Pending
    ensures var t := Run(Next(s, Cancel(id)), steps);
            id in t.rows && t.rows[id].status == Cancelled && Count(t.started, id) == Count(s.started, id)
  {
    ReachableInv(s);
    var t := Next(s, Cancel(id));
    NextKeepsInv(s, Cancel(id));
    forall w ensures !Busy(t, w, id) {
      assert Busy(t, w, id) <==> Busy(s, w, id);
    }
    SettledIsForever(t, steps, id);
  }

  // ----------------------------------------------- one worker left undisturbed

  lemma WorkerLeaves(workers: map<nat, Phase>, w: nat, phase: Phase)
    requires w !in workers
    ensures workers[w := phase] - {w} == workers
  {}

  /** Select and claim in a row: the job selected is claimed. */
  lemma PickThenClaim(s: System, w: nat, id: nat)
    requires Inv(s) && w !in s.workers && FirstReady(s.rows, s.now, s.nextId) == Some(id)
    ensures Claimable(s.rows, id) && Next(Next(s, Pick(w)), Claim(w))
      == s.(rows := Claimed(s.rows, id), workers := s.workers[w := Executing(id)], started := s.started + [id])
  {
    var s1 := s.(workers := s.workers[w := Picked(id)]);
    assert Next(s, Pick(w)) == s1;
    assert s1.workers[w := Executing(id)] == s.workers[w := Executing(id)];
  }

  /** With nothing to select an idle worker's steps change nothing. */
  lemma NothingPicked(s: System, w: nat, step: Step)
    requires w !in s.workers && FirstReady(s.rows, s.now, s.nextId) == None
    requires step in {Pick(w), Claim(w), Succeed(w), Fail(w), Settle(w)}
    ensures Next(s, step) == s
  {}

  lemma SucceedEnds(s: System, w: nat, id: nat, workers: map<nat, Phase>)
    requires w !in workers && s.workers == workers[w := Executing(id)]
    ensures Next(s, Succeed(w)) == s.(rows := WithStatus(s.rows, id, Completed), workers := workers)
  {
    WorkerLeaves(workers, w, Executing(id));
  }

  lemma FailThenSettle(s: System, w: nat, id: nat, workers: map<nat, Phase>)
    requires w !in workers && s.workers == workers[w := Executing(id)] && id in s.rows
    ensures Next(Next(s, Fail(w)), Settle(w))
      == s.(rows := AfterFailure(s.rows, id, s.rows[id].attempts, s.rows[id].maxAttempts, s.now), workers := workers)
  {
    var failing := Failing(id, s.rows[id].attempts, s.rows[id].maxAttempts);
    assert s.workers[w := failing] == workers[w := failing];
    WorkerLeaves(workers, w, failing);
  }

  lemma TickSucceeds(s: System, w: nat)
    requires Inv(s) && w !in s.workers
    ensures
      var t := Next(Next(Next(s, Pick(w)), Claim(w)), Succeed(w));
      t.rows == AfterTick(s.rows, s.nextId, s.now, true) && t.workers == s.workers
  {
    match FirstReady(s.rows, s.now, s.nextId)
    case None =>
      NothingPicked(s, w, Pick(w));
      NothingPicked(s, w, Claim(w));
      NothingPicked(s, w, Succeed(w));
    case Some(id) =>
      PickThenClaim(s, w, id);
      SucceedEnds(Next(Next(s, Pick(w)), Claim(w)), w, id, s.workers);
  }

  lemma TickFails(s: System, w: nat)
    requires Inv(s) && w !in s.workers
    ensures
      var t := Next(Next(Next(Next(s, Pick(w)), Claim(w)), Fail(w)), Settle(w));
      t.rows == AfterTick(s.rows, s.nextId, s.now, false) && t.workers == s.workers
  {
    match FirstReady(s.rows, s.now, s.nextId)
    case None =>
      NothingPicked(s, w, Pick(w));
      NothingPicked(s, w, Claim(w));
      NothingPicked(s, w, Fail(w));
      NothingPicked(s, w, Settle(w));
    case Some(id) =>
      PickThenClaim(s, w, id);
      FailThenSettle(Next(Next(s, Pick(w)), Claim(w)), w, id, s.workers);
  }

  lemma ThreeSteps(s: System, a: Step, b: Step, c: Step)
    ensures Run(s, [a, b, c]) == Next(Next(Next(s, a), b), c)
  {
    var steps := [a, b, c];
    assert steps[1..] == [b, c] && [b, c][1..] == [c] && [c][1..] == [];
    RunUnfold(s, steps);
    RunUnfold(Next(s, a), [b, c]);
    RunUnfold(Next(Next(s, a), b), [c]);
  }

  /** The tick the class performs is the run in which one idle worker takes all its steps in
      a row: the interleavings refine the sequential code statement by statement. */
  lemma TickIsARun(s: System, w: nat, succeeds: bool)
    requires Inv(s) && w !in s.workers
    ensures
      var steps := if succeeds then [Pick(w), Claim(w), Succeed(w)] else [Pick(w), Claim(w), Fail(w), Settle(w)];
      && Run(s, steps).rows == AfterTick(s.rows, s.nextId, s.now, succeeds)
      && Run(s, steps).workers == s.workers
  {
    if succeeds {
      ThreeSteps(s, Pick(w), Claim(w), Succeed(w));
      TickSucceeds(s, w);
    } else {
      var steps := [Pick(w), Claim(w), Fail(w), Settle(w)];
      assert steps[1..] == [Claim(w), Fail(w), Settle(w)];
      RunUnfold(s, steps);
      ThreeSteps(Next(s, Pick(w)), Claim(w), Fail(w), Settle(w));
      TickFails(s, w);
    }
  }

  // -------------------------------------------------------- stopping a worker

  /** Without crashes every running row has the worker that runs it. */
  lemma {:induction false} RunningIsHeld(s: System, steps: seq<Step>, id: nat)
    requires Inv(s) && forall i :: i in s.rows && s.rows[i].status == Running ==> Held(s, i)
    requires forall k :: 0 <= k < |steps| ==> !steps[k].Stop?
    requires id in Run(s, steps).rows && Run(s, steps).rows[id].status == Running
    ensures Held(Run(s, steps), id)
    decreases |steps|
  {
    if steps != [] {
      var t := Next(s, steps[0]);
      NextKeepsInv(s, steps[0]);
      assert !steps[0].Stop?;
      forall i | i in t.rows && t.rows[i].status == Running ensures Held(t, i) {
        RunningIsHeldStep(s, steps[0], i);
      }
      RunningIsHeld(t, steps[1..], id);
    }
  }

  lemma RunningIsHeldStep(s: System, step: Step, i: nat)
    requires Inv(s) && forall j :: j in s.rows && s.rows[j].status == Running ==> Held(s, j)
    requires !step.Stop?
    requires i in Next(s, step).rows && Next(s, step).rows[i].status == Running
    ensures Held(Next(s, step), i)
  {
    var t := Next(s, step);
    if i in s.rows && s.rows[i].status == Running {
      var w :| Busy(s, w, i);
      assert Busy(t, w, i);
    } else {
      assert step.Claim? && Busy(t, step.worker, i);
    }
  }

  /** A running job whose worker stopped is lost: nothing but a cancel ever writes its row
      again, so it is neither retried nor failed. */
  lemma {:induction false} OrphanStaysRunning(s: System, steps: seq<Step>, id: nat)
    requires Inv(s) && id in s.rows && s.rows[id].status == Running && !Held(s, id)
    ensures var t := Run(s, steps);
            && id in t.rows
            && t.rows[id].(status := Running) == s.rows[id]
            && (t.rows[id].status == Running || t.rows[id].status == Cancelled)
            && (t.rows[id].status == Cancelled <==> Cancel(id) in steps)
    decreases |steps|
  {
    if steps != [] {
      var step := steps[0];
      var t := Next(s, step);
      NextKeepsInv(s, step);
      assert steps == [step] + steps[1..];
      UnheldRowIsLeftAlone(s, step, id);
      UnheldStaysUnheld(s, step, id);
      if step == Cancel(id) {
        SettledIsForever(t, steps[1..], id);
      } else {
        OrphanStaysRunning(t, steps[1..], id);
      }
    }
  }

  /** The worker's next statement takes the row it holds out of running. */
  lemma HolderLeavesRunning(s: System, w: nat, id: nat) returns (step: Step)
    requires Inv(s) && Busy(s, w, id) && s.rows[id].status == Running
    ensures step == Succeed(w) || step == Settle(w)
    ensures id in Next(s, step).rows && Next(s, step).rows[id].status != Running
  {
    step := if s.workers[w].Executing? then Succeed(w) else Settle(w);
  }

  /** A running row stays running on every continuation without a cancel exactly when no worker
      holds it any more. */
  lemma LostIffNotHeld(s: System, id: nat)
    requires Inv(s) && id in s.rows && s.rows[id].status == Running
    ensures
      (forall steps :: Cancel(id) !in steps ==> id in Run(s, steps).rows && Run(s, steps).rows[id].status == Running)
      <==> !Held(s, id)
  {
    if Held(s, id) {
      var w :| Busy(s, w, id);
      var step := HolderLeavesRunning(s, w, id);
      RunUnfold(s, [step]);
      assert Cancel(id) !in [step];
    } else {
      forall steps | Cancel(id) !in steps
        ensures id in Run(s, steps).rows && Run(s, steps).rows[id].status == Running
      {
        OrphanStaysRunning(s, steps, id);
      }
    }
  }

  // ------------------------------------------------------ punctuality of starts

  /** The step is a claim that succeeds before the time its row is scheduled for. */
  predicate StartsEarly(s: System, step: Step) {
    && step.Claim? && step.worker in s.workers && s.workers[step.worker].Picked?
    && Claimable(s.rows, s.workers[step.worker].id)
    && s.now < s.rows[s.workers[step.worker].id].scheduledAt
  }

  predicate OnlyWorker(step: Step, w: nat) {
    (step.Pick? || step.Claim? || step.Succeed? || step.Fail? || step.Settle? || step.Stop?) ==> step.worker == w
  }

  ghost predicate SoleWorkerOk(s: System, w: nat) {
    && s.workers.Keys <= {w}
    && (w in s.workers && s.workers[w].Picked? && Claimable(s.rows, s.workers[w].id) ==>
          s.rows[s.workers[w].id].scheduledAt <= s.now)
  }

  lemma PunctualNow(s: System, step: Step, w: nat)
    requires SoleWorkerOk(s, w) && OnlyWorker(step, w)
    ensures !StartsEarly(s, step)
  {}

  lemma NextKeepsSole(s: System, step: Step, w: nat)
    requires Inv(s) && SoleWorkerOk(s, w) && OnlyWorker(step, w)
    ensures SoleWorkerOk(Next(s, step), w)
  {}

  /** With one worker polling the table no job ever starts before its scheduled time. */
  lemma {:induction false} SoleWorkerIsPunctual(s: System, steps: seq<Step>, w: nat, k: nat)
    requires Inv(s) && SoleWorkerOk(s, w)
    requires forall i :: 0 <= i < |steps| ==> OnlyWorker(steps[i], w)
    requires k < |steps|
    ensures !StartsEarly(Run(s, steps[..k]), steps[k])
    decreases k
  {
    if k == 0 {
      assert steps[..0] == [];
      PunctualNow(s, steps[0], w);
    } else {
      NextKeepsInv(s, steps[0]);
      NextKeepsSole(s, steps[0], w);
      SoleWorkerIsPunctual(Next(s, steps[0]), steps[1..], w, k - 1);
      assert steps[..k][0] == steps[0] && steps[..k][1..] == steps[1..][..k - 1];
    }
  }

  /** With any two workers it can: the claim re-checks the status of the row picked earlier, but
      not its schedule, so a retry scheduled in between is started without its delay. */
  lemma TwoWorkersCanStartEarly(v: nat, w: nat) returns (steps: seq<Step>)
    requires v != w
    ensures steps != [] && forall i :: 0 <= i < |steps| ==> OnlyWorker(steps[i], v) || OnlyWorker(steps[i], w)
    ensures StartsEarly(Run(START, steps[..|steps| - 1]), steps[|steps| - 1])
  {
    var req := FromTool("custom", None, None);
    steps := [Enqueue(req), Pick(v), Pick(w), Claim(v), Fail(v), Settle(v), Claim(w)];
    var s0 := START;
    var s1 := Next(s0, steps[0]);
    assert FirstReady(s1.rows, 0, 1).None?;
    assert FirstReady(s1.rows, 0, 2) == Some(1);
    var s2 := Next(s1, steps[1]);
    var s3 := Next(s2, steps[2]);
    var s4 := Next(s3, steps[3]);
    var s5 := Next(s4, steps[4]);
    var s6 := Next(s5, steps[5]);
    assert StartsEarly(s6, steps[6]);
    var before := steps[..6];
    assert before == [Enqueue(req), Pick(v), Pick(w), Claim(v), Fail(v), Settle(v)];
    RunUnfold(s0, before);
    RunUnfold(s1, before[1..]);
    RunUnfold(s2, before[1..][1..]);
    RunUnfold(s3, before[1..][1..][1..]);
    RunUnfold(s4, before[1..][1..][1..][1..]);
    RunUnfold(s5, before[1..][1..][1..][1..][1..]);
  }

  lemma RunUnfold(s: System, steps: seq<Step>)
    requires steps != []
    ensures Run(s, steps) == Run(Next(s, steps[0]), steps[1..])
    ensures |steps| == 1 ==> Run(s, steps) == Next(s, steps[0])
  {}

  /** The steps are taken by workers of the set, and by tools. */
  predicate TakenBy(steps: seq<Step>, workers: set<nat>) {
    forall i :: 0 <= i < |steps| ==> ByOneOf(steps[i], workers)
  }

  predicate ByOneOf(step: Step, workers: set<nat>) {
    (step.Pick? || step.Claim? || step.Succeed? || step.Fail? || step.Settle? || step.Stop?) ==> step.worker in workers
  }

  ghost predicate Punctual(steps: seq<Step>) {
    forall k :: 0 <= k < |steps| ==> !StartsEarly(Run(START, steps[..k]), steps[k])
  }

  lemma AtMostOneMember(workers: set<nat>) returns (w: nat)
    requires |workers| <= 1
    ensures workers <= {w}
  {
    w := 0;
    if v :| v in workers {
      w := v;
      assert |workers - {v}| == 0;
    }
  }

  /** A set of workers starts every job on time, in all its runs, exactly when it has at most
      one member. */
  lemma PunctualIffSole(workers: set<nat>)
    ensures (forall steps :: TakenBy(steps, workers) ==> Punctual(steps)) <==> |workers| <= 1
  {
    if |workers| <= 1 {
      var w := AtMostOneMember(workers);
      StartInv();
      forall steps, k | TakenBy(steps, workers) && 0 <= k < |steps|
        ensures !StartsEarly(Run(START, steps[..k]), steps[k])
      {
        forall i | 0 <= i < |steps| ensures OnlyWorker(steps[i], w) {
          assert ByOneOf(steps[i], workers);
        }
        SoleWorkerIsPunctual(START, steps, w, k);
      }
    } else {
      var v :| v in workers;
      assert |workers - {v}| >= 1;
      var w :| w in workers - {v};
      var steps := TwoWorkersCanStartEarly(v, w);
      forall i | 0 <= i < |steps| ensures ByOneOf(steps[i], workers) {}
      assert !Punctual(steps);
    }
  }
}
