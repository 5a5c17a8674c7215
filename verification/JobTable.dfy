/** brain/jobs.go, tools/jobs.go and the enqueue action of actions/runner.go:
    the job table and the statements that write it. Each SQL statement is one
    atomic function on the rows; the class runs them the way the Go code does. */
module JobTable {
  import opened Wrappers

  datatype Status = Pending | Running | Completed | Failed | Cancelled

  datatype Job = Job(status: Status, attempts: nat, maxAttempts: nat, scheduledAt: int)

  type Rows = map<nat, Job>

  const JOB_TYPES := {"send_email", "http_request", "run_sql", "custom"}
  const DEFAULT_ATTEMPTS: nat := 3
  const BACKOFF_CAP := 300

  // ------------------------------------------------------------ the statements

  predicate Ready(job: Job, now: int) { job.status == Pending && job.scheduledAt <= now }

  /** SELECT ... WHERE pending and due ORDER BY id LIMIT 1, over ids below `bound`. */
  function FirstReady(rows: Rows, now: int, bound: nat): (r: Option<nat>)
    ensures r.Some? ==> r.value < bound && r.value in rows && Ready(rows[r.value], now)
    ensures forall id :: id in rows && id < bound && Ready(rows[id], now) ==> r.Some? && r.value <= id
  {
    if bound == 0 then None
    else
      var earlier := FirstReady(rows, now, bound - 1);
      if earlier.Some? then earlier
      else if bound - 1 in rows && Ready(rows[bound - 1], now) then Some(bound - 1)
      else None
  }

  predicate Claimable(rows: Rows, id: nat) { id in rows && rows[id].status == Pending }

  /** The guarded claim; it affects no row when another worker was faster. */
  function Claimed(rows: Rows, id: nat): Rows {
    if Claimable(rows, id) then
      rows[id := rows[id].(status := Running, attempts := rows[id].attempts + 1)]
    else rows
  }

  /** The unguarded status updates at the end of an execution. */
  function WithStatus(rows: Rows, id: nat, status: Status): Rows {
    if id in rows then rows[id := rows[id].(status := status)] else rows
  }

  function Rescheduled(rows: Rows, id: nat, at: int): Rows {
    if id in rows then rows[id := rows[id].(status := Pending, scheduledAt := at)] else rows
  }

  predicate Cancellable(rows: Rows, id: nat) {
    id in rows && (rows[id].status == Pending || rows[id].status == Running)
  }

  function WithCancelled(rows: Rows, id: nat): Rows {
    if Cancellable(rows, id) then rows[id := rows[id].(status := Cancelled)] else rows
  }

  /** attempts and max_attempts as `handleFailure` reads them; zeros when the row is gone. */
  function Attempts(rows: Rows, id: nat): (nat, nat) {
    if id in rows then (rows[id].attempts, rows[id].maxAttempts) else (0, 0)
  }

  function Pow2(n: nat): nat { if n == 0 then 1 else 2 * Pow2(n - 1) }

  /** Seconds until the next try: 5, 10, 20, ... capped at five minutes. */
  function BackoffSeconds(attempts: nat): nat
    requires attempts >= 1
  {
    var secs := Pow2(attempts - 1) * 5;
    if secs > BACKOFF_CAP then BACKOFF_CAP else secs
  }

  /** The delay never shrinks from one failure to the next and stays within its bounds. */
  lemma {:induction false} BackoffGrows(m: nat, n: nat)
    requires 1 <= m <= n
    ensures 5 <= BackoffSeconds(m) <= BackoffSeconds(n) <= BACKOFF_CAP
    ensures BackoffSeconds(1) == 5 && BACKOFF_CAP == 300
    ensures BackoffSeconds(m + 1) == if 2 * BackoffSeconds(m) > 300 then 300 else 2 * BackoffSeconds(m)
    decreases n
  {
    if n == 1 {
      assert Pow2(0) == 1;
    } else if m < n {
      BackoffGrows(m, n - 1);
      assert Pow2(n - 1) == 2 * Pow2(n - 2);
    } else {
      BackoffGrows(m - 1, n - 1);
      assert Pow2(n - 1) == 2 * Pow2(n - 2);
    }
  }

  /** What `handleFailure` writes, given the attempt counts it read. */
  function AfterFailure(rows: Rows, id: nat, attempts: nat, maxAttempts: nat, now: int): Rows {
    if attempts < maxAttempts then
      Rescheduled(rows, id, now + (if attempts >= 1 then BackoffSeconds(attempts) else 2))
    else WithStatus(rows, id, Failed)
  }

  /** A request to add a job: the tool checks the type and clamps the limit to
      1..10; the event action takes any type and any positive number, truncated. */
  datatype Request =
    | FromTool(jobType: string, maxAttempts: Option<int>, toolSchedule: Option<int>)
    | FromAction(actionType: string, limit: Option<real>, actionSchedule: Option<int>)

  function Accepted(req: Request): bool {
    match req
    case FromTool(t, _, _) => t in JOB_TYPES
    case FromAction(t, _, _) => t != ""
  }

  function NewJob(req: Request, now: int): Job {
    match req
    case FromTool(_, limit, schedule) =>
      var n := if limit.Some? then limit.value else DEFAULT_ATTEMPTS;
      Job(Pending, 0, if n < 1 then 1 else if n > 10 then 10 else n, if schedule.Some? then schedule.value else now)
    case FromAction(_, limit, schedule) =>
      var n := if limit.Some? && limit.value > 0.0 then limit.value.Floor else DEFAULT_ATTEMPTS;
      Job(Pending, 0, n, if schedule.Some? then schedule.value else now)
  }

  /** A new job waits, has not been tried, and is due when it was asked for, or at once. The tool
      takes the requested limit as far as it lies in 1..10, else the nearer bound, and three
      without one; the event action takes a positive limit without its fraction, else three. */
  lemma NewJobIs(req: Request, now: int)
    ensures
      var job := NewJob(req, now);
      && job.status == Pending && job.attempts == 0
      && match req
         case FromTool(_, limit, schedule) =>
           && job.scheduledAt == (if schedule == None then now else schedule.value)
           && 1 <= job.maxAttempts <= 10
           && (limit == None ==> job.maxAttempts == 3)
           && (limit != None && 1 <= limit.value <= 10 ==> job.maxAttempts == limit.value)
           && (limit != None && limit.value < 1 ==> job.maxAttempts == 1)
           && (limit != None && limit.value > 10 ==> job.maxAttempts == 10)
         case FromAction(_, limit, schedule) =>
           && job.scheduledAt == (if schedule == None then now else schedule.value)
           && (limit == None || limit.value <= 0.0 ==> job.maxAttempts == 3)
           && (limit != None && limit.value > 0.0 ==>
                 job.maxAttempts as real <= limit.value < (job.maxAttempts + 1) as real)
  {
    match req
    case FromTool(_, _, _) =>
    case FromAction(_, limit, _) =>
      if limit.Some? && limit.value > 0.0 {
        assert limit.value.Floor as real <= limit.value < (limit.value.Floor + 1) as real;
      }
  }

  /** What one undisturbed tick of a worker does to the rows: pick, claim, execute, settle. */
  function AfterTick(rows: Rows, nextId: nat, now: int, succeeds: bool): Rows {
    var picked := FirstReady(rows, now, nextId);
    if picked.None? then rows
    else
      var id := picked.value;
      var claimed := Claimed(rows, id);
      if succeeds then WithStatus(claimed, id, Completed)
      else AfterFailure(claimed, id, claimed[id].attempts, claimed[id].maxAttempts, now)
  }

  /** The table object that workers and tools share. */
  class Table {
    var rows: Rows
    var nextId: nat

    ghost predicate Valid()
      reads this
    {
      forall id :: id in rows ==> id < nextId
    }

    constructor ()
      ensures Valid() && rows == map[] && nextId == 1
    {
      rows, nextId := map[], 1;
    }

    method Enqueue(req: Request, now: int) returns (id: Option<nat>)
      requires Valid()
      modifies this
      ensures Valid()
      ensures id.Some? <==> match req
                            case FromTool(t, _, _) => t in {"send_email", "http_request", "run_sql", "custom"}
                            case FromAction(t, _, _) => t != ""
      ensures id.Some? ==> id.value !in old(rows) && rows == old(rows)[id.value := NewJob(req, now)]
      ensures id.None? ==> rows == old(rows) && nextId == old(nextId)
    {
      if !Accepted(req) {
        return None;
      }
      rows := rows[nextId := NewJob(req, now)];
      id := Some(nextId);
      nextId := nextId + 1;
    }

    method Cancel(id: nat) returns (affected: bool)
      requires Valid()
      modifies `rows
      ensures Valid() && rows == WithCancelled(old(rows), id)
      ensures affected <==> Cancellable(old(rows), id)
      ensures !affected ==> rows == old(rows)
    {
      affected := Cancellable(rows, id);
      if affected {
        rows := rows[id := rows[id].(status := Cancelled)];
      }
    }

    method Claim(id: nat) returns (affected: bool)
      requires Valid()
      modifies `rows
      ensures Valid() && rows == Claimed(old(rows), id)
      ensures affected <==> Claimable(old(rows), id)
    {
      affected := id in rows && rows[id].status == Pending;
      if affected {
        rows := rows[id := rows[id].(status := Running, attempts := rows[id].attempts + 1)];
      }
    }

    method HandleFailure(id: nat, now: int)
      requires Valid()
      modifies `rows
      ensures Valid()
      ensures rows == AfterFailure(old(rows), id, Attempts(old(rows), id).0, Attempts(old(rows), id).1, now)
    {
      var (attempts, maxAttempts) := Attempts(rows, id);
      if attempts < maxAttempts {
        var secs := 2;
        if attempts >= 1 {
          secs := BackoffSeconds(attempts);
        }
        rows := Rescheduled(rows, id, now + secs);
      } else {
        rows := WithStatus(rows, id, Failed);
      }
    }

    /** One tick of a worker that nobody interferes with; `succeeds` is the job's outcome. */
    method ProcessPending(now: int, succeeds: bool)
      requires Valid()
      modifies `rows
      ensures Valid() && rows == AfterTick(old(rows), nextId, now, succeeds)
    {
      var picked := FirstReady(rows, now, nextId);
      if picked.None? {
        return;
      }
      var id := picked.value;
      var affected := Claim(id);
      if !affected {
        return;
      }
      if succeeds {
        rows := WithStatus(rows, id, Completed);
      } else {
        HandleFailure(id, now);
      }
    }
  }

  /** An undisturbed tick touches only the lowest ready id, starts it once, and settles it:
      completed, or pending again at a later time below the limit, or failed at the limit. */
  lemma TickSettlesLowestReady(rows: Rows, nextId: nat, now: int, succeeds: bool, id: nat)
    requires id in rows && id < nextId && Ready(rows[id], now)
    requires forall other :: other in rows && Ready(rows[other], now) ==> id <= other
    ensures
      var after := AfterTick(rows, nextId, now, succeeds);
      && after.Keys == rows.Keys
      && (forall other :: other in rows && other != id ==> after[other] == rows[other])
      && after[id].attempts == rows[id].attempts + 1
      && (after[id].status == Completed <==> succeeds)
      && (after[id].status == Failed <==> !succeeds && rows[id].attempts + 1 >= rows[id].maxAttempts)
      && (after[id].status == Pending ==> after[id].scheduledAt == now + BackoffSeconds(rows[id].attempts + 1))
      && after[id].maxAttempts == rows[id].maxAttempts
      && after[id].status != Running && after[id].status != Cancelled
  {
    assert FirstReady(rows, now, nextId) == Some(id);
    BackoffGrows(rows[id].attempts + 1, rows[id].attempts + 1);
  }
}
