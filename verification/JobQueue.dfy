/** The job table: claiming, refreshing and finishing jobs under a lease, and recovering leases that went stale. */
module JobQueue {
  import opened Text
  import opened Wrappers

  type JobId = nat
  type WorkerId = string

  datatype Status = Queued | Running | Completed | Failed | Dead

  datatype Job = Job(
    status: Status, priority: int, attempts: nat, maxAttempts: nat, runAt: int, createdAt: int,
    lockedAt: Option<int>, lockedBy: Option<WorkerId>)

  type Rows = map<JobId, Job>

  datatype Error = LeaseLost | InvalidArgument

  predicate Terminal(status: Status) {
    status == Completed || status == Failed || status == Dead
  }

  /** What holds of every row: bounded attempts, and a lock exactly while running. */
  predicate RowOk(j: Job) {
    && j.maxAttempts > 0 && j.attempts <= j.maxAttempts
    && (j.status == Running <==> j.lockedBy.Some?) && (j.lockedAt.Some? <==> j.lockedBy.Some?)
    && (j.status == Running ==> j.attempts > 0) && (j.status == Dead ==> j.attempts == j.maxAttempts)
  }

  predicate RowsOk(rows: Rows) {
    forall id :: id in rows ==> RowOk(rows[id])
  }

  // ----- Guarded updates of one row -----

  predicate Eligible(j: Job, now: int) {
    j.status == Queued && j.runAt <= now && j.attempts < j.maxAttempts
  }

  /** The order of the claim query: higher priority, then earlier due, then older. */
  predicate Before(a: Job, b: Job) {
    || a.priority > b.priority
    || (a.priority == b.priority && a.runAt < b.runAt)
    || (a.priority == b.priority && a.runAt == b.runAt && a.createdAt < b.createdAt)
  }

  /** A job the query may return: eligible, not locked by another claim in flight, none such before it. */
  ghost predicate Candidate(rows: Rows, skipped: set<JobId>, now: int, id: JobId) {
    && id in rows && id !in skipped && Eligible(rows[id], now)
    && forall other :: other in rows && other !in skipped && Eligible(rows[other], now) ==> !Before(rows[other], rows[id])
  }

  function Claimed(j: Job, worker: WorkerId, now: int): Job {
    j.(status := Running, attempts := j.attempts + 1, lockedAt := Some(now), lockedBy := Some(worker))
  }

  /** The guard of refreshing and finishing: running, and locked by this worker. */
  predicate Held(rows: Rows, id: JobId, worker: WorkerId) {
    id in rows && rows[id].status == Running && rows[id].lockedBy == Some(worker)
  }

  function Unlocked(j: Job, status: Status): Job {
    j.(status := status, lockedAt := None, lockedBy := None)
  }

  /** Back to the queue, or dead after the last attempt. */
  function Requeued(j: Job, runAt: int): Job {
    if j.attempts >= j.maxAttempts then Unlocked(j, Dead) else Unlocked(j, Queued).(runAt := runAt)
  }

  predicate Stale(j: Job, now: int, timeout: int) {
    j.status == Running && j.lockedAt.Some? && j.lockedAt.value < now - timeout
  }

  function Recovered(rows: Rows, now: int, timeout: int): Rows {
    map id | id in rows :: if Stale(rows[id], now, timeout) then Requeued(rows[id], now) else rows[id]
  }

  // ----- The table -----

  class Table {
    var rows: Rows

    constructor ()
      ensures RowsOk(rows) && rows == map[]
    {
      rows := map[];
    }

    /** The first of the eligible jobs in claim order. */
    method SelectCandidate(skipped: set<JobId>, now: int) returns (found: Option<JobId>)
      ensures match found
        case Some(id) => Candidate(rows, skipped, now, id)
        case None => forall id :: id in rows && id !in skipped ==> !Eligible(rows[id], now)
    {
      found := None;
      var rest := rows.Keys - skipped;
      while rest != {}
        invariant rest <= rows.Keys - skipped
        invariant match found
          case Some(id) =>
            && id in rows && id !in skipped && Eligible(rows[id], now)
            && (forall o :: o in rows && o !in skipped && o !in rest && Eligible(rows[o], now) ==> !Before(rows[o], rows[id]))
          case None => forall o :: o in rows && o !in skipped && o !in rest ==> !Eligible(rows[o], now)
        decreases rest
      {
        var id :| id in rest;
        rest := rest - {id};
        if Eligible(rows[id], now) && (found.None? || Before(rows[id], rows[found.value])) {
          found := Some(id);
        }
      }
    }

    method Claim(worker: WorkerId, skipped: set<JobId>, now: int) returns (error: Option<Error>, claimed: Option<JobId>)
      requires RowsOk(rows)
      modifies this
      ensures RowsOk(rows)
      ensures error == if TrimSpace(worker) == "" then Some(InvalidArgument) else None
      ensures error.Some? ==> claimed.None? && rows == old(rows)
      ensures claimed.Some? ==>
        Candidate(old(rows), skipped, now, claimed.value)
        && rows == old(rows)[claimed.value := Claimed(old(rows)[claimed.value], worker, now)]
      ensures error.None? && claimed.None? ==>
        rows == old(rows) && forall id :: id in rows && id !in skipped ==> !Eligible(rows[id], now)
    {
      if TrimSpace(worker) == "" {
        return Some(InvalidArgument), None;
      }
      error := None;
      claimed := SelectCandidate(skipped, now);
      if claimed.Some? {
        var id := claimed.value;
        rows := rows[id := rows[id].(status := Running, attempts := rows[id].attempts + 1,
                                     lockedAt := Some(now), lockedBy := Some(worker))];
      }
    }

    method Touch(id: JobId, worker: WorkerId, now: int) returns (error: Option<Error>)
      requires RowsOk(rows)
      modifies this
      ensures RowsOk(rows)
      ensures error == if Held(old(rows), id, worker) then None else Some(LeaseLost)
      ensures rows == if error.None? then old(rows)[id := old(rows)[id].(lockedAt := Some(now))] else old(rows)
    {
      if id !in rows || rows[id].status != Running || rows[id].lockedBy != Some(worker) {
        return Some(LeaseLost);
      }
      rows := rows[id := rows[id].(lockedAt := Some(now))];
      error := None;
    }

    method Finish(id: JobId, worker: WorkerId, status: Status) returns (error: Option<Error>)
      requires RowsOk(rows) && (status == Completed || status == Failed)
      modifies this
      ensures RowsOk(rows)
      ensures error == if Held(old(rows), id, worker) then None else Some(LeaseLost)
      ensures rows == if error.None? then old(rows)[id := Unlocked(old(rows)[id], status)] else old(rows)
    {
      if id !in rows || rows[id].status != Running || rows[id].lockedBy != Some(worker) {
        return Some(LeaseLost);
      }
      rows := rows[id := rows[id].(status := status, lockedAt := None, lockedBy := None)];
      error := None;
    }

    method Retry(id: JobId, worker: WorkerId, runAt: int) returns (error: Option<Error>)
      requires RowsOk(rows)
      modifies this
      ensures RowsOk(rows)
      ensures error == if Held(old(rows), id, worker) then None else Some(LeaseLost)
      ensures rows == if error.None? then old(rows)[id := Requeued(old(rows)[id], runAt)] else old(rows)
    {
      if id !in rows || rows[id].status != Running || rows[id].lockedBy != Some(worker) {
        return Some(LeaseLost);
      }
      var job := rows[id];
      var last := job.attempts >= job.maxAttempts;
      rows := rows[id := job.(status := if last then Dead else Queued, runAt := if last then job.runAt else runAt,
                              lockedAt := None, lockedBy := None)];
      error := None;
    }

    /** The update of one stale row. */
    method Release(id: JobId, now: int)
      requires id in rows
      modifies this
      ensures rows == old(rows)[id := Requeued(old(rows)[id], now)]
    {
      var job := rows[id];
      var last := job.attempts >= job.maxAttempts;
      rows := rows[id := job.(status := if last then Dead else Queued, runAt := if last then job.runAt else now,
                              lockedAt := None, lockedBy := None)];
    }

    /** Every lease older than the timeout goes back to the queue, or its job dies; nothing else changes. */
    method RecoverStale(timeout: int, now: int) returns (error: Option<Error>, ghost recovered: set<JobId>)
      requires RowsOk(rows)
      modifies this
      ensures RowsOk(rows)
      ensures error == if timeout <= 0 then Some(InvalidArgument) else None
      ensures recovered == if timeout <= 0 then {} else set id | id in old(rows) && Stale(old(rows)[id], now, timeout)
      ensures rows == if timeout <= 0 then old(rows) else Recovered(old(rows), now, timeout)
      ensures timeout > 0 ==> forall id :: id in rows ==> !Stale(rows[id], now, timeout)
    {
      recovered := {};
      if timeout <= 0 {
        return Some(InvalidArgument), {};
      }
      ghost var goal := Recovered(rows, now, timeout);
      var rest := rows.Keys;
      while rest != {}
        invariant rest <= rows.Keys == old(rows).Keys
        invariant forall id :: id in rows ==> rows[id] == if id in rest then old(rows)[id] else goal[id]
        invariant recovered == set id | id in old(rows) && id !in rest && Stale(old(rows)[id], now, timeout)
        decreases rest
      {
        var id :| id in rest;
        rest := rest - {id};
        if Stale(rows[id], now, timeout) {
          recovered := recovered + {id};
          Release(id, now);
        }
      }
      assert rows == goal;
      error := None;
    }
  }

  // ----- Workers -----

  type ClaimId = nat

  /** What a worker has in hand: at most one job, from one claim. */
  datatype Work = Idle | Busy(job: JobId, claim: ClaimId)

  /** The table, the claim under which each running job runs, the workers, and the number of claims made. */
  datatype World = World(rows: Rows, current: map<JobId, ClaimId>, workers: map<WorkerId, Work>, claims: nat)

  datatype Action =
    | Enqueue(id: JobId, priority: int, maxAttempts: nat, runAt: int, createdAt: int)
    | Claim(worker: WorkerId, id: JobId, skipped: set<JobId>, now: int)
    | Touch(worker: WorkerId, now: int)
    | Complete(worker: WorkerId)
    | Fail(worker: WorkerId)
    | Retry(worker: WorkerId, runAt: int)
    | Abandon(worker: WorkerId)
    | RecoverStale(timeout: int, now: int)

  function WorkOf(w: World, worker: WorkerId): Work {
    if worker in w.workers then w.workers[worker] else Idle
  }

  /** A worker claims only when it has nothing in hand, and finishes, refreshes or abandons only what it has. */
  ghost predicate Enabled(w: World, a: Action) {
    match a
    case Enqueue(id, _, maxAttempts, _, _) => id !in w.rows && maxAttempts > 0
    case Claim(worker, id, skipped, now) =>
      TrimSpace(worker) != "" && WorkOf(w, worker).Idle? && Candidate(w.rows, skipped, now, id)
    case RecoverStale(timeout, _) => timeout > 0
    case _ => WorkOf(w, a.worker).Busy?
  }

  /** Finishing: the row changes if the lease is still held; either way the worker puts the job down. */
  function Finish(w: World, worker: WorkerId, row: Job -> Job): World
    requires WorkOf(w, worker).Busy?
  {
    var id := WorkOf(w, worker).job;
    var down := w.(workers := w.workers[worker := Idle]);
    if Held(w.rows, id, worker) then down.(rows := w.rows[id := row(w.rows[id])], current := w.current - {id}) else down
  }

  ghost function Step(w: World, a: Action): World
    requires Enabled(w, a)
  {
    match a
    case Enqueue(id, priority, maxAttempts, runAt, createdAt) =>
      w.(rows := w.rows[id := Job(Queued, priority, 0, maxAttempts, runAt, createdAt, None, None)])
    case Claim(worker, id, _, now) =>
      w.(rows := w.rows[id := Claimed(w.rows[id], worker, now)], current := w.current[id := w.claims],
         workers := w.workers[worker := Busy(id, w.claims)], claims := w.claims + 1)
    case Touch(worker, now) =>
      var id := WorkOf(w, worker).job;
      if Held(w.rows, id, worker) then w.(rows := w.rows[id := w.rows[id].(lockedAt := Some(now))]) else w
    case Complete(worker) => Finish(w, worker, j => Unlocked(j, Completed))
    case Fail(worker) => Finish(w, worker, j => Unlocked(j, Failed))
    case Retry(worker, runAt) => Finish(w, worker, j => Requeued(j, runAt))
    case Abandon(worker) => w.(workers := w.workers[worker := Idle])
    case RecoverStale(timeout, now) =>
      w.(rows := Recovered(w.rows, now, timeout),
         current := map id | id in w.current && id in w.rows && !Stale(w.rows[id], now, timeout) :: w.current[id])
  }

  /** A worker that holds a job's lock has that job in hand from the very claim it runs under, or put it down. */
  predicate LocksMatch(w: World) {
    forall id :: id in w.rows && w.rows[id].status == Running && w.rows[id].lockedBy.Some? ==>
      LockMatches(w, id, w.rows[id].lockedBy.value)
  }

  predicate LockMatches(w: World, id: JobId, worker: WorkerId) {
    id in w.current &&
    match WorkOf(w, worker)
    case Idle => true
    case Busy(job, claim) => job == id ==> claim == w.current[id]
  }

  ghost predicate Inv(w: World) {
    && RowsOk(w.rows)
    && (forall id :: id in w.current <==> id in w.rows && w.rows[id].status == Running)
    && (forall id :: id in w.current ==> w.current[id] < w.claims)
    && (forall a, b :: a in w.current && b in w.current && w.current[a] == w.current[b] ==> a == b)
    && (forall worker :: worker in w.workers && w.workers[worker].Busy? ==> w.workers[worker].claim < w.claims)
    && LocksMatch(w)
  }

  lemma FinishKeepsLocks(w: World, worker: WorkerId, row: Job -> Job)
    requires Inv(w) && WorkOf(w, worker).Busy?
    requires forall j :: RowOk(j) && j.status == Running ==> row(j).status != Running
    ensures LocksMatch(Finish(w, worker, row))
  {
    var after := Finish(w, worker, row);
    forall id | id in after.rows && after.rows[id].status == Running && after.rows[id].lockedBy.Some?
      ensures LockMatches(after, id, after.rows[id].lockedBy.value)
    {
      assert LockMatches(w, id, w.rows[id].lockedBy.value);
    }
  }

  lemma FinishKeepsInv(w: World, worker: WorkerId, row: Job -> Job)
    requires Inv(w) && WorkOf(w, worker).Busy?
    requires forall j :: RowOk(j) && j.status == Running ==> RowOk(row(j)) && row(j).status != Running
    ensures Inv(Finish(w, worker, row))
  {
    FinishKeepsLocks(w, worker, row);
  }

  lemma ClaimKeepsInv(w: World, worker: WorkerId, id: JobId, skipped: set<JobId>, now: int)
    requires Inv(w) && Enabled(w, Claim(worker, id, skipped, now))
    ensures Inv(Step(w, Claim(worker, id, skipped, now)))
  {
    var after := Step(w, Claim(worker, id, skipped, now));
    forall other | other in after.rows && after.rows[other].status == Running && after.rows[other].lockedBy.Some?
      ensures LockMatches(after, other, after.rows[other].lockedBy.value)
    {
      if other != id {
        assert LockMatches(w, other, w.rows[other].lockedBy.value);
      }
    }
  }

  lemma RecoverKeepsInv(w: World, timeout: int, now: int)
    requires Inv(w)
    ensures timeout > 0 ==> Inv(Step(w, RecoverStale(timeout, now)))
  {
    if timeout > 0 {
      var after := Step(w, RecoverStale(timeout, now));
      forall id | id in after.rows && after.rows[id].status == Running && after.rows[id].lockedBy.Some?
        ensures LockMatches(after, id, after.rows[id].lockedBy.value)
      {
        assert LockMatches(w, id, w.rows[id].lockedBy.value);
      }
    }
  }

  /** A row added, or a timestamp changed: the running jobs and their owners are the same. */
  lemma RowsKeepInv(w: World, rows: Rows)
    requires Inv(w) && RowsOk(rows)
    requires forall id :: id in rows && rows[id].status == Running <==> id in w.rows && w.rows[id].status == Running
    requires forall id :: id in rows && rows[id].status == Running ==> rows[id].lockedBy == w.rows[id].lockedBy
    ensures Inv(w.(rows := rows))
  {
    var after := w.(rows := rows);
    forall id | id in after.rows && after.rows[id].status == Running && after.rows[id].lockedBy.Some?
      ensures LockMatches(after, id, after.rows[id].lockedBy.value)
    {
      assert LockMatches(w, id, w.rows[id].lockedBy.value);
    }
  }

  lemma AbandonKeepsInv(w: World, worker: WorkerId)
    requires Inv(w)
    ensures Inv(w.(workers := w.workers[worker := Idle]))
  {
    var after := w.(workers := w.workers[worker := Idle]);
    forall id | id in after.rows && after.rows[id].status == Running && after.rows[id].lockedBy.Some?
      ensures LockMatches(after, id, after.rows[id].lockedBy.value)
    {
      assert LockMatches(w, id, w.rows[id].lockedBy.value);
    }
  }

  /** Steps that change at most a timestamp, add a row, or make a worker put its job down. */
  lemma QuietKeepsInv(w: World, a: Action)
    requires Inv(w) && Enabled(w, a) && (a.Enqueue? || a.Touch? || a.Abandon?)
    ensures Inv(Step(w, a))
  {
    if a.Abandon? {
      AbandonKeepsInv(w, a.worker);
    } else {
      RowsKeepInv(w, Step(w, a).rows);
    }
  }

  lemma StepKeepsInv(w: World, a: Action)
    requires Inv(w) && Enabled(w, a)
    ensures Inv(Step(w, a))
  {
    match a {
      case Claim(worker, id, skipped, now) => ClaimKeepsInv(w, worker, id, skipped, now);
      case Complete(worker) => FinishKeepsInv(w, worker, j => Unlocked(j, Completed));
      case Fail(worker) => FinishKeepsInv(w, worker, j => Unlocked(j, Failed));
      case Retry(worker, runAt) => FinishKeepsInv(w, worker, j => Requeued(j, runAt));
      case RecoverStale(timeout, now) => RecoverKeepsInv(w, timeout, now);
      case _ => QuietKeepsInv(w, a);
    }
  }

  const START: World := World(map[], map[], map[], 0)

  ghost function Run(w: World, actions: seq<Action>): (after: World)
    requires Inv(w)
    ensures Inv(after)
    decreases |actions|
  {
    if actions == [] then w
    else if Enabled(w, actions[0]) then
      StepKeepsInv(w, actions[0]);
      Run(Step(w, actions[0]), actions[1..])
    else Run(w, actions[1..])
  }

  // ----- What follows over whole runs -----

  /** Attempts never exceed the maximum, and a job is running exactly while a worker is named as its owner. */
  lemma RowsAlwaysOk(actions: seq<Action>, id: JobId)
    ensures var rows := Run(START, actions).rows;
      id in rows ==>
        && rows[id].attempts <= rows[id].maxAttempts
        && (rows[id].status == Running <==> rows[id].lockedBy.Some?)
  {
    assert RowsOk(Run(START, actions).rows);
  }

  /**
   * A worker whose lease is still accepted works under the job's current claim: what it completes, fails,
   * retries or refreshes is never a job that was recovered and claimed again.
   */
  lemma LeaseIsCurrentClaim(actions: seq<Action>, worker: WorkerId)
    ensures var w := Run(START, actions);
      WorkOf(w, worker).Busy? && Held(w.rows, WorkOf(w, worker).job, worker) ==>
        WorkOf(w, worker).job in w.current && w.current[WorkOf(w, worker).job] == WorkOf(w, worker).claim
  {
    HeldIsCurrent(Run(START, actions), worker);
  }

  lemma HeldIsCurrent(w: World, worker: WorkerId)
    requires Inv(w)
    ensures WorkOf(w, worker).Busy? && Held(w.rows, WorkOf(w, worker).job, worker) ==>
      WorkOf(w, worker).job in w.current && w.current[WorkOf(w, worker).job] == WorkOf(w, worker).claim
  {
    if WorkOf(w, worker).Busy? && Held(w.rows, WorkOf(w, worker).job, worker) {
      assert LockMatches(w, WorkOf(w, worker).job, worker);
    }
  }

  predicate Lost(w: World, claim: ClaimId) {
    claim < w.claims && forall id :: id in w.current ==> w.current[id] != claim
  }

  lemma LostStep(w: World, a: Action, claim: ClaimId)
    requires Inv(w) && Lost(w, claim) && Enabled(w, a)
    ensures Lost(Step(w, a), claim)
  {
  }

  lemma TerminalStep(w: World, a: Action, id: JobId)
    requires Inv(w) && Enabled(w, a) && id in w.rows && Terminal(w.rows[id].status)
    ensures id in Step(w, a).rows && Step(w, a).rows[id] == w.rows[id]
  {
  }

  /** A claim lost to recovery, or ended, is never the current one again. */
  lemma {:induction false} LostStaysLost(w: World, actions: seq<Action>, claim: ClaimId)
    requires Inv(w) && Lost(w, claim)
    ensures Lost(Run(w, actions), claim)
    decreases |actions|
  {
    if actions != [] {
      if Enabled(w, actions[0]) {
        StepKeepsInv(w, actions[0]);
        LostStep(w, actions[0], claim);
        LostStaysLost(Step(w, actions[0]), actions[1..], claim);
      } else {
        LostStaysLost(w, actions[1..], claim);
      }
    }
  }

  /** Completed, failed and dead jobs never change again. */
  lemma {:induction false} TerminalIsFinal(w: World, actions: seq<Action>, id: JobId)
    requires Inv(w) && id in w.rows && Terminal(w.rows[id].status)
    ensures id in Run(w, actions).rows && Run(w, actions).rows[id] == w.rows[id]
    decreases |actions|
  {
    if actions != [] {
      if Enabled(w, actions[0]) {
        StepKeepsInv(w, actions[0]);
        TerminalStep(w, actions[0], id);
        TerminalIsFinal(Step(w, actions[0]), actions[1..], id);
      } else {
        TerminalIsFinal(w, actions[1..], id);
      }
    }
  }

  /** A stale lease recovered is lost to the worker that held it: none of its later calls on the job succeeds. */
  lemma RecoveredWorkerIsLockedOut(w: World, timeout: int, now: int, worker: WorkerId, actions: seq<Action>)
    requires Inv(w) && timeout > 0 && WorkOf(w, worker).Busy?
    requires var id := WorkOf(w, worker).job; Held(w.rows, id, worker) && Stale(w.rows[id], now, timeout)
    ensures var recovered := Step(w, RecoverStale(timeout, now));
      Inv(recovered) &&
      var later := Run(recovered, actions);
      WorkOf(later, worker) == WorkOf(w, worker) ==> !Held(later.rows, WorkOf(w, worker).job, worker)
  {
    var id, claim := WorkOf(w, worker).job, WorkOf(w, worker).claim;
    var recovered := Step(w, RecoverStale(timeout, now));
    RecoverKeepsInv(w, timeout, now);
    assert LockMatches(w, id, worker);
    LostStaysLost(recovered, actions, claim);
    HeldIsCurrent(Run(recovered, actions), worker);
  }
}
