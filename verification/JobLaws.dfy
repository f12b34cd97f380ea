/** What the job queue does to a row, field by field, and what attempts and leases come to over whole runs. */
module JobLaws {
  import opened JobQueue
  import opened Text
  import opened Wrappers

  // ----- Claiming -----

  /** The job waits, is due, and has attempts left. */
  predicate CanBeClaimed(rows: Rows, skipped: set<JobId>, now: int, id: JobId) {
    && id in rows && id !in skipped
    && rows[id].status == Queued && rows[id].runAt <= now && rows[id].attempts < rows[id].maxAttempts
  }

  /** Not behind the other: higher priority, or as high and due earlier, or as early and no younger. */
  predicate NotBehind(a: Job, b: Job) {
    a.priority > b.priority ||
    (a.priority == b.priority && (a.runAt < b.runAt || (a.runAt == b.runAt && a.createdAt <= b.createdAt)))
  }

  lemma CandidateMeans(rows: Rows, skipped: set<JobId>, now: int, id: JobId)
    ensures Candidate(rows, skipped, now, id) <==>
      CanBeClaimed(rows, skipped, now, id) &&
      forall other :: CanBeClaimed(rows, skipped, now, other) ==> NotBehind(rows[id], rows[other])
  {
    forall other
      ensures CanBeClaimed(rows, skipped, now, other) <==> other in rows && other !in skipped && Eligible(rows[other], now)
    {
    }
  }

  /** The claimed job runs under the worker from now on, with one more attempt; no other row changes. */
  lemma ClaimDoes(w: World, worker: WorkerId, id: JobId, skipped: set<JobId>, now: int)
    requires Enabled(w, Claim(worker, id, skipped, now))
    ensures TrimSpace(worker) != ""
    ensures var after := Step(w, Claim(worker, id, skipped, now)); StillHolds(after, worker) && WorkOf(after, worker).job == id
    ensures var before, rows := w.rows, Step(w, Claim(worker, id, skipped, now)).rows;
      && CanBeClaimed(before, skipped, now, id) && rows.Keys == before.Keys
      && rows[id].status == Running && rows[id].lockedBy == Some(worker) && rows[id].lockedAt == Some(now)
      && rows[id].attempts == before[id].attempts + 1
      && SameTask(rows[id], before[id]) && rows[id].runAt == before[id].runAt
      && forall other :: other in before && other != id ==> rows[other] == before[other]
  {
    CandidateMeans(w.rows, skipped, now, id);
  }

  predicate SameTask(a: Job, b: Job) {
    a.priority == b.priority && a.maxAttempts == b.maxAttempts && a.createdAt == b.createdAt
  }

  /** A new job waits with no attempt made. */
  lemma EnqueueDoes(w: World, id: JobId, priority: int, maxAttempts: nat, runAt: int, createdAt: int, now: int)
    requires Enabled(w, Enqueue(id, priority, maxAttempts, runAt, createdAt)) && runAt <= now
    ensures var rows := Step(w, Enqueue(id, priority, maxAttempts, runAt, createdAt)).rows;
      && CanBeClaimed(rows, {}, now, id) && rows - {id} == w.rows
      && rows[id].priority == priority && rows[id].maxAttempts == maxAttempts && rows[id].attempts == 0
      && rows[id].runAt == runAt && rows[id].createdAt == createdAt && rows[id].lockedBy == None
  {
  }

  // ----- Ending an attempt -----

  /** The attempt is over: nobody holds the job. */
  predicate Ended(before: Job, after: Job, status: Status) {
    && after.status == status && after.lockedAt == None && after.lockedBy == None
    && after.attempts == before.attempts && SameTask(after, before)
  }

  /** It goes back to the queue for `runAt`, or is dead when its attempts are spent. */
  predicate BackOrDead(before: Job, after: Job, runAt: int) {
    if before.attempts < before.maxAttempts then Ended(before, after, Queued) && after.runAt == runAt
    else Ended(before, after, Dead) && after.runAt == before.runAt
  }

  /** The worker still holds the job it has in hand. */
  predicate StillHolds(w: World, worker: WorkerId) {
    && WorkOf(w, worker).Busy? && WorkOf(w, worker).job in w.rows
    && w.rows[WorkOf(w, worker).job].status == Running && w.rows[WorkOf(w, worker).job].lockedBy == Some(worker)
  }

  ghost predicate OnlyRow(rows: Rows, after: Rows, id: JobId) {
    id in rows && after.Keys == rows.Keys && forall other :: other in rows && other != id ==> after[other] == rows[other]
  }

  /** Only a worker that still holds its job ends it or refreshes its lock, and only that row changes. */
  lemma WorkerDoes(w: World, a: Action)
    requires Enabled(w, a) && (a.Complete? || a.Fail? || a.Retry? || a.Touch?)
    ensures var id, rows := WorkOf(w, a.worker).job, Step(w, a).rows;
      if StillHolds(w, a.worker) then
        OnlyRow(w.rows, rows, id) &&
        match a
        case Complete(_) => Ended(w.rows[id], rows[id], Completed) && rows[id].runAt == w.rows[id].runAt
        case Fail(_) => Ended(w.rows[id], rows[id], Failed) && rows[id].runAt == w.rows[id].runAt
        case Retry(_, runAt) => BackOrDead(w.rows[id], rows[id], runAt)
        case Touch(_, now) => rows[id].lockedAt == Some(now) && rows[id].(lockedAt := w.rows[id].lockedAt) == w.rows[id]
        case _ => true
      else rows == w.rows
  {
  }

  // ----- Recovery -----

  /** The lock of a running job was last refreshed longer ago than the timeout. */
  predicate TimedOut(j: Job, now: int, timeout: int) {
    j.status == Running && j.lockedAt.Some? && j.lockedAt.value + timeout < now
  }

  /** Recovery ends exactly the attempts that timed out. */
  lemma RecoveryDoes(w: World, timeout: int, now: int, id: JobId)
    requires Enabled(w, RecoverStale(timeout, now)) && id in w.rows
    ensures var rows := Step(w, RecoverStale(timeout, now)).rows;
      && rows.Keys == w.rows.Keys
      && if TimedOut(w.rows[id], now, timeout) then BackOrDead(w.rows[id], rows[id], now) else rows[id] == w.rows[id]
  {
  }

  /** The action neither ends the worker's attempt nor finds its lock out of date. */
  predicate LeavesLease(a: Action, worker: WorkerId, since: int) {
    match a
    case Complete(other) => other != worker
    case Fail(other) => other != worker
    case Retry(other, _) => other != worker
    case Abandon(other) => other != worker
    case Touch(other, now) => other == worker ==> since <= now
    case RecoverStale(timeout, now) => now <= since + timeout
    case _ => true
  }

  predicate HoldsSince(w: World, worker: WorkerId, work: Work, since: int) {
    && WorkOf(w, worker) == work && StillHolds(w, worker)
    && w.rows[work.job].lockedAt.Some? && since <= w.rows[work.job].lockedAt.value
  }

  lemma LeaseStays(w: World, a: Action, worker: WorkerId, work: Work, since: int)
    requires Inv(w) && Enabled(w, a) && work.Busy? && HoldsSince(w, worker, work, since) && LeavesLease(a, worker, since)
    ensures HoldsSince(Step(w, a), worker, work, since)
  {
    match a
    case Claim(_, id, skipped, now) => CandidateMeans(w.rows, skipped, now, id);
    case RecoverStale(timeout, now) => RecoveryDoes(w, timeout, now, work.job);
    case _ =>
  }

  /** A lease is not taken from a worker whose lock never looked older than the timeout to a recovery, whatever others do. */
  lemma {:induction false} FreshLeaseIsKept(w: World, actions: seq<Action>, worker: WorkerId, since: int)
    requires Inv(w) && WorkOf(w, worker).Busy? && HoldsSince(w, worker, WorkOf(w, worker), since)
    requires forall a :: a in actions ==> LeavesLease(a, worker, since)
    ensures HoldsSince(Run(w, actions), worker, WorkOf(w, worker), since)
    decreases |actions|
  {
    if actions != [] {
      var a := actions[0];
      if Enabled(w, a) {
        StepKeepsInv(w, a);
        LeaseStays(w, a, worker, WorkOf(w, worker), since);
        FreshLeaseIsKept(Step(w, a), actions[1..], worker, since);
      } else {
        FreshLeaseIsKept(w, actions[1..], worker, since);
      }
    }
  }

  // ----- Attempts -----

  /** How often the job is claimed along the run. */
  ghost function Claims(w: World, actions: seq<Action>, id: JobId): nat
    requires Inv(w)
    decreases |actions|
  {
    if actions == [] then 0
    else if Enabled(w, actions[0]) then
      StepKeepsInv(w, actions[0]);
      (if actions[0].Claim? && actions[0].id == id then 1 else 0) + Claims(Step(w, actions[0]), actions[1..], id)
    else Claims(w, actions[1..], id)
  }

  lemma AttemptsStep(w: World, a: Action, id: JobId)
    requires Inv(w) && Enabled(w, a) && id in w.rows
    ensures var rows := Step(w, a).rows;
      && id in rows && SameTask(rows[id], w.rows[id])
      && rows[id].attempts == w.rows[id].attempts + if a.Claim? && a.id == id then 1 else 0
  {
    match a
    case RecoverStale(timeout, now) => RecoveryDoes(w, timeout, now, id);
    case _ =>
  }

  /** The attempts of a job are the times it was claimed, and never more than its maximum; its task never changes. */
  lemma {:induction false} AttemptsCountClaims(w: World, actions: seq<Action>, id: JobId)
    requires Inv(w) && id in w.rows
    ensures var rows := Run(w, actions).rows;
      && id in rows && SameTask(rows[id], w.rows[id])
      && rows[id].attempts == w.rows[id].attempts + Claims(w, actions, id) <= rows[id].maxAttempts
    decreases |actions|
  {
    if actions == [] {
      assert RowOk(w.rows[id]);
    } else if Enabled(w, actions[0]) {
      StepKeepsInv(w, actions[0]);
      AttemptsStep(w, actions[0], id);
      AttemptsCountClaims(Step(w, actions[0]), actions[1..], id);
    } else {
      AttemptsCountClaims(w, actions[1..], id);
    }
  }
}
