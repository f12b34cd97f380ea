/** No lost wake-up: whoever's turn it is, is awake or about to be woken. */
module SchedulerWakeups {
  import opened Arithmetic
  import opened SchedulerRuns
  import opened SchedulerState
  import opened Wrappers

  // ----- The turn as a minimum -----

  /** Places from the cursor to the operation, going round. */
  function Distance(s: State, op: Operation): nat
    requires CursorInRange(s) && IsFair(op)
  {
    var i := FairIndex(op);
    if s.fairCursor <= i then i - s.fairCursor else i + |FAIR_OPERATIONS| - s.fairCursor
  }

  predicate QueuedFair(s: State, x: Waiter) {
    IsFair(x.0) && x.1 in s.Queue(x.0) && x.1 != 0
  }

  /** `x` is served before `y` when both are assignable. */
  predicate Before(s: State, x: Waiter, y: Waiter)
    requires CursorInRange(s) && IsFair(x.0) && IsFair(y.0)
  {
    Distance(s, x.0) < Distance(s, y.0) || (x.0 == y.0 && x.1 < y.1)
  }

  lemma OldestSpec(s: State, op: Operation, now: Time)
    requires 0 !in s.Queue(op)
    ensures s.Oldest(op, now) != 0 ==> s.Oldest(op, now) in s.AssignableIn(op, now)
    ensures forall id :: id in s.AssignableIn(op, now) ==> s.Oldest(op, now) != 0 && s.Oldest(op, now) <= id
  {
    var candidates: set<int> := set id | id in s.AssignableIn(op, now) :: id as int;
    forall id | id in s.AssignableIn(op, now)
      ensures s.Oldest(op, now) != 0 && s.Oldest(op, now) <= id
    {
      assert (id as int) in candidates;
    }
  }

  lemma OperationAt(s: State, offset: nat)
    requires CursorInRange(s) && offset < |FAIR_OPERATIONS|
    ensures var op := FAIR_OPERATIONS[Rotate(s.fairCursor, offset, |FAIR_OPERATIONS|)];
      IsFair(op) && Distance(s, op) == offset
  {
  }

  /** The rotation picks an assignable fair waiter whenever there is one, and the first in order. */
  lemma {:induction false} NextFairFrom(s: State, now: Time, offset: nat)
    requires CursorInRange(s) && forall op :: 0 !in s.Queue(op)
    ensures var r := s.NextFair(now, offset);
      && (r.Some? ==> QueuedFair(s, r.value) && s.Assignable(r.value.1, now) && Distance(s, r.value.0) >= offset)
      && (forall y: Waiter :: QueuedFair(s, y) && s.Assignable(y.1, now) && Distance(s, y.0) >= offset
            ==> r.Some? && (r.value == y || Before(s, r.value, y)))
    decreases |FAIR_OPERATIONS| - offset
  {
    if offset < |FAIR_OPERATIONS| {
      var op := FAIR_OPERATIONS[Rotate(s.fairCursor, offset, |FAIR_OPERATIONS|)];
      OperationAt(s, offset);
      OldestSpec(s, op, now);
      NextFairFrom(s, now, offset + 1);
      forall y: Waiter | QueuedFair(s, y) && s.Assignable(y.1, now) && Distance(s, y.0) >= offset
        ensures s.NextFair(now, offset).Some?
        ensures s.NextFair(now, offset).value == y || Before(s, s.NextFair(now, offset).value, y)
      {
        if Distance(s, y.0) == offset {
          assert y.0 == op;
          assert y.1 in s.AssignableIn(op, now);
        }
      }
    }
  }

  lemma NextFairSpec(s: State, now: Time)
    requires CursorInRange(s) && forall op :: 0 !in s.Queue(op)
    ensures var r := s.NextFair(now, 0);
      && (r.Some? ==> QueuedFair(s, r.value) && s.Assignable(r.value.1, now))
      && (forall y: Waiter :: QueuedFair(s, y) && s.Assignable(y.1, now)
            ==> r.Some? && (r.value == y || Before(s, r.value, y)))
  {
    NextFairFrom(s, now, 0);
  }

  // ----- Why a parked call may sleep -----

  predicate Candidate(s: State, excluded: set<BotId>, b: BotId) {
    b in s.bots && b !in excluded && s.Eligible(b) && b !in s.busy
  }

  /** The timer rings no later than the candidate comes free. */
  predicate TimerCovers(s: State, b: BotId, timer: Option<Time>, clock: Time) {
    timer.Some? && (timer.value <= clock || (b in s.cooldown && timer.value <= s.cooldown[b]))
  }

  ghost predicate AllCovered(s: State, excluded: set<BotId>, timer: Option<Time>, clock: Time) {
    forall b :: Candidate(s, excluded, b) ==> TimerCovers(s, b, timer, clock)
  }

  /** Somebody else is served first. */
  ghost predicate Outranked(s: State, me: Waiter, clock: Time)
    requires CursorInRange(s)
  {
    IsFair(me.0) && exists x: Waiter :: QueuedFair(s, x) && s.Assignable(x.1, clock) && Before(s, x, me)
  }

  ghost predicate MaySleep(s: State, c: Call, clock: Time)
    requires CursorInRange(s) && c.phase.Parked? && c.request.Acquiring?
  {
    Outranked(s, (c.op, c.place), clock) || AllCovered(s, c.request.excluded, c.phase.timer, clock)
  }

  predicate Asleep(w: World, id: nat) {
    id in w.calls && w.calls[id].request.Acquiring? && w.calls[id].phase.Parked?
    && w.calls[id].phase.generation == w.s.changed
  }

  // ----- The property -----

  predicate IsCallOf(w: World, id: nat, x: Waiter) {
    id in w.calls && w.calls[id].op == x.0 && w.calls[id].place == x.1
  }

  /** The waiter's call is running or will be woken. */
  ghost predicate AwakeAlready(w: World, x: Waiter) {
    exists id :: IsCallOf(w, id, x) && w.calls[id].request.Acquiring?
      && (w.calls[id].phase.Ready? || Due(w, w.calls[id].phase))
  }

  /** The waiter whose turn it is belongs to a call that is running or will be woken. */
  ghost predicate TurnIsAwake(w: World) {
    var turn := w.s.NextFair(w.clock, 0);
    turn.Some? ==> AwakeAlready(w, turn.value)
  }

  /** The same world when nothing happens for a while. */
  function Later(w: World, elapsed: nat): World {
    w.(clock := w.clock + elapsed)
  }

  /** The turn is awake now, and stays so however long nothing else happens: cooldowns end by themselves. */
  ghost predicate AwakeEver(w: World) {
    forall d: nat :: TurnIsAwake(Later(w, d))
  }

  /** Control calls stand in queues outside the rotation. */
  ghost predicate ControlsApart(w: World) {
    forall id :: id in w.calls && w.calls[id].request.Controlling? ==> !IsFair(w.calls[id].op)
  }

  predicate BeginsApart(a: Action) {
    a.Begin? && a.request.Controlling? ==> !IsFair(a.op)
  }

  // ----- Time passes -----

  lemma AssignableLater(s: State, id: nat, now: Time, later: Time)
    requires now <= later && s.Assignable(id, now)
    ensures s.Assignable(id, later)
  {
    var b :| b in s.bots && b !in s.ExclusionsOf(id) && s.Free(b, now);
    assert s.Free(b, later);
  }

  lemma SleepOn(s: State, c: Call, now: Time, later: Time)
    requires CursorInRange(s) && c.phase.Parked? && c.request.Acquiring? && now <= later && MaySleep(s, c, now)
    ensures MaySleep(s, c, later)
  {
    if Outranked(s, (c.op, c.place), now) {
      var x: Waiter :| QueuedFair(s, x) && s.Assignable(x.1, now) && Before(s, x, (c.op, c.place));
      AssignableLater(s, x.1, now, later);
    }
  }

  /** Every sleeping call has a reason to sleep. */
  ghost predicate Excused(w: World)
    requires CursorInRange(w.s)
  {
    forall id :: Asleep(w, id) ==> MaySleep(w.s, w.calls[id], w.clock)
  }

  lemma FirstIsNotOutranked(s: State, x: Waiter, now: Time)
    requires CursorInRange(s) && IsFair(x.0)
    requires forall y: Waiter :: QueuedFair(s, y) && s.Assignable(y.1, now) ==> x == y || Before(s, x, y)
    ensures !Outranked(s, x, now)
  {
    forall y: Waiter
      ensures !(QueuedFair(s, y) && s.Assignable(y.1, now) && Before(s, y, x))
    {
    }
  }

  /** The waiter first in turn, a bot being free for it, has no reason to sleep but a timer that is due. */
  lemma TurnHolderIsDue(s: State, c: Call, now: Time, later: Time)
    requires CursorInRange(s) && NoZeroPlace(s) && c.request.Acquiring? && c.phase.Parked?
    requires now <= later && MaySleep(s, c, now)
    requires s.NextFair(later, 0) == Some((c.op, c.place)) && s.ExclusionsOf(c.place) == c.request.excluded
    ensures c.phase.timer.Some? && c.phase.timer.value <= later
  {
    SleepOn(s, c, now, later);
    NextFairSpec(s, later);
    FirstIsNotOutranked(s, (c.op, c.place), later);
    var b :| b in s.bots && b !in c.request.excluded && s.Free(b, later);
    assert Candidate(s, c.request.excluded, b);
  }

  ghost predicate NoZeroPlace(s: State) {
    forall op :: 0 !in s.Queue(op)
  }

  /** A parked call with the turn is found where the rotation looks. */
  lemma TurnHolderPlaced(w: World, id: nat, x: Waiter)
    requires Inv(w) && Owns(w.calls, id, x.0, x.1) && x.1 != 0 && w.calls[id].request.Acquiring?
    ensures CursorInRange(w.s) && NoZeroPlace(w.s) && !w.calls[id].phase.Finished?
    ensures w.s.ExclusionsOf(x.1) == w.calls[id].request.excluded
  {
    assert Placed(w.s, w.calls[id]);
  }

  lemma TurnHasOwner(w: World, now: Time, x: Waiter) returns (owner: nat)
    requires Inv(w) && w.s.NextFair(now, 0) == Some(x)
    ensures IsFair(x.0) && x.1 != 0 && Owns(w.calls, owner, x.0, x.1)
  {
    NextFairSpec(w.s, now);
    owner :| Owns(w.calls, owner, x.0, x.1);
  }

  lemma ExcusedIsAwake(w: World)
    requires Inv(w) && ControlsApart(w) && Excused(w)
    ensures TurnIsAwake(w)
  {
    var turn := w.s.NextFair(w.clock, 0);
    if turn.Some? {
      var x := turn.value;
      var id := TurnHasOwner(w, w.clock, x);
      assert IsCallOf(w, id, x);
      if w.calls[id].phase.Parked? && !Due(w, w.calls[id].phase) {
        assert Asleep(w, id);
        TurnHolderPlaced(w, id, x);
        TurnHolderIsDue(w.s, w.calls[id], w.clock, w.clock);
      }
    }
  }

  lemma ExcusedIsAwakeEver(w: World)
    requires Inv(w) && ControlsApart(w) && Excused(w)
    ensures AwakeEver(w)
  {
    forall d: nat
      ensures TurnIsAwake(Later(w, d))
    {
      var v := Later(w, d);
      forall id | Asleep(v, id)
        ensures MaySleep(v.s, v.calls[id], v.clock)
      {
        assert Asleep(w, id);
        SleepOn(w.s, w.calls[id], w.clock, v.clock);
      }
      ExcusedIsAwake(v);
    }
  }

  /** A call that has just parked has a reason to sleep. */
  lemma ParkedForAReason(w: World, id: nat)
    requires Inv(w) && Enabled(w, Iterate(id)) && w.calls[id].request.Acquiring?
    requires StepOf(w, w.calls[id]).verdict.Park?
    ensures var after := Apply(w, Iterate(id));
      CursorInRange(after.s) && MaySleep(after.s, after.calls[id], after.clock)
  {
    var c := w.calls[id];
    var excluded := c.request.excluded;
    var after := Apply(w, Iterate(id));
    StepKeepsInv(w, Iterate(id));
    FirstFreeSpec(w.s, excluded, w.clock, 0);
    FirstFreeIffUsable(w.s, excluded, w.clock);
    assert Placed(after.s, after.calls[id]);
    AcquireStepFacts(w.s, c.op, excluded, c.place, w.clock);
    if w.s.FirstFree(excluded, w.clock, 0).Some? {
      NextFairSpec(after.s, w.clock);
      var me := (c.op, after.calls[id].place);
      UsableSame(w.s, after.s, excluded, w.clock);
      assert after.s.Assignable(me.1, w.clock);
      assert QueuedFair(after.s, me);
    } else {
      forall b | Candidate(after.s, excluded, b)
        ensures TimerCovers(after.s, b, after.calls[id].phase.timer, after.clock)
      {
        assert !w.s.Free(b, w.clock);
        assert w.s.cooldown[b] in w.s.CooldownEnds(excluded, w.clock);
      }
    }
  }

  lemma UsableSame(s: State, t: State, excluded: set<BotId>, now: Time)
    requires t.bots == s.bots && t.controls == s.controls && t.cooldown == s.cooldown && t.busy == s.busy
    ensures s.Usable(excluded, now) <==> t.Usable(excluded, now)
  {
    assert forall b :: s.Free(b, now) <==> t.Free(b, now);
  }

  /** An iteration that does not broadcast leases only when no fair waiter is queued, and otherwise changes nothing. */
  lemma QuietAcquire(s: State, op: Operation, excluded: set<BotId>, id: nat, now: Time)
    requires id != 0 ==> id in s.exclusions
    requires AcquireStep(s, op, excluded, id, now).state.changed == s.changed
    ensures var it := AcquireStep(s, op, excluded, id, now);
      if it.verdict.Granted? then !s.HasFairWaiters() else it.state == s
  {
    if !s.HasEligible(excluded) {
      assert s.Withdraw(op, 0) == s;
    } else {
      var (queued, place) := Joined(s, op, excluded, id);
      QuietTakeOrWait(s, queued, op, excluded, place, now);
    }
  }

  lemma QuietTakeOrWait(s: State, queued: State, op: Operation, excluded: set<BotId>, place: nat, now: Time)
    requires queued.bots == s.bots && (queued == s || queued.changed == s.changed + 1)
    requires place != 0 && queued == s ==> place in s.exclusions
    requires TakeOrWait(s, queued, op, excluded, place, now).state.changed == s.changed
    ensures var it := TakeOrWait(s, queued, op, excluded, place, now);
      if it.verdict.Granted? then !s.HasFairWaiters() else it.state == s
  {
    FirstFreeSpec(s, excluded, now, 0);
    match s.FirstFree(excluded, now, 0)
    case Some(index) => QuietTake(s, queued, op, place, index, now);
    case None => QuietWait(s, queued, op, excluded, place, s.HasBusyEligible(excluded), s.EarliestCooldown(excluded, now));
  }

  lemma QuietTake(s: State, queued: State, op: Operation, place: nat, index: nat, now: Time)
    requires index < |queued.bots| && (queued == s || queued.changed == s.changed + 1)
    requires place != 0 && queued == s ==> place in s.exclusions
    requires TakeBot(queued, op, place, index, now).state.changed == s.changed
    ensures var it := TakeBot(queued, op, place, index, now);
      queued == s && if it.verdict.Granted? then !s.HasFairWaiters() else it.state == s
  {
    TakeBotFacts(queued, op, place, index, now);
    if TakeBot(queued, op, place, index, now).verdict.Granted? && queued == s {
      assert s.DequeueAcquire(op, 0) == s;
    }
  }

  lemma QuietWait(s: State, queued: State, op: Operation, excluded: set<BotId>, place: nat, busyEligible: bool,
                  earliest: Option<Time>)
    requires queued == s || queued.changed == s.changed + 1
    requires place != 0 && queued == s ==> place in s.exclusions
    requires WaitForBot(queued, op, excluded, place, busyEligible, earliest).state.changed == s.changed
    ensures var it := WaitForBot(queued, op, excluded, place, busyEligible, earliest);
      !it.verdict.Granted? && it.state == s
  {
    assert s.Withdraw(op, 0) == s;
  }

  /** A control call touches its own queue, and `busy` when it is granted. */
  lemma ControlFacts(s: State, bot: BotId, op: Operation, id: nat, now: Time)
    ensures var it := ControlStep(s, bot, op, id, now);
      && it.state.bots == s.bots && it.state.controls == s.controls && it.state.cooldown == s.cooldown
      && it.state.fairCursor == s.fairCursor && it.state.exclusions == s.exclusions
      && it.state.busy == if it.verdict.ControlGranted? then s.busy + {bot} else s.busy
  {
    var left := s.Dequeue(op, id);
    assert left == s.(waiters := left.waiters);
    if bot in s.bots && bot in s.busy {
      assert ControlStep(s, bot, op, id, now).state == if id == 0 then s.Enqueue(op) else s;
    } else if bot in s.bots && !s.Cooling(bot, now) {
      assert ControlStep(s, bot, op, id, now).state == left.StartLease(bot, op, now);
    } else {
      assert ControlStep(s, bot, op, id, now).state == left;
    }
  }

  lemma ControlQueues(s: State, bot: BotId, op: Operation, id: nat, now: Time, other: Operation)
    requires other != op
    ensures ControlStep(s, bot, op, id, now).state.Queue(other) == s.Queue(other)
  {
    assert s.Dequeue(op, id).Queue(other) == s.Queue(other);
    assert s.Enqueue(op).Queue(other) == s.Queue(other);
    assert s.Dequeue(op, id).StartLease(bot, op, now).Queue(other) == s.Dequeue(op, id).Queue(other);
  }

  /** The rotation looks only at the fair queues, at exclusions and at which bots are free. */
  lemma {:induction false} SameTurn(s: State, t: State, now: Time, offset: nat)
    requires t.bots == s.bots && t.controls == s.controls && t.cooldown == s.cooldown && t.busy == s.busy
    requires t.exclusions == s.exclusions && t.fairCursor == s.fairCursor
    requires forall op :: IsFair(op) ==> t.Queue(op) == s.Queue(op)
    ensures t.NextFair(now, offset) == s.NextFair(now, offset)
    decreases |FAIR_OPERATIONS| - offset
  {
    if offset < |FAIR_OPERATIONS| {
      var op := FAIR_OPERATIONS[Rotate(s.fairCursor, offset, |FAIR_OPERATIONS|)];
      assert IsFair(op);
      forall id
        ensures t.Assignable(id, now) <==> s.Assignable(id, now)
      {
        UsableSame(s, t, s.ExclusionsOf(id), now);
      }
      assert t.AssignableIn(op, now) == s.AssignableIn(op, now);
      SameTurn(s, t, now, offset + 1);
    }
  }

  // ----- Which control leases -----

  /** Whose turn it would be if `bot` were leased. */
  ghost function TurnWithout(w: World, bot: BotId): Option<Waiter> {
    w.s.(busy := w.s.busy + {bot}).NextFair(w.clock, 0)
  }

  /** After that wait, counting the bot as leased, nobody has the turn or its holder is awake already. */
  ghost predicate SafeAfter(w: World, bot: BotId, elapsed: nat) {
    var next := TurnWithout(Later(w, elapsed), bot);
    next.None? || AwakeAlready(Later(w, elapsed), next.value)
  }

  ghost predicate LeaseIsSafe(w: World, bot: BotId) {
    forall d: nat :: SafeAfter(w, bot, d)
  }

  ghost predicate ControlLease(w: World, a: Action)
    requires Enabled(w, a)
  {
    a.Iterate? && w.calls[a.id].request.Controlling? && LeasedBy(w, a).Some?
  }

  /** A pass of a control call does to the turn what counting its bot as leased does. */
  lemma ControlTurn(s: State, bot: BotId, op: Operation, id: nat, now: Time, later: Time)
    requires !IsFair(op)
    ensures var it := ControlStep(s, bot, op, id, now);
      it.state.NextFair(later, 0) ==
        (if it.verdict.ControlGranted? then s.(busy := s.busy + {bot}) else s).NextFair(later, 0)
  {
    var it := ControlStep(s, bot, op, id, now);
    ControlFacts(s, bot, op, id, now);
    forall fair | IsFair(fair)
      ensures it.state.Queue(fair) == s.Queue(fair)
    {
      ControlQueues(s, bot, op, id, now, fair);
    }
    SameTurn(if it.verdict.ControlGranted? then s.(busy := s.busy + {bot}) else s, it.state, later, 0);
  }

  lemma ControlIsSilent(s: State, bot: BotId, op: Operation, id: nat, now: Time)
    ensures ControlStep(s, bot, op, id, now).state.changed == s.changed
  {
    var left, queued := s.Dequeue(op, id), s.Enqueue(op);
    assert left.changed == s.changed && queued.changed == s.changed;
  }

  /** What the world looks like after a control lease. */
  lemma ControlLeased(w: World, id: nat)
    requires Enabled(w, Iterate(id)) && ControlLease(w, Iterate(id))
    ensures var (c, after) := (w.calls[id], Apply(w, Iterate(id)));
      && ControlStepOf(w, c).verdict.ControlGranted?
      && after.s == ControlStepOf(w, c).state && after.clock == w.clock
      && after.calls == w.calls[id := CallAfter(w, c)] && CallAfter(w, c).request == c.request
      && after.s.changed == w.s.changed && CallAfter(w, c).op == c.op
  {
    var c := w.calls[id];
    ControlIsSilent(w.s, c.request.bot, c.op, c.place, w.clock);
  }

  /** The same acquiring calls, the same generation, the same time. */
  ghost predicate SameAcquirers(v: World, t: World) {
    && t.s.changed == v.s.changed && t.clock == v.clock
    && (forall id :: id in v.calls && v.calls[id].request.Acquiring? ==> id in t.calls && t.calls[id] == v.calls[id])
    && (forall id :: id in t.calls && t.calls[id].request.Acquiring? ==> id in v.calls && t.calls[id] == v.calls[id])
  }

  lemma SameAwake(v: World, t: World, d: nat, x: Waiter)
    requires SameAcquirers(v, t)
    ensures AwakeAlready(Later(t, d), x) <==> AwakeAlready(Later(v, d), x)
  {
    var v1, t1 := Later(v, d), Later(t, d);
    if AwakeAlready(v1, x) {
      var id :| IsCallOf(v1, id, x) && v1.calls[id].request.Acquiring?
                && (v1.calls[id].phase.Ready? || Due(v1, v1.calls[id].phase));
      assert IsCallOf(t1, id, x);
    }
    if AwakeAlready(t1, x) {
      var id :| IsCallOf(t1, id, x) && t1.calls[id].request.Acquiring?
                && (t1.calls[id].phase.Ready? || Due(t1, t1.calls[id].phase));
      assert IsCallOf(v1, id, x);
    }
  }

  lemma LeasedIsQuiet(w: World, id: nat)
    requires Enabled(w, Iterate(id)) && ControlLease(w, Iterate(id))
    ensures SameAcquirers(w, Apply(w, Iterate(id)))
  {
    ControlLeased(w, id);
  }

  lemma SameTurnAwake(v: World, t: World, d: nat, turn: Option<Waiter>)
    requires SameAcquirers(v, t)
    ensures (turn.Some? ==> AwakeAlready(Later(t, d), turn.value)) <==>
      (turn.None? || AwakeAlready(Later(v, d), turn.value))
  {
    if turn.Some? {
      SameAwake(v, t, d, turn.value);
    }
  }

  lemma LeaseSeenLater(w: World, after: World, bot: BotId, d: nat)
    requires SameAcquirers(w, after) && after.s.NextFair(w.clock + d, 0) == TurnWithout(Later(w, d), bot)
    ensures TurnIsAwake(Later(after, d)) <==> SafeAfter(w, bot, d)
  {
    SameTurnAwake(w, after, d, TurnWithout(Later(w, d), bot));
  }

  /**
   * A control lease leaves the turn awake, and awake however long nothing else happens, exactly when, counting
   * its bot as leased, the turn is at every later time with nobody or with a call awake by then.
   */
  lemma ControlLeaseIsSafeIff(w: World, id: nat)
    requires Enabled(w, Iterate(id)) && ControlLease(w, Iterate(id)) && !IsFair(w.calls[id].op)
    ensures AwakeEver(Apply(w, Iterate(id))) <==> LeaseIsSafe(w, w.calls[id].request.bot)
  {
    var (c, after) := (w.calls[id], Apply(w, Iterate(id)));
    ControlLeased(w, id);
    LeasedIsQuiet(w, id);
    forall d: nat
      ensures TurnIsAwake(Later(after, d)) <==> SafeAfter(w, c.request.bot, d)
    {
      ControlTurn(w.s, c.request.bot, c.op, c.place, w.clock, w.clock + d);
      LeaseSeenLater(w, after, c.request.bot, d);
    }
  }

  // The condition needs checking only now and when cooldowns end.

  /** Exactly the same bots are cooling at both times. */
  ghost predicate CoolAlike(s: State, now: Time, later: Time) {
    forall b :: s.Cooling(b, now) <==> s.Cooling(b, later)
  }

  lemma {:induction false} TurnBetween(s: State, now: Time, later: Time, offset: nat)
    requires CoolAlike(s, now, later)
    ensures s.NextFair(now, offset) == s.NextFair(later, offset)
    decreases |FAIR_OPERATIONS| - offset
  {
    if offset < |FAIR_OPERATIONS| {
      var op := FAIR_OPERATIONS[Rotate(s.fairCursor, offset, |FAIR_OPERATIONS|)];
      forall id
        ensures s.Assignable(id, now) <==> s.Assignable(id, later)
      {
        assert forall b :: s.Free(b, now) <==> s.Free(b, later);
      }
      assert s.AssignableIn(op, now) == s.AssignableIn(op, later);
      TurnBetween(s, now, later, offset + 1);
    }
  }

  /** The last of the times in question that is not after `time`. */
  lemma {:induction false} LastEnd(ends: set<Time>, from: Time, time: Time) returns (last: Time)
    requires from <= time
    ensures from <= last <= time && (last == from || last in ends)
    ensures forall end :: end in ends && end <= time ==> end <= last
    decreases ends
  {
    last := from;
    assert (forall end :: end !in ends) ==> ends == {};
    if ends != {} {
      var end :| end in ends;
      last := LastEnd(ends - {end}, from, time);
      if last < end <= time {
        last := end;
      }
      forall other | other in ends && other <= time
        ensures other <= last
      {
        assert other != end ==> other in ends - {end};
      }
    }
  }

  ghost predicate SafeAtEnds(w: World, bot: BotId) {
    SafeAfter(w, bot, 0) &&
    forall b :: b in w.s.cooldown && w.clock < w.s.cooldown[b] ==> SafeAfter(w, bot, w.s.cooldown[b] - w.clock)
  }

  lemma StaysAwake(w: World, d: nat, e: nat, x: Waiter)
    requires d <= e && AwakeAlready(Later(w, d), x)
    ensures AwakeAlready(Later(w, e), x)
  {
    var v, t := Later(w, d), Later(w, e);
    var id :| IsCallOf(v, id, x) && v.calls[id].request.Acquiring? && (v.calls[id].phase.Ready? || Due(v, v.calls[id].phase));
    assert IsCallOf(t, id, x);
  }

  lemma CoolRegardless(s: State, t: State, now: Time, later: Time)
    requires t.cooldown == s.cooldown && CoolAlike(s, now, later)
    ensures CoolAlike(t, now, later)
  {
    forall b
      ensures t.Cooling(b, now) <==> t.Cooling(b, later)
    {
      assert s.Cooling(b, now) <==> s.Cooling(b, later);
    }
  }

  lemma SafeUntilNextEnd(w: World, bot: BotId, d: nat, e: nat)
    requires d <= e && SafeAfter(w, bot, d)
    requires CoolAlike(w.s, w.clock + d, w.clock + e)
    ensures SafeAfter(w, bot, e)
  {
    var u := w.s.(busy := w.s.busy + {bot});
    CoolRegardless(w.s, u, w.clock + d, w.clock + e);
    TurnBetween(u, w.clock + d, w.clock + e, 0);
    var next := TurnWithout(Later(w, d), bot);
    if next.Some? {
      StaysAwake(w, d, e, next.value);
    }
  }

  /** Whether a control lease is safe can be told beforehand, from finitely many times. */
  lemma SafeIffAtEnds(w: World, bot: BotId)
    ensures LeaseIsSafe(w, bot) <==> SafeAtEnds(w, bot)
  {
    if SafeAtEnds(w, bot) {
      var ends := set b | b in w.s.cooldown && w.clock < w.s.cooldown[b] :: w.s.cooldown[b];
      forall d: nat
        ensures SafeAfter(w, bot, d)
      {
        var last := LastEnd(ends, w.clock, w.clock + d);
        assert SafeAfter(w, bot, last - w.clock);
        forall b
          ensures w.s.Cooling(b, last) <==> w.s.Cooling(b, w.clock + d)
        {
          assert b in w.s.cooldown && w.clock < w.s.cooldown[b] ==> w.s.cooldown[b] in ends;
        }
        SafeUntilNextEnd(w, bot, last - w.clock, d);
      }
    }
  }

  // ----- Every step -----

  /** A call that sleeps after a broadcast has parked in the same pass. */
  lemma BroadcastWakes(w: World, a: Action)
    requires Inv(w) && Enabled(w, a) && Apply(w, a).s.changed > w.s.changed
    ensures CursorInRange(Apply(w, a).s) && Excused(Apply(w, a))
  {
    var after := Apply(w, a);
    StepKeepsInv(w, a);
    forall id | Asleep(after, id)
      ensures MaySleep(after.s, after.calls[id], after.clock)
    {
      if a == Iterate(id) {
        ParkedForAReason(w, id);
      } else {
        UnmovedPhase(w, a, id);
      }
    }
  }

  /** Only a call's own actions make it parked. */
  lemma UnmovedPhase(w: World, a: Action, id: nat)
    requires Enabled(w, a) && a != Iterate(id)
    requires id in Apply(w, a).calls && Apply(w, a).calls[id].phase.Parked?
    ensures id in w.calls && Apply(w, a).calls[id] == w.calls[id]
  {
  }

  /** Acquiring calls are as before, but for some that have just been woken. */
  ghost predicate SameOrWoken(w: World, t: World) {
    t.s.changed == w.s.changed && t.clock == w.clock
    && forall id :: id in w.calls && w.calls[id].request.Acquiring? ==>
      id in t.calls && (t.calls[id] == w.calls[id] || t.calls[id] == w.calls[id].(phase := Ready))
  }

  lemma StillAwake(w: World, t: World, d: nat, x: Waiter)
    requires SameOrWoken(w, t) && AwakeAlready(Later(w, d), x)
    ensures AwakeAlready(Later(t, d), x)
  {
    var v, u := Later(w, d), Later(t, d);
    var id :| IsCallOf(v, id, x) && v.calls[id].request.Acquiring? && (v.calls[id].phase.Ready? || Due(v, v.calls[id].phase));
    assert IsCallOf(u, id, x);
  }

  lemma Undisturbed(w: World, t: World)
    requires AwakeEver(w) && SameOrWoken(w, t)
    requires forall now :: t.s.NextFair(now, 0) == w.s.NextFair(now, 0)
    ensures AwakeEver(t)
  {
    forall d: nat
      ensures TurnIsAwake(Later(t, d))
    {
      assert TurnIsAwake(Later(w, d));
      var turn := w.s.NextFair(w.clock + d, 0);
      assert t.s.NextFair(w.clock + d, 0) == turn;
      if turn.Some? {
        StillAwake(w, t, d, turn.value);
      }
    }
  }

  lemma TickStep(w: World, elapsed: nat)
    requires AwakeEver(w)
    ensures AwakeEver(Later(w, elapsed))
  {
    forall d: nat
      ensures TurnIsAwake(Later(Later(w, elapsed), d))
    {
      assert Later(Later(w, elapsed), d) == Later(w, elapsed + d);
    }
  }

  lemma QuietChange(s: State, change: Change, now: Time)
    requires ChangeStep(s, change, now).changed == s.changed
    ensures forall later :: ChangeStep(s, change, now).NextFair(later, 0) == s.NextFair(later, 0)
  {
    ChangeFrame(s, change, now);
    var t := ChangeStep(s, change, now);
    forall later
      ensures t.NextFair(later, 0) == s.NextFair(later, 0)
    {
      SameTurn(s, t, later, 0);
    }
  }

  lemma QuietDequeue(s: State, op: Operation, id: nat)
    requires !IsFair(op)
    ensures forall later :: s.Dequeue(op, id).NextFair(later, 0) == s.NextFair(later, 0)
    ensures s.Dequeue(op, id).changed == s.changed
  {
    var t := s.Dequeue(op, id);
    assert t == s.(waiters := t.waiters);
    forall later
      ensures t.NextFair(later, 0) == s.NextFair(later, 0)
    {
      SameTurn(s, t, later, 0);
    }
  }

  /** What a pass of an acquiring call does to the calls. */
  lemma Iterated(w: World, id: nat)
    requires Enabled(w, Iterate(id)) && w.calls[id].request.Acquiring?
    ensures var (c, after) := (CallAfter(w, w.calls[id]), Apply(w, Iterate(id)));
      && after.calls == w.calls[id := c] && after.clock == w.clock && after.s == StepOf(w, w.calls[id]).state
      && c.request == w.calls[id].request && !c.phase.Ready?
      && (c.phase.Parked? <==> StepOf(w, w.calls[id]).verdict.Park?)
  {
  }

  /** A pass that does not broadcast: the one who has the turn is as awake as before. */
  lemma QuietIterate(w: World, id: nat)
    requires Inv(w) && ControlsApart(w) && AwakeEver(w) && Enabled(w, Iterate(id)) && w.calls[id].request.Acquiring?
    requires Apply(w, Iterate(id)).s.changed == w.s.changed
    ensures AwakeEver(Apply(w, Iterate(id)))
  {
    var c, after := w.calls[id], Apply(w, Iterate(id));
    StepKeepsInv(w, Iterate(id));
    Iterated(w, id);
    QuietAcquire(w.s, c.op, c.request.excluded, c.place, w.clock);
    if StepOf(w, c).verdict.Park? {
      ParkedForAReason(w, id);
    }
    QuietPass(w, after, id);
  }

  /** One acquiring call made a pass that left the queues alone, or there is no fair waiter. */
  ghost predicate PassedQuietly(w: World, after: World, id: nat) {
    && Inv(w) && Inv(after) && ControlsApart(w) && after.clock == w.clock
    && id in w.calls && id in after.calls && after.calls == w.calls[id := after.calls[id]]
    && after.calls[id].request.Acquiring? && !after.calls[id].phase.Ready?
    && (after.calls[id].phase.Parked? ==> MaySleep(after.s, after.calls[id], after.clock))
    && (after.s == w.s || !w.s.HasFairWaiters())
  }

  lemma QuietPass(w: World, after: World, id: nat)
    requires PassedQuietly(w, after, id) && AwakeEver(w)
    ensures AwakeEver(after)
  {
    forall d: nat
      ensures TurnIsAwake(Later(after, d))
    {
      assert TurnIsAwake(Later(w, d));
      var turn := after.s.NextFair(after.clock + d, 0);
      if turn.Some? {
        QuietTurn(w, after, id, d, turn.value);
      }
    }
  }

  lemma QuietTurn(w: World, after: World, id: nat, d: nat, x: Waiter)
    requires PassedQuietly(w, after, id) && after.s.NextFair(after.clock + d, 0) == Some(x)
    requires after.s == w.s ==> AwakeAlready(Later(w, d), x)
    ensures AwakeAlready(Later(after, d), x)
  {
    var owner := TurnHasOwner(after, after.clock + d, x);
    if owner == id {
      JustParkedAwake(after, id, d, x);
    } else {
      OthersStayAwake(w, after, id, d, x, owner);
    }
  }

  lemma OthersStayAwake(w: World, after: World, id: nat, d: nat, x: Waiter, owner: nat)
    requires PassedQuietly(w, after, id) && owner != id && Owns(after.calls, owner, x.0, x.1) && IsFair(x.0) && x.1 != 0
    requires after.s == w.s ==> AwakeAlready(Later(w, d), x)
    ensures AwakeAlready(Later(after, d), x)
  {
    QueuedOwner(w, owner, x);
    OtherTurn(w, after, id, d, x, owner);
  }

  /** The turn of another call: it is as it was. */
  lemma OtherTurn(w: World, after: World, id: nat, d: nat, x: Waiter, owner: nat)
    requires Places(w.s, w.calls) && x.1 != 0 && owner != id && Owns(w.calls, owner, x.0, x.1)
    requires id in after.calls && after.calls == w.calls[id := after.calls[id]] && after.clock == w.clock && after.s == w.s
    requires AwakeAlready(Later(w, d), x)
    ensures AwakeAlready(Later(after, d), x)
  {
    OnlyOwnerAwake(w, d, x, owner);
    assert IsCallOf(Later(after, d), owner, x);
    assert Due(Later(w, d), w.calls[owner].phase) <==> Due(Later(after, d), after.calls[owner].phase);
  }

  lemma QueuedOwner(w: World, owner: nat, x: Waiter)
    requires Inv(w) && Owns(w.calls, owner, x.0, x.1) && IsFair(x.0) && x.1 != 0
    ensures w.s.HasFairWaiters()
  {
    assert Placed(w.s, w.calls[owner]);
  }

  lemma JustParkedAwake(after: World, id: nat, d: nat, x: Waiter)
    requires Inv(after) && Owns(after.calls, id, x.0, x.1) && x.1 != 0 && after.s.NextFair(after.clock + d, 0) == Some(x)
    requires after.calls[id].request.Acquiring? && !after.calls[id].phase.Ready?
    requires CursorInRange(after.s) && (after.calls[id].phase.Parked? ==> MaySleep(after.s, after.calls[id], after.clock))
    ensures AwakeAlready(Later(after, d), x)
  {
    TurnHolderPlaced(after, id, x);
    ParkedTurn(after, id, d, x);
  }

  lemma ParkedTurn(after: World, id: nat, d: nat, x: Waiter)
    requires Owns(after.calls, id, x.0, x.1) && after.s.NextFair(after.clock + d, 0) == Some(x)
    requires after.calls[id].request.Acquiring? && after.calls[id].phase.Parked?
    requires CursorInRange(after.s) && NoZeroPlace(after.s) && MaySleep(after.s, after.calls[id], after.clock)
    requires after.s.ExclusionsOf(x.1) == after.calls[id].request.excluded
    ensures AwakeAlready(Later(after, d), x)
  {
    TurnHolderIsDue(after.s, after.calls[id], after.clock, after.clock + d);
    assert IsCallOf(Later(after, d), id, x);
  }

  lemma OnlyOwnerAwake(w: World, d: nat, x: Waiter, owner: nat)
    requires Places(w.s, w.calls) && x.1 != 0 && IsCallOf(w, owner, x) && AwakeAlready(Later(w, d), x)
    ensures w.calls[owner].request.Acquiring? && (w.calls[owner].phase.Ready? || Due(Later(w, d), w.calls[owner].phase))
  {
    var v := Later(w, d);
    var id :| IsCallOf(v, id, x) && v.calls[id].request.Acquiring? && (v.calls[id].phase.Ready? || Due(v, v.calls[id].phase));
    assert id == owner;
  }

  ghost predicate SafeStep(w: World, a: Action)
    requires Enabled(w, a)
  {
    ControlLease(w, a) ==> LeaseIsSafe(w, w.calls[a.id].request.bot)
  }

  lemma ControlStepAwake(w: World, id: nat)
    requires Inv(w) && ControlsApart(w) && AwakeEver(w) && Enabled(w, Iterate(id)) && w.calls[id].request.Controlling?
    ensures AwakeEver(Apply(w, Iterate(id))) <==> SafeStep(w, Iterate(id))
  {
    var c, after := w.calls[id], Apply(w, Iterate(id));
    if ControlLease(w, Iterate(id)) {
      ControlLeaseIsSafeIff(w, id);
    } else {
      ControlIsSilent(w.s, c.request.bot, c.op, c.place, w.clock);
      forall later
        ensures after.s.NextFair(later, 0) == w.s.NextFair(later, 0)
      {
        ControlTurn(w.s, c.request.bot, c.op, c.place, w.clock, later);
      }
      Undisturbed(w, after);
    }
  }

  lemma QuietStep(w: World, a: Action)
    requires Inv(w) && ControlsApart(w) && AwakeEver(w) && Enabled(w, a) && Apply(w, a).s.changed == w.s.changed
    requires !(a.Iterate? && w.calls[a.id].request.Controlling?)
    ensures AwakeEver(Apply(w, a))
  {
    var after := Apply(w, a);
    match a
    case Iterate(id) => QuietIterate(w, id);
    case Tick(elapsed) => TickStep(w, elapsed);
    case Administer(change) =>
      QuietChange(w.s, change, w.clock);
      Undisturbed(w, after);
    case Cancel(id) =>
      var c := w.calls[id];
      assert Placed(w.s, c);
      assert c.request.Controlling?;
      QuietDequeue(w.s, c.op, c.place);
      Undisturbed(w, after);
    case _ => Undisturbed(w, after);
  }

  /** The turn stays awake through a step exactly when the step is not an unsafe control lease. */
  lemma AwakeStepIff(w: World, a: Action)
    requires Inv(w) && ControlsApart(w) && AwakeEver(w) && Enabled(w, a) && BeginsApart(a)
    ensures Inv(Apply(w, a)) && ControlsApart(Apply(w, a))
    ensures AwakeEver(Apply(w, a)) <==> SafeStep(w, a)
  {
    StepKeepsInv(w, a);
    ApartStep(w, a);
    if a.Iterate? && w.calls[a.id].request.Controlling? {
      ControlStepAwake(w, a.id);
    } else if Apply(w, a).s.changed == w.s.changed {
      QuietStep(w, a);
    } else {
      BroadcastStep(w, a);
    }
  }

  lemma ApartStep(w: World, a: Action)
    requires ControlsApart(w) && Enabled(w, a) && BeginsApart(a)
    ensures ControlsApart(Apply(w, a))
  {
  }

  lemma BroadcastStep(w: World, a: Action)
    requires Inv(w) && Enabled(w, a) && ControlsApart(Apply(w, a)) && Apply(w, a).s.changed != w.s.changed
    ensures AwakeEver(Apply(w, a))
  {
    StepKeepsInv(w, a);
    PhasesStep(w, a);
    BroadcastWakes(w, a);
    ExcusedIsAwakeEver(Apply(w, a));
  }

  // ----- Whole runs -----

  ghost predicate SafeLeases(w: World, actions: seq<Action>)
    requires CanRun(w, actions)
    decreases |actions|
  {
    actions == [] || (SafeStep(w, actions[0]) && SafeLeases(Apply(w, actions[0]), actions[1..]))
  }

  /** In every state on the way, the turn is awake and stays so however long nothing else happens. */
  ghost predicate AlwaysAwake(w: World, actions: seq<Action>)
    requires CanRun(w, actions)
    decreases |actions|
  {
    AwakeEver(w) && (actions == [] || AlwaysAwake(Apply(w, actions[0]), actions[1..]))
  }

  predicate AllBeginApart(actions: seq<Action>) {
    forall i :: 0 <= i < |actions| ==> BeginsApart(actions[i])
  }

  lemma {:induction false} AwakeAlongIff(w: World, actions: seq<Action>)
    requires Inv(w) && ControlsApart(w) && AwakeEver(w) && CanRun(w, actions) && AllBeginApart(actions)
    ensures AlwaysAwake(w, actions) <==> SafeLeases(w, actions)
    ensures SafeLeases(w, actions) ==> AwakeEver(Run(w, actions))
    decreases |actions|
  {
    if actions != [] {
      AwakeStepIff(w, actions[0]);
      if SafeStep(w, actions[0]) {
        AwakeAlongIff(Apply(w, actions[0]), actions[1..]);
      } else {
        assert !AwakeEver(Apply(w, actions[0]));
      }
    }
  }

  lemma InitIsAwake(bots: seq<BotId>)
    ensures AwakeEver(Init(bots)) && ControlsApart(Init(bots))
  {
    forall d: nat
      ensures TurnIsAwake(Later(Init(bots), d))
    {
      var s := Init(bots).s;
      assert forall op :: s.Queue(op) == {};
      NextFairSpec(s, d);
    }
  }

  /**
   * No lost wake-up, exactly: in every state of a run, now and after any wait, the waiter whose turn it is runs
   * or will be woken, if and only if every control lease of the run is safe when it starts.
   */
  lemma NoLostWakeupIff(bots: seq<BotId>, actions: seq<Action>)
    requires forall i, j :: 0 <= i < j < |bots| ==> bots[i] != bots[j]
    requires CanRun(Init(bots), actions) && AllBeginApart(actions)
    ensures AlwaysAwake(Init(bots), actions) <==> SafeLeases(Init(bots), actions)
  {
    InitInv(bots);
    InitIsAwake(bots);
    AwakeAlongIff(Init(bots), actions);
  }

  /** Without control leases in particular no wake-up is ever lost. */
  lemma NoLostWakeup(bots: seq<BotId>, actions: seq<Action>)
    requires forall i, j :: 0 <= i < j < |bots| ==> bots[i] != bots[j]
    requires CanRun(Init(bots), actions)
    requires forall i :: 0 <= i < |actions| ==> !(actions[i].Begin? && actions[i].request.Controlling?)
    ensures TurnIsAwake(Run(Init(bots), actions))
  {
    InitInv(bots);
    InitIsAwake(bots);
    NoControlsIsSafe(Init(bots), actions);
    AwakeAlongIff(Init(bots), actions);
    var w := Run(Init(bots), actions);
    assert Later(w, 0) == w;
    assert TurnIsAwake(Later(w, 0));
  }

  lemma {:induction false} NoControlsIsSafe(w: World, actions: seq<Action>)
    requires CanRun(w, actions) && forall id :: id in w.calls ==> w.calls[id].request.Acquiring?
    requires forall i :: 0 <= i < |actions| ==> !(actions[i].Begin? && actions[i].request.Controlling?)
    ensures SafeLeases(w, actions)
    decreases |actions|
  {
    if actions != [] {
      NoControlsIsSafe(Apply(w, actions[0]), actions[1..]);
    }
  }

  // ----- Waiters outside the rotation -----

  /** A sleeping call outside the rotation has a timer for every bot that could serve it. */
  ghost predicate OutsideCovered(w: World) {
    forall id :: Asleep(w, id) && !IsFair(w.calls[id].op) ==>
      AllCovered(w.s, w.calls[id].request.excluded, w.calls[id].phase.timer, w.clock)
  }

  /** Without a broadcast no bot becomes more available. */
  lemma QuietBots(w: World, a: Action)
    requires Enabled(w, a) && Apply(w, a).s.changed == w.s.changed
    ensures var t := Apply(w, a).s;
      t.bots == w.s.bots && t.controls == w.s.controls && t.cooldown == w.s.cooldown && w.s.busy <= t.busy
  {
    match a
    case Iterate(id) =>
      var c := w.calls[id];
      if c.request.Acquiring? {
        AcquireStepFacts(w.s, c.op, c.request.excluded, c.place, w.clock);
      } else {
        ControlFacts(w.s, c.request.bot, c.op, c.place, w.clock);
      }
    case Administer(change) => ChangeFrame(w.s, change, w.clock);
    case Cancel(id) => WithdrawFacts(w.s, w.calls[id].op, w.calls[id].place);
    case _ =>
  }

  lemma OutsideStep(w: World, a: Action)
    requires Inv(w) && OutsideCovered(w) && Enabled(w, a)
    ensures Inv(Apply(w, a)) && OutsideCovered(Apply(w, a))
  {
    var after := Apply(w, a);
    StepKeepsInv(w, a);
    PhasesStep(w, a);
    forall id | Asleep(after, id) && !IsFair(after.calls[id].op)
      ensures AllCovered(after.s, after.calls[id].request.excluded, after.calls[id].phase.timer, after.clock)
    {
      if a == Iterate(id) {
        ParkedForAReason(w, id);
      } else {
        UnmovedPhase(w, a, id);
        assert Asleep(w, id);
        QuietBots(w, a);
        assert forall b :: Candidate(after.s, after.calls[id].request.excluded, b) ==>
          Candidate(w.s, after.calls[id].request.excluded, b);
      }
    }
  }

  lemma {:induction false} OutsideAlong(w: World, actions: seq<Action>)
    requires Inv(w) && OutsideCovered(w) && CanRun(w, actions)
    ensures Inv(Run(w, actions)) && OutsideCovered(Run(w, actions))
    decreases |actions|
  {
    if actions != [] {
      OutsideStep(w, actions[0]);
      OutsideAlong(Apply(w, actions[0]), actions[1..]);
    }
  }

  /** Outside the rotation no run loses a wake-up: while a bot is free for such a waiter, it will be woken. */
  lemma NoLostWakeupOutsideRotation(bots: seq<BotId>, actions: seq<Action>, id: nat)
    requires forall i, j :: 0 <= i < j < |bots| ==> bots[i] != bots[j]
    requires CanRun(Init(bots), actions)
    requires var w := Run(Init(bots), actions);
      id in w.calls && w.calls[id].request.Acquiring? && !IsFair(w.calls[id].op) && w.calls[id].phase.Parked?
      && w.s.Usable(w.calls[id].request.excluded, w.clock)
    ensures var w := Run(Init(bots), actions); Due(w, w.calls[id].phase)
  {
    InitInv(bots);
    OutsideAlong(Init(bots), actions);
    var w := Run(Init(bots), actions);
    var c := w.calls[id];
    if c.phase.generation == w.s.changed {
      assert Asleep(w, id);
      var b :| b in w.s.bots && b !in c.request.excluded && w.s.Free(b, w.clock);
      assert Candidate(w.s, c.request.excluded, b);
    }
  }

  /** Once it runs, the waiter whose turn it is gets a bot: the fairness test and the bot search agree. */
  lemma TurnIsServed(w: World, id: nat)
    requires Inv(w) && id in w.calls && w.calls[id].request.Acquiring? && w.calls[id].phase.Ready?
    requires w.s.NextFair(w.clock, 0) == Some((w.calls[id].op, w.calls[id].place))
    ensures LeasedBy(w, Iterate(id)).Some?
  {
    var c := w.calls[id];
    NextFairSpec(w.s, w.clock);
    assert Placed(w.s, c);
    FirstFreeIffUsable(w.s, c.request.excluded, w.clock);
    FirstFreeSpec(w.s, c.request.excluded, w.clock, 0);
    var b :| b in w.s.bots && b !in c.request.excluded && w.s.Free(b, w.clock);
    assert w.s.HasEligible(c.request.excluded);
  }
}
