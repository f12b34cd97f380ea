/** Bounded bypass: how often a queued fair waiter can be passed over. */
module SchedulerFairness {
  import opened SchedulerRuns
  import opened SchedulerState
  import opened SchedulerWakeups
  import opened Wrappers

  function Older(s: State, x: Waiter): set<nat> {
    set id | id in s.Queue(x.0) && id < x.1
  }

  /** Turns that can come before `x`: a full round for each older waiter, then the way to its operation. */
  function Rank(s: State, x: Waiter): nat
    requires CursorInRange(s) && IsFair(x.0)
  {
    |FAIR_OPERATIONS| * |Older(s, x)| + Distance(s, x.0)
  }

  lemma FewerOlder(s: State, t: State, x: Waiter)
    requires Older(t, x) <= Older(s, x)
    ensures |Older(t, x)| <= |Older(s, x)|
    ensures Older(t, x) != Older(s, x) ==> |Older(t, x)| < |Older(s, x)|
  {
    SubsetSize(Older(t, x), Older(s, x));
  }

  /** Serving an operation sends the cursor past it: operations further on come nearer by more than that. */
  lemma CursorMoves(s: State, t: State, served: Operation, op: Operation)
    requires CursorInRange(s) && IsFair(served) && IsFair(op)
    requires t.fairCursor == (FairIndex(served) + 1) % |FAIR_OPERATIONS|
    ensures CursorInRange(t)
    ensures Distance(s, served) < Distance(s, op) ==> Distance(t, op) < Distance(s, op)
    ensures Distance(t, op) < |FAIR_OPERATIONS|
  {
  }

  lemma QueueAfterEnqueue(s: State, op: Operation, excluded: set<BotId>, other: Operation)
    ensures s.EnqueueAcquire(op, excluded).Queue(other) == s.Queue(other) + if other == op then {s.lastWaiter + 1} else {}
  {
  }

  /** A queue only gains waiters numbered above all earlier ones. */
  predicate QueueAges(s: State, t: State, op: Operation) {
    forall id :: id in t.Queue(op) ==> id in s.Queue(op) || id > s.lastWaiter
  }

  lemma AgingOlder(s: State, t: State, x: Waiter)
    requires QueueAges(s, t, x.0) && x.1 <= s.lastWaiter
    ensures Older(t, x) <= Older(s, x)
  {
  }

  /** A fair grant while fair waiters are queued is the turn of the queue it is taken from. */
  lemma GrantIsTurn(s: State, op: Operation, excluded: set<BotId>, id: nat, now: Time)
    requires IsFair(op) && s.HasFairWaiters() && AcquireStep(s, op, excluded, id, now).verdict.Granted?
    ensures var (queued, place) := Joined(s, op, excluded, id);
      && place != 0
      && queued.NextFair(now, 0) == Some((op, place))
      && exists index :: 0 <= index < |queued.bots| && AcquireStep(s, op, excluded, id, now).state == queued.Grant(op, place, index, now)
  {
    FirstFreeSpec(s, excluded, now, 0);
    var (queued, place) := Joined(s, op, excluded, id);
    var index := s.FirstFree(excluded, now, 0).value;
    assert AcquireStep(s, op, excluded, id, now) == TakeBot(queued, op, place, index, now);
  }

  ghost predicate FairGrant(w: World, a: Action)
    requires Enabled(w, a)
  {
    a.Iterate? && w.calls[a.id].request.Acquiring? && IsFair(w.calls[a.id].op) && LeasedBy(w, a).Some?
  }

  /** Younger waiters may join, older ones may leave, and the cursor stays. */
  predicate Ages(s: State, t: State, op: Operation) {
    QueueAges(s, t, op) && t.fairCursor == s.fairCursor
  }

  lemma WithdrawAges(s: State, op: Operation, id: nat, other: Operation)
    requires 0 !in s.Queue(op)
    ensures s.Withdraw(op, id).Queue(other) <= s.Queue(other) && s.Withdraw(op, id).fairCursor == s.fairCursor
  {
    QueueAfterDequeue(s, op, id, other);
    assert s.Withdraw(op, id).Queue(other) == s.DequeueAcquire(op, id).Queue(other);
  }

  lemma GrantAges(s: State, op: Operation, place: nat, index: nat, now: Time, other: Operation)
    requires 0 !in s.Queue(op) && index < |s.bots|
    ensures var t := s.Grant(op, place, index, now);
      && t.Queue(other) == (if other == op then s.Queue(op) - {place} else s.Queue(other))
      && t.fairCursor == if IsFair(op) then (FairIndex(op) + 1) % |FAIR_OPERATIONS| else s.fairCursor
  {
    QueueAfterDequeue(s, op, place, other);
    assert s.Grant(op, place, index, now).Queue(other) == s.DequeueAcquire(op, place).Queue(other);
  }

  lemma JoinedAges(s: State, op: Operation, excluded: set<BotId>, id: nat, other: Operation)
    requires 0 !in s.Queue(op)
    ensures Ages(s, Joined(s, op, excluded, id).0, other) && 0 !in Joined(s, op, excluded, id).0.Queue(op)
    ensures Joined(s, op, excluded, id).0.lastWaiter >= s.lastWaiter
  {
    QueueAfterEnqueue(s, op, excluded, other);
    QueueAfterEnqueue(s, op, excluded, op);
  }

  lemma WaitAges(s: State, op: Operation, excluded: set<BotId>, place: nat, busyEligible: bool, earliest: Option<Time>,
                 other: Operation)
    requires 0 !in s.Queue(op)
    ensures Ages(s, WaitForBot(s, op, excluded, place, busyEligible, earliest).state, other)
  {
    WithdrawAges(s, op, place, other);
    QueueAfterEnqueue(s, op, excluded, other);
  }

  lemma TakeAges(s: State, op: Operation, place: nat, index: nat, now: Time, other: Operation)
    requires 0 !in s.Queue(op)
    ensures var it := TakeBot(s, op, place, index, now);
      QueueAges(s, it.state, other) && (!(it.verdict.Granted? && IsFair(op)) ==> it.state.fairCursor == s.fairCursor)
  {
    if index < |s.bots| {
      GrantAges(s, op, place, index, now, other);
    }
  }

  lemma AcquireAges(s: State, op: Operation, excluded: set<BotId>, id: nat, now: Time, other: Operation)
    requires 0 !in s.Queue(op)
    ensures var it := AcquireStep(s, op, excluded, id, now);
      QueueAges(s, it.state, other) && (!(it.verdict.Granted? && IsFair(op)) ==> it.state.fairCursor == s.fairCursor)
  {
    if !s.HasEligible(excluded) {
      WithdrawAges(s, op, id, other);
    } else {
      var (queued, place) := Joined(s, op, excluded, id);
      JoinedAges(s, op, excluded, id, other);
      TakeOrWaitAges(s, queued, op, excluded, place, now, other);
    }
  }

  lemma TakeOrWaitAges(s: State, queued: State, op: Operation, excluded: set<BotId>, place: nat, now: Time, other: Operation)
    requires 0 !in queued.Queue(op) && Ages(s, queued, other) && queued.lastWaiter >= s.lastWaiter
    ensures var it := TakeOrWait(s, queued, op, excluded, place, now);
      QueueAges(s, it.state, other) && (!(it.verdict.Granted? && IsFair(op)) ==> it.state.fairCursor == s.fairCursor)
  {
    match s.FirstFree(excluded, now, 0)
    case Some(index) => TakeAges(queued, op, place, index, now, other);
    case None =>
      WaitAges(queued, op, excluded, place, s.HasBusyEligible(excluded), s.EarliestCooldown(excluded, now), other);
  }

  lemma ControlAges(s: State, bot: BotId, op: Operation, id: nat, now: Time, other: Operation)
    requires 0 !in s.Queue(op)
    ensures Ages(s, ControlStep(s, bot, op, id, now).state, other)
  {
    QueueAfterDequeue(s, op, id, other);
    PlainEnqueueAges(s, op, other);
    var left := s.Dequeue(op, id);
    assert Ages(s, left, other);
    assert left.StartLease(bot, op, now).Queue(other) == left.Queue(other);
  }

  lemma PlainEnqueueAges(s: State, op: Operation, other: Operation)
    ensures Ages(s, s.Enqueue(op), other)
  {
    assert s.Enqueue(op).Queue(other) == s.Queue(other) + if other == op then {s.lastWaiter + 1} else {};
  }

  /** Every step only lets younger waiters join, and only a fair grant moves the cursor. */
  lemma StepAges(w: World, a: Action, x: Waiter)
    requires Inv(w) && Enabled(w, a) && QueuedFair(w.s, x)
    ensures Older(Apply(w, a).s, x) <= Older(w.s, x)
    ensures !FairGrant(w, a) ==> Apply(w, a).s.fairCursor == w.s.fairCursor
  {
    StepAgesQueue(w, a, x.0);
    assert x.1 <= w.s.lastWaiter;
    AgingOlder(w.s, Apply(w, a).s, x);
  }

  lemma StepAgesQueue(w: World, a: Action, op: Operation)
    requires Inv(w) && Enabled(w, a)
    ensures QueueAges(w.s, Apply(w, a).s, op)
    ensures !FairGrant(w, a) ==> Apply(w, a).s.fairCursor == w.s.fairCursor
  {
    match a
    case Iterate(id) =>
      var c := w.calls[id];
      assert 0 !in w.s.Queue(c.op);
      if c.request.Acquiring? {
        AcquireAges(w.s, c.op, c.request.excluded, c.place, w.clock, op);
      } else {
        ControlAges(w.s, c.request.bot, c.op, c.place, w.clock, op);
      }
    case Administer(change) =>
      ChangeFrame(w.s, change, w.clock);
      assert Apply(w, a).s.Queue(op) == w.s.Queue(op);
    case Cancel(id) =>
      var c := w.calls[id];
      assert 0 !in w.s.Queue(c.op);
      QueueAfterDequeue(w.s, c.op, c.place, op);
      WithdrawAges(w.s, c.op, c.place, op);
    case Release(_) => assert Apply(w, a).s.Queue(op) == w.s.Queue(op);
    case _ =>
  }

  /** Being passed over while assignable lowers the rank. */
  lemma PassedOver(w: World, a: Action, x: Waiter)
    requires Inv(w) && Enabled(w, a) && FairGrant(w, a)
    requires QueuedFair(w.s, x) && w.s.Assignable(x.1, w.clock)
    requires QueuedFair(Apply(w, a).s, x)
    ensures CursorInRange(Apply(w, a).s) && Rank(Apply(w, a).s, x) < Rank(w.s, x)
  {
    var c := w.calls[a.id];
    StepKeepsInv(w, a);
    StepAges(w, a, x);
    assert Places(w.s, w.calls);
    GrantLowersRank(w.s, Apply(w, a).s, c.op, c.request.excluded, c.place, w.clock, x);
  }

  lemma GrantLowersRank(s: State, t: State, op: Operation, excluded: set<BotId>, id: nat, now: Time, x: Waiter)
    requires CursorInRange(s) && IsFair(op) && QueuedFair(s, x) && QueuedFair(t, x) && s.Assignable(x.1, now)
    requires forall o, y :: y in s.Queue(o) ==> 0 < y <= s.lastWaiter
    requires forall y :: y in s.exclusions ==> y <= s.lastWaiter
    requires AcquireStep(s, op, excluded, id, now).verdict.Granted? && AcquireStep(s, op, excluded, id, now).state == t
    requires Older(t, x) <= Older(s, x)
    ensures CursorInRange(t) && Rank(t, x) < Rank(s, x)
  {
    assert s.HasFairWaiters();
    GrantIsTurn(s, op, excluded, id, now);
    var (queued, place) := Joined(s, op, excluded, id);
    var index :| 0 <= index < |queued.bots| && t == queued.Grant(op, place, index, now);
    JoinedAges(s, op, excluded, id, op);
    GrantAges(queued, op, place, index, now, x.0);
    TurnPrecedes(s, queued, op, excluded, id, place, now, x);
    CursorMoves(s, t, op, x.0);
    FewerOlder(s, t, x);
    assert (op, place) != x;
    if Distance(s, op) >= Distance(s, x.0) {
      assert place in Older(s, x) && place !in Older(t, x);
    }
  }

  /** The granted place comes before `x`, or is `x`. */
  lemma TurnPrecedes(s: State, queued: State, op: Operation, excluded: set<BotId>, id: nat, place: nat, now: Time, x: Waiter)
    requires CursorInRange(s) && (queued, place) == Joined(s, op, excluded, id) && IsFair(op)
    requires forall o, y :: y in s.Queue(o) ==> 0 < y <= s.lastWaiter
    requires forall y :: y in s.exclusions ==> y <= s.lastWaiter
    requires queued.NextFair(now, 0) == Some((op, place))
    requires QueuedFair(s, x) && s.Assignable(x.1, now)
    ensures (op, place) == x || Distance(s, op) < Distance(s, x.0) || (op == x.0 && place < x.1 && place in s.Queue(op))
  {
    JoinedQueues(s, op, excluded, id);
    assert Gains(s, queued, x.0) && Gains(s, queued, op);
    JoinedAssignable(s, op, excluded, id, now, x);
    NoZero(s, queued);
    assert QueuedFair(queued, x);
    FirstInTurn(queued, (op, place), x, now);
    assert Distance(queued, op) == Distance(s, op) && Distance(queued, x.0) == Distance(s, x.0);
  }

  lemma NoZero(s: State, queued: State)
    requires forall o :: Gains(s, queued, o)
    ensures NoZeroQueued(queued)
  {
    forall o
      ensures 0 !in queued.Queue(o)
    {
      assert Gains(s, queued, o);
    }
  }

  lemma JoinedAssignable(s: State, op: Operation, excluded: set<BotId>, id: nat, now: Time, x: Waiter)
    requires forall y :: y in s.exclusions ==> y <= s.lastWaiter
    requires 0 < x.1 <= s.lastWaiter && s.Assignable(x.1, now)
    ensures Joined(s, op, excluded, id).0.Assignable(x.1, now)
    ensures Joined(s, op, excluded, id).0.fairCursor == s.fairCursor
  {
    var queued := Joined(s, op, excluded, id).0;
    assert queued.ExclusionsOf(x.1) == s.ExclusionsOf(x.1);
    UsableSame(s, queued, s.ExclusionsOf(x.1), now);
  }

  /** Joining adds at most one waiter, younger than all. */
  lemma JoinedQueues(s: State, op: Operation, excluded: set<BotId>, id: nat)
    requires forall o, y :: y in s.Queue(o) ==> 0 < y <= s.lastWaiter
    ensures forall o :: Gains(s, Joined(s, op, excluded, id).0, o)
  {
    forall o
      ensures Gains(s, Joined(s, op, excluded, id).0, o)
    {
      QueueAfterEnqueue(s, op, excluded, o);
    }
  }

  predicate Gains(s: State, queued: State, o: Operation) {
    0 !in queued.Queue(o) && s.Queue(o) <= queued.Queue(o) <= s.Queue(o) + {s.lastWaiter + 1}
  }

  ghost predicate NoZeroQueued(s: State) {
    forall o :: 0 !in s.Queue(o)
  }

  lemma FirstInTurn(s: State, first: Waiter, x: Waiter, now: Time)
    requires CursorInRange(s) && NoZeroQueued(s) && s.NextFair(now, 0) == Some(first)
    requires QueuedFair(s, x) && s.Assignable(x.1, now)
    ensures QueuedFair(s, first) && (first == x || Before(s, first, x))
  {
    NextFairSpec(s, now);
  }

  // ----- Over a run -----

  ghost predicate StaysQueued(w: World, actions: seq<Action>, x: Waiter)
    requires CanRun(w, actions)
    decreases |actions|
  {
    QueuedFair(w.s, x) && (actions == [] || StaysQueued(Apply(w, actions[0]), actions[1..], x))
  }

  /** Fair grants to others made while `x` could have taken a bot. */
  ghost function Passes(w: World, actions: seq<Action>, x: Waiter): nat
    requires CanRun(w, actions)
    decreases |actions|
  {
    if actions == [] then 0
    else (if FairGrant(w, actions[0]) && w.s.Assignable(x.1, w.clock) then 1 else 0) + Passes(Apply(w, actions[0]), actions[1..], x)
  }

  /** Fair grants made while no free bot suited `x`. */
  ghost function Misses(w: World, actions: seq<Action>, x: Waiter): nat
    requires CanRun(w, actions)
    decreases |actions|
  {
    if actions == [] then 0
    else (if FairGrant(w, actions[0]) && !w.s.Assignable(x.1, w.clock) then 1 else 0) + Misses(Apply(w, actions[0]), actions[1..], x)
  }

  lemma RankStep(w: World, a: Action, x: Waiter)
    requires Inv(w) && Enabled(w, a) && QueuedFair(w.s, x) && QueuedFair(Apply(w, a).s, x)
    ensures CursorInRange(Apply(w, a).s)
    ensures Rank(Apply(w, a).s, x) + (if FairGrant(w, a) && w.s.Assignable(x.1, w.clock) then 1 else 0)
         <= Rank(w.s, x) + (if FairGrant(w, a) && !w.s.Assignable(x.1, w.clock) then |FAIR_OPERATIONS| - 1 else 0)
  {
    StepKeepsInv(w, a);
    if FairGrant(w, a) && w.s.Assignable(x.1, w.clock) {
      PassedOver(w, a, x);
    } else {
      StepAges(w, a, x);
      FewerOlder(w.s, Apply(w, a).s, x);
    }
  }

  /** Along any run in which `x` stays queued, passes are paid for by the starting rank and by misses. */
  lemma {:induction false} BypassBudget(w: World, actions: seq<Action>, x: Waiter)
    requires Inv(w) && CanRun(w, actions) && StaysQueued(w, actions, x)
    ensures CursorInRange(Run(w, actions).s)
    ensures Rank(Run(w, actions).s, x) + Passes(w, actions, x)
         <= Rank(w.s, x) + (|FAIR_OPERATIONS| - 1) * Misses(w, actions, x)
    decreases |actions|
  {
    if actions != [] {
      var v := Apply(w, actions[0]);
      StepKeepsInv(w, actions[0]);
      assert QueuedFair(v.s, x);
      RankStep(w, actions[0], x);
      BypassBudget(v, actions[1..], x);
    }
  }

  /** While a bot suits it at every fair grant, a waiter is passed over at most 5 * older + 4 times. */
  lemma BoundedBypass(w: World, actions: seq<Action>, x: Waiter)
    requires Inv(w) && CanRun(w, actions) && StaysQueued(w, actions, x)
    requires Misses(w, actions, x) == 0
    ensures Passes(w, actions, x) <= |FAIR_OPERATIONS| * |Older(w.s, x)| + |FAIR_OPERATIONS| - 1
  {
    BypassBudget(w, actions, x);
  }
}
