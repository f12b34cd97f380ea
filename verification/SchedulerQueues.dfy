/** What calls register in the queues goes when they end, however they end; and when it is that everybody is told. */
module SchedulerQueues {
  import opened SchedulerLaws
  import opened SchedulerRotation
  import opened SchedulerRuns
  import opened SchedulerState
  import opened Wrappers

  /** The call keeps its exclusions registered under this number. */
  ghost predicate Minds(calls: map<nat, Call>, id: nat, x: nat) {
    id in calls && calls[id].place == x && calls[id].request.Acquiring?
  }

  ghost predicate AllMinded(s: State, calls: map<nat, Call>) {
    forall x :: x in s.exclusions ==> exists id :: Minds(calls, id, x)
  }

  /** At most the place held in the end is new, and one given up is gone. */
  predicate Registers(before: State, place: nat, it: Iteration) {
    forall x :: x in it.state.exclusions ==> x == it.waiter || (x in before.exclusions && x != place)
  }

  lemma TakeRegisters(s: State, op: Operation, place: nat, index: nat, now: Time)
    requires 0 !in s.exclusions
    ensures Registers(s, place, TakeBot(s, op, place, index, now))
  {
  }

  lemma WaitRegisters(s: State, op: Operation, excluded: set<BotId>, place: nat, busyEligible: bool, earliest: Option<Time>)
    requires 0 !in s.exclusions
    ensures Registers(s, place, WaitForBot(s, op, excluded, place, busyEligible, earliest))
  {
  }

  lemma JoinRegisters(s: State, op: Operation, excluded: set<BotId>, id: nat)
    requires 0 !in s.exclusions
    ensures var (queued, place) := Joined(s, op, excluded, id);
      && 0 !in queued.exclusions && (place == id || id == 0)
      && forall x :: x in queued.exclusions ==> x == place || x in s.exclusions
  {
  }

  /** A pass through the loop registers at most the place it ends with, and unregisters one it gives up. */
  lemma AcquireRegisters(s: State, op: Operation, excluded: set<BotId>, id: nat, now: Time)
    requires 0 !in s.exclusions
    ensures Registers(s, id, AcquireStep(s, op, excluded, id, now))
  {
    if s.HasEligible(excluded) {
      var (queued, place) := Joined(s, op, excluded, id);
      JoinRegisters(s, op, excluded, id);
      match s.FirstFree(excluded, now, 0)
      case Some(index) => TakeRegisters(queued, op, place, index, now);
      case None =>
        WaitRegisters(queued, op, excluded, place, s.HasBusyEligible(excluded), s.EarliestCooldown(excluded, now));
    } else {
      assert s.Withdraw(op, id).exclusions == s.DequeueAcquire(op, id).exclusions;
    }
  }

  lemma AcquireKeepsMinded(w: World, id: nat)
    requires Places(w.s, w.calls) && AllMinded(w.s, w.calls) && id in w.calls && w.calls[id].request.Acquiring?
    ensures AllMinded(StateAfter(w, w.calls[id]), w.calls[id := CallAfter(w, w.calls[id])])
  {
    var c := w.calls[id];
    var t, after := StateAfter(w, c), w.calls[id := CallAfter(w, c)];
    AcquireRegisters(w.s, c.op, c.request.excluded, c.place, w.clock);
    forall x | x in t.exclusions
      ensures exists i :: Minds(after, i, x)
    {
      if x == StepOf(w, c).waiter {
        assert Minds(after, id, x);
      } else {
        var i :| Minds(w.calls, i, x);
        assert Minds(after, i, x);
      }
    }
  }

  lemma ControlKeepsMinded(w: World, id: nat)
    requires AllMinded(w.s, w.calls) && id in w.calls && w.calls[id].request.Controlling?
    ensures AllMinded(StateAfter(w, w.calls[id]), w.calls[id := CallAfter(w, w.calls[id])])
  {
    var c := w.calls[id];
    assert ControlStepOf(w, c).state.exclusions == w.s.exclusions;
    OthersKeepMinded(w.s, w.calls, StateAfter(w, c), id, CallAfter(w, c));
  }

  /** A call that gives up its place takes its exclusions with it. */
  lemma OthersKeepMinded(s: State, calls: map<nat, Call>, t: State, id: nat, c: Call)
    requires AllMinded(s, calls) && t.exclusions.Keys <= s.exclusions.Keys
    requires id in calls && c.request == calls[id].request
    requires c.request.Acquiring? && c.place != calls[id].place ==> calls[id].place !in t.exclusions
    ensures AllMinded(t, calls[id := c])
  {
    var after := calls[id := c];
    forall x | x in t.exclusions
      ensures exists i :: Minds(after, i, x)
    {
      var i :| Minds(calls, i, x);
      assert Minds(after, i, x);
    }
  }

  lemma BeginKeepsMinded(s: State, calls: map<nat, Call>, id: nat, c: Call)
    requires AllMinded(s, calls) && id !in calls
    ensures AllMinded(s, calls[id := c])
  {
    var after := calls[id := c];
    forall x | x in s.exclusions
      ensures exists i :: Minds(after, i, x)
    {
      var i :| Minds(calls, i, x);
      assert Minds(after, i, x);
    }
  }

  lemma CancelKeepsMinded(w: World, id: nat)
    requires Places(w.s, w.calls) && AllMinded(w.s, w.calls) && Enabled(w, Cancel(id))
    ensures var v := Apply(w, Cancel(id)); AllMinded(v.s, v.calls)
  {
    var c := w.calls[id];
    var v := Apply(w, Cancel(id));
    if c.request.Acquiring? {
      assert v.s.exclusions == w.s.DequeueAcquire(c.op, c.place).exclusions;
    }
    OthersKeepMinded(w.s, w.calls, v.s, id, v.calls[id]);
  }

  lemma StepKeepsMinded(w: World, a: Action)
    requires Inv(w) && AllMinded(w.s, w.calls) && Enabled(w, a)
    ensures var v := Apply(w, a); AllMinded(v.s, v.calls)
  {
    match a
    case Begin(id, request, op) => BeginKeepsMinded(w.s, w.calls, id, Call(request, op, 0, Ready));
    case Iterate(id) =>
      if w.calls[id].request.Acquiring? {
        AcquireKeepsMinded(w, id);
      } else {
        ControlKeepsMinded(w, id);
      }
    case Wake(id) => OthersKeepMinded(w.s, w.calls, w.s, id, w.calls[id].(phase := Ready));
    case Cancel(id) => CancelKeepsMinded(w, id);
    case Administer(change) => ChangeFrame(w.s, change, w.clock);
    case _ =>
  }

  lemma {:induction false} RunKeepsMinded(w: World, actions: seq<Action>)
    requires Inv(w) && AllMinded(w.s, w.calls) && CanRun(w, actions)
    ensures var v := Run(w, actions); Inv(v) && AllMinded(v.s, v.calls)
    decreases |actions|
  {
    if actions != [] {
      StepKeepsInv(w, actions[0]);
      StepKeepsMinded(w, actions[0]);
      RunKeepsMinded(Apply(w, actions[0]), actions[1..]);
    }
  }

  /** When every call has ended, however it ended, no place in a queue and no exclusions are left registered. */
  lemma NothingIsLeftBehind(bots: seq<BotId>, actions: seq<Action>)
    requires forall i, j :: 0 <= i < j < |bots| ==> bots[i] != bots[j]
    requires CanRun(Init(bots), actions)
    ensures var w := Run(Init(bots), actions);
      (forall id :: id in w.calls ==> w.calls[id].phase.Finished?) ==>
        w.s.exclusions == map[] && forall op :: w.s.Queue(op) == {}
  {
    InitInv(bots);
    RunKeepsMinded(Init(bots), actions);
    var w := Run(Init(bots), actions);
    if forall id :: id in w.calls ==> w.calls[id].phase.Finished? {
      NobodyWaits(w);
    }
  }

  lemma NobodyWaits(w: World)
    requires Inv(w) && AllMinded(w.s, w.calls) && forall id :: id in w.calls ==> w.calls[id].phase.Finished?
    ensures w.s.exclusions == map[] && forall op :: w.s.Queue(op) == {}
  {
    assert forall x :: x in w.s.exclusions ==> exists id :: Minds(w.calls, id, x);
    forall op
      ensures w.s.Queue(op) == {}
    {
      assert forall x :: x in w.s.Queue(op) ==> exists id :: Owns(w.calls, id, op, x);
    }
  }

  // ----- Broadcasts -----

  /** Everybody is told of a grant after queueing or past others, of a place given up and of a place taken. */
  ghost predicate Tells(s: State, id: nat, it: Iteration) {
    it.state.changed > s.changed <==>
    match it.verdict
    case Granted(_) => id != 0 || exists y: Waiter :: QueuedSomewhere(it.state, y)
    case NoUsableBot => id != 0 || it.state.lastWaiter > s.lastWaiter
    case Park(_, _) => it.waiter != id
  }

  ghost predicate Settles(s: State, op: Operation, place: nat, it: Iteration) {
    && Tells(s, place, it) && it.state.changed >= s.changed && it.state.lastWaiter >= s.lastWaiter
    && (place != 0 && it.verdict.Park? ==> it.waiter == place)
    && (it.verdict.Granted? ==> it.state.waiters == s.DequeueAcquire(op, place).waiters)
  }

  lemma GrantTells(s: State, op: Operation, place: nat, index: nat, now: Time)
    requires index < |s.bots| && (place != 0 ==> place in s.exclusions)
    ensures var t, left := s.Grant(op, place, index, now), s.DequeueAcquire(op, place);
      && t.waiters == left.waiters && t.lastWaiter == s.lastWaiter
      && t.changed == s.changed + if place != 0 || left.HasFairWaiters() then 1 else 0
  {
  }

  lemma SameQueues(s: State, t: State)
    requires t.waiters == s.waiters
    ensures s.HasFairWaiters() <==> exists y: Waiter :: QueuedSomewhere(t, y)
  {
    SomebodyWaits(s);
    assert forall y: Waiter :: QueuedSomewhere(t, y) <==> QueuedSomewhere(s, y);
  }

  lemma TakeTells(s: State, op: Operation, place: nat, index: nat, now: Time)
    requires place != 0 ==> place in s.exclusions
    ensures Settles(s, op, place, TakeBot(s, op, place, index, now))
  {
    if index < |s.bots| {
      var t := s.Grant(op, place, index, now);
      GrantTells(s, op, place, index, now);
      SameQueues(s.DequeueAcquire(op, place), t);
    }
  }

  lemma WaitTells(s: State, op: Operation, excluded: set<BotId>, place: nat, busyEligible: bool, earliest: Option<Time>)
    requires place != 0 ==> place in s.exclusions
    ensures Settles(s, op, place, WaitForBot(s, op, excluded, place, busyEligible, earliest))
  {
  }

  ghost predicate FairNumbersGiven(s: State) {
    forall y: Waiter :: QueuedSomewhere(s, y) ==> 0 < y.1 <= s.lastWaiter
  }

  /** Whoever lines up behind others leaves them in the queue when it goes. */
  lemma OthersStay(s: State, op: Operation, excluded: set<BotId>, t: State)
    requires IsFair(op) && s.HasFairWaiters() && FairNumbersGiven(s)
    requires t.waiters == s.EnqueueAcquire(op, excluded).DequeueAcquire(op, s.lastWaiter + 1).waiters
    ensures exists y: Waiter :: QueuedSomewhere(t, y)
  {
    SomebodyWaits(s);
    var y: Waiter :| QueuedSomewhere(s, y);
    assert 0 in s.Queue(op) ==> QueuedSomewhere(s, (op, 0));
    QueueAfterDequeue(s.EnqueueAcquire(op, excluded), op, s.lastWaiter + 1, y.0);
    assert y.1 in t.Queue(y.0);
    assert QueuedSomewhere(t, y);
  }

  /** A call tells everybody when there may be news for others, and otherwise nobody. */
  lemma CallsTellWhen(s: State, op: Operation, excluded: set<BotId>, id: nat, now: Time)
    requires FairNumbersGiven(s) && (id != 0 ==> id in s.exclusions)
    ensures Tells(s, id, AcquireStep(s, op, excluded, id, now))
  {
    if s.HasEligible(excluded) {
      var (queued, place) := Joined(s, op, excluded, id);
      SettlingTells(queued, s, op, excluded, place, now);
      if place != id {
        LinedUpTells(s, op, excluded, now);
      }
    }
  }

  lemma SettlingTells(queued: State, s: State, op: Operation, excluded: set<BotId>, place: nat, now: Time)
    requires place != 0 ==> place in queued.exclusions
    ensures Settles(queued, op, place, TakeOrWait(s, queued, op, excluded, place, now))
  {
    match s.FirstFree(excluded, now, 0)
    case Some(index) => TakeTells(queued, op, place, index, now);
    case None => WaitTells(queued, op, excluded, place, s.HasBusyEligible(excluded), s.EarliestCooldown(excluded, now));
  }

  lemma LinedUpTells(s: State, op: Operation, excluded: set<BotId>, now: Time)
    requires FairNumbersGiven(s) && IsFair(op) && s.HasFairWaiters() && s.HasEligible(excluded)
    ensures Tells(s, 0, AcquireStep(s, op, excluded, 0, now))
  {
    var queued, place := s.EnqueueAcquire(op, excluded), s.lastWaiter + 1;
    var it := AcquireStep(s, op, excluded, 0, now);
    SettlingTells(queued, s, op, excluded, place, now);
    if it.verdict.Granted? {
      OthersStay(s, op, excluded, it.state);
    }
  }

  /** An administrator's or background change tells everybody exactly if it changed a record, a cooldown or the ring. */
  lemma ChangesTellWhen(s: State, change: Change, now: Time)
    requires forall b :: b in s.bots ==> b in s.controls
    ensures var t := ChangeStep(s, change, now);
      t.changed > s.changed <==> t.controls != s.controls || t.cooldown != s.cooldown || t.bots != s.bots
  {
    match change
    case DisableOrDrain(bot) => DisablingTells(s, bot);
    case Enable(bot) => EnablingTells(s, bot);
    case SetHealthy(bot, healthy) => HealthTells(s, bot, healthy);
    case CoolDown(bot, duration) => CooldownTells(s, bot, duration, now);
    case AddBot(bot) => AddingTells(s, bot);
    case SelectNext(excluded) => SelectingMovesNoRecord(s, excluded, now);
  }

  predicate OnlyControlTells(s: State, t: State) {
    t.cooldown == s.cooldown && t.bots == s.bots && (t.changed > s.changed <==> t.controls != s.controls)
  }

  lemma DisablingTells(s: State, bot: BotId)
    requires bot in s.bots ==> bot in s.controls
    ensures OnlyControlTells(s, s.DisableOrDrain(bot))
  {
    var t := s.DisableOrDrain(bot);
    assert t.changed > s.changed ==> bot in t.controls && t.controls[bot] != s.controls[bot];
  }

  lemma EnablingTells(s: State, bot: BotId)
    requires bot in s.bots ==> bot in s.controls
    ensures OnlyControlTells(s, s.Enable(bot))
  {
    var t := s.Enable(bot);
    assert t.changed > s.changed ==> bot in t.controls && t.controls[bot] != s.controls[bot];
  }

  lemma HealthTells(s: State, bot: BotId, healthy: bool)
    requires bot in s.bots ==> bot in s.controls
    ensures OnlyControlTells(s, s.SetHealthy(bot, healthy))
  {
    var t := s.SetHealthy(bot, healthy);
    assert t.changed > s.changed ==> bot in t.controls && t.controls[bot] != s.controls[bot];
  }

  lemma CooldownTells(s: State, bot: BotId, duration: int, now: Time)
    ensures var t := s.CoolDown(bot, duration, now);
      && t.controls == s.controls && t.bots == s.bots
      && (t.changed > s.changed <==> t.cooldown != s.cooldown)
  {
    var t := s.CoolDown(bot, duration, now);
    assert t.changed > s.changed ==> bot in t.cooldown && (bot !in s.cooldown || t.cooldown[bot] != s.cooldown[bot]);
  }

  lemma AddingTells(s: State, bot: BotId)
    ensures var t := s.AddBot(bot);
      && t.cooldown == s.cooldown
      && (t.changed > s.changed <==> t.bots != s.bots)
      && (t.bots == s.bots ==> t.controls == s.controls)
  {
    var t := s.AddBot(bot);
    assert t.changed > s.changed ==> |t.bots| == |s.bots| + 1;
  }
}
