/** Whole runs of the scheduler: concurrent calls, outstanding leases and administrator actions, one critical section a step. */
module SchedulerRuns {
  import opened SchedulerState
  import opened Wrappers

  /** Where a call stands: about to enter the mutex, blocked on a channel generation and perhaps a timer, or returned. */
  datatype Phase = Ready | Parked(generation: nat, timer: Option<Time>) | Finished

  datatype Request = Acquiring(excluded: set<BotId>) | Controlling(bot: BotId)

  datatype Call = Call(request: Request, op: Operation, place: nat, phase: Phase)

  /** `held` maps every release closure that has not run to the bot it was returned with. */
  datatype World = World(s: State, clock: Time, calls: map<nat, Call>, held: map<nat, BotId>, tokens: nat)

  datatype Action =
    | Begin(id: nat, request: Request, op: Operation)
    | Iterate(id: nat)
    | Wake(id: nat)
    | Cancel(id: nat)
    | Release(token: nat)
    | Administer(change: Change)
    | Tick(elapsed: nat)

  function Init(bots: seq<BotId>): World {
    World(State(bots, 0, 0, map[], {}, map b | b in bots :: Control(true, true, false), map[], map[], map[], 0, 0),
          0, map[], map[], 0)
  }

  predicate Due(w: World, phase: Phase) {
    phase.Parked? && (phase.generation != w.s.changed || (phase.timer.Some? && phase.timer.value <= w.clock))
  }

  predicate Enabled(w: World, a: Action) {
    match a
    case Begin(id, _, _) => id !in w.calls
    case Iterate(id) => id in w.calls && w.calls[id].phase.Ready?
    case Wake(id) => id in w.calls && Due(w, w.calls[id].phase)
    case Cancel(id) => id in w.calls && w.calls[id].phase.Parked?
    case _ => true
  }

  ghost function StepOf(w: World, c: Call): Iteration
    requires c.request.Acquiring?
  {
    AcquireStep(w.s, c.op, c.request.excluded, c.place, w.clock)
  }

  function ControlStepOf(w: World, c: Call): ControlIteration
    requires c.request.Controlling?
  {
    ControlStep(w.s, c.request.bot, c.op, c.place, w.clock)
  }

  /** The bot, if any, that this action leases. */
  ghost function LeasedBy(w: World, a: Action): Option<BotId>
    requires Enabled(w, a)
  {
    if !a.Iterate? then None
    else
      var c := w.calls[a.id];
      match c.request
      case Acquiring(_) => (match StepOf(w, c).verdict case Granted(b) => Some(b) case _ => None)
      case Controlling(b) => if ControlStepOf(w, c).verdict.ControlGranted? then Some(b) else None
  }

  ghost function PhaseAfter(w: World, c: Call): Phase {
    match c.request
    case Acquiring(_) =>
      (match StepOf(w, c).verdict
       case Park(g, t) => Parked(g, t)
       case _ => Finished)
    case Controlling(_) =>
      (match ControlStepOf(w, c).verdict
       case ControlPark(g) => Parked(g, None)
       case _ => Finished)
  }

  ghost function CallAfter(w: World, c: Call): Call {
    match c.request
    case Acquiring(_) => c.(place := StepOf(w, c).waiter, phase := PhaseAfter(w, c))
    case Controlling(_) => c.(place := ControlStepOf(w, c).waiter, phase := PhaseAfter(w, c))
  }

  ghost function StateAfter(w: World, c: Call): State {
    match c.request
    case Acquiring(_) => StepOf(w, c).state
    case Controlling(_) => ControlStepOf(w, c).state
  }

  ghost function Apply(w: World, a: Action): World
    requires Enabled(w, a)
  {
    match a
    case Begin(id, request, op) => w.(calls := w.calls[id := Call(request, op, 0, Ready)])
    case Iterate(id) =>
      var c := w.calls[id];
      var moved := w.(s := StateAfter(w, c), calls := w.calls[id := CallAfter(w, c)]);
      (match LeasedBy(w, a)
       case None => moved
       case Some(b) => moved.(held := w.held[w.tokens := b], tokens := w.tokens + 1))
    case Wake(id) => w.(calls := w.calls[id := w.calls[id].(phase := Ready)])
    case Cancel(id) =>
      var c := w.calls[id];
      w.(s := if c.request.Acquiring? then w.s.Withdraw(c.op, c.place) else w.s.Dequeue(c.op, c.place),
         calls := w.calls[id := c.(place := 0, phase := Finished)])
    case Release(token) =>
      if token !in w.held then w
      else w.(s := w.s.ReleaseLease(w.held[token]), held := w.held - {token})
    case Administer(change) => w.(s := ChangeStep(w.s, change, w.clock))
    case Tick(elapsed) => w.(clock := w.clock + elapsed)
  }

  ghost predicate CanRun(w: World, actions: seq<Action>)
    decreases |actions|
  {
    actions == [] || (Enabled(w, actions[0]) && CanRun(Apply(w, actions[0]), actions[1..]))
  }

  ghost function Run(w: World, actions: seq<Action>): World
    requires CanRun(w, actions)
    decreases |actions|
  {
    if actions == [] then w else Run(Apply(w, actions[0]), actions[1..])
  }

  // ----- Queues -----

  ghost predicate Owns(calls: map<nat, Call>, id: nat, op: Operation, x: nat) {
    id in calls && calls[id].place == x && calls[id].op == op
  }

  /** Queues and calls mirror each other, one place a call. */
  ghost predicate Places(s: State, calls: map<nat, Call>) {
    && (forall op, x :: x in s.Queue(op) ==> 0 < x <= s.lastWaiter && exists id :: Owns(calls, id, op, x))
    && (forall x :: x in s.exclusions ==> 0 < x <= s.lastWaiter)
    && (forall id :: id in calls && calls[id].place != 0 ==> Placed(s, calls[id]))
    && (forall i, j :: i in calls && j in calls && calls[i].place == calls[j].place && calls[i].place != 0 ==> i == j)
  }

  ghost predicate Placed(s: State, c: Call) {
    && c.place in s.Queue(c.op)
    && (c.request.Acquiring? ==> c.place in s.exclusions && s.exclusions[c.place] == c.request.excluded)
    && (c.request.Controlling? ==> c.place !in s.exclusions)
  }

  ghost predicate Phases(s: State, calls: map<nat, Call>) {
    forall id :: id in calls ==>
      match calls[id].phase
      case Ready => true
      case Parked(g, _) => calls[id].place != 0 && g <= s.changed
      case Finished => calls[id].place == 0
  }

  // ----- Leases -----

  ghost predicate Holds(held: map<nat, BotId>, t: nat, b: BotId) {
    t in held && held[t] == b
  }

  /** Outstanding release closures, `busy` and `leases` name the same bots, one closure a bot. */
  ghost predicate LeaseLedger(s: State, held: map<nat, BotId>) {
    && s.busy == s.leases.Keys
    && (forall b :: b in s.busy <==> exists t :: Holds(held, t, b))
    && (forall t, u :: t in held && u in held && held[t] == held[u] ==> t == u)
    && (forall b :: s.ControlOf(b).draining ==> b in s.busy)
  }

  ghost predicate Fleet(s: State) {
    && s.fairCursor < |FAIR_OPERATIONS|
    && (forall i, j :: 0 <= i < j < |s.bots| ==> s.bots[i] != s.bots[j])
    && (forall b :: b in s.bots ==> b in s.controls)
  }

  ghost predicate Inv(w: World) {
    && Fleet(w.s)
    && Places(w.s, w.calls)
    && Phases(w.s, w.calls)
    && LeaseLedger(w.s, w.held)
    && (forall t :: t in w.held ==> t < w.tokens)
  }

  // ----- Preservation, one kind of change at a time -----

  lemma EnqueuePlaces(s: State, calls: map<nat, Call>, id: nat, c: Call)
    requires Places(s, calls) && id in calls && calls[id].place == 0
    requires c.op == calls[id].op && c.request == calls[id].request && c.place == s.lastWaiter + 1
    ensures c.request.Acquiring? ==> Places(s.EnqueueAcquire(c.op, c.request.excluded), calls[id := c])
    ensures c.request.Controlling? ==> Places(s.Enqueue(c.op), calls[id := c])
  {
    var s1 := if c.request.Acquiring? then s.EnqueueAcquire(c.op, c.request.excluded) else s.Enqueue(c.op);
    var after := calls[id := c];
    forall op, x | x in s1.Queue(op)
      ensures 0 < x <= s1.lastWaiter && exists i :: Owns(after, i, op, x)
    {
      if x in s.Queue(op) {
        var i :| Owns(calls, i, op, x);
        assert Owns(after, i, op, x);
      } else {
        assert Owns(after, id, op, x);
      }
    }
    forall i | i in after && after[i].place != 0
      ensures Placed(s1, after[i])
    {
      assert i == id || Placed(s, calls[i]);
    }
  }

  lemma DequeuePlaces(s: State, calls: map<nat, Call>, id: nat, c: Call)
    requires Places(s, calls) && id in calls
    requires c.op == calls[id].op && c.request == calls[id].request && c.place == 0
    ensures c.request.Acquiring? ==> Places(s.DequeueAcquire(c.op, calls[id].place), calls[id := c])
    ensures c.request.Controlling? ==> Places(s.Dequeue(c.op, calls[id].place), calls[id := c])
  {
    var place := calls[id].place;
    var s1 := if c.request.Acquiring? then s.DequeueAcquire(c.op, place) else s.Dequeue(c.op, place);
    var after := calls[id := c];
    assert 0 !in s.Queue(c.op);
    forall op, x | x in s1.Queue(op)
      ensures 0 < x <= s1.lastWaiter && exists i :: Owns(after, i, op, x)
    {
      QueueAfterDequeue(s, c.op, place, op);
      var i :| Owns(calls, i, op, x);
      assert i != id;
      assert Owns(after, i, op, x);
    }
    forall i | i in after && after[i].place != 0
      ensures Placed(s1, after[i])
    {
      QueueAfterDequeue(s, c.op, place, after[i].op);
      assert i != id && Placed(s, calls[i]);
    }
  }

  /** Places only look at the queues, the exclusions and each call's place. */
  lemma SamePlaces(s: State, s1: State, calls: map<nat, Call>)
    requires Places(s, calls)
    requires s1.waiters == s.waiters && s1.exclusions == s.exclusions && s1.lastWaiter == s.lastWaiter
    ensures Places(s1, calls)
  {
    assert forall op :: s1.Queue(op) == s.Queue(op);
  }

  lemma AcquirePlaces(w: World, id: nat)
    requires Places(w.s, w.calls) && id in w.calls && w.calls[id].request.Acquiring?
    ensures Places(StateAfter(w, w.calls[id]), w.calls[id := CallAfter(w, w.calls[id])])
  {
    var c := w.calls[id];
    var excluded := c.request.excluded;
    var after := CallAfter(w, c);
    if !w.s.HasEligible(excluded) {
      DequeuePlaces(w.s, w.calls, id, after);
      SamePlaces(w.s.DequeueAcquire(c.op, c.place), w.s.Withdraw(c.op, c.place), w.calls[id := after]);
    } else {
      var joins := c.place == 0 && IsFair(c.op) && w.s.HasFairWaiters();
      var queued := if joins then w.s.EnqueueAcquire(c.op, excluded) else w.s;
      var d := if joins then c.(place := queued.lastWaiter) else c;
      var calls := w.calls[id := d];
      if joins {
        EnqueuePlaces(w.s, w.calls, id, d);
      } else {
        assert calls == w.calls;
      }
      assert calls[id := after] == w.calls[id := after];
      SettlePlaces(w, queued, calls, id, after);
    }
  }

  /** The second half of an iteration: grant, withdraw, queue or stay. */
  ghost function Settling(w: World, queued: State, c: Call): Iteration
    requires c.request.Acquiring?
  {
    TakeOrWait(w.s, queued, c.op, c.request.excluded, c.place, w.clock)
  }

  lemma SettlePlaces(w: World, queued: State, calls: map<nat, Call>, id: nat, after: Call)
    requires Places(queued, calls) && id in calls && calls[id].request.Acquiring?
    requires after.op == calls[id].op && after.request == calls[id].request
    requires after.place == Settling(w, queued, calls[id]).waiter
    ensures Places(Settling(w, queued, calls[id]).state, calls[id := after])
  {
    var d := calls[id];
    var x := d.request.excluded;
    match w.s.FirstFree(x, w.clock, 0)
    case Some(index) =>
      var it := TakeBot(queued, d.op, d.place, index, w.clock);
      if it.verdict.Granted? {
        DequeuePlaces(queued, calls, id, after);
        SamePlaces(queued.DequeueAcquire(d.op, d.place), it.state, calls[id := after]);
      } else {
        ReplacePlaces(queued, calls, id, after);
      }
    case None =>
      if !w.s.HasBusyEligible(x) {
        DequeuePlaces(queued, calls, id, after);
        SamePlaces(queued.DequeueAcquire(d.op, d.place), queued.Withdraw(d.op, d.place), calls[id := after]);
      } else if d.place == 0 {
        EnqueuePlaces(queued, calls, id, after);
      } else {
        ReplacePlaces(queued, calls, id, after);
      }
  }

  lemma ReplacePlaces(s: State, calls: map<nat, Call>, id: nat, c: Call)
    requires Places(s, calls) && id in calls
    requires c.op == calls[id].op && c.request == calls[id].request && c.place == calls[id].place
    ensures Places(s, calls[id := c])
  {
    var after := calls[id := c];
    forall op, x | x in s.Queue(op)
      ensures 0 < x <= s.lastWaiter && exists i :: Owns(after, i, op, x)
    {
      var i :| Owns(calls, i, op, x);
      assert Owns(after, i, op, x);
    }
  }

  lemma ControlPlaces(w: World, id: nat)
    requires Places(w.s, w.calls) && id in w.calls && w.calls[id].request.Controlling?
    ensures Places(StateAfter(w, w.calls[id]), w.calls[id := CallAfter(w, w.calls[id])])
  {
    var c := w.calls[id];
    var after := CallAfter(w, c);
    var it := ControlStepOf(w, c);
    if it.verdict.ControlPark? {
      if c.place == 0 {
        EnqueuePlaces(w.s, w.calls, id, after);
      } else {
        ReplacePlaces(w.s, w.calls, id, after);
      }
    } else {
      DequeuePlaces(w.s, w.calls, id, after);
      SamePlaces(w.s.Dequeue(c.op, c.place), it.state, w.calls[id := after]);
    }
  }

  lemma BeginPlaces(s: State, calls: map<nat, Call>, id: nat, c: Call)
    requires Places(s, calls) && id !in calls && c.place == 0
    ensures Places(s, calls[id := c])
  {
    var after := calls[id := c];
    forall op, x | x in s.Queue(op)
      ensures 0 < x <= s.lastWaiter && exists i :: Owns(after, i, op, x)
    {
      var i :| Owns(calls, i, op, x);
      assert Owns(after, i, op, x);
    }
  }

  lemma PlacesStep(w: World, a: Action)
    requires Places(w.s, w.calls) && Enabled(w, a)
    ensures Places(Apply(w, a).s, Apply(w, a).calls)
  {
    match a
    case Begin(id, request, op) => BeginPlaces(w.s, w.calls, id, Call(request, op, 0, Ready));
    case Iterate(id) =>
      if w.calls[id].request.Acquiring? { AcquirePlaces(w, id); } else { ControlPlaces(w, id); }
    case Wake(id) => ReplacePlaces(w.s, w.calls, id, w.calls[id].(phase := Ready));
    case Cancel(id) =>
      var c := w.calls[id];
      var after := c.(place := 0, phase := Finished);
      DequeuePlaces(w.s, w.calls, id, after);
      if c.request.Acquiring? {
        SamePlaces(w.s.DequeueAcquire(c.op, c.place), Apply(w, a).s, w.calls[id := after]);
      }
    case Release(token) => SamePlaces(w.s, Apply(w, a).s, w.calls);
    case Administer(change) =>
      ChangeFrame(w.s, change, w.clock);
      SamePlaces(w.s, Apply(w, a).s, w.calls);
    case Tick(_) =>
  }

  lemma AcquirePhase(w: World, c: Call)
    requires c.request.Acquiring?
    ensures var after := CallAfter(w, c);
      && w.s.changed <= StateAfter(w, c).changed
      && (after.phase.Parked? ==> after.place != 0 && after.phase.generation <= StateAfter(w, c).changed)
      && !after.phase.Ready? && (after.phase.Finished? ==> after.place == 0)
  {
    AcquireStepFacts(w.s, c.op, c.request.excluded, c.place, w.clock);
  }

  lemma ControlPhase(w: World, c: Call)
    requires c.request.Controlling?
    ensures var after := CallAfter(w, c);
      && w.s.changed <= StateAfter(w, c).changed
      && (after.phase.Parked? ==> after.place != 0 && after.phase.generation <= StateAfter(w, c).changed)
      && !after.phase.Ready? && (after.phase.Finished? ==> after.place == 0)
  {
  }

  lemma PhasesStep(w: World, a: Action)
    requires Phases(w.s, w.calls) && Enabled(w, a)
    ensures Phases(Apply(w, a).s, Apply(w, a).calls) && w.s.changed <= Apply(w, a).s.changed
  {
    match a
    case Iterate(id) =>
      if w.calls[id].request.Acquiring? {
        AcquirePhase(w, w.calls[id]);
      } else {
        ControlPhase(w, w.calls[id]);
      }
    case Administer(change) => ChangeFrame(w.s, change, w.clock);
    case _ =>
  }

  lemma FleetStep(w: World, a: Action)
    requires Fleet(w.s) && Enabled(w, a)
    ensures Fleet(Apply(w, a).s)
  {
    match a
    case Iterate(id) =>
      var c := w.calls[id];
      if c.request.Acquiring? {
        AcquireStepFacts(w.s, c.op, c.request.excluded, c.place, w.clock);
      }
      SameFleet(w.s, StateAfter(w, c));
    case Release(token) => SameFleet(w.s, Apply(w, a).s);
    case Administer(change) => ChangeFleet(w.s, change, w.clock);
    case Cancel(id) => SameFleet(w.s, Apply(w, a).s);
    case _ =>
  }

  lemma SameFleet(s: State, s1: State)
    requires Fleet(s) && s1.bots == s.bots && s.controls.Keys <= s1.controls.Keys && CursorInRange(s1)
    ensures Fleet(s1)
  {
  }

  lemma ChangeFleet(s: State, change: Change, now: Time)
    requires Fleet(s)
    ensures Fleet(ChangeStep(s, change, now))
  {
    match change
    case AddBot(bot) =>
    case CoolDown(_, _) =>
    case SelectNext(_) =>
    case _ => assert ChangeStep(s, change, now).bots == s.bots;
  }

  /** Only the leased bot enters `busy`, and it was not in it. */
  lemma LeasedWasIdle(w: World, a: Action)
    requires Enabled(w, a) && a.Iterate?
    ensures var after := Apply(w, a).s;
      match LeasedBy(w, a)
      case None => after.busy == w.s.busy && after.leases == w.s.leases
      case Some(b) => b in w.s.bots && b !in w.s.busy && after.busy == w.s.busy + {b} && after.leases.Keys == w.s.leases.Keys + {b}
    ensures Apply(w, a).s.controls == w.s.controls && Apply(w, a).s.bots == w.s.bots
    ensures LeasedBy(w, a).Some? && w.calls[a.id].request.Acquiring? ==> w.s.Free(LeasedBy(w, a).value, w.clock)
  {
    var c := w.calls[a.id];
    if c.request.Acquiring? {
      AcquireStepFacts(w.s, c.op, c.request.excluded, c.place, w.clock);
    }
  }

  lemma LeaseStep(w: World, a: Action)
    requires Inv(w) && Enabled(w, a)
    ensures LeaseLedger(Apply(w, a).s, Apply(w, a).held)
    ensures forall t :: t in Apply(w, a).held ==> t < Apply(w, a).tokens
  {
    match a
    case Iterate(id) =>
      LeasedWasIdle(w, a);
      if LeasedBy(w, a).Some? {
        GrantLedger(w.s, Apply(w, a).s, w.held, w.tokens, LeasedBy(w, a).value);
      } else {
        SameLedger(w.s, Apply(w, a).s, w.held);
      }
    case Release(token) =>
      if token in w.held {
        ReleaseLedger(w.s, w.held, token);
      }
    case Administer(change) => ChangeLedger(w.s, change, w.clock, w.held);
    case _ => SameLedger(w.s, Apply(w, a).s, w.held);
  }

  lemma SameLedger(s: State, s1: State, held: map<nat, BotId>)
    requires LeaseLedger(s, held)
    requires s1.busy == s.busy && s1.leases == s.leases && s1.controls == s.controls
    ensures LeaseLedger(s1, held)
  {
    assert forall b :: s1.ControlOf(b) == s.ControlOf(b);
  }

  lemma ChangeLedger(s: State, change: Change, now: Time, held: map<nat, BotId>)
    requires LeaseLedger(s, held)
    ensures LeaseLedger(ChangeStep(s, change, now), held)
  {
    ChangeFrame(s, change, now);
    var s1 := ChangeStep(s, change, now);
    forall b | s1.ControlOf(b).draining
      ensures b in s1.busy
    {
      assert s.ControlOf(b).draining || (change.DisableOrDrain? && change.bot == b && b in s.busy);
    }
  }

  lemma GrantLedger(s: State, s1: State, held: map<nat, BotId>, token: nat, b: BotId)
    requires LeaseLedger(s, held) && token !in held && b !in s.busy
    requires s1.busy == s.busy + {b} && s1.leases.Keys == s.leases.Keys + {b} && s1.controls == s.controls
    ensures LeaseLedger(s1, held[token := b])
  {
    var after := held[token := b];
    forall x
      ensures x in s1.busy <==> exists t :: Holds(after, t, x)
    {
      if x == b {
        assert Holds(after, token, x);
      } else if x in s.busy {
        var t :| Holds(held, t, x);
        assert Holds(after, t, x);
      } else {
        assert forall t :: Holds(after, t, x) ==> Holds(held, t, x);
      }
    }
    forall t, u | t in after && u in after && after[t] == after[u]
      ensures t == u
    {
      assert t in held ==> Holds(held, t, held[t]);
      assert u in held ==> Holds(held, u, held[u]);
    }
    assert forall x :: s1.ControlOf(x) == s.ControlOf(x);
  }

  lemma ReleaseLedger(s: State, held: map<nat, BotId>, token: nat)
    requires LeaseLedger(s, held) && token in held
    ensures LeaseLedger(s.ReleaseLease(held[token]), held - {token})
  {
    var s1 := s.ReleaseLease(held[token]);
    var after := held - {token};
    forall x
      ensures x in s1.busy <==> exists t :: Holds(after, t, x)
    {
      if x in s1.busy {
        var t :| Holds(held, t, x);
        assert Holds(after, t, x);
      } else {
        assert forall t :: Holds(after, t, x) ==> Holds(held, t, x);
      }
    }
  }

  /** Every critical section keeps every invariant. */
  lemma StepKeepsInv(w: World, a: Action)
    requires Inv(w) && Enabled(w, a)
    ensures Inv(Apply(w, a))
  {
    PlacesStep(w, a);
    PhasesStep(w, a);
    FleetStep(w, a);
    LeaseStep(w, a);
  }

  lemma InitInv(bots: seq<BotId>)
    requires forall i, j :: 0 <= i < j < |bots| ==> bots[i] != bots[j]
    ensures Inv(Init(bots))
  {
    var w := Init(bots);
    assert forall t, b :: !Holds(w.held, t, b);
    assert w.s.leases.Keys == {};
  }

  /** The invariants hold after every run from a scheduler built on distinct bots. */
  lemma {:induction false} RunKeepsInv(w: World, actions: seq<Action>)
    requires Inv(w) && CanRun(w, actions)
    ensures Inv(Run(w, actions))
    decreases |actions|
  {
    if actions != [] {
      StepKeepsInv(w, actions[0]);
      RunKeepsInv(Apply(w, actions[0]), actions[1..]);
    }
  }

  // ----- What the invariants mean to a caller -----

  /** At most one outstanding lease a bot, and a repeated release frees nothing. */
  lemma LeaseSafety(bots: seq<BotId>, actions: seq<Action>, token: nat, other: nat)
    requires forall i, j :: 0 <= i < j < |bots| ==> bots[i] != bots[j]
    requires CanRun(Init(bots), actions)
    ensures var w := Run(Init(bots), actions);
      && (token in w.held && other in w.held && w.held[token] == w.held[other] ==> token == other)
      && w.s.busy == w.s.leases.Keys == (set t | t in w.held :: w.held[t])
      && (forall b :: w.s.ControlOf(b).draining ==> b in w.s.busy)
      && (token !in w.held ==> Apply(w, Release(token)) == w)
      && (token in w.held ==>
            var after := Apply(w, Release(token));
            && after.s.busy == w.s.busy - {w.held[token]}
            && Apply(after, Release(token)) == after)
  {
    InitInv(bots);
    RunKeepsInv(Init(bots), actions);
    var w := Run(Init(bots), actions);
    forall b
      ensures b in w.s.busy <==> b in (set t | t in w.held :: w.held[t])
    {
      if b in w.s.busy {
        var t :| Holds(w.held, t, b);
      } else {
        assert forall t :: t in w.held ==> Holds(w.held, t, w.held[t]);
      }
    }
  }

  /** Not in service: disabled or draining. */
  predicate OutOfService(s: State, bot: BotId) {
    var c := s.ControlOf(bot);
    !(c.enabled && !c.draining)
  }

  lemma OutOfServiceStep(w: World, a: Action, bot: BotId)
    requires Inv(w) && Enabled(w, a) && bot in w.s.bots && OutOfService(w.s, bot)
    requires a != Administer(Enable(bot))
    ensures bot in Apply(w, a).s.bots && OutOfService(Apply(w, a).s, bot)
    ensures a.Iterate? && w.calls[a.id].request.Acquiring? ==> LeasedBy(w, a) != Some(bot)
  {
    match a
    case Iterate(id) => LeasedWasIdle(w, a);
    case Administer(change) => ChangeKeepsOutOfService(w.s, change, w.clock, bot);
    case _ =>
  }

  lemma ChangeKeepsOutOfService(s: State, change: Change, now: Time, bot: BotId)
    requires bot in s.bots && OutOfService(s, bot) && change != Enable(bot)
    ensures bot in ChangeStep(s, change, now).bots && OutOfService(ChangeStep(s, change, now), bot)
  {
    match change
    case SelectNext(excluded) => assert ChangeStep(s, change, now) == s.(next := ChangeStep(s, change, now).next);
    case _ =>
  }

  ghost predicate NeverLeases(w: World, actions: seq<Action>, bot: BotId)
    requires CanRun(w, actions)
    decreases |actions|
  {
    actions == [] ||
    (&& (actions[0].Iterate? && w.calls[actions[0].id].request.Acquiring? ==> LeasedBy(w, actions[0]) != Some(bot))
     && NeverLeases(Apply(w, actions[0]), actions[1..], bot))
  }

  /** A drained or disabled bot gets no ordinary lease until it is enabled again. */
  lemma {:induction false} NoLeaseUntilEnabled(w: World, actions: seq<Action>, bot: BotId)
    requires Inv(w) && CanRun(w, actions) && bot in w.s.bots && OutOfService(w.s, bot)
    requires Administer(Enable(bot)) !in actions
    ensures NeverLeases(w, actions, bot) && OutOfService(Run(w, actions).s, bot)
    decreases |actions|
  {
    if actions != [] {
      StepKeepsInv(w, actions[0]);
      OutOfServiceStep(w, actions[0], bot);
      NoLeaseUntilEnabled(Apply(w, actions[0]), actions[1..], bot);
    }
  }

  /** Draining or disabling takes effect at once, whether or not the bot is leased. */
  lemma DrainTakesOutOfService(w: World, bot: BotId)
    requires Inv(w) && bot in w.s.bots
    ensures OutOfService(Apply(w, Administer(DisableOrDrain(bot))).s, bot)
    ensures Apply(w, Administer(DisableOrDrain(bot))).s.busy == w.s.busy
  {
  }
}
