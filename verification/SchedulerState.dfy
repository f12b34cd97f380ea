/** The bot-lease scheduler as a value: what its fields mean and what each critical section does to them. */
module SchedulerState {
  import opened Arithmetic
  import opened Wrappers

  type BotId = string
  type Time = int

  /** The lease operations; every operation outside the fair rotation is an `Other`. */
  datatype Operation = Upload | Resolve | Delete | Maintenance | Unknown | Other(name: string)

  const FAIR_OPERATIONS: seq<Operation> := [Upload, Resolve, Delete, Maintenance, Unknown]

  predicate IsFair(op: Operation) {
    !op.Other?
  }

  function FairIndex(op: Operation): (i: nat)
    requires IsFair(op)
    ensures i < |FAIR_OPERATIONS| && FAIR_OPERATIONS[i] == op
  {
    match op
    case Upload => 0
    case Resolve => 1
    case Delete => 2
    case Maintenance => 3
    case Unknown => 4
  }

  datatype Control = Control(enabled: bool, healthy: bool, draining: bool)

  datatype Lease = Lease(operation: Operation, startedAt: Time)

  /** The queues after one waiter left; an emptied queue is removed. */
  function Without(waiters: map<Operation, set<nat>>, op: Operation, id: nat): map<Operation, set<nat>> {
    if id == 0 || op !in waiters then waiters
    else if waiters[op] - {id} == {} then waiters - {op}
    else waiters[op := waiters[op] - {id}]
  }

  /** One fair waiter: the queue it stands in and its number. */
  type Waiter = (Operation, nat)

  /**
   * The fields guarded by the mutex. `cooldown` is never pruned here; the class below forgets
   * expired entries lazily and is proved to behave as if it did not.
   * `changed` counts the broadcasts, so a parked call is woken when its generation is stale.
   */
  datatype State = State(
    bots: seq<BotId>,
    next: nat,
    fairCursor: nat,
    cooldown: map<BotId, Time>,
    busy: set<BotId>,
    controls: map<BotId, Control>,
    leases: map<BotId, Lease>,
    waiters: map<Operation, set<nat>>,
    exclusions: map<nat, set<BotId>>,
    lastWaiter: nat,
    changed: nat)
  {
    function ControlOf(bot: BotId): Control {
      if bot in controls then controls[bot] else Control(true, true, false)
    }

    predicate Eligible(bot: BotId) {
      var c := ControlOf(bot);
      c.enabled && c.healthy && !c.draining
    }

    predicate Cooling(bot: BotId, now: Time) {
      bot in cooldown && now < cooldown[bot]
    }

    predicate Free(bot: BotId, now: Time) {
      Eligible(bot) && bot !in busy && !Cooling(bot, now)
    }

    function Queue(op: Operation): set<nat> {
      if op in waiters then waiters[op] else {}
    }

    function ExclusionsOf(id: nat): set<BotId> {
      if id in exclusions then exclusions[id] else {}
    }

    predicate Usable(excluded: set<BotId>, now: Time) {
      exists b :: b in bots && b !in excluded && Free(b, now)
    }

    predicate Assignable(id: nat, now: Time) {
      Usable(ExclusionsOf(id), now)
    }

    predicate HasEligible(excluded: set<BotId>) {
      exists b :: b in bots && b !in excluded && Eligible(b)
    }

    predicate HasBusyEligible(excluded: set<BotId>) {
      exists b :: b in bots && b !in excluded && Eligible(b) && b in busy
    }

    ghost predicate HasFairWaiters() {
      exists op :: IsFair(op) && Queue(op) != {}
    }

    function CooldownEnds(excluded: set<BotId>, now: Time): set<Time> {
      set b | b in bots && b !in excluded && Eligible(b) && b !in busy && Cooling(b, now) :: cooldown[b]
    }

    ghost function EarliestCooldown(excluded: set<BotId>, now: Time): Option<Time> {
      var ends := CooldownEnds(excluded, now);
      if ends == {} then None else Some(Least(ends))
    }

    /** Index of the first free bot in rotation order from `next`, skipping `offset` places. */
    function FirstFree(excluded: set<BotId>, now: Time, offset: nat): Option<nat>
      decreases |bots| - offset
    {
      if offset >= |bots| then None
      else
        var i := Rotate(next, offset, |bots|);
        if bots[i] !in excluded && Free(bots[i], now) then Some(i)
        else FirstFree(excluded, now, offset + 1)
    }

    ghost function AssignableIn(op: Operation, now: Time): set<nat> {
      set id | id in Queue(op) && Assignable(id, now)
    }

    /** The lowest-numbered assignable waiter of one operation; 0 when there is none. */
    ghost function Oldest(op: Operation, now: Time): nat {
      var candidates: set<int> := set id | id in AssignableIn(op, now) :: id as int;
      if candidates == {} then 0 else Least(candidates)
    }

    /** Whose turn it is: operations in cyclic order from the cursor, oldest waiter first. */
    ghost function NextFair(now: Time, offset: nat): Option<Waiter>
      decreases |FAIR_OPERATIONS| - offset, |bots|
    {
      if offset >= |FAIR_OPERATIONS| then None
      else
        var op := FAIR_OPERATIONS[Rotate(fairCursor, offset, |FAIR_OPERATIONS|)];
        var id := Oldest(op, now);
        if id != 0 then Some((op, id)) else NextFair(now, offset + 1)
    }

    function Notify(): State {
      this.(changed := changed + 1)
    }

    /** Append to a queue without registering exclusions or broadcasting (control waiters). */
    function Enqueue(op: Operation): State {
      this.(lastWaiter := lastWaiter + 1,
            waiters := waiters[op := Queue(op) + {lastWaiter + 1}])
    }

    function EnqueueAcquire(op: Operation, excluded: set<BotId>): State {
      Enqueue(op).(exclusions := exclusions[lastWaiter + 1 := excluded]).Notify()
    }

    function Dequeue(op: Operation, id: nat): State {
      this.(waiters := Without(waiters, op, id))
    }

    function DequeueAcquire(op: Operation, id: nat): State {
      this.(waiters := Without(waiters, op, id), exclusions := if id == 0 then exclusions else exclusions - {id})
    }

    predicate Registered(id: nat) {
      id != 0 && id in exclusions
    }

    /** Leave the queue and tell everyone, as every failing exit of `Acquire` does. */
    function Withdraw(op: Operation, id: nat): State {
      DequeueAcquire(op, id).(changed := changed + if Registered(id) then 1 else 0)
    }

    function StartLease(bot: BotId, op: Operation, now: Time): State {
      this.(busy := busy + {bot}, leases := leases[bot := Lease(op, now)])
    }

    /** The grant branch of `Acquire` for the bot at `index`. */
    ghost function Grant(op: Operation, id: nat, index: nat, now: Time): State
      requires index < |bots|
    {
      var left := DequeueAcquire(op, id);
      left.(fairCursor := if IsFair(op) then (FairIndex(op) + 1) % |FAIR_OPERATIONS| else fairCursor,
            next := (index + 1) % |bots|,
            changed := changed + if Registered(id) || left.HasFairWaiters() then 1 else 0)
          .StartLease(bots[index], op, now)
    }

    /** Give a bot a new control record and broadcast, unless nothing is to change. */
    function Recontrol(bot: BotId, control: Control, changes: bool): State {
      this.(controls := if changes then controls[bot := control] else controls,
            changed := changed + if changes then 1 else 0)
    }

    /** The control record after a lease on the bot ends: a drain is complete. */
    function Drained(bot: BotId): map<BotId, Control> {
      var c := ControlOf(bot);
      if c.draining then controls[bot := c.(enabled := false, draining := false)] else controls
    }

    /** What the release closure does the first time it runs. */
    function ReleaseLease(bot: BotId): State {
      this.(leases := leases - {bot}, busy := busy - {bot}, controls := Drained(bot), changed := changed + 1)
    }

    function DisableOrDrain(bot: BotId): State {
      var c := ControlOf(bot);
      if bot in busy then Recontrol(bot, c.(draining := true), bot in bots && !c.draining)
      else Recontrol(bot, c.(enabled := false, draining := false), bot in bots && (c.enabled || c.draining))
    }

    function Enable(bot: BotId): State {
      var c := ControlOf(bot);
      Recontrol(bot, c.(enabled := true, draining := false), bot in bots && !(c.enabled && !c.draining))
    }

    function SetHealthy(bot: BotId, healthy: bool): State {
      var c := ControlOf(bot);
      Recontrol(bot, c.(healthy := healthy), bot in bots && c.healthy != healthy)
    }

    function CoolDown(bot: BotId, duration: int, now: Time): State {
      var changes := duration > 0 && !(bot in cooldown && now + duration <= cooldown[bot]);
      this.(cooldown := if changes then cooldown[bot := now + duration] else cooldown,
            changed := changed + if changes then 1 else 0)
    }

    function AddBot(bot: BotId): State {
      var changes := bot != "" && bot !in bots;
      Recontrol(bot, Control(true, true, false), changes).(bots := if changes then bots + [bot] else bots)
    }

    /** `Next`: rotate without leasing. */
    function SelectNext(excluded: set<BotId>, now: Time): (State, Option<BotId>) {
      var found := NextIgnoringBusy(excluded, now, 0);
      (this.(next := if found.Some? then (found.value + 1) % |bots| else next),
       if found.Some? then Some(bots[found.value]) else None)
    }

    function NextIgnoringBusy(excluded: set<BotId>, now: Time, offset: nat): (r: Option<nat>)
      ensures r.Some? ==> r.value < |bots|
      decreases |bots| - offset
    {
      if offset >= |bots| then None
      else
        var i := Rotate(next, offset, |bots|);
        if bots[i] !in excluded && Eligible(bots[i]) && !Cooling(bots[i], now) then Some(i)
        else NextIgnoringBusy(excluded, now, offset + 1)
    }
  }

  /** How one pass through the `Acquire` loop ends. */
  datatype Verdict =
    | Granted(bot: BotId)
    | NoUsableBot
    | Park(generation: nat, timer: Option<Time>)

  datatype Iteration = Iteration(state: State, waiter: nat, verdict: Verdict)

  /** One pass through the `Acquire` loop under the mutex, for a call already holding place `id` (0: none). */
  ghost function AcquireStep(s: State, op: Operation, excluded: set<BotId>, id: nat, now: Time): Iteration {
    if !s.HasEligible(excluded) then Iteration(s.Withdraw(op, id), 0, NoUsableBot)
    else
      var (queued, place) := Joined(s, op, excluded, id);
      TakeOrWait(s, queued, op, excluded, place, now)
  }

  /** A fair call without a place queues up behind fair waiters, if there are any. */
  ghost function Joined(s: State, op: Operation, excluded: set<BotId>, id: nat): (State, nat) {
    if id == 0 && IsFair(op) && s.HasFairWaiters() then (s.EnqueueAcquire(op, excluded), s.lastWaiter + 1) else (s, id)
  }

  ghost function TakeOrWait(s: State, queued: State, op: Operation, excluded: set<BotId>, place: nat, now: Time): Iteration {
    match s.FirstFree(excluded, now, 0)
    case Some(index) => TakeBot(queued, op, place, index, now)
    case None => WaitForBot(queued, op, excluded, place, s.HasBusyEligible(excluded), s.EarliestCooldown(excluded, now))
  }

  /** A bot is free: take it if fairness allows, otherwise park without a timer. */
  ghost function TakeBot(s: State, op: Operation, place: nat, index: nat, now: Time): Iteration {
    if index < |s.bots| && (place == 0 || !IsFair(op) || s.NextFair(now, 0) == Some((op, place))) then
      Iteration(s.Grant(op, place, index, now), 0, Granted(s.bots[index]))
    else Iteration(s, place, Park(s.changed, None))
  }

  /** No bot is free: give up unless an eligible bot is busy, otherwise park until the earliest cooldown ends. */
  ghost function WaitForBot(s: State, op: Operation, excluded: set<BotId>, place: nat, busyEligible: bool,
                            earliest: Option<Time>): Iteration {
    if !busyEligible then Iteration(s.Withdraw(op, place), 0, NoUsableBot)
    else if place == 0 then
      var queued := s.EnqueueAcquire(op, excluded);
      Iteration(queued, queued.lastWaiter, Park(queued.changed, earliest))
    else Iteration(s, place, Park(s.changed, earliest))
  }

  /** One pass through the `AcquireControl` loop; `None` bot with no wait means it failed. */
  datatype ControlVerdict = ControlGranted | ControlFailed | ControlPark(generation: nat)

  datatype ControlIteration = ControlIteration(state: State, waiter: nat, verdict: ControlVerdict)

  function ControlStep(s: State, bot: BotId, op: Operation, id: nat, now: Time): ControlIteration {
    if bot !in s.bots then ControlIteration(s.Dequeue(op, id), 0, ControlFailed)
    else if bot in s.busy then
      var s1 := if id == 0 then s.Enqueue(op) else s;
      ControlIteration(s1, if id == 0 then s1.lastWaiter else id, ControlPark(s1.changed))
    else if s.Cooling(bot, now) then ControlIteration(s.Dequeue(op, id), 0, ControlFailed)
    else ControlIteration(s.Dequeue(op, id).StartLease(bot, op, now), 0, ControlGranted)
  }

  /** An administrator's or background change: everything but acquiring and releasing. */
  datatype Change =
    | DisableOrDrain(bot: BotId)
    | Enable(bot: BotId)
    | SetHealthy(bot: BotId, healthy: bool)
    | CoolDown(bot: BotId, duration: int)
    | AddBot(bot: BotId)
    | SelectNext(excluded: set<BotId>)

  function ChangeStep(s: State, change: Change, now: Time): State {
    match change
    case DisableOrDrain(bot) => s.DisableOrDrain(bot)
    case Enable(bot) => s.Enable(bot)
    case SetHealthy(bot, healthy) => s.SetHealthy(bot, healthy)
    case CoolDown(bot, duration) => s.CoolDown(bot, duration, now)
    case AddBot(bot) => s.AddBot(bot)
    case SelectNext(excluded) => s.SelectNext(excluded, now).0
  }

  /** Queues, leases and the fairness cursor stay, and without a broadcast nothing moves that a waiter can see. */
  predicate Framed(s: State, t: State) {
    && t.waiters == s.waiters && t.exclusions == s.exclusions && t.lastWaiter == s.lastWaiter
    && t.busy == s.busy && t.leases == s.leases && t.fairCursor == s.fairCursor
    && (t.changed == s.changed + 1 || t == s.(next := t.next))
  }

  lemma ChangeFrame(s: State, change: Change, now: Time)
    ensures Framed(s, ChangeStep(s, change, now))
  {
    match change
    case DisableOrDrain(bot) => ControlFrame(s, bot);
    case Enable(bot) => ControlFrame(s, bot);
    case SetHealthy(bot, healthy) => HealthFrame(s, bot, healthy);
    case CoolDown(bot, duration) =>
    case AddBot(bot) =>
    case SelectNext(excluded) => assert ChangeStep(s, change, now) == s.(next := ChangeStep(s, change, now).next);
  }

  lemma ControlFrame(s: State, bot: BotId)
    ensures Framed(s, s.DisableOrDrain(bot)) && Framed(s, s.Enable(bot))
  {
  }

  lemma HealthFrame(s: State, bot: BotId, healthy: bool)
    ensures Framed(s, s.SetHealthy(bot, healthy))
  {
  }

  lemma QueueAfterDequeue(s: State, op: Operation, id: nat, other: Operation)
    requires 0 !in s.Queue(op)
    ensures s.Dequeue(op, id).Queue(other) == if other == op then s.Queue(op) - {id} else s.Queue(other)
    ensures s.DequeueAcquire(op, id).Queue(other) == s.Dequeue(op, id).Queue(other)
  {
  }

  /** A free bot is found exactly when one exists. */
  lemma {:induction false} FirstFreeSpec(s: State, excluded: set<BotId>, now: Time, offset: nat)
    ensures var r := s.FirstFree(excluded, now, offset);
      && (r.Some? ==> r.value < |s.bots| && s.bots[r.value] !in excluded && s.Free(s.bots[r.value], now))
      && (r.None? ==> forall k :: offset <= k < |s.bots| ==> NotFreeAt(s, excluded, now, Rotate(s.next, k, |s.bots|)))
    decreases |s.bots| - offset
  {
    if offset < |s.bots| {
      FirstFreeSpec(s, excluded, now, offset + 1);
    }
  }

  predicate NotFreeAt(s: State, excluded: set<BotId>, now: Time, i: nat)
    requires i < |s.bots|
  {
    s.bots[i] in excluded || !s.Free(s.bots[i], now)
  }

  /** The two loops that look for a bot agree: `Acquire` finds one exactly when the waiter counts as assignable. */
  lemma FirstFreeIffUsable(s: State, excluded: set<BotId>, now: Time)
    ensures s.FirstFree(excluded, now, 0).Some? <==> s.Usable(excluded, now)
  {
    FirstFreeSpec(s, excluded, now, 0);
    if s.Usable(excluded, now) {
      var b :| b in s.bots && b !in excluded && s.Free(b, now);
      var i :| 0 <= i < |s.bots| && s.bots[i] == b;
      var k := RotationCovers(s.next, |s.bots|, i);
      assert !NotFreeAt(s, excluded, now, Rotate(s.next, k, |s.bots|));
    }
  }

  predicate CursorInRange(s: State) {
    s.fairCursor < |FAIR_OPERATIONS|
  }

  /** Bots, controls and cooldowns are as before, and broadcasts only add up. */
  predicate Untouched(s: State, t: State) {
    && t.bots == s.bots && t.controls == s.controls && t.cooldown == s.cooldown
    && t.changed >= s.changed && t.lastWaiter >= s.lastWaiter
    && (CursorInRange(s) ==> CursorInRange(t))
  }

  predicate SameLeases(s: State, t: State) {
    t.busy == s.busy && t.leases == s.leases
  }

  lemma WithdrawFacts(s: State, op: Operation, id: nat)
    ensures Untouched(s, s.Withdraw(op, id)) && SameLeases(s, s.Withdraw(op, id))
    ensures Untouched(s, s.DequeueAcquire(op, id)) && SameLeases(s, s.DequeueAcquire(op, id))
  {
  }

  lemma GrantFacts(s: State, op: Operation, id: nat, index: nat, now: Time)
    requires index < |s.bots|
    ensures var t := s.Grant(op, id, index, now);
      && Untouched(s, t)
      && t.busy == s.busy + {s.bots[index]} && t.leases == s.leases[s.bots[index] := Lease(op, now)]
  {
    WithdrawFacts(s, op, id);
  }

  /** What one pass through `Acquire` does to the leases, by verdict. */
  ghost predicate VerdictFits(s: State, excluded: set<BotId>, id: nat, now: Time, it: Iteration) {
    match it.verdict
    case Granted(b) =>
      (&& b in s.bots && b !in excluded && s.Free(b, now) && it.waiter == 0
       && it.state.busy == s.busy + {b} && it.state.leases.Keys == s.leases.Keys + {b})
    case NoUsableBot => SameLeases(s, it.state) && it.waiter == 0
    case Park(g, _) => SameLeases(s, it.state) && g == it.state.changed && it.waiter != 0
  }

  /** What every pass through `Acquire` leaves alone, and what its verdict says about the leases. */
  lemma AcquireStepFacts(s: State, op: Operation, excluded: set<BotId>, id: nat, now: Time)
    ensures var it := AcquireStep(s, op, excluded, id, now);
      Untouched(s, it.state) && VerdictFits(s, excluded, id, now, it)
  {
    if !s.HasEligible(excluded) {
      WithdrawFacts(s, op, id);
    } else {
      var (queued, place) := Joined(s, op, excluded, id);
      TakeOrWaitFacts(s, queued, op, excluded, place, now);
    }
  }

  lemma TakeOrWaitFacts(s: State, queued: State, op: Operation, excluded: set<BotId>, place: nat, now: Time)
    requires Untouched(s, queued) && SameLeases(s, queued)
    ensures var it := TakeOrWait(s, queued, op, excluded, place, now);
      Untouched(s, it.state) && VerdictFits(s, excluded, place, now, it)
  {
    FirstFreeSpec(s, excluded, now, 0);
    match s.FirstFree(excluded, now, 0)
    case Some(index) => TakeBotFacts(queued, op, place, index, now);
    case None =>
      WaitFacts(queued, op, excluded, place, s.HasBusyEligible(excluded), s.EarliestCooldown(excluded, now));
  }

  lemma WaitFacts(s: State, op: Operation, excluded: set<BotId>, place: nat, busyEligible: bool, earliest: Option<Time>)
    ensures var it := WaitForBot(s, op, excluded, place, busyEligible, earliest);
      && Untouched(s, it.state) && SameLeases(s, it.state)
      && (match it.verdict
          case Granted(_) => false
          case NoUsableBot => it.waiter == 0
          case Park(g, _) => g == it.state.changed && it.waiter != 0)
  {
    WithdrawFacts(s, op, place);
    EnqueueFacts(s, op, excluded);
  }

  lemma EnqueueFacts(s: State, op: Operation, excluded: set<BotId>)
    ensures var t := s.EnqueueAcquire(op, excluded);
      Untouched(s, t) && SameLeases(s, t) && t.lastWaiter != 0
  {
  }

  lemma TakeBotFacts(s: State, op: Operation, place: nat, index: nat, now: Time)
    requires index < |s.bots|
    ensures var it := TakeBot(s, op, place, index, now);
      && Untouched(s, it.state)
      && (match it.verdict
          case Granted(b) =>
            (b == s.bots[index] && it.waiter == 0
             && it.state.busy == s.busy + {b} && it.state.leases.Keys == s.leases.Keys + {b})
          case NoUsableBot => false
          case Park(g, _) => it.state == s && g == s.changed && it.waiter == place && place != 0)
  {
    GrantFacts(s, op, place, index, now);
  }
}
