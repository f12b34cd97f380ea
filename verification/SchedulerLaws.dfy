/**
 * What the scheduler owes its callers, said with the fields alone: which bots it hands out and when it gives up,
 * and how the records of the bots follow from what administrators have asked for.
 */
module SchedulerLaws {
  import opened Arithmetic
  import opened SchedulerRotation
  import opened SchedulerRuns
  import opened SchedulerState
  import opened SchedulerWakeups
  import opened Wrappers

  // ----- What a call gets -----

  /** The record lets the bot serve; a bot without a record may. */
  predicate InGoodOrder(s: State, bot: BotId) {
    bot in s.controls ==> s.controls[bot].enabled && s.controls[bot].healthy && !s.controls[bot].draining
  }

  predicate Resting(s: State, bot: BotId, now: Time) {
    bot in s.cooldown && now < s.cooldown[bot]
  }

  /** The bot may serve a call with these exclusions, now or later. */
  predicate Suits(s: State, excluded: set<BotId>, bot: BotId) {
    bot in s.bots && bot !in excluded && InGoodOrder(s, bot)
  }

  predicate CanServe(s: State, excluded: set<BotId>, now: Time, bot: BotId) {
    Suits(s, excluded, bot) && bot !in s.busy && !Resting(s, bot, now)
  }

  predicate WaitsToServe(s: State, excluded: set<BotId>, now: Time, bot: BotId) {
    Suits(s, excluded, bot) && bot !in s.busy && Resting(s, bot, now)
  }

  /** `at` is the place of the first bot from the ring's position on that can serve. */
  ghost predicate FirstOnRing(s: State, excluded: set<BotId>, now: Time, at: nat) {
    && at < |s.bots| && CanServe(s, excluded, now, s.bots[at])
    && forall i :: 0 <= i < |s.bots| && CanServe(s, excluded, now, s.bots[i]) ==> Ahead(s, at) <= Ahead(s, i)
  }

  /** The timer of a parked call rings when the first of the resting bots is back; none when a bot can serve. */
  ghost predicate RingsInTime(s: State, excluded: set<BotId>, now: Time, timer: Option<Time>) {
    match timer
    case None =>
      (exists b :: CanServe(s, excluded, now, b)) || (forall b :: !WaitsToServe(s, excluded, now, b))
    case Some(t) =>
      && (forall b :: !CanServe(s, excluded, now, b))
      && (exists b :: WaitsToServe(s, excluded, now, b) && s.cooldown[b] == t)
      && (forall b :: WaitsToServe(s, excluded, now, b) ==> t <= s.cooldown[b])
  }

  lemma SameBots(s: State, excluded: set<BotId>, now: Time)
    ensures s.HasEligible(excluded) <==> exists b :: Suits(s, excluded, b)
    ensures s.Usable(excluded, now) <==> exists b :: CanServe(s, excluded, now, b)
    ensures s.HasBusyEligible(excluded) <==> exists b :: Suits(s, excluded, b) && b in s.busy
  {
    assert forall b :: s.Eligible(b) <==> InGoodOrder(s, b);
    if s.HasEligible(excluded) {
      var b :| b in s.bots && b !in excluded && s.Eligible(b);
      assert Suits(s, excluded, b);
    }
    if s.Usable(excluded, now) {
      var b :| b in s.bots && b !in excluded && s.Free(b, now);
      assert CanServe(s, excluded, now, b);
    }
    if s.HasBusyEligible(excluded) {
      var b :| b in s.bots && b !in excluded && s.Eligible(b) && b in s.busy;
      assert Suits(s, excluded, b);
    }
  }

  lemma FoundIsFirst(s: State, excluded: set<BotId>, now: Time)
    ensures s.FirstFree(excluded, now, 0).Some? ==> FirstOnRing(s, excluded, now, s.FirstFree(excluded, now, 0).value)
    ensures s.FirstFree(excluded, now, 0).None? ==> forall b :: !CanServe(s, excluded, now, b)
  {
    FirstFreeSpec(s, excluded, now, 0);
    FirstFreeIffUsable(s, excluded, now);
    SameBots(s, excluded, now);
    if s.FirstFree(excluded, now, 0).Some? {
      var at := s.FirstFree(excluded, now, 0).value;
      forall i | 0 <= i < |s.bots| && CanServe(s, excluded, now, s.bots[i])
        ensures Ahead(s, at) <= Ahead(s, i)
      {
        NearestOnRing(s, excluded, now, i);
      }
    }
  }

  lemma NearestOnRing(s: State, excluded: set<BotId>, now: Time, i: nat)
    requires i < |s.bots| && s.bots[i] !in excluded && s.Free(s.bots[i], now)
    ensures s.FirstFree(excluded, now, 0).Some? && s.FirstFree(excluded, now, 0).value < |s.bots|
    ensures Ahead(s, s.FirstFree(excluded, now, 0).value) <= Ahead(s, i)
  {
    RotateIs(s.next, Ahead(s, i), |s.bots|);
    var m := FirstIsNearest(s, excluded, now, 0, Ahead(s, i));
    RotateIs(s.next, m, |s.bots|);
  }

  lemma TimerRingsInTime(s: State, excluded: set<BotId>, now: Time)
    requires forall b :: !CanServe(s, excluded, now, b)
    ensures RingsInTime(s, excluded, now, s.EarliestCooldown(excluded, now))
  {
    var ends := s.CooldownEnds(excluded, now);
    assert forall b :: s.Eligible(b) <==> InGoodOrder(s, b);
    forall b | WaitsToServe(s, excluded, now, b)
      ensures s.cooldown[b] in ends
    {
    }
    if ends != {} {
      var t := Least(ends);
      var b :| b in s.bots && b !in excluded && s.Eligible(b) && b !in s.busy && s.Cooling(b, now) && s.cooldown[b] == t;
      assert WaitsToServe(s, excluded, now, b);
    }
  }

  ghost predicate AnyCanServe(s: State, excluded: set<BotId>, now: Time) {
    exists b :: CanServe(s, excluded, now, b)
  }

  ghost predicate AllRest(s: State, excluded: set<BotId>, now: Time) {
    forall b :: Suits(s, excluded, b) ==> WaitsToServe(s, excluded, now, b)
  }

  lemma AllRestIff(s: State, excluded: set<BotId>, now: Time)
    ensures AllRest(s, excluded, now) <==> !s.Usable(excluded, now) && !s.HasBusyEligible(excluded)
    ensures !s.HasEligible(excluded) ==> AllRest(s, excluded, now)
    ensures AnyCanServe(s, excluded, now) <==> s.Usable(excluded, now)
  {
    SameBots(s, excluded, now);
    if !AllRest(s, excluded, now) {
      var b :| Suits(s, excluded, b) && !WaitsToServe(s, excluded, now, b);
      assert b in s.busy || CanServe(s, excluded, now, b);
    }
  }

  /** A call gives up exactly when all bots that suit it, if any, are resting: none is leased and none can serve. */
  lemma GivesUpIff(s: State, op: Operation, excluded: set<BotId>, id: nat, now: Time)
    ensures AcquireStep(s, op, excluded, id, now).verdict.NoUsableBot? <==> AllRest(s, excluded, now)
  {
    AllRestIff(s, excluded, now);
    FirstFreeIffUsable(s, excluded, now);
    if s.HasEligible(excluded) {
      FirstFreeSpec(s, excluded, now, 0);
      var (queued, place) := Joined(s, op, excluded, id);
      assert queued.bots == s.bots;
      match s.FirstFree(excluded, now, 0)
      case Some(at) => TakeVerdict(queued, op, place, at, now);
      case None => WaitVerdict(queued, op, excluded, place, s.HasBusyEligible(excluded), s.EarliestCooldown(excluded, now));
    }
  }

  /** What it gets is the first bot on the ring that can serve; the ring goes on behind that bot. */
  lemma GetsTheFirst(s: State, op: Operation, excluded: set<BotId>, id: nat, now: Time) returns (at: nat)
    requires AcquireStep(s, op, excluded, id, now).verdict.Granted?
    ensures FirstOnRing(s, excluded, now, at)
    ensures var it := AcquireStep(s, op, excluded, id, now);
      && it.verdict == Granted(s.bots[at]) && it.state.next == (at + 1) % |s.bots|
      && it.state.busy == s.busy + {s.bots[at]} && it.state.leases == s.leases[s.bots[at] := Lease(op, now)]
  {
    FoundIsFirst(s, excluded, now);
    var (queued, place) := Joined(s, op, excluded, id);
    assert queued.bots == s.bots && SameLeases(s, queued);
    if s.FirstFree(excluded, now, 0).None? {
      WaitVerdict(queued, op, excluded, place, s.HasBusyEligible(excluded), s.EarliestCooldown(excluded, now));
    }
    at := s.FirstFree(excluded, now, 0).value;
    TakeVerdict(queued, op, place, at, now);
  }

  /** A parked call is woken when the first of the resting bots is back, unless it waits for its turn. */
  lemma ParksWithTimer(s: State, op: Operation, excluded: set<BotId>, id: nat, now: Time)
    requires AcquireStep(s, op, excluded, id, now).verdict.Park?
    ensures RingsInTime(s, excluded, now, AcquireStep(s, op, excluded, id, now).verdict.timer)
  {
    FoundIsFirst(s, excluded, now);
    var (queued, place) := Joined(s, op, excluded, id);
    assert queued.bots == s.bots;
    match s.FirstFree(excluded, now, 0)
    case Some(at) =>
      assert CanServe(s, excluded, now, s.bots[at]);
      TakeVerdict(queued, op, place, at, now);
    case None =>
      TimerRingsInTime(s, excluded, now);
      WaitVerdict(queued, op, excluded, place, s.HasBusyEligible(excluded), s.EarliestCooldown(excluded, now));
  }

  lemma TakeVerdict(s: State, op: Operation, place: nat, at: nat, now: Time)
    requires at < |s.bots|
    ensures var it := TakeBot(s, op, place, at, now);
      && (it.verdict.Granted? <==> place == 0 || !IsFair(op) || s.NextFair(now, 0) == Some((op, place)))
      && (it.verdict.Granted? ==>
            && it.verdict.bot == s.bots[at] && it.state.next == (at + 1) % |s.bots|
            && it.state.busy == s.busy + {s.bots[at]} && it.state.leases == s.leases[s.bots[at] := Lease(op, now)])
      && (!it.verdict.Granted? ==> it.verdict.Park? && it.verdict.timer == None)
  {
    if TakeBot(s, op, place, at, now).verdict.Granted? {
      GrantFacts(s, op, place, at, now);
    }
  }

  lemma WaitVerdict(s: State, op: Operation, excluded: set<BotId>, place: nat, busyEligible: bool, earliest: Option<Time>)
    ensures var it := WaitForBot(s, op, excluded, place, busyEligible, earliest);
      && !it.verdict.Granted? && (it.verdict.NoUsableBot? <==> !busyEligible)
      && (it.verdict.Park? ==> it.verdict.timer == earliest)
  {
  }

  // ----- Who must wait for whom -----

  function ExcludedBy(s: State, id: nat): set<BotId> {
    if id in s.exclusions then s.exclusions[id] else {}
  }

  predicate QueuedSomewhere(s: State, y: Waiter) {
    IsFair(y.0) && y.0 in s.waiters && y.1 in s.waiters[y.0]
  }

  /** The waiter stands in the queue of an operation of the rotation, and a bot can serve it. */
  ghost predicate CanBeServed(s: State, now: Time, y: Waiter) {
    QueuedSomewhere(s, y) && AnyCanServe(s, ExcludedBy(s, y.1), now)
  }

  /** The place of the call: it takes one behind the others when anybody waits in the rotation. */
  ghost function Place(s: State, op: Operation, id: nat): nat {
    if id == 0 && IsFair(op) && (exists y: Waiter :: QueuedSomewhere(s, y)) then s.lastWaiter + 1 else id
  }

  ghost predicate NumbersGiven(s: State) {
    && (forall op, x :: op in s.waiters && x in s.waiters[op] ==> 0 < x <= s.lastWaiter)
    && (forall x :: x in s.exclusions ==> x <= s.lastWaiter)
  }

  lemma SomebodyWaits(s: State)
    ensures s.HasFairWaiters() <==> exists y: Waiter :: QueuedSomewhere(s, y)
  {
    if s.HasFairWaiters() {
      var o :| IsFair(o) && s.Queue(o) != {};
      var x :| x in s.Queue(o);
      assert QueuedSomewhere(s, (o, x));
    }
    if y: Waiter :| QueuedSomewhere(s, y) {
      assert s.Queue(y.0) != {};
    }
  }

  lemma ServedIsAssignable(s: State, now: Time, y: Waiter)
    requires forall op :: op in s.waiters ==> 0 !in s.waiters[op]
    ensures CanBeServed(s, now, y) <==> QueuedFair(s, y) && s.Assignable(y.1, now)
  {
    AllRestIff(s, ExcludedBy(s, y.1), now);
    assert ExcludedBy(s, y.1) == s.ExclusionsOf(y.1);
  }

  /** It is the turn of a waiter that can be served exactly when it stands before all others that can. */
  lemma TurnIsFirst(s: State, x: Waiter, now: Time)
    requires CursorInRange(s) && forall op :: op in s.waiters ==> 0 !in s.waiters[op]
    requires CanBeServed(s, now, x)
    ensures s.NextFair(now, 0) == Some(x) <==> forall y: Waiter :: CanBeServed(s, now, y) && y != x ==> Before(s, x, y)
  {
    forall y: Waiter
      ensures CanBeServed(s, now, y) <==> QueuedFair(s, y) && s.Assignable(y.1, now)
    {
      ServedIsAssignable(s, now, y);
    }
    NextFairSpec(s, now);
    var turn := s.NextFair(now, 0).value;
    assert CanBeServed(s, now, turn);
  }

  /** A place behind the others leaves the others where they are. */
  lemma QueuesBehind(s: State, op: Operation, excluded: set<BotId>, now: Time, y: Waiter)
    requires NumbersGiven(s) && y != (op, s.lastWaiter + 1)
    ensures CanBeServed(s.EnqueueAcquire(op, excluded), now, y) <==> CanBeServed(s, now, y)
  {
    var t := s.EnqueueAcquire(op, excluded);
    assert QueuedSomewhere(t, y) <==> QueuedSomewhere(s, y);
    if QueuedSomewhere(s, y) {
      assert ExcludedBy(t, y.1) == ExcludedBy(s, y.1);
      SameService(s, t, ExcludedBy(s, y.1), now);
    }
  }

  lemma SameService(s: State, t: State, excluded: set<BotId>, now: Time)
    requires t.bots == s.bots && t.controls == s.controls && t.cooldown == s.cooldown && t.busy == s.busy
    ensures AnyCanServe(t, excluded, now) <==> AnyCanServe(s, excluded, now)
  {
    assert forall b :: CanServe(t, excluded, now, b) <==> CanServe(s, excluded, now, b);
  }

  /** Everybody who can be served, but for `x`, stands behind it. */
  ghost predicate StandsFirst(s: State, now: Time, x: Waiter)
    requires CursorInRange(s) && IsFair(x.0)
  {
    forall y: Waiter :: CanBeServed(s, now, y) && y != x ==> Before(s, x, y)
  }

  lemma NewcomerTurn(s: State, op: Operation, excluded: set<BotId>, now: Time)
    requires CursorInRange(s) && NumbersGiven(s) && IsFair(op) && AnyCanServe(s, excluded, now)
    ensures var x := (op, s.lastWaiter + 1);
      s.EnqueueAcquire(op, excluded).NextFair(now, 0) == Some(x) <==> StandsFirst(s, now, x)
  {
    var t, x := s.EnqueueAcquire(op, excluded), (op, s.lastWaiter + 1);
    SameService(s, t, excluded, now);
    assert ExcludedBy(t, x.1) == excluded && QueuedSomewhere(t, x);
    TurnIsFirst(t, x, now);
    forall y: Waiter | y != x
      ensures CanBeServed(t, now, y) <==> CanBeServed(s, now, y)
      ensures IsFair(y.0) ==> (Before(t, x, y) <==> Before(s, x, y))
    {
      QueuesBehind(s, op, excluded, now, y);
    }
  }

  lemma GrantedIff(s: State, op: Operation, excluded: set<BotId>, id: nat, now: Time)
    requires AnyCanServe(s, excluded, now)
    ensures AcquireStep(s, op, excluded, id, now).verdict.Granted? <==>
      var (queued, place) := Joined(s, op, excluded, id);
      place == 0 || !IsFair(op) || queued.NextFair(now, 0) == Some((op, place))
  {
    AllRestIff(s, excluded, now);
    FirstFreeIffUsable(s, excluded, now);
    FirstFreeSpec(s, excluded, now, 0);
    var (queued, place) := Joined(s, op, excluded, id);
    assert queued.bots == s.bots;
    TakeVerdict(queued, op, place, s.FirstFree(excluded, now, 0).value, now);
  }

  /**
   * When a bot can serve it, a call is granted one unless it belongs to the rotation, has or takes a place, and a
   * waiter that can be served too does not stand behind it, in cyclic order of operations from the cursor, then age.
   */
  lemma WhoGoesFirst(s: State, op: Operation, excluded: set<BotId>, id: nat, now: Time)
    requires CursorInRange(s) && NumbersGiven(s) && AnyCanServe(s, excluded, now)
    requires id != 0 ==> op in s.waiters && id in s.waiters[op] && id in s.exclusions && s.exclusions[id] == excluded
    ensures AcquireStep(s, op, excluded, id, now).verdict.Granted? <==>
      Place(s, op, id) == 0 || !IsFair(op) || StandsFirst(s, now, (op, Place(s, op, id)))
  {
    GrantedIff(s, op, excluded, id, now);
    SomebodyWaits(s);
    if IsFair(op) && id != 0 {
      assert CanBeServed(s, now, (op, id));
      TurnIsFirst(s, (op, id), now);
    } else if IsFair(op) {
      NewcomerTurn(s, op, excluded, now);
    }
  }

  /** A control call gets its own bot, in whatever order it is, when the bot is idle and not resting. */
  lemma WhatAControlCallGets(s: State, bot: BotId, op: Operation, id: nat, now: Time)
    ensures var it := ControlStep(s, bot, op, id, now);
      && (it.verdict.ControlGranted? <==> bot in s.bots && bot !in s.busy && !Resting(s, bot, now))
      && (it.verdict.ControlPark? <==> bot in s.bots && bot in s.busy)
      && (it.verdict.ControlGranted? ==>
            && it.state.busy == s.busy + {bot} && it.state.leases == s.leases[bot := Lease(op, now)]
            && it.state.changed == s.changed)
      && (!it.verdict.ControlGranted? ==> SameLeases(s, it.state))
  {
  }

  /** A new bot stands last on the ring and may serve at once. */
  lemma AddedMayServe(s: State, bot: BotId)
    requires bot != "" && bot !in s.bots
    ensures var t := s.AddBot(bot); t.bots == s.bots + [bot] && Suits(t, {}, bot)
  {
    assert bot in [bot];
  }

  // ----- The records over whole runs -----

  predicate Healthy(s: State, bot: BotId) {
    bot in s.controls && s.controls[bot].healthy
  }

  predicate InService(s: State, bot: BotId) {
    bot in s.controls && s.controls[bot].enabled && !s.controls[bot].draining
  }

  /** What the action says about the bot's health, if anything. */
  function HealthSaid(a: Action, bot: BotId): Option<bool> {
    if a.Administer? && a.change.SetHealthy? && a.change.bot == bot then Some(a.change.healthy) else None
  }

  /** Whether the action puts the bot into service or takes it out. */
  function ServiceSaid(a: Action, bot: BotId): Option<bool> {
    if a.Administer? && a.change.Enable? && a.change.bot == bot then Some(true)
    else if a.Administer? && a.change.DisableOrDrain? && a.change.bot == bot then Some(false)
    else None
  }

  /** The action gives the bot a cooldown that lasts beyond `until`. */
  predicate CoolsBeyond(a: Action, bot: BotId, clock: Time, until: Time) {
    && a.Administer? && a.change.CoolDown? && a.change.bot == bot
    && a.change.duration > 0 && until < clock + a.change.duration
  }

  function LastHealth(actions: seq<Action>, bot: BotId): Option<bool> {
    if actions == [] then None
    else if LastHealth(actions[1..], bot).Some? then LastHealth(actions[1..], bot)
    else HealthSaid(actions[0], bot)
  }

  function LastService(actions: seq<Action>, bot: BotId): Option<bool> {
    if actions == [] then None
    else if LastService(actions[1..], bot).Some? then LastService(actions[1..], bot)
    else ServiceSaid(actions[0], bot)
  }

  function ClockAfter(clock: Time, a: Action): Time {
    if a.Tick? then clock + a.elapsed else clock
  }

  predicate CooledBeyond(clock: Time, actions: seq<Action>, bot: BotId, until: Time)
    decreases |actions|
  {
    actions != [] &&
    (CoolsBeyond(actions[0], bot, clock, until) || CooledBeyond(ClockAfter(clock, actions[0]), actions[1..], bot, until))
  }

  function Otherwise(said: Option<bool>, before: bool): bool {
    if said.Some? then said.value else before
  }

  predicate Recorded(s: State, bot: BotId) {
    bot in s.bots && bot in s.controls
  }

  /** One step moves health, service and cooldown as its action says and not otherwise. */
  ghost predicate FollowsAction(w: World, a: Action, v: World, bot: BotId) {
    && Recorded(v.s, bot) && v.clock == ClockAfter(w.clock, a)
    && Healthy(v.s, bot) == Otherwise(HealthSaid(a, bot), Healthy(w.s, bot))
    && InService(v.s, bot) == Otherwise(ServiceSaid(a, bot), InService(w.s, bot))
    && forall until :: Resting(v.s, bot, until) <==> Resting(w.s, bot, until) || CoolsBeyond(a, bot, w.clock, until)
  }

  lemma RecordStep(w: World, a: Action, bot: BotId)
    requires Enabled(w, a) && Recorded(w.s, bot)
    ensures FollowsAction(w, a, Apply(w, a), bot)
  {
    match a
    case Iterate(id) => IterateLeavesRecords(w, id);
    case Release(token) => ReleaseMovesRecord(w, token, bot);
    case Administer(change) => ChangeMovesRecord(w, change, bot);
    case _ =>
  }

  lemma IterateLeavesRecords(w: World, id: nat)
    requires Enabled(w, Iterate(id))
    ensures var v := Apply(w, Iterate(id));
      v.s.bots == w.s.bots && v.s.controls == w.s.controls && v.s.cooldown == w.s.cooldown && v.clock == w.clock
  {
    var c := w.calls[id];
    if c.request.Acquiring? {
      AcquireStepFacts(w.s, c.op, c.request.excluded, c.place, w.clock);
    }
  }

  lemma ReleaseMovesRecord(w: World, token: nat, bot: BotId)
    requires Recorded(w.s, bot)
    ensures FollowsAction(w, Release(token), Apply(w, Release(token)), bot)
  {
  }

  lemma ChangeMovesRecord(w: World, change: Change, bot: BotId)
    requires Recorded(w.s, bot)
    ensures FollowsAction(w, Administer(change), Apply(w, Administer(change)), bot)
  {
    ChangeMovesControl(w.s, change, w.clock, bot);
    forall until
      ensures Resting(ChangeStep(w.s, change, w.clock), bot, until) <==>
        Resting(w.s, bot, until) || CoolsBeyond(Administer(change), bot, w.clock, until)
    {
      ChangeMovesCooldown(w.s, change, w.clock, bot, until);
    }
  }

  lemma ChangeMovesControl(s: State, change: Change, now: Time, bot: BotId)
    requires Recorded(s, bot)
    ensures var t, a := ChangeStep(s, change, now), Administer(change);
      && Recorded(t, bot)
      && Healthy(t, bot) == Otherwise(HealthSaid(a, bot), Healthy(s, bot))
      && InService(t, bot) == Otherwise(ServiceSaid(a, bot), InService(s, bot))
  {
    match change
    case SelectNext(excluded) => SelectingMovesNoRecord(s, excluded, now);
    case _ =>
  }

  lemma ChangeMovesCooldown(s: State, change: Change, now: Time, bot: BotId, until: Time)
    requires Recorded(s, bot)
    ensures Resting(ChangeStep(s, change, now), bot, until) <==>
      Resting(s, bot, until) || CoolsBeyond(Administer(change), bot, now, until)
  {
    match change
    case SelectNext(excluded) => SelectingMovesNoRecord(s, excluded, now);
    case _ =>
  }

  lemma SelectingMovesNoRecord(s: State, excluded: set<BotId>, now: Time)
    ensures var t := s.SelectNext(excluded, now).0; t == s.(next := t.next)
  {
  }

  /** After any run a bot is as healthy as was last said: calls, leases, releases and drains do not touch that. */
  lemma {:induction false} HealthFollowsRequests(w: World, actions: seq<Action>, bot: BotId)
    requires CanRun(w, actions) && Recorded(w.s, bot)
    ensures Healthy(Run(w, actions).s, bot) == Otherwise(LastHealth(actions, bot), Healthy(w.s, bot))
    decreases |actions|
  {
    if actions != [] {
      RecordStep(w, actions[0], bot);
      HealthFollowsRequests(Apply(w, actions[0]), actions[1..], bot);
    }
  }

  /** It is in service exactly if that is what was last asked for: the end of a lease completes a drain and no more. */
  lemma {:induction false} ServiceFollowsRequests(w: World, actions: seq<Action>, bot: BotId)
    requires CanRun(w, actions) && Recorded(w.s, bot)
    ensures InService(Run(w, actions).s, bot) == Otherwise(LastService(actions, bot), InService(w.s, bot))
    decreases |actions|
  {
    if actions != [] {
      RecordStep(w, actions[0], bot);
      ServiceFollowsRequests(Apply(w, actions[0]), actions[1..], bot);
    }
  }

  /** It rests at a time exactly if one of the cooldowns it was given lasts beyond that time: the longest counts. */
  lemma {:induction false} RestFollowsRequests(w: World, actions: seq<Action>, bot: BotId, until: Time)
    requires CanRun(w, actions) && Recorded(w.s, bot)
    ensures Resting(Run(w, actions).s, bot, until) <==>
      Resting(w.s, bot, until) || CooledBeyond(w.clock, actions, bot, until)
    decreases |actions|
  {
    if actions != [] {
      RecordStep(w, actions[0], bot);
      RestFollowsRequests(Apply(w, actions[0]), actions[1..], bot, until);
    }
  }

  /** Disabling drains a leased bot that was in service, and only such a bot. */
  lemma DrainsWhenLeased(s: State, bot: BotId)
    requires bot in s.bots && InService(s, bot)
    ensures var t := s.DisableOrDrain(bot);
      && bot in t.controls && t.controls[bot].draining == t.controls[bot].enabled == (bot in s.busy)
      && t.controls - {bot} == s.controls - {bot}
  {
  }

  /** The lease-free selection picks the next bot in good order that is not resting, leased or not. */
  predicate CanBePicked(s: State, excluded: set<BotId>, now: Time, bot: BotId) {
    Suits(s, excluded, bot) && !Resting(s, bot, now)
  }

  lemma {:induction false} PickIsNearest(s: State, excluded: set<BotId>, now: Time, offset: nat)
    ensures var r := s.NextIgnoringBusy(excluded, now, offset);
      && (r.Some? ==> CanBePicked(s, excluded, now, s.bots[r.value]))
      && forall k :: offset <= k < |s.bots| && CanBePicked(s, excluded, now, s.bots[Rotate(s.next, k, |s.bots|)]) ==>
           r.Some? && exists m :: offset <= m <= k && r.value == Rotate(s.next, m, |s.bots|)
    decreases |s.bots| - offset
  {
    if offset < |s.bots| {
      PickIsNearest(s, excluded, now, offset + 1);
    }
  }

  ghost predicate FirstToPick(s: State, excluded: set<BotId>, now: Time, at: nat) {
    && at < |s.bots| && CanBePicked(s, excluded, now, s.bots[at])
    && forall i :: 0 <= i < |s.bots| && CanBePicked(s, excluded, now, s.bots[i]) ==> Ahead(s, at) <= Ahead(s, i)
  }

  lemma PickIsFirst(s: State, excluded: set<BotId>, now: Time, i: nat)
    requires i < |s.bots| && CanBePicked(s, excluded, now, s.bots[i])
    ensures var r := s.NextIgnoringBusy(excluded, now, 0); r.Some? && Ahead(s, r.value) <= Ahead(s, i)
  {
    PickIsNearest(s, excluded, now, 0);
    RotateIs(s.next, Ahead(s, i), |s.bots|);
    var m :| 0 <= m <= Ahead(s, i) && s.NextIgnoringBusy(excluded, now, 0).value == Rotate(s.next, m, |s.bots|);
    RotateIs(s.next, m, |s.bots|);
  }

  lemma SelectsTheNext(s: State, excluded: set<BotId>, now: Time) returns (at: nat)
    ensures var (t, r) := s.SelectNext(excluded, now);
      match r
      case None => t == s && forall b :: !CanBePicked(s, excluded, now, b)
      case Some(bot) => FirstToPick(s, excluded, now, at) && bot == s.bots[at] && t == s.(next := (at + 1) % |s.bots|)
  {
    PickIsNearest(s, excluded, now, 0);
    var r := s.NextIgnoringBusy(excluded, now, 0);
    at := if r.Some? then r.value else 0;
    forall i | 0 <= i < |s.bots| && CanBePicked(s, excluded, now, s.bots[i])
      ensures r.Some? && Ahead(s, at) <= Ahead(s, i)
    {
      PickIsFirst(s, excluded, now, i);
    }
  }

  /** The action gives the bot out: an ordinary lease, or the lease-free selection. */
  ghost predicate HandsOut(w: World, a: Action, bot: BotId)
    requires Enabled(w, a)
  {
    match a
    case Iterate(id) => w.calls[id].request.Acquiring? && LeasedBy(w, a) == Some(bot)
    case Administer(SelectNext(excluded)) => w.s.SelectNext(excluded, w.clock).1 == Some(bot)
    case _ => false
  }

  ghost predicate NeverHandsOut(w: World, actions: seq<Action>, bot: BotId)
    requires CanRun(w, actions)
    decreases |actions|
  {
    actions == [] || (!HandsOut(w, actions[0], bot) && NeverHandsOut(Apply(w, actions[0]), actions[1..], bot))
  }

  lemma HandedOutInGoodOrder(w: World, a: Action, bot: BotId)
    requires Enabled(w, a) && HandsOut(w, a, bot)
    ensures InGoodOrder(w.s, bot) && !Resting(w.s, bot, w.clock) && (a.Iterate? ==> bot !in w.s.busy)
  {
    match a
    case Iterate(id) =>
      var c := w.calls[id];
      var at := GetsTheFirst(w.s, c.op, c.request.excluded, c.place, w.clock);
    case Administer(SelectNext(excluded)) => var at := SelectsTheNext(w.s, excluded, w.clock);
  }

  /** An unhealthy bot is given to nobody until it is reported healthy. */
  lemma {:induction false} NotHandedOutWhileUnhealthy(w: World, actions: seq<Action>, bot: BotId)
    requires CanRun(w, actions) && Recorded(w.s, bot) && !w.s.controls[bot].healthy
    requires Administer(SetHealthy(bot, true)) !in actions
    ensures NeverHandsOut(w, actions, bot)
    decreases |actions|
  {
    if actions != [] {
      var a := actions[0];
      if HandsOut(w, a, bot) {
        HandedOutInGoodOrder(w, a, bot);
      }
      RecordStep(w, a, bot);
      NotHandedOutWhileUnhealthy(Apply(w, a), actions[1..], bot);
    }
  }
}
