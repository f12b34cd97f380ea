/** The scheduler as the object it is: fields changed under the mutex, loops over bots and waiters. */
module Scheduler {
  import opened Arithmetic
  import opened SchedulerState
  import opened Wrappers

  datatype Selection = Selection(index: nat, eligible: nat, busyEligible: bool, available: bool, earliest: Option<Time>)

  datatype AddError = InvalidBotToken | DuplicateBotUser

  /** Bot at `k` places after the rotation cursor. */
  ghost function BotAt(s: State, k: nat): BotId
    requires k < |s.bots|
  {
    s.bots[Rotate(s.next, k, |s.bots|)]
  }

  ghost predicate SawEligible(s: State, excluded: set<BotId>, k: nat)
    requires k < |s.bots|
  {
    BotAt(s, k) !in excluded && s.Eligible(BotAt(s, k))
  }

  ghost predicate SawBusy(s: State, excluded: set<BotId>, k: nat)
    requires k < |s.bots|
  {
    SawEligible(s, excluded, k) && BotAt(s, k) in s.busy
  }

  ghost predicate SawCooling(s: State, excluded: set<BotId>, now: Time, k: nat)
    requires k < |s.bots|
  {
    SawEligible(s, excluded, k) && BotAt(s, k) !in s.busy && s.Cooling(BotAt(s, k), now)
  }

  ghost function EndsUpTo(s: State, excluded: set<BotId>, now: Time, n: nat): set<Time>
    requires n <= |s.bots|
  {
    set k: nat | k < n && SawCooling(s, excluded, now, k) :: s.cooldown[BotAt(s, k)]
  }

  ghost predicate IsEarliest(ends: set<Time>, t: Option<Time>) {
    match t
    case None => ends == {}
    case Some(e) => e in ends && forall x :: x in ends ==> e <= x
  }

  /** Looking once round the ring is looking at every bot. */
  lemma FullTurn(s: State, excluded: set<BotId>, now: Time)
    ensures s.HasEligible(excluded) <==> exists k: nat :: k < |s.bots| && SawEligible(s, excluded, k)
    ensures s.HasBusyEligible(excluded) <==> exists k: nat :: k < |s.bots| && SawBusy(s, excluded, k)
    ensures s.CooldownEnds(excluded, now) == EndsUpTo(s, excluded, now, |s.bots|)
  {
    forall b | b in s.bots
      ensures exists k: nat :: k < |s.bots| && BotAt(s, k) == b
    {
      var i :| 0 <= i < |s.bots| && s.bots[i] == b;
      var k := RotationCovers(s.next, |s.bots|, i);
      assert BotAt(s, k) == b;
    }
    if s.HasEligible(excluded) {
      var b :| b in s.bots && b !in excluded && s.Eligible(b);
      var k: nat :| k < |s.bots| && BotAt(s, k) == b;
      assert SawEligible(s, excluded, k);
    }
    if s.HasBusyEligible(excluded) {
      var b :| b in s.bots && b !in excluded && s.Eligible(b) && b in s.busy;
      var k: nat :| k < |s.bots| && BotAt(s, k) == b;
      assert SawBusy(s, excluded, k);
    }
    forall t | t in s.CooldownEnds(excluded, now)
      ensures t in EndsUpTo(s, excluded, now, |s.bots|)
    {
      var b :| b in s.bots && b !in excluded && s.Eligible(b) && b !in s.busy && s.Cooling(b, now) && s.cooldown[b] == t;
      var k: nat :| k < |s.bots| && BotAt(s, k) == b;
      assert SawCooling(s, excluded, now, k);
    }
  }

  /** What a scan knows after the first `n` places. */
  ghost predicate Scanned(s: State, excluded: set<BotId>, now: Time, n: nat, r: Selection)
    requires n <= |s.bots|
  {
    && (r.eligible > 0 <==> exists k: nat :: k < n && SawEligible(s, excluded, k))
    && (r.busyEligible <==> exists k: nat :: k < n && SawBusy(s, excluded, k))
    && s.FirstFree(excluded, now, 0) == (if r.available then Some(r.index) else s.FirstFree(excluded, now, n))
    && IsEarliest(EndsUpTo(s, excluded, now, n), r.earliest)
  }

  /** One more place: the result the loop body leaves. */
  function Observe(s: State, excluded: set<BotId>, now: Time, index: nat, r: Selection): Selection
    requires index < |s.bots|
  {
    var bot := s.bots[index];
    if bot in excluded || !s.Eligible(bot) then r
    else if bot in s.busy then r.(eligible := r.eligible + 1, busyEligible := true)
    else if s.Cooling(bot, now) then
      var until := s.cooldown[bot];
      r.(eligible := r.eligible + 1,
         earliest := if r.earliest.None? || until < r.earliest.value then Some(until) else r.earliest)
    else if r.available then r.(eligible := r.eligible + 1)
    else r.(eligible := r.eligible + 1, available := true, index := index)
  }

  lemma ScanStep(s: State, excluded: set<BotId>, now: Time, n: nat, r: Selection)
    requires n < |s.bots| && Scanned(s, excluded, now, n, r)
    ensures Scanned(s, excluded, now, n + 1, Observe(s, excluded, now, Rotate(s.next, n, |s.bots|), r))
  {
    var bot := BotAt(s, n);
    var after := Observe(s, excluded, now, Rotate(s.next, n, |s.bots|), r);
    assert EndsUpTo(s, excluded, now, n + 1) == EndsUpTo(s, excluded, now, n)
      + if SawCooling(s, excluded, now, n) then {s.cooldown[bot]} else {};
    assert after.eligible > 0 <==> r.eligible > 0 || SawEligible(s, excluded, n);
    assert after.busyEligible <==> r.busyEligible || SawBusy(s, excluded, n);
  }

  /** The selection says which bot comes first in rotation, or why there is none. */
  ghost predicate Selects(s: State, excluded: set<BotId>, now: Time, r: Selection) {
    && (r.eligible > 0 <==> s.HasEligible(excluded))
    && (r.busyEligible <==> s.HasBusyEligible(excluded))
    && s.FirstFree(excluded, now, 0) == (if r.available then Some(r.index) else None)
    && r.earliest == s.EarliestCooldown(excluded, now)
  }

  lemma ScanComplete(s: State, excluded: set<BotId>, now: Time, r: Selection)
    requires Scanned(s, excluded, now, |s.bots|, r)
    ensures Selects(s, excluded, now, r)
  {
    FullTurn(s, excluded, now);
  }

  /** `selected` is the lowest assignable waiter among those already looked at (0: none yet). */
  ghost predicate BestOutside(s: State, op: Operation, now: Time, rest: set<nat>, selected: nat) {
    && (selected != 0 ==> selected in s.AssignableIn(op, now))
    && forall x :: x in s.AssignableIn(op, now) && x !in rest ==> selected != 0 && selected <= x
  }

  lemma BestStep(s: State, op: Operation, now: Time, rest: set<nat>, id: nat, selected: nat)
    requires BestOutside(s, op, now, rest, selected) && id in s.Queue(op) && id != 0
    ensures BestOutside(s, op, now, rest - {id},
                        if (selected == 0 || id < selected) && s.Assignable(id, now) then id else selected)
  {
  }

  lemma OldestIs(s: State, op: Operation, now: Time, id: nat)
    requires BestOutside(s, op, now, {}, id)
    ensures id == s.Oldest(op, now)
  {
    var candidates: set<int> := set x | x in s.AssignableIn(op, now) :: x as int;
    if id != 0 {
      assert (id as int) in candidates;
      assert forall x :: x in candidates ==> id <= x;
    } else {
      assert candidates == {};
    }
  }

  /** A usable bot stands at some index of the list. */
  lemma UsableHasIndex(s: State, excluded: set<BotId>, now: Time)
    ensures s.Usable(excluded, now) ==> exists k :: 0 <= k < |s.bots| && !NotFreeAt(s, excluded, now, k)
  {
    if s.Usable(excluded, now) {
      var b :| b in s.bots && b !in excluded && s.Free(b, now);
      var k :| 0 <= k < |s.bots| && s.bots[k] == b;
      assert !NotFreeAt(s, excluded, now, k);
    }
  }

  /** A non-empty fair queue stands at some index of the rotation. */
  lemma FairWaitersHaveIndex(s: State)
    ensures s.HasFairWaiters() ==> exists k :: 0 <= k < |FAIR_OPERATIONS| && s.Queue(FAIR_OPERATIONS[k]) != {}
  {
    if s.HasFairWaiters() {
      var op :| IsFair(op) && s.Queue(op) != {};
      assert s.Queue(FAIR_OPERATIONS[FairIndex(op)]) != {};
    }
  }

  class Scheduler {
    var bots: seq<BotId>
    var next: nat
    var fairCursor: nat
    var cooldown: map<BotId, Time>
    var busy: set<BotId>
    var controls: map<BotId, Control>
    var leases: map<BotId, Lease>
    var waiters: map<Operation, set<nat>>
    var exclusions: map<nat, set<BotId>>
    var lastWaiter: nat
    var changed: nat

    /** Every cooldown ever set, also those the code has forgotten, and the latest time read. */
    ghost var horizon: map<BotId, Time>
    ghost var seen: Time

    ghost predicate Valid()
      reads this
    {
      && (forall b :: b in cooldown ==> b in horizon && horizon[b] == cooldown[b])
      && (forall b :: b in horizon && b !in cooldown ==> horizon[b] <= seen)
      && (forall op :: op in waiters ==> 0 !in waiters[op])
    }

    ghost function View(): State
      reads this
    {
      State(bots, next, fairCursor, horizon, busy, controls, leases, waiters, exclusions, lastWaiter, changed)
    }

    constructor (configured: seq<BotId>)
      ensures Valid()
      ensures View() == State(configured, 0, 0, map[], {},
                              map b | b in configured :: Control(true, true, false), map[], map[], map[], 0, 0)
    {
      bots := configured;
      next, fairCursor := 0, 0;
      cooldown, busy, leases := map[], {}, map[];
      controls := map b | b in configured :: Control(true, true, false);
      waiters, exclusions, lastWaiter, changed := map[], map[], 0, 0;
      horizon, seen := map[], 0;
    }

    /** Reads a cooldown and forgets it once it is over; the view does not change. */
    method CooldownState(bot: BotId, now: Time) returns (cooling: bool, until: Time)
      requires Valid() && seen <= now
      modifies `cooldown, `seen
      ensures Valid() && View() == old(View()) && seen == now
      ensures cooling <==> View().Cooling(bot, now)
      ensures cooling ==> until == View().cooldown[bot]
    {
      seen := now;
      cooling, until := false, 0;
      if bot in cooldown {
        if now < cooldown[bot] {
          return true, cooldown[bot];
        }
        cooldown := cooldown - {bot};
      }
    }

    method SelectAvailableBot(excluded: set<BotId>, now: Time) returns (r: Selection)
      requires Valid() && seen <= now
      modifies `cooldown, `seen
      ensures Valid() && View() == old(View()) && seen == now
      ensures Selects(View(), excluded, now, r)
    {
      ghost var v := View();
      r := Selection(0, 0, false, false, None);
      seen := now;
      for i := 0 to |bots|
        invariant Valid() && View() == v && seen == now
        invariant Scanned(v, excluded, now, i, r)
      {
        ScanStep(v, excluded, now, i, r);
        r := Inspect(excluded, now, Rotate(next, i, |bots|), r);
      }
      ScanComplete(v, excluded, now, r);
    }

    /** The body of the selection loop. */
    method Inspect(excluded: set<BotId>, now: Time, index: nat, before: Selection) returns (r: Selection)
      requires Valid() && seen <= now && index < |bots|
      modifies `cooldown, `seen
      ensures Valid() && View() == old(View()) && seen == now
      ensures r == Observe(View(), excluded, now, index, before)
    {
      seen := now;
      r := before;
      var bot := bots[index];
      var eligible := ControlEligible(bot);
      if bot in excluded || !eligible {
        return;
      }
      r := r.(eligible := r.eligible + 1);
      if bot in busy {
        r := r.(busyEligible := true);
        return;
      }
      var cooling, until := CooldownState(bot, now);
      if cooling {
        if r.earliest.None? || until < r.earliest.value {
          r := r.(earliest := Some(until));
        }
      } else if !r.available {
        r := r.(available := true, index := index);
      }
    }

    method ControlEligible(bot: BotId) returns (ok: bool)
      ensures ok <==> View().Eligible(bot)
    {
      var c := if bot in controls then controls[bot] else Control(true, true, false);
      ok := c.enabled && c.healthy && !c.draining;
    }

    method WaiterCanUseAvailableBot(id: nat, now: Time) returns (ok: bool)
      requires Valid() && seen <= now
      modifies `cooldown, `seen
      ensures Valid() && View() == old(View()) && seen == now
      ensures ok <==> View().Assignable(id, now)
    {
      ghost var v := View();
      var excluded := if id in exclusions then exclusions[id] else {};
      seen := now;
      for i := 0 to |bots|
        invariant Valid() && View() == v && seen == now
        invariant forall k :: 0 <= k < i ==> NotFreeAt(v, excluded, now, k)
      {
        var eligible := ControlEligible(bots[i]);
        if bots[i] !in excluded && eligible && bots[i] !in busy {
          var cooling, _ := CooldownState(bots[i], now);
          if !cooling {
            return true;
          }
        }
      }
      UsableHasIndex(v, excluded, now);
      ok := false;
    }

    method OldestAssignableWaiter(op: Operation, now: Time) returns (selected: nat)
      requires Valid() && seen <= now
      modifies `cooldown, `seen
      ensures Valid() && View() == old(View()) && seen == now
      ensures selected == View().Oldest(op, now)
    {
      ghost var v := View();
      seen := now;
      selected := 0;
      var rest := if op in waiters then waiters[op] else {};
      while rest != {}
        invariant Valid() && View() == v && seen == now
        invariant rest <= v.Queue(op)
        invariant BestOutside(v, op, now, rest, selected)
        decreases rest
      {
        var id :| id in rest;
        assert op in waiters && 0 !in waiters[op];
        BestStep(v, op, now, rest, id, selected);
        rest := rest - {id};
        selected := BetterWaiter(selected, id, now);
      }
      OldestIs(v, op, now, selected);
    }

    /** The lower-numbered of two waiters, if it can use a bot. */
    method BetterWaiter(before: nat, id: nat, now: Time) returns (selected: nat)
      requires Valid() && seen <= now
      modifies `cooldown, `seen
      ensures Valid() && View() == old(View()) && seen == now
      ensures selected == if (before == 0 || id < before) && View().Assignable(id, now) then id else before
    {
      seen := now;
      selected := before;
      if before == 0 || id < before {
        var usable := WaiterCanUseAvailableBot(id, now);
        if usable {
          selected := id;
        }
      }
    }

    method NextAssignableFairWaiter(now: Time) returns (r: Option<Waiter>)
      requires Valid() && seen <= now
      modifies `cooldown, `seen
      ensures Valid() && View() == old(View()) && seen == now
      ensures r == View().NextFair(now, 0)
    {
      ghost var v := View();
      seen := now;
      for offset := 0 to |FAIR_OPERATIONS|
        invariant Valid() && View() == v && seen == now
        invariant v.NextFair(now, 0) == v.NextFair(now, offset)
      {
        var op := FAIR_OPERATIONS[Rotate(fairCursor, offset, |FAIR_OPERATIONS|)];
        var id := OldestAssignableWaiter(op, now);
        if id != 0 {
          return Some((op, id));
        }
      }
      r := None;
    }

    method HasFairWaiters() returns (found: bool)
      ensures found <==> View().HasFairWaiters()
    {
      ghost var v := View();
      for i := 0 to |FAIR_OPERATIONS|
        invariant forall k :: 0 <= k < i ==> v.Queue(FAIR_OPERATIONS[k]) == {}
      {
        if FAIR_OPERATIONS[i] in waiters && waiters[FAIR_OPERATIONS[i]] != {} {
          assert IsFair(FAIR_OPERATIONS[i]) && v.Queue(FAIR_OPERATIONS[i]) != {};
          return true;
        }
      }
      FairWaitersHaveIndex(v);
      found := false;
    }

    method Notify()
      requires Valid()
      modifies `changed
      ensures Valid() && View() == old(View()).Notify()
    {
      changed := changed + 1;
    }

    method Enqueue(op: Operation) returns (id: nat)
      requires Valid()
      modifies `lastWaiter, `waiters
      ensures Valid() && View() == old(View()).Enqueue(op) && id == lastWaiter
    {
      lastWaiter := lastWaiter + 1;
      id := lastWaiter;
      waiters := waiters[op := (if op in waiters then waiters[op] else {}) + {id}];
    }

    method Dequeue(op: Operation, id: nat)
      requires Valid()
      modifies `waiters
      ensures Valid() && View() == old(View()).Dequeue(op, id)
    {
      if id == 0 || op !in waiters {
        return;
      }
      var queue := waiters[op] - {id};
      waiters := waiters[op := queue];
      if queue == {} {
        ghost var before := old(waiters);
        waiters := waiters - {op};
        assert waiters == before - {op};
      }
    }

    method EnqueueAcquireWaiter(op: Operation, excluded: set<BotId>) returns (id: nat)
      requires Valid()
      modifies `lastWaiter, `waiters, `exclusions, `changed
      ensures Valid() && View() == old(View()).EnqueueAcquire(op, excluded) && id == lastWaiter
    {
      id := Enqueue(op);
      exclusions := exclusions[id := excluded];
      Notify();
    }

    method DequeueAcquireWaiter(op: Operation, id: nat) returns (existed: bool)
      requires Valid()
      modifies `waiters, `exclusions
      ensures Valid() && View() == old(View()).DequeueAcquire(op, id)
      ensures existed <==> old(View()).Registered(id)
    {
      if id == 0 {
        return false;
      }
      existed := id in exclusions;
      exclusions := exclusions - {id};
      Dequeue(op, id);
    }

    method Withdraw(op: Operation, id: nat)
      requires Valid()
      modifies `waiters, `exclusions, `changed
      ensures Valid() && View() == old(View()).Withdraw(op, id)
    {
      var removed := DequeueAcquireWaiter(op, id);
      if removed {
        Notify();
      }
    }

    method StartLease(bot: BotId, op: Operation, now: Time)
      requires Valid()
      modifies `busy, `leases
      ensures Valid() && View() == old(View()).StartLease(bot, op, now)
    {
      busy := busy + {bot};
      leases := leases[bot := Lease(op, now)];
    }

    method Grant(op: Operation, id: nat, index: nat, now: Time)
      requires Valid() && index < |bots|
      modifies `waiters, `exclusions, `changed, `fairCursor, `next, `busy, `leases
      ensures Valid() && View() == old(View()).Grant(op, id, index, now)
    {
      var wasQueued := DequeueAcquireWaiter(op, id);
      if IsFair(op) {
        fairCursor := (FairIndex(op) + 1) % |FAIR_OPERATIONS|;
      }
      next := (index + 1) % |bots|;
      StartLease(bots[index], op, now);
      var others := HasFairWaiters();
      if wasQueued || others {
        Notify();
      }
    }

    /** One pass through the `Acquire` loop. */
    method AcquireIteration(op: Operation, excluded: set<BotId>, id: nat, now: Time) returns (place: nat, verdict: Verdict)
      requires Valid() && seen <= now
      modifies this
      ensures Valid() && seen == now
      ensures Iteration(View(), place, verdict) == AcquireStep(old(View()), op, excluded, id, now)
    {
      ghost var v := View();
      place := id;
      if |bots| == 0 {
        seen := now;
        Withdraw(op, place);
        return 0, NoUsableBot;
      }
      var selection := SelectAvailableBot(excluded, now);
      if selection.eligible == 0 {
        Withdraw(op, place);
        return 0, NoUsableBot;
      }
      place := JoinFairQueue(op, excluded, place);
      if selection.available {
        FirstFreeSpec(v, excluded, now, 0);
        place, verdict := TakeBotIfAllowed(op, place, selection.index, now);
      } else {
        place, verdict := WaitForBusyBot(op, excluded, place, selection.busyEligible, selection.earliest);
      }
    }

    /** A fair call without a place queues up behind fair waiters, if there are any. */
    method JoinFairQueue(op: Operation, excluded: set<BotId>, id: nat) returns (place: nat)
      requires Valid()
      modifies `lastWaiter, `waiters, `exclusions, `changed
      ensures Valid()
      ensures (View(), place) == Joined(old(View()), op, excluded, id)
    {
      place := id;
      var others := HasFairWaiters();
      if place == 0 && IsFair(op) && others {
        place := EnqueueAcquireWaiter(op, excluded);
      }
    }

    method TakeBotIfAllowed(op: Operation, id: nat, index: nat, now: Time) returns (place: nat, verdict: Verdict)
      requires Valid() && seen <= now && index < |bots|
      modifies this
      ensures Valid() && seen == now
      ensures Iteration(View(), place, verdict) == TakeBot(old(View()), op, id, index, now)
    {
      seen := now;
      var allowed := id == 0 || !IsFair(op);
      if !allowed {
        var turn := NextAssignableFairWaiter(now);
        allowed := turn == Some((op, id));
      }
      if !allowed {
        return id, Park(changed, None);
      }
      var bot := bots[index];
      Grant(op, id, index, now);
      place, verdict := 0, Granted(bot);
    }

    method WaitForBusyBot(op: Operation, excluded: set<BotId>, id: nat, busyEligible: bool, earliest: Option<Time>)
      returns (place: nat, verdict: Verdict)
      requires Valid()
      modifies `lastWaiter, `waiters, `exclusions, `changed
      ensures Valid()
      ensures Iteration(View(), place, verdict) == WaitForBot(old(View()), op, excluded, id, busyEligible, earliest)
    {
      place := id;
      if !busyEligible {
        Withdraw(op, place);
        return 0, NoUsableBot;
      }
      if place == 0 {
        place := EnqueueAcquireWaiter(op, excluded);
      }
      verdict := Park(changed, earliest);
    }

    /** One pass through the `AcquireControl` loop. */
    method AcquireControlIteration(bot: BotId, op: Operation, id: nat, now: Time)
      returns (place: nat, verdict: ControlVerdict)
      requires Valid() && seen <= now
      modifies this
      ensures Valid() && seen == now
      ensures ControlIteration(View(), place, verdict) == ControlStep(old(View()), bot, op, id, now)
    {
      seen := now;
      place := id;
      if bot !in bots {
        Dequeue(op, place);
        return 0, ControlFailed;
      }
      if bot in busy {
        if place == 0 {
          place := Enqueue(op);
        }
        return place, ControlPark(changed);
      }
      var cooling, _ := CooldownState(bot, now);
      Dequeue(op, place);
      if cooling {
        return 0, ControlFailed;
      }
      StartLease(bot, op, now);
      place, verdict := 0, ControlGranted;
    }

    /** The body of the release closure; `once` keeps it from running again. */
    method Release(bot: BotId)
      requires Valid()
      modifies `busy, `leases, `controls, `changed
      ensures Valid() && View() == old(View()).ReleaseLease(bot)
    {
      leases := leases - {bot};
      busy := busy - {bot};
      CompleteDrain(bot);
      Notify();
    }

    method CompleteDrain(bot: BotId)
      requires Valid()
      modifies `controls
      ensures Valid()
      ensures View() == old(View()).(controls := old(View()).Drained(bot))
    {
      if bot in controls && controls[bot].draining {
        controls := controls[bot := Control(false, controls[bot].healthy, false)];
      }
    }

    method Cooldown(bot: BotId, duration: int, now: Time)
      requires Valid() && seen <= now
      modifies `cooldown, `horizon, `seen, `changed
      ensures Valid() && View() == old(View()).CoolDown(bot, duration, now) && seen == now
    {
      seen := now;
      if duration <= 0 {
        return;
      }
      var until := now + duration;
      if bot in cooldown && until <= cooldown[bot] {
        return;
      }
      cooldown := cooldown[bot := until];
      horizon := horizon[bot := until];
      Notify();
    }

    method DisableOrDrain(bot: BotId)
      requires Valid()
      modifies `controls, `changed
      ensures Valid() && View() == old(View()).DisableOrDrain(bot)
    {
      if bot !in bots {
        return;
      }
      var c := if bot in controls then controls[bot] else Control(true, true, false);
      if bot in busy {
        if c.draining {
          return;
        }
        controls := controls[bot := c.(draining := true)];
      } else {
        if !c.enabled && !c.draining {
          return;
        }
        controls := controls[bot := c.(enabled := false, draining := false)];
      }
      Notify();
    }

    method Enable(bot: BotId)
      requires Valid()
      modifies `controls, `changed
      ensures Valid() && View() == old(View()).Enable(bot)
    {
      var c := if bot in controls then controls[bot] else Control(true, true, false);
      if bot in bots && !(c.enabled && !c.draining) {
        controls := controls[bot := c.(enabled := true, draining := false)];
        Notify();
      }
    }

    method SetHealthy(bot: BotId, healthy: bool)
      requires Valid()
      modifies `controls, `changed
      ensures Valid() && View() == old(View()).SetHealthy(bot, healthy)
    {
      var c := if bot in controls then controls[bot] else Control(true, true, false);
      if bot in bots && c.healthy != healthy {
        controls := controls[bot := c.(healthy := healthy)];
        Notify();
      }
    }

    /** A bot needs an id and a token, and joins once. */
    method AddBot(bot: BotId, token: string) returns (error: Option<AddError>)
      requires Valid()
      modifies `bots, `controls, `changed
      ensures Valid()
      ensures error == Some(InvalidBotToken) <==> bot == "" || token == ""
      ensures error == Some(DuplicateBotUser) <==> bot != "" && token != "" && bot in old(bots)
      ensures View() == if error.None? then old(View()).AddBot(bot) else old(View())
    {
      if bot == "" || token == "" {
        return Some(InvalidBotToken);
      }
      if bot in bots {
        return Some(DuplicateBotUser);
      }
      error := None;
      bots := bots + [bot];
      controls := controls[bot := Control(true, true, false)];
      Notify();
    }

    method SelectNext(excluded: set<BotId>, now: Time) returns (r: Option<BotId>)
      requires Valid() && seen <= now
      modifies `next, `cooldown, `seen
      ensures Valid() && (View(), r) == old(View()).SelectNext(excluded, now) && seen == now
    {
      ghost var v := View();
      seen := now;
      for i := 0 to |bots|
        invariant Valid() && View() == v && seen == now
        invariant v.NextIgnoringBusy(excluded, now, 0) == v.NextIgnoringBusy(excluded, now, i)
      {
        var index := Rotate(next, i, |bots|);
        var bot := bots[index];
        var eligible := ControlEligible(bot);
        if bot !in excluded && eligible {
          var cooling, _ := CooldownState(bot, now);
          if !cooling {
            next := (index + 1) % |bots|;
            return Some(bot);
          }
        }
      }
      r := None;
    }
  }
}
