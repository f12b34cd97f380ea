/** Fairness among bots: the ring of bots hands out a free bot before long, whoever asks. */
module SchedulerRotation {
  import opened Arithmetic
  import opened SchedulerRuns
  import opened SchedulerState
  import opened Wrappers

  /** How many places ahead of the ring's position a bot stands. */
  function Ahead(s: State, i: nat): (d: nat)
    requires i < |s.bots|
    ensures d < |s.bots|
  {
    var r := s.next % |s.bots|;
    if i >= r then i - r else i + |s.bots| - r
  }

  /** A rotation by less than a turn, without division. */
  lemma RotateIs(start: nat, k: nat, n: nat)
    requires k < n
    ensures Rotate(start, k, n) == if start % n + k < n then start % n + k else start % n + k - n
  {
    var q, r := start / n, start % n;
    assert start == q * n + r;
    if r + k < n {
      DivModUnique(start + k, n, q, r + k);
    } else {
      assert (q + 1) * n == q * n + n;
      DivModUnique(start + k, n, q + 1, r + k - n);
    }
  }

  /** The bot that is found stands no further ahead than any free bot. */
  lemma {:induction false} FirstIsNearest(s: State, excluded: set<BotId>, now: Time, offset: nat, k: nat) returns (m: nat)
    requires offset <= k < |s.bots| && !NotFreeAt(s, excluded, now, Rotate(s.next, k, |s.bots|))
    ensures offset <= m <= k && s.FirstFree(excluded, now, offset) == Some(Rotate(s.next, m, |s.bots|))
    decreases k - offset
  {
    if NotFreeAt(s, excluded, now, Rotate(s.next, offset, |s.bots|)) {
      m := FirstIsNearest(s, excluded, now, offset + 1, k);
    } else {
      m := offset;
    }
  }

  predicate OnOffer(s: State, excluded: set<BotId>, now: Time, i: nat) {
    i < |s.bots| && !NotFreeAt(s, excluded, now, i)
  }

  /** Handing out another bot brings a bot on offer nearer. */
  lemma ComesNearer(s: State, t: State, excluded: set<BotId>, now: Time, i: nat)
    requires OnOffer(s, excluded, now, i) && t.bots == s.bots
    requires s.FirstFree(excluded, now, 0).Some? && s.FirstFree(excluded, now, 0).value != i
    requires t.next == (s.FirstFree(excluded, now, 0).value + 1) % |s.bots|
    ensures Ahead(t, i) < Ahead(s, i)
  {
    var n := |s.bots|;
    RotateIs(s.next, Ahead(s, i), n);
    var m := FirstIsNearest(s, excluded, now, 0, Ahead(s, i));
    RotateIs(s.next, m, n);
    var j := Rotate(s.next, m, n);
    if j + 1 < n {
      DivModUnique(j + 1, n, 0, j + 1);
      DivModUnique(t.next, n, 0, j + 1);
    } else {
      DivModUnique(j + 1, n, 1, 0);
      DivModUnique(t.next, n, 0, 0);
    }
  }

  // ----- Whole runs -----

  /** An action that neither adds a bot nor turns the ring without leasing. */
  predicate Steady(a: Action) {
    a.Administer? ==> !a.change.AddBot? && !a.change.SelectNext?
  }

  ghost predicate Grants(w: World, a: Action)
    requires Enabled(w, a)
  {
    a.Iterate? && w.calls[a.id].request.Acquiring? && LeasedBy(w, a).Some?
  }

  /** The action hands out another bot while bot `i` was on offer. */
  ghost predicate Passes(w: World, a: Action, i: nat)
    requires Enabled(w, a) && i < |w.s.bots|
  {
    Grants(w, a) && LeasedBy(w, a) != Some(w.s.bots[i]) && OnOffer(w.s, w.calls[a.id].request.excluded, w.clock, i)
  }

  /** The action hands out bot `i`, or another while `i` was not on offer. */
  ghost predicate Misses(w: World, a: Action, i: nat)
    requires Enabled(w, a) && i < |w.s.bots|
  {
    Grants(w, a) && !Passes(w, a, i)
  }

  lemma GrantTurnsRing(s: State, op: Operation, excluded: set<BotId>, id: nat, now: Time)
    ensures var it := AcquireStep(s, op, excluded, id, now);
      && it.state.bots == s.bots
      && if it.verdict.Granted? then
           && s.FirstFree(excluded, now, 0).Some? && s.FirstFree(excluded, now, 0).value < |s.bots|
           && it.verdict.bot == s.bots[s.FirstFree(excluded, now, 0).value]
           && it.state.next == (s.FirstFree(excluded, now, 0).value + 1) % |s.bots|
         else it.state.next == s.next
  {
    if s.HasEligible(excluded) {
      FirstFreeSpec(s, excluded, now, 0);
      var (queued, place) := Joined(s, op, excluded, id);
      assert queued.bots == s.bots && queued.next == s.next;
      match s.FirstFree(excluded, now, 0)
      case Some(index) => TakeTurnsRing(queued, op, place, index, now);
      case None => WaitLeavesRing(queued, op, excluded, place, s.HasBusyEligible(excluded), s.EarliestCooldown(excluded, now));
    }
  }

  lemma TakeTurnsRing(s: State, op: Operation, place: nat, index: nat, now: Time)
    requires index < |s.bots|
    ensures var it := TakeBot(s, op, place, index, now);
      && it.state.bots == s.bots
      && if it.verdict.Granted? then it.verdict.bot == s.bots[index] && it.state.next == (index + 1) % |s.bots|
         else it.state.next == s.next
  {
  }

  lemma WaitLeavesRing(s: State, op: Operation, excluded: set<BotId>, place: nat, busyEligible: bool, earliest: Option<Time>)
    ensures var it := WaitForBot(s, op, excluded, place, busyEligible, earliest);
      !it.verdict.Granted? && it.state.bots == s.bots && it.state.next == s.next
  {
  }

  lemma ControlLeavesRing(s: State, bot: BotId, op: Operation, id: nat, now: Time)
    ensures ControlStep(s, bot, op, id, now).state.bots == s.bots && ControlStep(s, bot, op, id, now).state.next == s.next
  {
    QueuesLeaveRing(s, op, id);
    if bot in s.bots && bot !in s.busy && !s.Cooling(bot, now) {
      LeaseLeavesRing(s.Dequeue(op, id), bot, op, now);
    }
  }

  lemma QueuesLeaveRing(s: State, op: Operation, id: nat)
    ensures s.Dequeue(op, id).bots == s.bots && s.Dequeue(op, id).next == s.next
    ensures s.Enqueue(op).bots == s.bots && s.Enqueue(op).next == s.next
  {
  }

  lemma LeaseLeavesRing(s: State, bot: BotId, op: Operation, now: Time)
    ensures s.StartLease(bot, op, now).bots == s.bots && s.StartLease(bot, op, now).next == s.next
  {
  }

  lemma ChangeLeavesRing(s: State, change: Change, now: Time)
    requires !change.AddBot? && !change.SelectNext?
    ensures ChangeStep(s, change, now).bots == s.bots && ChangeStep(s, change, now).next == s.next
  {
  }

  /** Only grants turn the ring. */
  lemma RingStays(w: World, a: Action)
    requires Enabled(w, a) && Steady(a)
    ensures Apply(w, a).s.bots == w.s.bots
    ensures !Grants(w, a) ==> Apply(w, a).s.next == w.s.next
  {
    match a {
      case Iterate(id) =>
        var c := w.calls[id];
        if c.request.Acquiring? {
          GrantTurnsRing(w.s, c.op, c.request.excluded, c.place, w.clock);
        } else {
          ControlLeavesRing(w.s, c.request.bot, c.op, c.place, w.clock);
        }
      case Administer(change) => ChangeLeavesRing(w.s, change, w.clock);
      case _ =>
    }
  }

  lemma PassBringsNearer(w: World, a: Action, i: nat)
    requires Enabled(w, a) && Steady(a) && i < |w.s.bots| && Passes(w, a, i)
    ensures Apply(w, a).s.bots == w.s.bots && Ahead(Apply(w, a).s, i) < Ahead(w.s, i)
  {
    var c := w.calls[a.id];
    GrantTurnsRing(w.s, c.op, c.request.excluded, c.place, w.clock);
    ComesNearer(w.s, Apply(w, a).s, c.request.excluded, w.clock, i);
  }

  lemma BudgetStep(w: World, a: Action, i: nat)
    requires Enabled(w, a) && Steady(a) && i < |w.s.bots|
    ensures Apply(w, a).s.bots == w.s.bots
    ensures Ahead(Apply(w, a).s, i) + (if Passes(w, a, i) then 1 else 0)
         <= Ahead(w.s, i) + (if Misses(w, a, i) then |w.s.bots| - 1 else 0)
  {
    RingStays(w, a);
    if Passes(w, a, i) {
      PassBringsNearer(w, a, i);
    }
  }

  ghost function CountPasses(w: World, actions: seq<Action>, i: nat): nat
    requires CanRun(w, actions) && i < |w.s.bots| && AllSteady(actions)
    decreases |actions|
  {
    if actions == [] then 0
    else
      RingStays(w, actions[0]);
      (if Passes(w, actions[0], i) then 1 else 0) + CountPasses(Apply(w, actions[0]), actions[1..], i)
  }

  ghost function CountMisses(w: World, actions: seq<Action>, i: nat): nat
    requires CanRun(w, actions) && i < |w.s.bots| && AllSteady(actions)
    decreases |actions|
  {
    if actions == [] then 0
    else
      RingStays(w, actions[0]);
      (if Misses(w, actions[0], i) then 1 else 0) + CountMisses(Apply(w, actions[0]), actions[1..], i)
  }

  predicate AllSteady(actions: seq<Action>) {
    forall i :: 0 <= i < |actions| ==> Steady(actions[i])
  }

  /** Along every run without changes to the ring, passes over a bot are paid for by its distance and by misses. */
  lemma {:induction false} TurnBudget(w: World, actions: seq<Action>, i: nat)
    requires CanRun(w, actions) && i < |w.s.bots| && AllSteady(actions)
    ensures CountPasses(w, actions, i) <= Ahead(w.s, i) + (|w.s.bots| - 1) * CountMisses(w, actions, i)
    decreases |actions|
  {
    if actions != [] {
      var v := Apply(w, actions[0]);
      BudgetStep(w, actions[0], i);
      TurnBudget(v, actions[1..], i);
      if Misses(w, actions[0], i) {
        Distribute(|w.s.bots| - 1, CountMisses(v, actions[1..], i));
      }
    }
  }

  lemma Distribute(a: int, b: int)
    ensures a * (1 + b) == a + a * b
  {
  }

  /** A bot on offer at every grant is handed out after at most as many grants as there are other bots. */
  lemma EveryBotGetsItsTurn(w: World, actions: seq<Action>, i: nat)
    requires CanRun(w, actions) && i < |w.s.bots| && AllSteady(actions)
    requires CountMisses(w, actions, i) == 0
    ensures CountPasses(w, actions, i) <= |w.s.bots| - 1
  {
    TurnBudget(w, actions, i);
  }
}
