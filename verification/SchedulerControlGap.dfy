/** The one step that can lose a wake-up: a control lease starts without a broadcast. */
module SchedulerControlGap {
  import opened Arithmetic
  import opened SchedulerRuns
  import opened SchedulerState
  import opened SchedulerWakeups
  import opened Wrappers

  const FLEET: seq<BotId> := ["a", "b"]
  const IN_SERVICE: map<BotId, Control> := map["a" := Control(true, true, false), "b" := Control(true, true, false)]
  const PROBE := Other("probe")

  /** `b` is the next bot, uploads have just been served, nothing is cooling. */
  function At(busy: set<BotId>, leases: map<BotId, Lease>, waiters: map<Operation, set<nat>>,
              exclusions: map<nat, set<BotId>>, lastWaiter: nat, changed: nat): State {
    State(FLEET, 1, 1, map[], busy, IN_SERVICE, leases, waiters, exclusions, lastWaiter, changed)
  }

  const OnlyA := Call(Acquiring({"b"}), Upload, 1, Parked(1, None))
  const Either := Call(Acquiring({}), Upload, 2, Parked(3, None))
  const Probe := Call(Controlling("a"), PROBE, 0, Finished)
  const First := Call(Acquiring({}), Upload, 0, Finished)
  const UploadOnA := map["a" := Lease(Upload, 0)]

  const W1 := World(At({"a"}, UploadOnA, map[], map[], 0, 0), 0, map[0 := First], map[0 := "a"], 1)
  const W2 := World(At({"a"}, UploadOnA, map[Upload := {1}], map[1 := {"b"}], 1, 1), 0,
                    map[0 := First, 1 := OnlyA], map[0 := "a"], 1)
  const W3 := World(At({}, map[], map[Upload := {1}], map[1 := {"b"}], 1, 2), 0,
                    map[0 := First, 1 := OnlyA], map[], 1)
  const W4 := World(At({}, map[], map[Upload := {1, 2}], map[1 := {"b"}, 2 := {}], 2, 3), 0,
                    map[0 := First, 1 := OnlyA, 2 := Either], map[], 1)
  const W5 := World(At({"a"}, map["a" := Lease(PROBE, 0)], map[Upload := {1, 2}], map[1 := {"b"}, 2 := {}], 2, 3), 0,
                    map[0 := First, 1 := OnlyA, 2 := Either, 3 := Probe], map[1 := "a"], 2)

  ghost function Started(w: World, id: nat, request: Request, op: Operation): World
    requires id !in w.calls
  {
    Apply(w, Begin(id, request, op))
  }

  /** A call starts and makes its first pass. */
  function Pass(id: nat, request: Request, op: Operation): seq<Action> {
    [Begin(id, request, op), Iterate(id)]
  }

  ghost predicate Leads(w: World, actions: seq<Action>, v: World) {
    CanRun(w, actions) && Run(w, actions) == v
  }

  lemma OneStep(w: World, a: Action, v: World)
    requires Enabled(w, a) && Apply(w, a) == v
    ensures Leads(w, [a], v)
  {
    assert [a][1..] == [];
  }

  lemma {:induction false} Joined(w: World, first: seq<Action>, v: World, second: seq<Action>, u: World)
    requires Leads(w, first, v) && Leads(v, second, u)
    ensures Leads(w, first + second, u)
    decreases |first|
  {
    if first == [] {
      assert first + second == second;
    } else {
      Joined(Apply(w, first[0]), first[1..], v, second, u);
      assert (first + second)[1..] == first[1..] + second;
    }
  }

  lemma OnePass(w: World, v: World, id: nat, request: Request, op: Operation)
    requires id !in w.calls
    requires var begun := Started(w, id, request, op); Enabled(begun, Iterate(id)) && Apply(begun, Iterate(id)) == v
    ensures Leads(w, Pass(id, request, op), v)
  {
    var begun := Started(w, id, request, op);
    OneStep(w, Begin(id, request, op), begun);
    OneStep(begun, Iterate(id), v);
    Joined(w, [Begin(id, request, op)], begun, [Iterate(id)], v);
  }

  lemma FirstUploadTakesA()
    ensures Leads(Init(FLEET), Pass(0, Acquiring({}), Upload), W1)
  {
    var w := Started(Init(FLEET), 0, Acquiring({}), Upload);
    assert w.s.controls == IN_SERVICE;
    assert w.s.bots[0] == "a" && w.s.Free("a", 0);
    assert w.s.HasEligible({});
    assert w.s.FirstFree({}, 0, 0) == Some(0);
    assert !w.s.HasFairWaiters();
    assert w.s.DequeueAcquire(Upload, 0) == w.s;
    assert StateAfter(w, w.calls[0]) == W1.s;
    OnePass(Init(FLEET), W1, 0, Acquiring({}), Upload);
  }

  lemma OnlyBusyAIsLeft(s: State)
    requires s == W1.s
    ensures s.HasEligible({"b"}) && s.HasBusyEligible({"b"}) && !s.HasFairWaiters()
    ensures s.FirstFree({"b"}, 0, 0) == None && s.EarliestCooldown({"b"}, 0) == None
  {
    assert "a" in s.bots && s.Eligible("a") && "a" in s.busy;
    FirstFreeIffUsable(s, {"b"}, 0);
    assert s.CooldownEnds({"b"}, 0) == {};
  }

  lemma SecondUploadQueues()
    ensures W1.s.EnqueueAcquire(Upload, {"b"}) == W2.s
  {
    assert {} + {1} == {1};
    assert W1.s.EnqueueAcquire(Upload, {"b"}).waiters == map[Upload := {1}];
  }

  lemma UploadWithoutB()
    ensures AcquireStep(W1.s, Upload, {"b"}, 0, 0) == Iteration(W2.s, 1, Park(1, None))
  {
    OnlyBusyAIsLeft(W1.s);
    SecondUploadQueues();
  }

  /** A fresh call that parks at its first pass. */
  lemma ParkingStep(w: World, v: World, id: nat, excluded: set<BotId>, op: Operation, it: Iteration)
    requires id !in w.calls && it.verdict.Park?
    requires AcquireStep(w.s, op, excluded, 0, w.clock) == it
    requires v == w.(s := it.state, calls := w.calls[
      id := Call(Acquiring(excluded), op, it.waiter, Parked(it.verdict.generation, it.verdict.timer))])
    ensures Leads(w, Pass(id, Acquiring(excluded), op), v)
  {
    var begun := Started(w, id, Acquiring(excluded), op);
    var c := begun.calls[id];
    assert StepOf(begun, c) == it;
    assert begun.calls[id := CallAfter(begun, c)] == v.calls;
    OnePass(w, v, id, Acquiring(excluded), op);
  }

  lemma SecondUploadWaitsForA()
    ensures Leads(W1, Pass(1, Acquiring({"b"}), Upload), W2)
  {
    UploadWithoutB();
    ParkingStep(W1, W2, 1, {"b"}, Upload, Iteration(W2.s, 1, Park(1, None)));
  }

  lemma ReleaseWakesOnlyA()
    ensures Leads(W2, [Release(0)], W3)
  {
    assert W2.s.ReleaseLease("a") == W3.s;
    OneStep(W2, Release(0), W3);
  }

  lemma ThirdUploadJoinsTheQueue()
    ensures W3.s.EnqueueAcquire(Upload, {}) == W4.s
  {
    assert {1} + {2} == {1, 2};
    assert W3.s.EnqueueAcquire(Upload, {}).waiters == map[Upload := {1, 2}];
    assert W3.s.EnqueueAcquire(Upload, {}).exclusions == map[1 := {"b"}, 2 := {}];
  }

  lemma TurnBelongsToTheFirst()
    ensures W4.s.NextFair(0, 0) == Some((Upload, 1))
  {
    assert "a" in W4.s.bots && W4.s.Free("a", 0);
    assert W4.s.Assignable(1, 0) && QueuedFair(W4.s, (Upload, 1));
    NextFairSpec(W4.s, 0);
  }

  lemma UploadBehindAnother()
    ensures AcquireStep(W3.s, Upload, {}, 0, 0) == Iteration(W4.s, 2, Park(3, None))
  {
    var s := W3.s;
    ThirdUploadJoinsTheQueue();
    TurnBelongsToTheFirst();
    assert s.bots[1] == "b" && s.Free("b", 0);
    assert s.HasEligible({});
    assert s.Queue(Upload) != {} && s.HasFairWaiters();
    assert Rotate(s.next, 0, |s.bots|) == 1;
    assert s.FirstFree({}, 0, 0) == Some(1);
  }

  lemma ThirdUploadYields()
    ensures Leads(W3, Pass(2, Acquiring({}), Upload), W4)
  {
    UploadBehindAnother();
    ParkingStep(W3, W4, 2, {}, Upload, Iteration(W4.s, 2, Park(3, None)));
  }

  lemma ProbeTakesA()
    ensures Leads(W4, Pass(3, Controlling("a"), PROBE), W5)
  {
    var w := Started(W4, 3, Controlling("a"), PROBE);
    assert "a" in w.s.bots;
    OnePass(W4, W5, 3, Controlling("a"), PROBE);
  }

  const UntilRelease := Pass(0, Acquiring({}), Upload) + Pass(1, Acquiring({"b"}), Upload)
  const Meanwhile := Pass(2, Acquiring({}), Upload) + Pass(3, Controlling("a"), PROBE)
  const GapRun := UntilRelease + ([Release(0)] + Meanwhile)

  lemma TurnIsAsleep()
    ensures W5.s.NextFair(W5.clock, 0) == Some((Upload, 2)) && Asleep(W5, 2) && !TurnIsAwake(W5)
  {
    TurnPassesToTheSecond();
  }

  lemma TurnPassesToTheSecond()
    ensures W5.s.NextFair(0, 0) == Some((Upload, 2))
  {
    assert "b" in W5.s.bots && W5.s.Free("b", 0);
    assert W5.s.Assignable(2, 0) && !W5.s.Assignable(1, 0);
    assert QueuedFair(W5.s, (Upload, 2));
    NextFairSpec(W5.s, 0);
  }

  lemma TwoUploads()
    ensures Leads(Init(FLEET), UntilRelease, W2)
  {
    FirstUploadTakesA();
    SecondUploadWaitsForA();
    Joined(Init(FLEET), Pass(0, Acquiring({}), Upload), W1, Pass(1, Acquiring({"b"}), Upload), W2);
  }

  lemma ThirdUploadThenProbe()
    ensures Leads(W3, Meanwhile, W5)
  {
    ThirdUploadYields();
    ProbeTakesA();
    Joined(W3, Pass(2, Acquiring({}), Upload), W4, Pass(3, Controlling("a"), PROBE), W5);
  }

  lemma TheRunHappens()
    ensures Leads(Init(FLEET), GapRun, W5)
  {
    TwoUploads();
    ReleaseWakesOnlyA();
    ThirdUploadThenProbe();
    Joined(W2, [Release(0)], W3, Meanwhile, W5);
    Joined(Init(FLEET), UntilRelease, W2, [Release(0)] + Meanwhile, W5);
  }

  /** After that run upload 2 could use `b`, it is its turn, and nothing will wake it. */
  lemma ControlLeaseLosesWakeup()
    ensures CanRun(Init(FLEET), GapRun)
    ensures var w := Run(Init(FLEET), GapRun);
      w.s.NextFair(w.clock, 0) == Some((Upload, 2)) && Asleep(w, 2) && !TurnIsAwake(w)
  {
    TheRunHappens();
    TurnIsAsleep();
  }

  // ----- A lease that is harmless at first -----

  // The same queue, but `b` is cooling when the probe takes `a`: nobody could use it then, only later.

  const COOLING: map<BotId, Time> := map["b" := 10]
  const EitherLater := Call(Acquiring({}), Upload, 2, Parked(4, None))

  const K3 := World(At({"a"}, UploadOnA, map[Upload := {1}], map[1 := {"b"}], 1, 2).(cooldown := COOLING), 0,
                    map[0 := First, 1 := OnlyA], map[0 := "a"], 1)
  const K4 := World(At({}, map[], map[Upload := {1}], map[1 := {"b"}], 1, 3).(cooldown := COOLING), 0,
                    map[0 := First, 1 := OnlyA], map[], 1)
  const K5 := World(At({}, map[], map[Upload := {1, 2}], map[1 := {"b"}, 2 := {}], 2, 4).(cooldown := COOLING), 0,
                    map[0 := First, 1 := OnlyA, 2 := EitherLater], map[], 1)
  const K6 := World(At({"a"}, map["a" := Lease(PROBE, 0)], map[Upload := {1, 2}], map[1 := {"b"}, 2 := {}], 2, 4)
                      .(cooldown := COOLING), 0,
                    map[0 := First, 1 := OnlyA, 2 := EitherLater, 3 := Probe], map[1 := "a"], 2)

  const CoolRun := UntilRelease + ([Administer(CoolDown("b", 10))] + ([Release(0)] + Meanwhile))

  lemma BotBCools()
    ensures Leads(W2, [Administer(CoolDown("b", 10))], K3)
  {
    OneStep(W2, Administer(CoolDown("b", 10)), K3);
  }

  lemma ReleaseOfA()
    ensures Leads(K3, [Release(0)], K4)
  {
    assert K3.s.ReleaseLease("a") == K4.s;
    OneStep(K3, Release(0), K4);
  }

  lemma ThirdUploadQueuesCooling()
    ensures K4.s.EnqueueAcquire(Upload, {}) == K5.s
  {
    assert {1} + {2} == {1, 2};
    assert K4.s.EnqueueAcquire(Upload, {}).waiters == map[Upload := {1, 2}];
    assert K4.s.EnqueueAcquire(Upload, {}).exclusions == map[1 := {"b"}, 2 := {}];
  }

  lemma TurnOfTheFirst()
    ensures K5.s.NextFair(0, 0) == Some((Upload, 1))
  {
    assert "a" in K5.s.bots && K5.s.Free("a", 0);
    assert K5.s.Assignable(1, 0) && QueuedFair(K5.s, (Upload, 1));
    NextFairSpec(K5.s, 0);
  }

  lemma OnlyAIsFree(s: State)
    requires s == K4.s
    ensures s.HasEligible({}) && s.HasFairWaiters()
    ensures s.FirstFree({}, 0, 0) == Some(0)
  {
    assert s.bots[0] == "a" && s.Free("a", 0);
    assert s.bots[1] == "b" && !s.Free("b", 0);
    assert s.Queue(Upload) != {};
    assert Rotate(s.next, 0, |s.bots|) == 1 && Rotate(s.next, 1, |s.bots|) == 0;
    assert s.FirstFree({}, 0, 0) == s.FirstFree({}, 0, 1) == Some(0);
  }

  lemma UploadBehindCooling()
    ensures AcquireStep(K4.s, Upload, {}, 0, 0) == Iteration(K5.s, 2, Park(4, None))
  {
    OnlyAIsFree(K4.s);
    ThirdUploadQueuesCooling();
    TurnOfTheFirst();
  }

  lemma ThirdUploadYieldsCooling()
    ensures Leads(K4, Pass(2, Acquiring({}), Upload), K5)
  {
    UploadBehindCooling();
    ParkingStep(K4, K5, 2, {}, Upload, Iteration(K5.s, 2, Park(4, None)));
  }

  lemma ProbeTakesACooling()
    ensures Leads(K5, Pass(3, Controlling("a"), PROBE), K6)
  {
    var w := Started(K5, 3, Controlling("a"), PROBE);
    assert "a" in w.s.bots;
    OnePass(K5, K6, 3, Controlling("a"), PROBE);
  }

  lemma ThirdUploadThenProbeCooling()
    ensures Leads(K4, Meanwhile, K6)
  {
    ThirdUploadYieldsCooling();
    ProbeTakesACooling();
    Joined(K4, Pass(2, Acquiring({}), Upload), K5, Pass(3, Controlling("a"), PROBE), K6);
  }

  lemma FromTheRelease()
    ensures Leads(K3, [Release(0)] + Meanwhile, K6)
  {
    ReleaseOfA();
    ThirdUploadThenProbeCooling();
    Joined(K3, [Release(0)], K4, Meanwhile, K6);
  }

  lemma CoolRunHappens()
    ensures Leads(Init(FLEET), CoolRun, K6)
  {
    TwoUploads();
    BotBCools();
    FromTheRelease();
    Joined(W2, [Administer(CoolDown("b", 10))], K3, [Release(0)] + Meanwhile, K6);
    Joined(Init(FLEET), UntilRelease, W2, [Administer(CoolDown("b", 10))] + ([Release(0)] + Meanwhile), K6);
  }

  lemma NobodyHasTheTurn()
    ensures K6.s.NextFair(0, 0) == None
  {
    assert forall b :: b in K6.s.bots ==> !K6.s.Free(b, 0);
    NextFairSpec(K6.s, 0);
  }

  lemma ThenTheSecondHasIt()
    ensures K6.s.NextFair(10, 0) == Some((Upload, 2))
  {
    assert "b" in K6.s.bots && K6.s.Free("b", 10);
    assert K6.s.Assignable(2, 10) && !K6.s.Assignable(1, 10);
    assert QueuedFair(K6.s, (Upload, 2));
    NextFairSpec(K6.s, 10);
  }

  /**
   * After this run nobody has the turn, so no one is owed a wake-up; but when `b` has cooled down the turn is
   * upload 2's, which could use it, and nothing wakes it.
   */
  lemma CooldownLosesWakeup()
    ensures CanRun(Init(FLEET), CoolRun)
    ensures var w := Run(Init(FLEET), CoolRun);
      && TurnIsAwake(w)
      && Later(w, 10).s.NextFair(10, 0) == Some((Upload, 2)) && !TurnIsAwake(Later(w, 10))
  {
    CoolRunHappens();
    NobodyHasTheTurn();
    AsleepWhenCooled();
  }

  lemma AsleepWhenCooled()
    ensures Later(K6, 10).s.NextFair(10, 0) == Some((Upload, 2)) && !TurnIsAwake(Later(K6, 10))
  {
    ThenTheSecondHasIt();
    SecondNotWoken();
  }

  lemma SecondNotWoken()
    ensures !AwakeAlready(Later(K6, 10), (Upload, 2))
  {
    forall id
      ensures IsCallOf(Later(K6, 10), id, (Upload, 2)) ==> id == 2
    {
    }
    assert !Due(Later(K6, 10), EitherLater.phase);
  }
}
