/** When the cache answers: a stored URL until its time is up, the last one stored, and nothing once it was deleted. */
module UrlCacheLaws {
  import opened Text
  import opened UrlCacheSpec
  import opened Wrappers

  /** Until when a URL stored at `now` may be handed out: a minute before it expires, or five minutes if that is unknown. */
  function UsableUntil(expiresAt: Option<int>, now: int): int {
    if expiresAt.Some? then expiresAt.value - 60_000_000_000 else now + 300_000_000_000
  }

  predicate Complete(location: Location) {
    location.channel != "" && location.message != "" && location.attachment != ""
  }

  /** The operation stores a URL that can be handed out for a while. */
  predicate Stores(op: Operation, location: Location) {
    && op.DoSet? && op.location == location && Complete(location) && TrimSpace(op.url) != ""
    && (op.expiresAt.Some? ==> op.now < UsableUntil(op.expiresAt, op.now))
  }

  function Stored(op: Operation): Item
    requires op.DoSet?
  {
    Item(op.location, TrimSpace(op.url), op.expiresAt, UsableUntil(op.expiresAt, op.now))
  }

  /** The operation deletes what is cached for the location, or replaces it by nothing usable. */
  predicate Removes(op: Operation, location: Location) {
    match op
    case DoSet(l, url, _, _) => l == location && Complete(l) && TrimSpace(url) != "" && !Stores(op, location)
    case DoDelete(l) => l == location
    case DoDeleteMessage(channel, message) =>
      channel != "" && message != "" && location.channel == channel && location.message == message
    case DoGet(_, _) => false
  }

  lemma StoredIsInFront(max: nat, items: Items, op: Operation)
    requires Invariant(max, items) && max > 0 && op.DoSet? && Stores(op, op.location)
    ensures Step(max, items, op) != [] && Step(max, items, op)[0] == Stored(op) && Invariant(max, Step(max, items, op))
  {
    StepKeepsInvariant(max, items, op);
  }

  /**
   * A URL just stored is handed out, without surrounding spaces, until its time is up and not later, as long as
   * nothing else is done to its location and fewer than `max` others are used.
   */
  lemma StoredIsHandedOut(max: nat, items: Items, op: Operation, ops: seq<Operation>, later: int)
    requires Invariant(max, items) && op.DoSet? && Stores(op, op.location)
    requires (forall o :: o in ops ==> Elsewhere(o, op.location)) && |Touched(ops)| < max
    ensures Get(Run(max, items, [op] + ops), op.location, later).1 ==
      if later < UsableUntil(op.expiresAt, op.now) then Some(Stored(op)) else None
  {
    StoredIsInFront(max, items, op);
    RecentEntriesSurvive(max, Step(max, items, op), ops);
    assert ([op] + ops)[1..] == ops;
  }

  /** A hit counts as use: the entry stays while fewer than `max` other locations are used after it. */
  lemma HitIsKept(max: nat, items: Items, location: Location, now: int, ops: seq<Operation>)
    requires Invariant(max, items) && Get(items, location, now).1.Some?
    requires (forall o :: o in ops ==> Elsewhere(o, location)) && |Touched(ops)| < max
    ensures Find(Run(max, Get(items, location, now).0, ops), location) == Get(items, location, now).1
  {
    FindFacts(items, location);
    StepKeepsInvariant(max, items, DoGet(location, now));
    RecentEntriesSurvive(max, Step(max, items, DoGet(location, now)), ops);
  }

  // ----- The last word on a location -----

  /** Operation `i` stored the item and none after it stored or removed anything for that location. */
  ghost predicate LastStored(ops: seq<Operation>, item: Item, i: int) {
    && 0 <= i < |ops| && ops[i].DoSet? && Stores(ops[i], item.location) && Stored(ops[i]) == item
    && Untouched(ops[i + 1..], item.location)
  }

  predicate Untouched(ops: seq<Operation>, location: Location) {
    forall op :: op in ops ==> !Stores(op, location) && !Removes(op, location)
  }

  lemma StepKeepsOrStores(max: nat, items: Items, op: Operation, item: Item)
    requires item in Step(max, items, op)
    ensures (op.DoSet? && Stores(op, item.location) && Stored(op) == item) ||
      (item in items && !Stores(op, item.location) && !Removes(op, item.location))
  {
    match op
    case DoGet(location, now) =>
      FindFacts(items, location);
      WithoutFacts(items, location);
    case DoSet(location, url, expiresAt, now) => WithoutFacts(items, location);
    case DoDelete(location) => WithoutFacts(items, location);
    case DoDeleteMessage(channel, message) => WithoutMessageFacts(items, channel, message);
  }

  lemma {:induction false} RunKeepsOrStores(max: nat, items: Items, ops: seq<Operation>, item: Item)
    requires item in Run(max, items, ops)
    ensures (item in items && Untouched(ops, item.location)) || exists i :: LastStored(ops, item, i)
    decreases |ops|
  {
    if ops != [] {
      var op, rest := ops[0], ops[1..];
      assert ops == [op] + rest;
      RunKeepsOrStores(max, Step(max, items, op), rest, item);
      if exists i :: LastStored(rest, item, i) {
        var i :| LastStored(rest, item, i);
        assert ops[i + 1 + 1..] == rest[i + 1..];
        assert LastStored(ops, item, i + 1);
      } else {
        StepKeepsOrStores(max, items, op, item);
        if op.DoSet? && Stores(op, item.location) {
          assert LastStored(ops, item, 0);
        }
      }
    }
  }

  /** A hit is the last URL stored for the location, not deleted since, and its time is not up. */
  lemma HitIsTheLastStored(max: nat, ops: seq<Operation>, location: Location, now: int)
    ensures var answer := Get(Run(max, [], ops), location, now).1;
      answer.Some? ==>
        && answer.value.location == location
        && exists i :: LastStored(ops, answer.value, i) && now < UsableUntil(ops[i].expiresAt, ops[i].now)
  {
    var answer := Get(Run(max, [], ops), location, now).1;
    if answer.Some? {
      FindFacts(Run(max, [], ops), location);
      RunKeepsOrStores(max, [], ops, answer.value);
    }
  }

  // ----- The cache without bound -----

  /** The entry was looked up when its time was up, which drops it. */
  predicate Drops(op: Operation, item: Item) {
    op.DoGet? && op.location == item.location && item.validUntil <= op.now
  }

  predicate Undisturbed(ops: seq<Operation>, item: Item) {
    Untouched(ops, item.location) && forall op :: op in ops ==> !Drops(op, item)
  }

  ghost predicate LastUndisturbed(ops: seq<Operation>, item: Item, i: int) {
    LastStored(ops, item, i) && Undisturbed(ops[i + 1..], item)
  }

  predicate At(store: Store, item: Item) {
    item.location in store && store[item.location] == item
  }

  /** A location holds what lies at it. */
  predicate Filed(store: Store) {
    forall l :: l in store ==> store[l].location == l
  }

  lemma StoreStepMeans(store: Store, op: Operation, item: Item)
    requires Filed(store)
    ensures Filed(StoreStep(store, op))
    ensures At(StoreStep(store, op), item) <==>
      (op.DoSet? && Stores(op, item.location) && Stored(op) == item) ||
      (At(store, item) && !Stores(op, item.location) && !Removes(op, item.location) && !Drops(op, item))
  {
  }

  lemma {:induction false} StoreRunMeans(store: Store, ops: seq<Operation>, item: Item)
    requires Filed(store)
    ensures At(StoreRun(store, ops), item) <==>
      (At(store, item) && Undisturbed(ops, item)) || exists i :: LastUndisturbed(ops, item, i)
    decreases |ops|
  {
    if ops != [] {
      var op, rest := ops[0], ops[1..];
      assert ops == [op] + rest;
      StoreStepMeans(store, op, item);
      StoreRunMeans(StoreStep(store, op), rest, item);
      LaterStored(ops, item);
    }
  }

  lemma LaterStored(ops: seq<Operation>, item: Item)
    requires ops != []
    ensures (exists i :: LastUndisturbed(ops, item, i)) <==>
      (exists i :: LastUndisturbed(ops[1..], item, i)) ||
      (ops[0].DoSet? && Stores(ops[0], item.location) && Stored(ops[0]) == item && Undisturbed(ops[1..], item))
  {
    var rest := ops[1..];
    if exists i :: LastUndisturbed(ops, item, i) {
      var i :| LastUndisturbed(ops, item, i);
      if i > 0 {
        assert rest[i - 1 + 1..] == ops[i + 1..];
        assert LastUndisturbed(rest, item, i - 1);
      }
    }
    if exists i :: LastUndisturbed(rest, item, i) {
      var i :| LastUndisturbed(rest, item, i);
      assert ops[i + 1 + 1..] == rest[i + 1..];
      assert LastUndisturbed(ops, item, i + 1);
    }
    if ops[0].DoSet? && Stores(ops[0], item.location) && Stored(ops[0]) == item && Undisturbed(rest, item) {
      assert LastUndisturbed(ops, item, 0);
    }
  }

  /** Without a bound the cache holds exactly what was stored last, not removed since, nor found to be out of date. */
  lemma UnboundedHoldsTheLast(ops: seq<Operation>, item: Item)
    ensures At(StoreRun(map[], ops), item) <==> exists i :: LastUndisturbed(ops, item, i)
  {
    StoreRunMeans(map[], ops, item);
  }
}
