/** The cache of attachment URLs as a recency-ordered list of entries, and what it promises over whole runs. */
module UrlCacheSpec {
  import opened Text
  import opened Wrappers

  /** Times and durations in nanoseconds. */
  const MINUTE: int := 60_000_000_000
  const SAFETY_WINDOW: int := MINUTE
  const FALLBACK_TTL: int := 5 * MINUTE

  datatype Location = Location(channel: string, message: string, attachment: string)

  /** A cached URL; an unknown expiry is `None`. */
  datatype Item = Item(location: Location, url: string, expiresAt: Option<int>, validUntil: int)

  type Items = seq<Item>

  // ----- Operations, most recent entry first -----

  function Find(items: Items, location: Location): Option<Item> {
    if items == [] then None
    else if items[0].location == location then Some(items[0])
    else Find(items[1..], location)
  }

  function Without(items: Items, location: Location): Items {
    if items == [] then []
    else if items[0].location == location then Without(items[1..], location)
    else [items[0]] + Without(items[1..], location)
  }

  function Get(items: Items, location: Location, now: int): (Items, Option<Item>) {
    match Find(items, location)
    case None => (items, None)
    case Some(item) =>
      if now >= item.validUntil then (Without(items, location), None)
      else ([item] + Without(items, location), Some(item))
  }

  function ValidUntil(expiresAt: Option<int>, now: int): int {
    match expiresAt
    case None => now + FALLBACK_TTL
    case Some(e) => e - SAFETY_WINDOW
  }

  predicate Cacheable(location: Location, url: string) {
    location.channel != "" && location.message != "" && location.attachment != "" && TrimSpace(url) != ""
  }

  function Truncate(items: Items, max: nat): Items {
    if |items| > max then items[..max] else items
  }

  function Set(max: nat, items: Items, location: Location, url: string, expiresAt: Option<int>, now: int): Items {
    var item := Item(location, TrimSpace(url), expiresAt, ValidUntil(expiresAt, now));
    if !Cacheable(location, url) then items
    else if expiresAt.Some? && item.validUntil <= now then Without(items, location)
    else Truncate([item] + Without(items, location), max)
  }

  function WithoutMessage(items: Items, channel: string, message: string): Items {
    if items == [] then []
    else if items[0].location.channel == channel && items[0].location.message == message then
      WithoutMessage(items[1..], channel, message)
    else [items[0]] + WithoutMessage(items[1..], channel, message)
  }

  function DeleteMessage(items: Items, channel: string, message: string): Items {
    if channel == "" || message == "" then items else WithoutMessage(items, channel, message)
  }

  // ----- Runs -----

  datatype Operation =
    | DoGet(location: Location, now: int)
    | DoSet(location: Location, url: string, expiresAt: Option<int>, now: int)
    | DoDelete(location: Location)
    | DoDeleteMessage(channel: string, message: string)

  function Step(max: nat, items: Items, op: Operation): Items {
    match op
    case DoGet(location, now) => Get(items, location, now).0
    case DoSet(location, url, expiresAt, now) => Set(max, items, location, url, expiresAt, now)
    case DoDelete(location) => Without(items, location)
    case DoDeleteMessage(channel, message) => DeleteMessage(items, channel, message)
  }

  function Run(max: nat, items: Items, ops: seq<Operation>): Items
    decreases |ops|
  {
    if ops == [] then items else Run(max, Step(max, items, ops[0]), ops[1..])
  }

  predicate Distinct(items: Items) {
    forall i, j :: 0 <= i < j < |items| ==> items[i].location != items[j].location
  }

  predicate SafelyDated(item: Item) {
    item.expiresAt.Some? ==> item.validUntil == item.expiresAt.value - SAFETY_WINDOW
  }

  predicate Invariant(max: nat, items: Items) {
    Distinct(items) && |items| <= max && forall item :: item in items ==> SafelyDated(item)
  }

  lemma {:induction false} WithoutKeeps(items: Items, location: Location)
    ensures forall item :: item in Without(items, location) <==> item in items && item.location != location
    ensures |Without(items, location)| <= |items|
  {
    if items != [] {
      WithoutKeeps(items[1..], location);
      assert items == [items[0]] + items[1..];
    }
  }

  lemma {:induction false} WithoutFacts(items: Items, location: Location)
    ensures forall item :: item in Without(items, location) <==> item in items && item.location != location
    ensures |Without(items, location)| <= |items|
    ensures Find(items, location).Some? ==> |Without(items, location)| < |items|
    ensures Distinct(items) ==> Distinct(Without(items, location))
  {
    WithoutKeeps(items, location);
    if items != [] {
      var kept := Without(items[1..], location);
      WithoutFacts(items[1..], location);
      WithoutKeeps(items[1..], location);
      if Distinct(items) {
        forall j | 0 <= j < |kept|
          ensures kept[j].location != items[0].location
        {
          assert kept[j] in kept && kept[j] in items[1..];
        }
      }
    }
  }

  lemma {:induction false} FindFacts(items: Items, location: Location)
    ensures Find(items, location).Some? ==>
      Find(items, location).value in items && Find(items, location).value.location == location
    ensures Find(items, location).None? ==> forall item :: item in items ==> item.location != location
  {
    if items != [] && items[0].location != location {
      FindFacts(items[1..], location);
      assert items == [items[0]] + items[1..];
    }
  }

  lemma {:induction false} WithoutMessageFacts(items: Items, channel: string, message: string)
    ensures forall item :: item in WithoutMessage(items, channel, message) <==>
      item in items && !(item.location.channel == channel && item.location.message == message)
    ensures |WithoutMessage(items, channel, message)| <= |items|
    ensures Distinct(items) ==> Distinct(WithoutMessage(items, channel, message))
  {
    if items != [] {
      WithoutMessageFacts(items[1..], channel, message);
      assert items == [items[0]] + items[1..];
      var kept := WithoutMessage(items[1..], channel, message);
      if Distinct(items) {
        forall j | 0 <= j < |kept|
          ensures kept[j].location != items[0].location
        {
          assert kept[j] in kept && kept[j] in items[1..];
        }
      }
    }
  }

  /** Putting an entry in front of the others keeps locations distinct. */
  lemma FrontFacts(items: Items, item: Item)
    requires Distinct(items)
    ensures Distinct([item] + Without(items, item.location))
  {
    WithoutFacts(items, item.location);
    var kept := Without(items, item.location);
    assert forall i :: 0 <= i < |kept| ==> kept[i] in kept;
  }

  lemma StepKeepsInvariant(max: nat, items: Items, op: Operation)
    requires Invariant(max, items)
    ensures Invariant(max, Step(max, items, op))
  {
    match op {
      case DoGet(location, now) =>
        FindFacts(items, location);
        WithoutFacts(items, location);
        if Find(items, location).Some? {
          FrontFacts(items, Find(items, location).value);
        }
      case DoSet(location, url, expiresAt, now) =>
        WithoutFacts(items, location);
        FrontFacts(items, Item(location, TrimSpace(url), expiresAt, ValidUntil(expiresAt, now)));
      case DoDelete(location) => WithoutFacts(items, location);
      case DoDeleteMessage(channel, message) => WithoutMessageFacts(items, channel, message);
    }
  }

  lemma {:induction false} RunKeepsInvariant(max: nat, items: Items, ops: seq<Operation>)
    requires Invariant(max, items)
    ensures Invariant(max, Run(max, items, ops))
    decreases |ops|
  {
    if ops != [] {
      StepKeepsInvariant(max, items, ops[0]);
      RunKeepsInvariant(max, Step(max, items, ops[0]), ops[1..]);
    }
  }

  /** After any run a URL handed out with a known expiry has more than the safety window left. */
  lemma HandedOutUrlsAreSafe(max: nat, ops: seq<Operation>, location: Location, now: int)
    ensures var answer := Get(Run(max, [], ops), location, now).1;
      answer.Some? && answer.value.expiresAt.Some? ==> now + SAFETY_WINDOW < answer.value.expiresAt.value
  {
    RunKeepsInvariant(max, [], ops);
    FindFacts(Run(max, [], ops), location);
  }

  // ----- Coherence with a cache without bound -----

  type Store = map<Location, Item>

  /** The same operations on a cache that never evicts. */
  function StoreStep(store: Store, op: Operation): Store {
    match op
    case DoGet(location, now) =>
      if location in store && now >= store[location].validUntil then store - {location} else store
    case DoSet(location, url, expiresAt, now) =>
      if !Cacheable(location, url) then store
      else if expiresAt.Some? && ValidUntil(expiresAt, now) <= now then store - {location}
      else store[location := Item(location, TrimSpace(url), expiresAt, ValidUntil(expiresAt, now))]
    case DoDelete(location) => store - {location}
    case DoDeleteMessage(channel, message) =>
      if channel == "" || message == "" then store
      else map k | k in store && !(k.channel == channel && k.message == message) :: store[k]
  }

  function StoreRun(store: Store, ops: seq<Operation>): Store
    decreases |ops|
  {
    if ops == [] then store else StoreRun(StoreStep(store, ops[0]), ops[1..])
  }

  predicate Within(items: Items, store: Store) {
    forall item :: item in items ==> item.location in store && store[item.location] == item
  }

  lemma StepCoherent(max: nat, items: Items, store: Store, op: Operation)
    requires Within(items, store)
    ensures Within(Step(max, items, op), StoreStep(store, op))
  {
    match op {
      case DoGet(location, now) =>
        FindFacts(items, location);
        WithoutFacts(items, location);
      case DoSet(location, url, expiresAt, now) => WithoutFacts(items, location);
      case DoDelete(location) => WithoutFacts(items, location);
      case DoDeleteMessage(channel, message) => WithoutMessageFacts(items, channel, message);
    }
  }

  /** Eviction only forgets: whatever the bounded cache holds, the unbounded one holds with the same content. */
  lemma {:induction false} RunCoherent(max: nat, items: Items, store: Store, ops: seq<Operation>)
    requires Within(items, store)
    ensures Within(Run(max, items, ops), StoreRun(store, ops))
    decreases |ops|
  {
    if ops != [] {
      StepCoherent(max, items, store, ops[0]);
      RunCoherent(max, Step(max, items, ops[0]), StoreStep(store, ops[0]), ops[1..]);
    }
  }

  /** A hit answers exactly what the unbounded cache would answer. */
  lemma HitsAreCorrect(max: nat, ops: seq<Operation>, location: Location, now: int)
    ensures var answer := Get(Run(max, [], ops), location, now).1;
      answer.Some? ==>
        location in StoreRun(map[], ops) && StoreRun(map[], ops)[location] == answer.value && now < answer.value.validUntil
  {
    RunCoherent(max, [], map[], ops);
    FindFacts(Run(max, [], ops), location);
  }

  // ----- Survival -----

  /** `item` is in the list and everything before it lies at one of the given locations. */
  ghost predicate Placed(items: Items, item: Item, before: set<Location>) {
    exists i :: PlacedAt(items, item, before, i)
  }

  predicate PlacedAt(items: Items, item: Item, before: set<Location>, i: int) {
    0 <= i < |items| && items[i] == item && forall j :: 0 <= j < i ==> items[j].location in before
  }

  /** Operations on other locations do not disturb an entry. */
  predicate Elsewhere(op: Operation, location: Location) {
    match op
    case DoDeleteMessage(channel, message) => !(location.channel == channel && location.message == message)
    case _ => op.location != location
  }

  /** The locations looked up or stored by the operations. */
  function Touched(ops: seq<Operation>): set<Location> {
    if ops == [] then {} else TouchedBy(ops[0]) + Touched(ops[1..])
  }

  function TouchedBy(op: Operation): set<Location> {
    if op.DoGet? || op.DoSet? then {op.location} else {}
  }

  /** The position of an entry is at most the number of locations that may precede it. */
  lemma {:induction false} FewBefore(items: Items, before: set<Location>, i: nat)
    requires Distinct(items) && i <= |items| && forall j :: 0 <= j < i ==> items[j].location in before
    ensures i <= |before|
    decreases i
  {
    if i > 0 {
      var last := items[i - 1].location;
      FewBefore(items, before - {last}, i - 1);
    }
  }

  lemma {:induction false} PlacedWithout(items: Items, item: Item, before: set<Location>, other: Location)
    requires Placed(items, item, before) && item.location != other
    ensures Placed(Without(items, other), item, before)
  {
    var i :| PlacedAt(items, item, before, i);
    if items[0].location == other {
      assert PlacedAt(items[1..], item, before, i - 1);
      PlacedWithout(items[1..], item, before, other);
    } else if i == 0 {
      assert PlacedAt(Without(items, other), item, before, 0);
    } else {
      assert PlacedAt(items[1..], item, before, i - 1);
      PlacedWithout(items[1..], item, before, other);
      var k :| PlacedAt(Without(items[1..], other), item, before, k);
      assert PlacedAt(Without(items, other), item, before, k + 1);
    }
  }

  lemma {:induction false} PlacedWithoutMessage(items: Items, item: Item, before: set<Location>, channel: string, message: string)
    requires Placed(items, item, before) && !(item.location.channel == channel && item.location.message == message)
    ensures Placed(WithoutMessage(items, channel, message), item, before)
  {
    var i :| PlacedAt(items, item, before, i);
    var kept := WithoutMessage(items, channel, message);
    if items[0].location.channel == channel && items[0].location.message == message {
      assert PlacedAt(items[1..], item, before, i - 1);
      PlacedWithoutMessage(items[1..], item, before, channel, message);
    } else if i == 0 {
      assert PlacedAt(kept, item, before, 0);
    } else {
      assert PlacedAt(items[1..], item, before, i - 1);
      PlacedWithoutMessage(items[1..], item, before, channel, message);
      var k :| PlacedAt(WithoutMessage(items[1..], channel, message), item, before, k);
      assert PlacedAt(kept, item, before, k + 1);
    }
  }

  /** Moving another entry to the front pushes this one back by that one location. */
  lemma PlacedBehind(items: Items, item: Item, before: set<Location>, front: Item)
    requires Placed(items, item, before) && item.location != front.location
    ensures Placed([front] + Without(items, front.location), item, before + {front.location})
  {
    PlacedWithout(items, item, before, front.location);
    var i :| PlacedAt(Without(items, front.location), item, before, i);
    assert PlacedAt([front] + Without(items, front.location), item, before + {front.location}, i + 1);
  }

  lemma PlacedInTruncated(items: Items, item: Item, before: set<Location>, max: nat)
    requires Distinct(items) && Placed(items, item, before) && |before| < max
    ensures Placed(Truncate(items, max), item, before)
  {
    var i :| PlacedAt(items, item, before, i);
    FewBefore(items, before, i);
    assert PlacedAt(Truncate(items, max), item, before, i);
  }

  lemma StepLeavesPlaced(max: nat, items: Items, op: Operation, item: Item, before: set<Location>)
    requires Invariant(max, items) && Placed(items, item, before) && Elsewhere(op, item.location)
    requires |before + TouchedBy(op)| < max
    ensures Placed(Step(max, items, op), item, before + TouchedBy(op))
  {
    var i :| PlacedAt(items, item, before, i);
    assert PlacedAt(items, item, before + TouchedBy(op), i);
    match op {
      case DoGet(location, now) =>
        FindFacts(items, location);
        if Find(items, location).Some? {
          PlacedWithout(items, item, before + {location}, location);
          PlacedBehind(items, item, before, Find(items, location).value);
        }
      case DoSet(location, url, expiresAt, now) =>
        var front := Item(location, TrimSpace(url), expiresAt, ValidUntil(expiresAt, now));
        PlacedWithout(items, item, before + {location}, location);
        PlacedBehind(items, item, before, front);
        FrontFacts(items, front);
        PlacedInTruncated([front] + Without(items, location), item, before + {location}, max);
      case DoDelete(location) => PlacedWithout(items, item, before, location);
      case DoDeleteMessage(channel, message) =>
        if channel != "" && message != "" {
          PlacedWithoutMessage(items, item, before, channel, message);
        }
    }
  }

  lemma {:induction false} RunLeavesPlaced(max: nat, items: Items, ops: seq<Operation>, item: Item, before: set<Location>)
    requires Invariant(max, items) && Placed(items, item, before)
    requires forall op :: op in ops ==> Elsewhere(op, item.location)
    requires |before + Touched(ops)| < max
    ensures item in Run(max, items, ops)
    decreases |ops|
  {
    if ops == [] {
      var i :| PlacedAt(items, item, before, i);
    } else {
      var more := before + TouchedBy(ops[0]);
      assert more + Touched(ops[1..]) == before + Touched(ops);
      SubsetSize(more, before + Touched(ops));
      StepLeavesPlaced(max, items, ops[0], item, before);
      StepKeepsInvariant(max, items, ops[0]);
      RunLeavesPlaced(max, Step(max, items, ops[0]), ops[1..], item, more);
    }
  }

  /**
   * An entry just used or stored is evicted only after `max` other distinct locations have been used more
   * recently: while fewer were touched, and it was not removed itself, it is still there, unchanged.
   */
  lemma RecentEntriesSurvive(max: nat, items: Items, ops: seq<Operation>)
    requires Invariant(max, items) && items != []
    requires forall op :: op in ops ==> Elsewhere(op, items[0].location)
    requires |Touched(ops)| < max
    ensures Find(Run(max, items, ops), items[0].location) == Some(items[0])
  {
    assert PlacedAt(items, items[0], {}, 0);
    assert {} + Touched(ops) == Touched(ops);
    RunLeavesPlaced(max, items, ops, items[0], {});
    RunKeepsInvariant(max, items, ops);
    UniqueFind(Run(max, items, ops), items[0]);
  }

  lemma {:induction false} UniqueFind(items: Items, item: Item)
    requires Distinct(items) && item in items
    ensures Find(items, item.location) == Some(item)
  {
    var i :| 0 <= i < |items| && items[i] == item;
    if i > 0 {
      assert items[1..][i - 1] == item;
      UniqueFind(items[1..], item);
    }
  }
}
