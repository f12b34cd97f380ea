/** The least-recently-used cache of attachment URLs: a map into shared entries and their list, most recent first. */
module UrlCache {
  import opened Text
  import opened Wrappers
  import Spec = UrlCacheSpec

  class Entry {
    const location: Spec.Location
    var url: string
    var expiresAt: Option<int>
    var validUntil: int

    constructor (location: Spec.Location, url: string, expiresAt: Option<int>, validUntil: int)
      ensures this.location == location && AsItem() == Spec.Item(location, url, expiresAt, validUntil)
    {
      this.location, this.url, this.expiresAt, this.validUntil := location, url, expiresAt, validUntil;
    }

    function AsItem(): Spec.Item
      reads this
    {
      Spec.Item(location, url, expiresAt, validUntil)
    }
  }

  /** The list without one element. */
  function Removed(order: seq<Entry>, e: Entry): seq<Entry> {
    if order == [] then []
    else if order[0] == e then Removed(order[1..], e)
    else [order[0]] + Removed(order[1..], e)
  }

  ghost function Items(order: seq<Entry>): seq<Spec.Item>
    reads order
  {
    if order == [] then [] else [order[0].AsItem()] + Items(order[1..])
  }

  ghost predicate OneEach(order: seq<Entry>) {
    forall i, j :: 0 <= i < j < |order| ==> order[i].location != order[j].location
  }

  lemma {:induction false} RemovedFacts(order: seq<Entry>, e: Entry)
    ensures |Removed(order, e)| <= |order|
    ensures forall i :: 0 <= i < |Removed(order, e)| ==> Removed(order, e)[i] in order && Removed(order, e)[i] != e
    ensures forall x :: x in order && x != e ==> x in Removed(order, e)
  {
    if order != [] {
      RemovedFacts(order[1..], e);
      assert order == [order[0]] + order[1..];
    }
  }

  ghost predicate Absent(order: seq<Entry>, location: Spec.Location) {
    forall i :: 0 <= i < |order| ==> order[i].location != location
  }

  lemma OneEachTail(order: seq<Entry>)
    requires OneEach(order) && order != []
    ensures OneEach(order[1..]) && Absent(order[1..], order[0].location)
  {
  }

  lemma OneEachFront(x: Entry, order: seq<Entry>)
    requires OneEach(order) && Absent(order, x.location)
    ensures OneEach([x] + order)
  {
  }

  lemma RemovedAbsent(order: seq<Entry>, e: Entry, location: Spec.Location)
    requires Absent(order, location)
    ensures Absent(Removed(order, e), location)
  {
    RemovedFacts(order, e);
  }

  lemma {:induction false} RemovedOneEach(order: seq<Entry>, e: Entry)
    requires OneEach(order)
    ensures OneEach(Removed(order, e))
    ensures e in order ==> |Removed(order, e)| == |order| - 1
    ensures e !in order ==> Removed(order, e) == order
  {
    if order != [] {
      var first, rest := order[0], order[1..];
      assert order == [first] + rest;
      OneEachTail(order);
      RemovedOneEach(rest, e);
      if first == e {
        assert e !in rest;
      } else {
        RemovedAbsent(rest, e, first.location);
        OneEachFront(first, Removed(rest, e));
      }
    }
  }

  lemma RemovedGone(order: seq<Entry>, e: Entry)
    requires OneEach(order) && e in order
    ensures Absent(Removed(order, e), e.location)
  {
    RemovedFacts(order, e);
    var at :| 0 <= at < |order| && order[at] == e;
    forall x | x in order && x != e
      ensures x.location != e.location
    {
      var i :| 0 <= i < |order| && order[i] == x;
    }
  }

  lemma {:induction false} ItemsLength(order: seq<Entry>)
    ensures |Items(order)| == |order| && forall i :: 0 <= i < |order| ==> Items(order)[i] == order[i].AsItem()
  {
    if order != [] {
      ItemsLength(order[1..]);
    }
  }

  /** Taking an element out of the list takes its location out of the entries. */
  lemma {:induction false} ItemsRemoved(order: seq<Entry>, e: Entry)
    requires forall x :: x in order && x.location == e.location ==> x == e
    ensures Items(Removed(order, e)) == Spec.Without(Items(order), e.location)
  {
    if order != [] {
      ItemsRemoved(order[1..], e);
      if order[0] != e {
        assert order[0] in order;
        assert Items(Removed(order, e)) == [order[0].AsItem()] + Items(Removed(order[1..], e));
      }
    }
  }

  lemma {:induction false} ItemsWithout(order: seq<Entry>, location: Spec.Location)
    requires forall x :: x in order ==> x.location != location
    ensures Spec.Without(Items(order), location) == Items(order) && Spec.Find(Items(order), location) == None
  {
    if order != [] {
      assert order[0] in order;
      ItemsWithout(order[1..], location);
    }
  }

  lemma {:induction false} ItemsFind(order: seq<Entry>, e: Entry)
    requires OneEach(order) && e in order
    ensures Spec.Find(Items(order), e.location) == Some(e.AsItem())
  {
    if order[0] != e {
      assert e in order[1..];
      ItemsFind(order[1..], e);
    }
  }

  lemma {:induction false} ItemsTake(order: seq<Entry>, n: nat)
    requires n <= |order|
    ensures |Items(order)| == |order|
    ensures Items(order[..n]) == Items(order)[..n]
  {
    ItemsLength(order);
    ItemsLength(order[..n]);
  }

  /** List and map hold the same entries, each location once. */
  ghost predicate InStep(order: seq<Entry>, entries: map<Spec.Location, Entry>) {
    && OneEach(order)
    && (forall e :: e in order ==> e.location in entries && entries[e.location] == e)
    && (forall k :: k in entries ==> entries[k] in order && entries[k].location == k)
  }

  lemma Fronted(order: seq<Entry>, entries: map<Spec.Location, Entry>, e: Entry)
    requires InStep(order, entries) && e in order
    ensures InStep([e] + Removed(order, e), entries) && |[e] + Removed(order, e)| == |order|
    ensures Items([e] + Removed(order, e)) == [e.AsItem()] + Spec.Without(Items(order), e.location)
  {
    RemovedFacts(order, e);
    RemovedOneEach(order, e);
    RemovedGone(order, e);
    OneEachFront(e, Removed(order, e));
    ItemsRemoved(order, e);
    assert ([e] + Removed(order, e))[1..] == Removed(order, e);
  }

  lemma Unlinked(order: seq<Entry>, entries: map<Spec.Location, Entry>, e: Entry)
    requires InStep(order, entries) && e in order
    ensures InStep(Removed(order, e), entries - {e.location}) && |Removed(order, e)| == |order| - 1
    ensures Items(Removed(order, e)) == Spec.Without(Items(order), e.location)
  {
    RemovedFacts(order, e);
    RemovedOneEach(order, e);
    RemovedGone(order, e);
    ItemsRemoved(order, e);
  }

  lemma Pushed(order: seq<Entry>, entries: map<Spec.Location, Entry>, e: Entry)
    requires InStep(order, entries) && e.location !in entries && e !in order
    ensures InStep([e] + order, entries[e.location := e])
    ensures Items([e] + order) == [e.AsItem()] + Items(order)
  {
    forall x | x in order
      ensures x.location != e.location
    {
      assert x.location in entries;
    }
    OneEachFront(e, order);
    assert ([e] + order)[1..] == order;
  }

  class Cache {
    const maxEntries: nat
    var entries: map<Spec.Location, Entry>
    var order: seq<Entry>

    /** Map and list hold the same entries, each location once, and not too many of them. */
    ghost predicate Valid()
      reads this
    {
      && maxEntries > 0 && |order| <= maxEntries && Linked()
    }

    ghost predicate Linked()
      reads this
    {
      InStep(order, entries)
    }

    ghost function View(): seq<Spec.Item>
      reads this, order
    {
      Items(order)
    }

    constructor (maxEntries: int)
      ensures Valid() && View() == [] && this.maxEntries == if maxEntries < 1 then 1 else maxEntries
    {
      this.maxEntries := if maxEntries < 1 then 1 else maxEntries;
      entries, order := map[], [];
    }

    /** What the map says about a location is what the list holds for it. */
    lemma Lookup(location: Spec.Location)
      requires Linked()
      ensures Spec.Find(View(), location) == if location in entries then Some(entries[location].AsItem()) else None
      ensures location !in entries ==> Spec.Without(View(), location) == View()
    {
      if location in entries {
        ItemsFind(order, entries[location]);
      } else {
        ItemsWithout(order, location);
      }
    }

    /** The map has as many keys as the list has elements. */
    lemma SameSize()
      requires Linked()
      ensures |entries| == |order| == |View()|
    {
      KeysOfList(order, entries);
      ItemsLength(order);
    }

    method RemoveElement(e: Entry)
      requires Linked() && e in order
      modifies this
      ensures Linked() && order == Removed(old(order), e) && |order| == |old(order)| - 1
      ensures View() == Spec.Without(old(View()), e.location)
      ensures entries == old(entries) - {e.location}
    {
      Unlinked(order, entries, e);
      entries := entries - {e.location};
      order := Removed(order, e);
    }

    method MoveToFront(e: Entry)
      requires Linked() && e in order
      modifies this`order
      ensures Linked() && order == [e] + Removed(old(order), e) && |order| == |old(order)|
      ensures View() == [e.AsItem()] + Spec.Without(old(View()), e.location)
    {
      var next := [e] + Removed(order, e);
      ghost var was, items := order, View();
      order := next;
      assert View() == [e.AsItem()] + Spec.Without(items, e.location) by {
        Fronted(was, entries, e);
      }
      assert Linked() && |order| == |was| by {
        Fronted(was, entries, e);
      }
    }

    /** A hit hands out the URL and refreshes its place; a stale entry is dropped. */
    method Get(location: Spec.Location, now: int) returns (answer: Option<(string, Option<int>)>)
      requires Valid()
      modifies this
      ensures Valid() && View() == Spec.Get(old(View()), location, now).0
      ensures match Spec.Get(old(View()), location, now).1
        case None => answer == None
        case Some(item) => answer == Some((item.url, item.expiresAt))
      ensures forall e :: e in order ==> e in old(order)
    {
      Lookup(location);
      if location !in entries {
        return None;
      }
      var e := entries[location];
      RemovedFacts(order, e);
      if now >= e.validUntil {
        RemoveElement(e);
        return None;
      }
      MoveToFront(e);
      answer := Some((e.url, e.expiresAt));
    }

    method Delete(location: Spec.Location)
      requires Valid()
      modifies this
      ensures Valid() && View() == Spec.Without(old(View()), location)
      ensures forall e :: e in order ==> e in old(order)
    {
      Lookup(location);
      if location in entries {
        RemovedFacts(order, entries[location]);
        RemoveElement(entries[location]);
      }
    }

    /** Store a URL, most recent first, evicting from the far end. */
    method Set(location: Spec.Location, rawURL: string, expiresAt: Option<int>, now: int)
      requires Valid()
      modifies this, order
      ensures Valid() && View() == Spec.Set(maxEntries, old(View()), location, rawURL, expiresAt, now)
      ensures forall e :: e in order ==> e in old(order) || fresh(e)
    {
      var url := TrimSpace(rawURL);
      if location.channel == "" || location.message == "" || location.attachment == "" || url == "" {
        return;
      }
      var validUntil := now + Spec.FALLBACK_TTL;
      if expiresAt.Some? {
        validUntil := expiresAt.value - Spec.SAFETY_WINDOW;
        if validUntil <= now {
          Delete(location);
          return;
        }
      }
      Store(location, url, expiresAt, validUntil);
    }

    method Store(location: Spec.Location, url: string, expiresAt: Option<int>, validUntil: int)
      requires Valid()
      modifies this, order
      ensures Valid()
      ensures View() ==
        Spec.Truncate([Spec.Item(location, url, expiresAt, validUntil)] + Spec.Without(old(View()), location), maxEntries)
      ensures forall e :: e in order ==> e in old(order) || fresh(e)
    {
      Lookup(location);
      if location in entries {
        var e := entries[location];
        RemovedFacts(order, e);
        Refresh(e, url, expiresAt, validUntil);
        ItemsLength(order);
      } else {
        var e := new Entry(location, url, expiresAt, validUntil);
        PushFront(e);
      }
    }

    /** Overwrite an entry in place; the others do not notice. */
    method Rewrite(e: Entry, url: string, expiresAt: Option<int>, validUntil: int)
      requires Linked() && e in order
      modifies e
      ensures e.AsItem() == Spec.Item(e.location, url, expiresAt, validUntil)
      ensures Spec.Without(View(), e.location) == Spec.Without(old(View()), e.location)
    {
      RemovedFacts(order, e);
      ItemsRemoved(order, e);
      e.url, e.expiresAt, e.validUntil := url, expiresAt, validUntil;
      ItemsRemoved(order, e);
    }

    method Refresh(e: Entry, url: string, expiresAt: Option<int>, validUntil: int)
      requires Valid() && e in order
      modifies this`order, e
      ensures Valid() && order == [e] + Removed(old(order), e)
      ensures View() == [Spec.Item(e.location, url, expiresAt, validUntil)] + Spec.Without(old(View()), e.location)
    {
      Rewrite(e, url, expiresAt, validUntil);
      MoveToFront(e);
    }

    method Link(e: Entry)
      requires Linked() && e.location !in entries && e !in order
      modifies this
      ensures Linked() && order == [e] + old(order)
      ensures View() == [e.AsItem()] + old(View())
    {
      Pushed(order, entries, e);
      order := [e] + order;
      entries := entries[e.location := e];
    }

    method PushFront(e: Entry)
      requires Valid() && e.location !in entries && e !in order
      modifies this
      ensures Valid() && (forall x :: x in order ==> x in old(order) || x == e)
      ensures View() == Spec.Truncate([e.AsItem()] + old(View()), maxEntries)
    {
      Link(e);
      Evict();
    }

    /** One entry too many goes from the far end. */
    method Evict()
      requires Linked() && 0 < maxEntries && |order| <= maxEntries + 1
      modifies this
      ensures Valid() && order <= old(order)
      ensures View() == Spec.Truncate(old(View()), maxEntries)
    {
      SameSize();
      if |entries| > maxEntries {
        EvictLast();
      }
    }

    method EvictLast()
      requires Linked() && order != []
      modifies this
      ensures Linked() && order == old(order)[..|old(order)| - 1]
      ensures |old(View())| == |old(order)| && View() == old(View())[..|old(order)| - 1]
    {
      LastWithout(order);
      RemoveElement(order[|order| - 1]);
    }

    method DeleteMessage(channel: string, message: string)
      requires Valid()
      modifies this
      ensures Valid() && View() == Spec.DeleteMessage(old(View()), channel, message)
      ensures forall e :: e in order ==> e in old(order)
    {
      if channel == "" || message == "" {
        return;
      }
      var rest := entries.Keys;
      while exists k :: k in rest && k in entries && k.channel == channel && k.message == message
        invariant Valid() && rest == old(entries.Keys)
        invariant Spec.WithoutMessage(View(), channel, message) == Spec.WithoutMessage(old(View()), channel, message)
        invariant forall e :: e in order ==> e in old(order)
        invariant entries.Keys <= rest
        decreases |order|
      {
        var k :| k in rest && k in entries && k.channel == channel && k.message == message;
        WithoutBoth(View(), k);
        RemovedFacts(order, entries[k]);
        RemoveElement(entries[k]);
      }
      ItemsLength(order);
      forall item | item in View()
        ensures !(item.location.channel == channel && item.location.message == message)
      {
        var i :| 0 <= i < |order| && View()[i] == item;
        assert order[i] in order;
      }
      NothingOfMessage(View(), channel, message);
    }
  }

  lemma TailInStep(order: seq<Entry>, entries: map<Spec.Location, Entry>)
    requires InStep(order, entries) && order != []
    ensures order[0].location in entries && InStep(order[1..], entries - {order[0].location})
  {
    var e, rest := order[0], entries - {order[0].location};
    assert order == [e] + order[1..];
    OneEachTail(order);
    forall x | x in order[1..]
      ensures x.location in rest && rest[x.location] == x
    {
      assert x in order;
    }
    forall k | k in rest
      ensures rest[k] in order[1..] && rest[k].location == k
    {
      assert entries[k] in order;
    }
  }

  lemma {:induction false} KeysOfList(order: seq<Entry>, entries: map<Spec.Location, Entry>)
    requires InStep(order, entries)
    ensures |entries| == |order|
    decreases |order|
  {
    if order == [] {
      assert entries.Keys == {};
      assert |entries.Keys| == |entries|;
    } else {
      var location := order[0].location;
      var rest := entries - {location};
      TailInStep(order, entries);
      KeysOfList(order[1..], rest);
      assert entries.Keys == rest.Keys + {location};
      assert |entries| == |entries.Keys| && |rest| == |rest.Keys|;
    }
  }

  lemma {:induction false} LastRemoved(order: seq<Entry>)
    requires OneEach(order) && order != []
    ensures Removed(order, order[|order| - 1]) == order[..|order| - 1]
  {
    if |order| > 1 {
      LastRemoved(order[1..]);
      assert order[1..][..|order| - 2] == order[1..|order| - 1];
    }
  }

  /** Dropping the last element of the list drops the last of the items. */
  lemma LastWithout(order: seq<Entry>)
    requires OneEach(order) && order != []
    ensures Removed(order, order[|order| - 1]) == order[..|order| - 1] && |Items(order)| == |order|
    ensures Spec.Without(Items(order), order[|order| - 1].location) == Items(order)[..|order| - 1]
  {
    LastRemoved(order);
    ItemsTake(order, |order| - 1);
    ItemsRemoved(order, order[|order| - 1]);
  }

  lemma {:induction false} WithoutBoth(items: Spec.Items, location: Spec.Location)
    ensures Spec.WithoutMessage(Spec.Without(items, location), location.channel, location.message) ==
      Spec.WithoutMessage(items, location.channel, location.message)
  {
    if items != [] {
      WithoutBoth(items[1..], location);
    }
  }

  lemma {:induction false} NothingOfMessage(items: Spec.Items, channel: string, message: string)
    requires forall item :: item in items ==> !(item.location.channel == channel && item.location.message == message)
    ensures Spec.WithoutMessage(items, channel, message) == items
  {
    if items != [] {
      assert items[0] in items;
      NothingOfMessage(items[1..], channel, message);
    }
  }
}
