/** The ring of runtime events, its lossy subscribers, and the stream one client receives from them. */
module EventLog {

  const RING: nat := 256
  const DEFAULT_BUFFER: nat := 32

  datatype Event = Event(id: nat, body: string)

  type SubscriberId = nat

  /** A subscriber's channel: it takes an event only while it has room. */
  datatype Channel = Channel(buffer: seq<Event>, room: nat)

  // ----- What the ring holds -----

  /** The ring is the latest consecutive ids, at most as many as it has places. */
  predicate RingHolds(ring: seq<Event>, sequence: nat) {
    && |ring| == (if sequence < RING then sequence else RING)
    && forall i :: 0 <= i < |ring| ==> ring[i].id == sequence - |ring| + 1 + i
  }

  function Pushed(ring: seq<Event>, e: Event): seq<Event> {
    if |ring| >= RING then ring[1..] + [e] else ring + [e]
  }

  function Offered(c: Channel, e: Event): Channel {
    if |c.buffer| < c.room then c.(buffer := c.buffer + [e]) else c
  }

  lemma PushKeepsRing(ring: seq<Event>, sequence: nat, body: string)
    requires RingHolds(ring, sequence)
    ensures RingHolds(Pushed(ring, Event(sequence + 1, body)), sequence + 1)
  {
  }

  datatype Window = Window(oldestId: nat, latestId: nat, events: seq<Event>)

  /** The events of the ring after an id: a suffix of it. */
  function Since(ring: seq<Event>, after: nat): seq<Event> {
    if ring == [] then []
    else if ring[|ring| - 1].id > after then Since(ring[..|ring| - 1], after) + [ring[|ring| - 1]]
    else Since(ring[..|ring| - 1], after)
  }

  function WindowOf(ring: seq<Event>, sequence: nat, after: nat): Window {
    Window(if ring == [] then 0 else ring[0].id, sequence, Since(ring, after))
  }

  /** What is replayed are consecutive ids up to the latest, from the later of `after + 1` and the oldest kept. */
  lemma {:induction false} SinceIsSuffix(ring: seq<Event>, last: nat, after: nat)
    requires |ring| <= last && forall i :: 0 <= i < |ring| ==> ring[i].id == last - |ring| + 1 + i
    ensures var first := if after > last - |ring| then after + 1 else last - |ring| + 1;
      var events := Since(ring, after);
      && |events| == (if first <= last then last - first + 1 else 0)
      && forall i :: 0 <= i < |events| ==> events[i].id == first + i
    decreases |ring|
  {
    if ring != [] {
      SinceIsSuffix(ring[..|ring| - 1], last - 1, after);
    }
  }

  // ----- The log -----

  class Log {
    var events: seq<Event>
    var sequence: nat
    var subscribers: map<SubscriberId, Channel>
    var nextSubscriber: SubscriberId

    constructor ()
      ensures Valid() && sequence == 0 && subscribers == map[]
    {
      events, sequence, subscribers, nextSubscriber := [], 0, map[], 0;
    }

    predicate Valid()
      reads this
    {
      RingHolds(events, sequence) && forall id :: id in subscribers ==> id <= nextSubscriber
    }

    /** `emitLocked`: number the event, put it in the ring, offer it to every subscriber without waiting. */
    method Emit(body: string)
      requires Valid()
      modifies this
      ensures Valid() && sequence == old(sequence) + 1
      ensures events == Pushed(old(events), Event(sequence, body))
      ensures subscribers.Keys == old(subscribers).Keys
      ensures forall id :: id in subscribers ==> subscribers[id] == Offered(old(subscribers)[id], Event(sequence, body))
    {
      sequence := sequence + 1;
      var event := Event(sequence, body);
      if |events| >= RING {
        events := events[1..] + [event];
      } else {
        events := events + [event];
      }
      var rest := subscribers.Keys;
      while rest != {}
        invariant rest <= subscribers.Keys == old(subscribers).Keys
        invariant forall id :: id in subscribers ==>
          subscribers[id] == if id in rest then old(subscribers)[id] else Offered(old(subscribers)[id], event)
        decreases rest
        modifies this`subscribers
      {
        var id :| id in rest;
        rest := rest - {id};
        var c := subscribers[id];
        if |c.buffer| < c.room {
          subscribers := subscribers[id := c.(buffer := c.buffer + [event])];
        }
      }
    }

    method EventsSince(after: nat) returns (window: Window)
      ensures window == WindowOf(events, sequence, after)
    {
      var found: seq<Event> := [];
      var n := 0;
      while n < |events|
        invariant 0 <= n <= |events| && found == Since(events[..n], after)
      {
        assert events[..n + 1][..n] == events[..n];
        if events[n].id > after {
          found := found + [events[n]];
        }
        n := n + 1;
      }
      assert events[..n] == events;
      window := Window(if |events| > 0 then events[0].id else 0, sequence, found);
    }

    method Subscribe(buffer: int) returns (id: SubscriberId)
      requires Valid()
      modifies this`subscribers, this`nextSubscriber
      ensures Valid() && id !in old(subscribers)
      ensures subscribers == old(subscribers)[id := Channel([], if buffer <= 0 then DEFAULT_BUFFER else buffer)]
    {
      nextSubscriber := nextSubscriber + 1;
      id := nextSubscriber;
      subscribers := subscribers[id := Channel([], if buffer <= 0 then DEFAULT_BUFFER else buffer)];
    }

    method Cancel(id: SubscriberId)
      requires Valid()
      modifies this`subscribers
      ensures Valid() && subscribers == old(subscribers) - {id}
    {
      subscribers := subscribers - {id};
    }
  }

  // ----- One client's stream -----

  datatype Message = Ready(latest: nat) | Reset(latest: nat) | Sent(event: Event)

  /** The id up to which the client knows everything it was not told to forget. */
  function Position(start: nat, trace: seq<Message>): nat {
    if trace == [] then start
    else
      match trace[|trace| - 1]
      case Ready(_) => Position(start, trace[..|trace| - 1])
      case Reset(latest) => latest
      case Sent(event) => event.id
  }

  /** No id was sent, and no reset, so far. */
  predicate Fresh(trace: seq<Message>) {
    forall m :: m in trace ==> m.Ready?
  }

  /**
   * Nothing is lost silently: every id sent follows the client's position. Only a client that never saw an event
   * may start anywhere.
   */
  predicate Gapless(start: nat, trace: seq<Message>)
    decreases |trace|
  {
    trace == [] ||
    (Gapless(start, trace[..|trace| - 1]) &&
     match trace[|trace| - 1]
     case Sent(event) =>
       event.id == Position(start, trace[..|trace| - 1]) + 1 || (start == 0 && Fresh(trace[..|trace| - 1]))
     case _ => true)
  }

  lemma Told(start: nat, trace: seq<Message>, m: Message)
    requires Gapless(start, trace)
    requires m.Sent? ==> m.event.id == Position(start, trace) + 1 || (start == 0 && Fresh(trace))
    ensures Gapless(start, trace + [m])
    ensures Position(start, trace + [m]) == match m case Ready(_) => Position(start, trace) case Reset(l) => l case Sent(e) => e.id
  {
    assert (trace + [m])[..|trace|] == trace;
  }

  /** `runtimeReplayGap`: the ring no longer reaches back to the client's last event. */
  predicate ReplayGap(after: nat, window: Window) {
    if after == 0 then false
    else if window.latestId < after then true
    else if window.oldestId == 0 || window.oldestId <= after then false
    else window.oldestId - after > 1
  }

  /** A gap is announced exactly when the next event of the client is no longer, or not yet, in the log. */
  lemma ReplayGapMeans(ring: seq<Event>, sequence: nat, after: nat)
    requires RingHolds(ring, sequence) && after > 0
    ensures ReplayGap(after, WindowOf(ring, sequence, after)) <==> sequence < after || after < sequence - |ring|
  {
  }

  /** The messages of a replay without gap. */
  function Replayed(events: seq<Event>): seq<Message> {
    if events == [] then [] else Replayed(events[..|events| - 1]) + [Sent(events[|events| - 1])]
  }

  /** What the handler writes before it goes live, and its last sent id then. */
  function Replay(after: nat, window: Window): (seq<Message>, nat) {
    if ReplayGap(after, window) then ([Ready(window.latestId), Reset(window.latestId)], window.latestId)
    else
      ([Ready(window.latestId)] + Replayed(window.events),
       if window.events == [] then after else window.events[|window.events| - 1].id)
  }

  /** What the handler writes for an event from its channel. */
  function Live(lastSent: nat, e: Event): (seq<Message>, nat) {
    if e.id <= lastSent then ([], lastSent)
    else if lastSent > 0 && e.id - lastSent > 1 then ([Reset(e.id)], e.id)
    else ([Sent(e)], e.id)
  }

  /** The replay as the loop that writes it. */
  method WriteReplay(after: nat, window: Window) returns (trace: seq<Message>, lastSent: nat)
    requires forall i, j :: 0 <= i < j < |window.events| ==> window.events[i].id < window.events[j].id
    requires forall i :: 0 <= i < |window.events| ==> window.events[i].id > after
    ensures (trace, lastSent) == Replay(after, window)
  {
    trace := [Ready(window.latestId)];
    lastSent := after;
    if ReplayGap(after, window) {
      assert trace + [Reset(window.latestId)] == [Ready(window.latestId), Reset(window.latestId)];
      return trace + [Reset(window.latestId)], window.latestId;
    }
    var n := 0;
    while n < |window.events|
      invariant 0 <= n <= |window.events|
      invariant trace == [Ready(window.latestId)] + Replayed(window.events[..n])
      invariant lastSent == if n == 0 then after else window.events[n - 1].id
    {
      var event := window.events[n];
      assert window.events[..n + 1][..n] == window.events[..n];
      if event.id > lastSent {
        trace, lastSent := trace + [Sent(event)], event.id;
      }
      n := n + 1;
    }
    assert window.events[..n] == window.events;
  }

  lemma {:induction false} ReplayedIsGapless(after: nat, latest: nat, events: seq<Event>, n: nat)
    requires n <= |events| && forall i :: 0 <= i < |events| ==> events[i].id == events[0].id + i
    requires events != [] && after > 0 ==> events[0].id == after + 1
    ensures var trace := [Ready(latest)] + Replayed(events[..n]);
      Gapless(after, trace) && Position(after, trace) == if n == 0 then after else events[n - 1].id
    ensures n == 0 ==> Fresh([Ready(latest)] + Replayed(events[..n]))
  {
    if n == 0 {
      assert Gapless(after, []);
      Told(after, [], Ready(latest));
      assert [] + [Ready(latest)] == [Ready(latest)] + Replayed(events[..0]);
    } else {
      ReplayedIsGapless(after, latest, events, n - 1);
      var before := [Ready(latest)] + Replayed(events[..n - 1]);
      assert events[..n][..n - 1] == events[..n - 1];
      assert [Ready(latest)] + Replayed(events[..n]) == before + [Sent(events[n - 1])];
      Told(after, before, Sent(events[n - 1]));
    }
  }

  // ----- The client against the running log -----

  datatype Phase = Connecting | Subscribed | Streaming

  /**
   * The log and one client: the id it came with, its channel, the log's position when it subscribed, whether
   * the channel was read, whether it ever dropped an event, the last id sent, the messages written, and everything
   * that was ever emitted.
   */
  datatype World = World(
    ring: seq<Event>, sequence: nat, phase: Phase, after: nat, channel: Channel,
    since: nat, untouched: bool, dropped: bool, lastSent: nat, trace: seq<Message>, emitted: seq<string>)

  datatype Action =
    | Emit(body: string)
    | Connect(after: nat, room: nat)
    | Catchup
    | Receive

  predicate Enabled(w: World, a: Action) {
    match a
    case Emit(_) => true
    case Connect(_, room) => w.phase == Connecting && room > 0
    case Catchup => w.phase == Subscribed
    case Receive => w.phase == Streaming && w.channel.buffer != []
  }

  /** Emissions interleave freely with the client's steps: subscribe, then replay, then read the channel. */
  function Step(w: World, a: Action): World
    requires Enabled(w, a)
  {
    match a
    case Emit(body) =>
      var e := Event(w.sequence + 1, body);
      w.(ring := Pushed(w.ring, e), sequence := w.sequence + 1, emitted := w.emitted + [body],
         channel := if w.phase == Connecting then w.channel else Offered(w.channel, e),
         dropped := w.dropped || (w.phase != Connecting && |w.channel.buffer| >= w.channel.room))
    case Connect(after, room) =>
      w.(phase := Subscribed, after := after, channel := Channel([], room), since := w.sequence,
         untouched := true, dropped := false, lastSent := after, trace := [])
    case Catchup =>
      var (messages, last) := Replay(w.after, WindowOf(w.ring, w.sequence, w.after));
      w.(phase := Streaming, lastSent := last, trace := messages)
    case Receive =>
      var (messages, last) := Live(w.lastSent, w.channel.buffer[0]);
      w.(channel := w.channel.(buffer := w.channel.buffer[1..]), untouched := false,
         lastSent := last, trace := w.trace + messages)
  }

  /** Ids in the channel rise and are ids of the log. */
  predicate ChannelOk(w: World) {
    && (forall i, j :: 0 <= i < j < |w.channel.buffer| ==> w.channel.buffer[i].id < w.channel.buffer[j].id)
    && (forall i :: 0 <= i < |w.channel.buffer| ==> w.since < w.channel.buffer[i].id <= w.sequence)
  }

  /** The first event after subscribing is never dropped. */
  predicate FirstKept(w: World) {
    w.untouched ==> if w.channel.buffer == [] then w.sequence == w.since else w.channel.buffer[0].id == w.since + 1
  }

  /** A channel that never dropped holds the latest ids without gap. */
  predicate NothingMissing(w: World) {
    !w.dropped ==>
      && w.since + |w.channel.buffer| <= w.sequence
      && forall i :: 0 <= i < |w.channel.buffer| ==> w.channel.buffer[i].id == w.sequence - |w.channel.buffer| + 1 + i
  }

  ghost predicate Inv(w: World) {
    && RingHolds(w.ring, w.sequence)
    && (w.phase != Connecting ==> w.channel.room > 0 && w.since <= w.sequence && ChannelOk(w) && FirstKept(w) && NothingMissing(w))
    && (w.phase == Subscribed ==> w.untouched)
    && (w.phase == Streaming ==>
          && Gapless(w.after, w.trace) && Position(w.after, w.trace) == w.lastSent
          && (w.lastSent == 0 ==> w.untouched && w.since == 0)
          && (!w.dropped ==> w.lastSent + |w.channel.buffer| >= w.sequence))
  }

  lemma EmitKeepsInv(w: World, body: string)
    requires Inv(w)
    ensures Inv(Step(w, Emit(body)))
  {
    PushKeepsRing(w.ring, w.sequence, body);
  }

  /** What a replay leaves the client with: a stream without silent gap, up to the log's latest id. */
  lemma ReplayFacts(ring: seq<Event>, sequence: nat, after: nat)
    requires RingHolds(ring, sequence)
    ensures var (trace, last) := Replay(after, WindowOf(ring, sequence, after));
      Gapless(after, trace) && Position(after, trace) == last && last == sequence
  {
    var window := WindowOf(ring, sequence, after);
    SinceIsSuffix(ring, sequence, after);
    if ReplayGap(after, window) {
      assert Gapless(after, []);
      Told(after, [], Ready(window.latestId));
      assert [] + [Ready(window.latestId)] == [Ready(window.latestId)];
      Told(after, [Ready(window.latestId)], Reset(window.latestId));
      assert [Ready(window.latestId)] + [Reset(window.latestId)] == [Ready(window.latestId), Reset(window.latestId)];
    } else {
      if after > 0 {
        ReplayGapMeans(ring, sequence, after);
      }
      ReplayedIsGapless(after, window.latestId, window.events, |window.events|);
      assert window.events[..|window.events|] == window.events;
    }
  }

  lemma CatchupKeepsInv(w: World)
    requires Inv(w) && w.phase == Subscribed
    ensures Inv(Step(w, Catchup))
  {
    ReplayFacts(w.ring, w.sequence, w.after);
  }

  /** Reading the channel: the next id, a reset over a gap, or something already replayed. */
  lemma ReceiveKeepsInv(w: World)
    requires Inv(w) && Enabled(w, Receive)
    ensures Inv(Step(w, Receive))
  {
    var e := w.channel.buffer[0];
    var (messages, last) := Live(w.lastSent, e);
    if messages == [] {
      assert w.trace + messages == w.trace;
    } else {
      Told(w.after, w.trace, messages[0]);
      assert messages == [messages[0]];
    }
  }

  lemma StepKeepsInv(w: World, a: Action)
    requires Inv(w) && Enabled(w, a)
    ensures Inv(Step(w, a))
  {
    match a {
      case Emit(body) => EmitKeepsInv(w, body);
      case Connect(_, _) =>
      case Catchup => CatchupKeepsInv(w);
      case Receive => ReceiveKeepsInv(w);
    }
  }

  function Run(w: World, actions: seq<Action>): World
    decreases |actions|
  {
    if actions == [] then w
    else if Enabled(w, actions[0]) then Run(Step(w, actions[0]), actions[1..])
    else Run(w, actions[1..])
  }

  lemma {:induction false} RunKeepsInv(w: World, actions: seq<Action>)
    requires Inv(w)
    ensures Inv(Run(w, actions))
    decreases |actions|
  {
    if actions != [] {
      if Enabled(w, actions[0]) {
        StepKeepsInv(w, actions[0]);
        RunKeepsInv(Step(w, actions[0]), actions[1..]);
      } else {
        RunKeepsInv(w, actions[1..]);
      }
    }
  }

  const START: World := World([], 0, Connecting, 0, Channel([], 0), 0, true, false, 0, [], [])

  /**
   * However emissions interleave with a client's subscribing, replaying and reading, and whatever its channel
   * drops, the ids it is sent are consecutive between resets: no event is lost without being announced.
   */
  lemma NoSilentLoss(actions: seq<Action>)
    ensures var w := Run(START, actions);
      && RingHolds(w.ring, w.sequence)
      && (w.phase == Streaming ==> Gapless(w.after, w.trace))
  {
    RunKeepsInv(START, actions);
  }

  /** A client whose channel never dropped and is empty has been told everything up to the latest event. */
  lemma DrainedIsCurrent(actions: seq<Action>)
    ensures var w := Run(START, actions);
      w.phase == Streaming && !w.dropped && w.channel.buffer == [] ==> Position(w.after, w.trace) >= w.sequence
  {
    RunKeepsInv(START, actions);
  }
}
