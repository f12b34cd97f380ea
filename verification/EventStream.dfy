/** What a client of the runtime stream is sent: genuine events, resets only over real gaps, and all of it if nothing was dropped. */
module EventStream {
  import opened EventLog

  /** The event is the one that was emitted under its id. */
  predicate Genuine(e: Event, emitted: seq<string>) {
    1 <= e.id <= |emitted| && e.body == emitted[e.id - 1]
  }

  predicate AllGenuine(events: seq<Event>, emitted: seq<string>) {
    forall i :: 0 <= i < |events| ==> Genuine(events[i], emitted)
  }

  predicate TraceGenuine(trace: seq<Message>, emitted: seq<string>) {
    forall i :: 0 <= i < |trace| && trace[i].Sent? ==> Genuine(trace[i].event, emitted)
  }

  /** A reset to `latest` is due at a position when events lie between, or when the client was ahead of the log. */
  predicate GapAt(position: nat, latest: nat) {
    position > 0 && (position + 1 < latest || latest < position)
  }

  /** Every reset stands for a gap at the client's position. */
  predicate ResetsReal(start: nat, trace: seq<Message>) {
    forall i :: 0 <= i < |trace| && trace[i].Reset? ==> GapAt(Position(start, trace[..i]), trace[i].latest)
  }

  lemma ResetsStayReal(start: nat, trace: seq<Message>, m: Message)
    requires ResetsReal(start, trace) && (m.Reset? ==> GapAt(Position(start, trace), m.latest))
    ensures ResetsReal(start, trace + [m])
  {
    forall i | 0 <= i < |trace + [m]| && (trace + [m])[i].Reset?
      ensures GapAt(Position(start, (trace + [m])[..i]), (trace + [m])[i].latest)
    {
      assert (trace + [m])[..i] == trace[..i];
      assert trace[..|trace|] == trace;
    }
  }

  // ----- The whole stream of a client whose channel dropped nothing -----

  /** The client asks for what the ring no longer holds, or was ahead of the log, when the latest id was this. */
  predicate StartsWithGap(after: nat, latest: nat) {
    after > 0 && (latest < after || after + RING < latest)
  }

  function Opening(after: nat, latest: nat): seq<Message> {
    if StartsWithGap(after, latest) then [Ready(latest), Reset(latest)] else [Ready(latest)]
  }

  /** The first event it is owed: the next one after a reset or after its own, or the oldest kept for a new client. */
  function FirstOwed(after: nat, latest: nat): nat {
    if StartsWithGap(after, latest) then latest + 1
    else if after > 0 then after + 1
    else if latest > RING then latest - RING + 1
    else 1
  }

  /** The events from one id up to another, each once. */
  function AllFrom(emitted: seq<string>, first: nat, last: nat): seq<Message>
    requires first > 0 && last <= |emitted|
  {
    if last < first then [] else AllFrom(emitted, first, last - 1) + [Sent(Event(last, emitted[last - 1]))]
  }

  lemma {:induction false} AllFromGrows(emitted: seq<string>, body: string, first: nat, last: nat)
    requires first > 0 && last <= |emitted|
    ensures AllFrom(emitted + [body], first, last) == AllFrom(emitted, first, last)
    decreases last
  {
    if first <= last {
      AllFromGrows(emitted, body, first, last - 1);
    }
  }

  /** Ids from `first` on, one Sent each, in order. */
  lemma {:induction false} AllFromAt(emitted: seq<string>, first: nat, last: nat)
    requires first > 0 && last <= |emitted|
    ensures |AllFrom(emitted, first, last)| == if first <= last then last - first + 1 else 0
    ensures forall i :: 0 <= i < |AllFrom(emitted, first, last)| ==>
      AllFrom(emitted, first, last)[i] == Sent(Event(first + i, emitted[first + i - 1]))
    decreases last
  {
    if first <= last {
      var before, all := AllFrom(emitted, first, last - 1), AllFrom(emitted, first, last);
      AllFromAt(emitted, first, last - 1);
      assert all == before + [Sent(Event(last, emitted[last - 1]))];
      forall i | 0 <= i < |all|
        ensures all[i] == Sent(Event(first + i, emitted[first + i - 1]))
      {
        assert i < |before| ==> all[i] == before[i];
      }
    }
  }

  /** The trace is the opening and then every event owed up to the last one sent. */
  ghost predicate Complete(w: World) {
    && |w.trace| > 0 && w.trace[0].Ready?
    && var latest := w.trace[0].latest;
       && latest <= w.lastSent <= |w.emitted|
       && w.trace == Opening(w.after, latest) + AllFrom(w.emitted, FirstOwed(w.after, latest), w.lastSent)
  }

  ghost predicate Sound(w: World) {
    && Inv(w) && w.sequence == |w.emitted| && AllGenuine(w.ring, w.emitted)
    && (w.phase != Connecting ==> AllGenuine(w.channel.buffer, w.emitted) && |w.channel.buffer| <= w.channel.room)
    && (w.phase == Streaming ==> TraceGenuine(w.trace, w.emitted) && ResetsReal(w.after, w.trace) && (!w.dropped ==> Complete(w)))
  }

  // ----- Steps -----

  lemma EmitKeepsSound(w: World, body: string)
    requires Sound(w)
    ensures Sound(Step(w, Emit(body)))
  {
    EmitKeepsInv(w, body);
    var v := Step(w, Emit(body));
    assert AllGenuine(v.ring, v.emitted);
    if w.phase == Streaming && !v.dropped {
      var latest := w.trace[0].latest;
      AllFromGrows(w.emitted, body, FirstOwed(w.after, latest), w.lastSent);
    }
  }

  lemma {:induction false} SinceGenuine(ring: seq<Event>, after: nat, emitted: seq<string>)
    requires AllGenuine(ring, emitted)
    ensures AllGenuine(Since(ring, after), emitted)
    decreases |ring|
  {
    if ring != [] {
      SinceGenuine(ring[..|ring| - 1], after, emitted);
    }
  }

  /** Replaying genuine events with consecutive ids is sending all of them. */
  lemma {:induction false} ReplayedIsAll(events: seq<Event>, emitted: seq<string>, first: nat, last: nat)
    requires first > 0 && last <= |emitted| && AllGenuine(events, emitted)
    requires |events| == (if first <= last then last - first + 1 else 0)
    requires forall i :: 0 <= i < |events| ==> events[i].id == first + i
    ensures Replayed(events) == AllFrom(emitted, first, last)
    decreases |events|
  {
    if events != [] {
      ReplayedIsAll(events[..|events| - 1], emitted, first, last - 1);
      assert Genuine(events[|events| - 1], emitted);
    }
  }

  /** What the replay writes is the opening and all that is owed up to the latest id. */
  lemma ReplayIsComplete(ring: seq<Event>, emitted: seq<string>, after: nat)
    requires RingHolds(ring, |emitted|) && AllGenuine(ring, emitted)
    ensures var latest := |emitted|;
      Replay(after, WindowOf(ring, latest, after)) ==
      (Opening(after, latest) + AllFrom(emitted, FirstOwed(after, latest), latest), latest)
  {
    var latest := |emitted|;
    var window := WindowOf(ring, latest, after);
    SinceIsSuffix(ring, latest, after);
    SinceGenuine(ring, after, emitted);
    if after > 0 {
      ReplayGapMeans(ring, latest, after);
    }
    if StartsWithGap(after, latest) {
      assert AllFrom(emitted, FirstOwed(after, latest), latest) == [];
      assert Opening(after, latest) + [] == [Ready(latest), Reset(latest)];
    } else {
      ReplayedIsAll(window.events, emitted, FirstOwed(after, latest), latest);
    }
  }

  lemma OpeningIsReal(after: nat, latest: nat)
    ensures ResetsReal(after, Opening(after, latest))
  {
    var trace := Opening(after, latest);
    forall i | 0 <= i < |trace| && trace[i].Reset?
      ensures GapAt(Position(after, trace[..i]), trace[i].latest)
    {
      assert trace[..1] == [Ready(latest)] && trace[..1][..0] == [];
    }
  }

  lemma {:induction false} SentAreReal(after: nat, opening: seq<Message>, more: seq<Message>)
    requires ResetsReal(after, opening) && forall i :: 0 <= i < |more| ==> more[i].Sent?
    ensures ResetsReal(after, opening + more)
    decreases |more|
  {
    if more == [] {
      assert opening + more == opening;
    } else {
      var rest, m := more[..|more| - 1], more[|more| - 1];
      SentAreReal(after, opening, rest);
      ResetsStayReal(after, opening + rest, m);
      assert opening + more == opening + rest + [m];
    }
  }

  lemma CatchupKeepsSound(w: World)
    requires Sound(w) && w.phase == Subscribed
    ensures Sound(Step(w, Catchup))
  {
    CatchupKeepsInv(w);
    ReplayIsComplete(w.ring, w.emitted, w.after);
    OpeningIsReal(w.after, w.sequence);
    AllFromAt(w.emitted, FirstOwed(w.after, w.sequence), w.sequence);
    SentAreReal(w.after, Opening(w.after, w.sequence), AllFrom(w.emitted, FirstOwed(w.after, w.sequence), w.sequence));
  }

  lemma ReceiveKeepsSound(w: World)
    requires Sound(w) && Enabled(w, Receive)
    ensures Sound(Step(w, Receive))
  {
    ReceiveKeepsInv(w);
    var e := w.channel.buffer[0];
    var (messages, last) := Live(w.lastSent, e);
    assert Genuine(e, w.emitted);
    if messages == [] {
      assert w.trace + messages == w.trace;
    } else {
      ResetsStayReal(w.after, w.trace, messages[0]);
      assert messages == [messages[0]];
      if !w.dropped {
        ReceivesTheNext(w);
      }
    }
  }

  /** An undropped channel brings the event after the last one sent. */
  lemma ReceivesTheNext(w: World)
    requires Sound(w) && Enabled(w, Receive) && !w.dropped && w.channel.buffer[0].id > w.lastSent
    ensures Complete(Step(w, Receive))
  {
    var e := w.channel.buffer[0];
    assert e.id == w.lastSent + 1 && Genuine(e, w.emitted);
    assert Live(w.lastSent, e) == ([Sent(e)], e.id);
    var latest := w.trace[0].latest;
    var first := FirstOwed(w.after, latest);
    assert AllFrom(w.emitted, first, e.id) == AllFrom(w.emitted, first, w.lastSent) + [Sent(e)];
    assert w.trace + [Sent(e)] ==
      Opening(w.after, latest) + (AllFrom(w.emitted, first, w.lastSent) + [Sent(e)]);
  }

  lemma StepKeepsSound(w: World, a: Action)
    requires Sound(w) && Enabled(w, a)
    ensures Sound(Step(w, a))
  {
    match a
    case Emit(body) => EmitKeepsSound(w, body);
    case Connect(_, _) => StepKeepsInv(w, a);
    case Catchup => CatchupKeepsSound(w);
    case Receive => ReceiveKeepsSound(w);
  }

  lemma {:induction false} RunKeepsSound(w: World, actions: seq<Action>)
    requires Sound(w)
    ensures Sound(Run(w, actions))
    decreases |actions|
  {
    if actions != [] {
      if Enabled(w, actions[0]) {
        StepKeepsSound(w, actions[0]);
        RunKeepsSound(Step(w, actions[0]), actions[1..]);
      } else {
        RunKeepsSound(w, actions[1..]);
      }
    }
  }

  /** However everything interleaves, what is sent was emitted under that id, and each reset stands for a gap. */
  lemma SentIsGenuine(actions: seq<Action>)
    ensures var w := Run(START, actions);
      w.phase == Streaming ==> TraceGenuine(w.trace, w.emitted) && ResetsReal(w.after, w.trace)
  {
    RunKeepsSound(START, actions);
  }

  /** From place `at` on, the trace is one message for each id from `first` to the last one sent, with what was emitted. */
  predicate SentOnceEach(w: World, at: nat, first: nat)
    requires first > 0
  {
    && w.lastSent <= |w.emitted| && |w.trace| == at + (if first <= w.lastSent then w.lastSent - first + 1 else 0)
    && forall i :: at <= i < |w.trace| ==> w.trace[i] == Sent(Event(first + i - at, w.emitted[first + i - at - 1]))
  }

  lemma CompleteSendsOnce(w: World)
    requires Complete(w)
    ensures var opening := Opening(w.after, w.trace[0].latest);
      SentOnceEach(w, |opening|, FirstOwed(w.after, w.trace[0].latest)) && w.trace[..|opening|] == opening
  {
    var opening, first := Opening(w.after, w.trace[0].latest), FirstOwed(w.after, w.trace[0].latest);
    AllFromAt(w.emitted, first, w.lastSent);
    forall i | |opening| <= i < |w.trace|
      ensures w.trace[i] == Sent(Event(first + i - |opening|, w.emitted[first + i - |opening| - 1]))
    {
      assert w.trace[i] == AllFrom(w.emitted, first, w.lastSent)[i - |opening|];
    }
  }

  /**
   * A client whose channel dropped nothing has been sent its opening, a reset only if it started with a gap, and then
   * exactly one message for every event from the first one it is owed to its position, in order.
   */
  lemma NothingWithheld(actions: seq<Action>)
    ensures var w := Run(START, actions);
      w.phase == Streaming && !w.dropped ==>
        && |w.trace| > 0 && w.trace[0].Ready? && w.trace[0].latest <= w.lastSent <= w.sequence == |w.emitted|
        && SentOnceEach(w, |Opening(w.after, w.trace[0].latest)|, FirstOwed(w.after, w.trace[0].latest))
        && w.trace[..|Opening(w.after, w.trace[0].latest)|] == Opening(w.after, w.trace[0].latest)
  {
    RunKeepsSound(START, actions);
    var w := Run(START, actions);
    if w.phase == Streaming && !w.dropped {
      CompleteSendsOnce(w);
    }
  }

  /** Only a channel without room drops, and no channel ever holds more than its room. */
  lemma ChannelsKeepTheirRoom(actions: seq<Action>, body: string)
    ensures var w := Run(START, actions);
      w.phase != Connecting ==>
        && |w.channel.buffer| <= w.channel.room
        && (Step(w, Emit(body)).dropped && !w.dropped ==> |w.channel.buffer| == w.channel.room)
  {
    RunKeepsSound(START, actions);
  }

  /** A connected client that reads its channel is sent the next event, after any run that left it waiting for one. */
  lemma NextEventArrives(w: World, body: string)
    requires Sound(w) && w.phase == Streaming && !w.dropped && w.channel.buffer == [] && w.lastSent == w.sequence
    ensures var after := Run(w, [Emit(body), Receive]);
      after.trace == w.trace + [Sent(Event(w.sequence + 1, body))] && after.lastSent == after.sequence && !after.dropped
  {
    var emitted := Step(w, Emit(body));
    assert [Emit(body), Receive][1..] == [Receive] && [Receive][1..] == [];
    assert emitted.channel.buffer == [Event(w.sequence + 1, body)];
    assert Run(emitted, [Receive]) == Run(Step(emitted, Receive), []);
  }

  /** A new client of an empty log is told so, and is then waiting for the first event. */
  lemma NewClientWaits(room: nat)
    requires room > 0
    ensures var w := Run(START, [Connect(0, room), Catchup]);
      w.phase == Streaming && w.trace == [Ready(0)] && !w.dropped && w.channel.buffer == [] && w.lastSent == w.sequence == 0
  {
    assert [Connect(0, room), Catchup][1..] == [Catchup] && [Catchup][1..] == [];
    var w := Step(START, Connect(0, room));
    assert Replayed([]) == [] && Since([], 0) == [];
    assert Run(w, [Catchup]) == Run(Step(w, Catchup), []);
  }
}
