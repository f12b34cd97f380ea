/** The token-bucket rate limiter over real-valued tokens: what it admits, when to retry, and what sweeping may forget. */
module Limiter {
  import opened Wrappers

  type Key = string

  /** Tokens left at a time; times and durations in nanoseconds. */
  datatype Entry = Entry(tokens: real, updatedAt: int)

  type Entries = map<Key, Entry>

  /** `refill` is the number of tokens gained per nanosecond. */
  datatype Config = Config(capacity: real, refill: real, window: int, maxEntries: nat)

  predicate Sane(cfg: Config) {
    && cfg.capacity >= 1.0 && cfg.window > 0 && cfg.maxEntries >= 1
    && cfg.refill > 0.0 && cfg.window as real * cfg.refill == cfg.capacity
  }

  function Configure(limit: int, window: int, maxEntries: int): (cfg: Config)
    ensures Sane(cfg)
  {
    var capacity := if limit < 1 then 1.0 else limit as real;
    var span := if window <= 0 then 60_000_000_000 else window;
    Config(capacity, capacity / span as real, span, if maxEntries < 1 then 1 else maxEntries)
  }

  /** The limiter admits `limit` at once and gains as much in each window; nonsense falls back to one, a minute and one. */
  lemma ConfiguredAs(limit: int, window: int, maxEntries: int)
    ensures var cfg := Configure(limit, window, maxEntries);
      && cfg.capacity == (if limit >= 1 then limit as real else 1.0)
      && cfg.window == (if window > 0 then window else 60_000_000_000)
      && cfg.maxEntries == (if maxEntries >= 1 then maxEntries else 1)
      && cfg.window as real * cfg.refill == cfg.capacity
  {
  }

  // ----- One bucket -----

  function Refilled(cfg: Config, e: Entry, now: int): real
  {
    if now > e.updatedAt then
      var tokens := e.tokens + (now - e.updatedAt) as real * cfg.refill;
      if tokens > cfg.capacity then cfg.capacity else tokens
    else e.tokens
  }

  /** The tokens a key has at a time; an unknown key has a full bucket. */
  function Tokens(cfg: Config, entries: Entries, key: Key, now: int): real
  {
    if key in entries then Refilled(cfg, entries[key], now) else cfg.capacity
  }

  datatype Decision = Admit | Deny(retryAfter: int)

  /** The least integer not below `x`. */
  function Ceil(x: real): int {
    if x.Floor as real == x then x.Floor else x.Floor + 1
  }

  function Decide(cfg: Config, tokens: real): Decision
    requires Sane(cfg)
  {
    if tokens >= 1.0 then Admit
    else
      var wait := Ceil((1.0 - tokens) / cfg.refill);
      Deny(if wait < 1 then 1 else wait)
  }

  function After(tokens: real, now: int): Entry {
    Entry(if tokens >= 1.0 then tokens - 1.0 else tokens, now)
  }

  // ----- The limiter without a bound on its entries -----

  datatype Event = Allow(key: Key, now: int) | Reset(key: Key)

  function Step(cfg: Config, entries: Entries, e: Event): Entries
    requires Sane(cfg)
  {
    match e
    case Allow(key, now) => entries[key := After(Tokens(cfg, entries, key, now), now)]
    case Reset(key) => entries - {key}
  }

  predicate Admits(cfg: Config, entries: Entries, e: Event, key: Key)
    requires Sane(cfg)
  {
    e.Allow? && e.key == key && Decide(cfg, Tokens(cfg, entries, key, e.now)).Admit?
  }

  /** How often a key is admitted. */
  function Admitted(cfg: Config, entries: Entries, events: seq<Event>, key: Key): nat
    requires Sane(cfg)
    decreases |events|
  {
    if events == [] then 0
    else
      (if Admits(cfg, entries, events[0], key) then 1 else 0)
      + Admitted(cfg, Step(cfg, entries, events[0]), events[1..], key)
  }

  predicate Healthy(cfg: Config, entries: Entries) {
    forall k :: k in entries ==> 0.0 <= entries[k].tokens <= cfg.capacity
  }

  /** Event times do not go back and stay within an interval. */
  predicate Timed(events: seq<Event>, from: int, to: int) {
    forall i :: 0 <= i < |events| && events[i].Allow? ==> from <= events[i].now <= to
  }

  predicate Ordered(events: seq<Event>) {
    forall i, j :: 0 <= i < j < |events| && events[i].Allow? && events[j].Allow? ==> events[i].now <= events[j].now
  }

  predicate NeverReset(events: seq<Event>, key: Key) {
    forall i :: 0 <= i < |events| ==> events[i] != Reset(key)
  }

  predicate NotAhead(entries: Entries, key: Key, now: int) {
    key in entries ==> entries[key].updatedAt <= now
  }

  lemma ScaleMonotone(a: real, b: real, r: real)
    requires a <= b && r >= 0.0
    ensures a * r <= b * r
  {
    assert (b - a) * r >= 0.0;
  }

  /** A bucket gains at most what flows in. */
  lemma TokensGrowSlowly(cfg: Config, entries: Entries, key: Key, from: int, now: int)
    requires Sane(cfg) && Healthy(cfg, entries) && NotAhead(entries, key, from) && from <= now
    ensures Tokens(cfg, entries, key, now) <= Tokens(cfg, entries, key, from) + (now - from) as real * cfg.refill
    ensures 0.0 <= Tokens(cfg, entries, key, now) <= cfg.capacity
  {
    ScaleMonotone(0.0, (now - from) as real, cfg.refill);
    if key in entries {
      var at := entries[key].updatedAt;
      ScaleMonotone(0.0, (now - at) as real, cfg.refill);
      ScaleMonotone(0.0, (from - at) as real, cfg.refill);
      assert (now - at) as real * cfg.refill == (now - from) as real * cfg.refill + (from - at) as real * cfg.refill;
    }
  }

  lemma SplitInterval(from: int, at: int, to: int, r: real)
    ensures (to - from) as real * r == (to - at) as real * r + (at - from) as real * r
  {
    assert (to - from) as real == (to - at) as real + (at - from) as real;
  }

  /** An admission costs one token, a denial none. */
  lemma CallPays(cfg: Config, entries: Entries, key: Key, now: int)
    requires Sane(cfg)
    ensures Tokens(cfg, Step(cfg, entries, Allow(key, now)), key, now) ==
      Tokens(cfg, entries, key, now) - if Tokens(cfg, entries, key, now) >= 1.0 then 1.0 else 0.0
  {
  }

  /** What a key can spend until `to`: the tokens there and the tokens flowing in. */
  function Budget(cfg: Config, entries: Entries, key: Key, from: int, to: int): real {
    Tokens(cfg, entries, key, from) + (to - from) as real * cfg.refill
  }

  lemma BudgetNotNegative(cfg: Config, entries: Entries, key: Key, from: int, to: int)
    requires Sane(cfg) && Healthy(cfg, entries) && NotAhead(entries, key, from) && from <= to
    ensures Budget(cfg, entries, key, from, to) >= 0.0
  {
    TokensGrowSlowly(cfg, entries, key, from, from);
    ScaleMonotone(0.0, (to - from) as real, cfg.refill);
  }

  lemma BudgetUntouched(cfg: Config, entries: Entries, e: Event, key: Key, from: int, to: int)
    requires Sane(cfg) && e.key != key
    ensures Budget(cfg, Step(cfg, entries, e), key, from, to) == Budget(cfg, entries, key, from, to)
  {
  }

  lemma BudgetSpent(cfg: Config, entries: Entries, key: Key, from: int, now: int, to: int)
    requires Sane(cfg) && Healthy(cfg, entries) && NotAhead(entries, key, from) && from <= now <= to
    ensures Budget(cfg, Step(cfg, entries, Allow(key, now)), key, now, to)
      + (if Tokens(cfg, entries, key, now) >= 1.0 then 1.0 else 0.0) <= Budget(cfg, entries, key, from, to)
  {
    TokensGrowSlowly(cfg, entries, key, from, now);
    SplitInterval(from, now, to, cfg.refill);
    CallPays(cfg, entries, key, now);
  }

  /** Admissions are paid for by the tokens there and the tokens flowing in. */
  lemma {:induction false} AdmissionsArePaid(cfg: Config, entries: Entries, events: seq<Event>, key: Key, from: int, to: int,
                                             budget: real)
    requires Sane(cfg) && Healthy(cfg, entries) && NotAhead(entries, key, from) && from <= to
    requires Timed(events, from, to) && Ordered(events) && NeverReset(events, key)
    requires Budget(cfg, entries, key, from, to) <= budget
    ensures Admitted(cfg, entries, events, key) as real <= budget
    decreases |events|
  {
    BudgetNotNegative(cfg, entries, key, from, to);
    if events != [] {
      var e, rest := events[0], events[1..];
      assert e != Reset(key);
      StepHealthy(cfg, entries, e);
      if e.key != key {
        BudgetUntouched(cfg, entries, e, key, from, to);
        AdmissionsArePaid(cfg, Step(cfg, entries, e), rest, key, from, to, budget);
      } else {
        var cost := if Tokens(cfg, entries, key, e.now) >= 1.0 then 1.0 else 0.0;
        BudgetSpent(cfg, entries, key, from, e.now, to);
        assert Timed(rest, e.now, to);
        AdmissionsArePaid(cfg, Step(cfg, entries, e), rest, key, e.now, to, budget - cost);
      }
    }
  }

  /** How often a key asks. */
  function Asked(events: seq<Event>, key: Key): nat {
    if events == [] then 0 else (if events[0].Allow? && events[0].key == key then 1 else 0) + Asked(events[1..], key)
  }

  /** Waiting never costs tokens. */
  lemma TokensStay(cfg: Config, entries: Entries, key: Key, from: int, now: int)
    requires Sane(cfg) && Healthy(cfg, entries) && NotAhead(entries, key, from) && from <= now
    ensures Tokens(cfg, entries, key, now) >= Tokens(cfg, entries, key, from)
  {
    if key in entries {
      ScaleMonotone((from - entries[key].updatedAt) as real, (now - entries[key].updatedAt) as real, cfg.refill);
    }
  }

  /** Whoever has tokens for all its calls is admitted each time: nothing but its own calls spends them. */
  lemma {:induction false} EnoughTokensAdmit(cfg: Config, entries: Entries, events: seq<Event>, key: Key, from: int, to: int)
    requires Sane(cfg) && Healthy(cfg, entries) && NotAhead(entries, key, from) && from <= to
    requires Timed(events, from, to) && Ordered(events) && NeverReset(events, key)
    requires Asked(events, key) as real <= Tokens(cfg, entries, key, from)
    ensures Admitted(cfg, entries, events, key) == Asked(events, key)
    decreases |events|
  {
    if events != [] {
      var e, rest := events[0], events[1..];
      var next := Step(cfg, entries, e);
      StepHealthy(cfg, entries, e);
      OrderedTail(events);
      if e.Allow? && e.key == key {
        TokensStay(cfg, entries, key, from, e.now);
        CallPays(cfg, entries, key, e.now);
        EnoughTokensAdmit(cfg, next, rest, key, e.now, to);
      } else {
        assert key in next ==> next[key] == entries[key];
        EnoughTokensAdmit(cfg, next, rest, key, from, to);
      }
    }
  }

  /** A key that is new, or was not seen for a window, may call as often as the capacity says, at whatever times. */
  lemma FullBucketAdmits(cfg: Config, entries: Entries, events: seq<Event>, key: Key, from: int, to: int)
    requires Sane(cfg) && Healthy(cfg, entries) && (key in entries ==> from - entries[key].updatedAt >= cfg.window) && from <= to
    requires Timed(events, from, to) && Ordered(events) && NeverReset(events, key)
    requires Asked(events, key) as real <= cfg.capacity
    ensures Admitted(cfg, entries, events, key) == Asked(events, key)
  {
    if key in entries {
      IdleIsFull(cfg, entries, key, from);
    }
    EnoughTokensAdmit(cfg, entries, events, key, from, to);
  }

  lemma StepHealthy(cfg: Config, entries: Entries, e: Event)
    requires Sane(cfg) && Healthy(cfg, entries)
    ensures Healthy(cfg, Step(cfg, entries, e))
  {
    if e.Allow? && e.key in entries && e.now > entries[e.key].updatedAt {
      ScaleMonotone(0.0, (e.now - entries[e.key].updatedAt) as real, cfg.refill);
    }
  }

  /** Over any interval a key is admitted at most `capacity` times plus what refills during it. */
  lemma AdmissionBound(cfg: Config, entries: Entries, events: seq<Event>, key: Key, from: int, to: int)
    requires Sane(cfg) && Healthy(cfg, entries) && NotAhead(entries, key, from) && from <= to
    requires Timed(events, from, to) && Ordered(events) && NeverReset(events, key)
    ensures Admitted(cfg, entries, events, key) as real <= cfg.capacity + (to - from) as real * cfg.refill
  {
    TokensGrowSlowly(cfg, entries, key, from, from);
    AdmissionsArePaid(cfg, entries, events, key, from, to, cfg.capacity + (to - from) as real * cfg.refill);
  }

  // ----- Waiting -----

  lemma CeilBounds(x: real)
    ensures x <= Ceil(x) as real < x + 1.0
  {
  }

  lemma Below(a: real, b: real, r: real)
    requires a < b && r > 0.0
    ensures a * r < b * r
  {
    assert (b - a) * r > 0.0;
  }

  lemma Quotient(x: real, r: real, need: real)
    requires x > 0.0 && r > 0.0 && need == x / r
    ensures need * r == x && need > 0.0
  {
    if need <= 0.0 {
      ScaleMonotone(need, 0.0, r);
    }
  }

  /** A whole number of nanoseconds brings in `x` tokens exactly when it reaches their quotient, rounded up. */
  lemma WaitReaches(wait: int, span: real, x: real, r: real, need: real)
    requires r > 0.0 && need * r == x && span == wait as real
    ensures span * r >= x <==> wait >= Ceil(need)
  {
    CeilBounds(need);
    if wait >= Ceil(need) {
      ScaleMonotone(need, span, r);
    } else {
      Below(span, need, r);
    }
  }

  /** With `tokens` left, `wait` nanoseconds bring the bucket to one token exactly when they cover the need. */
  lemma WaitCovers(tokens: real, wait: int, r: real)
    requires tokens < 1.0 && r > 0.0
    ensures var need := (1.0 - tokens) / r;
      need > 0.0 && (tokens + wait as real * r >= 1.0 <==> wait >= Ceil(need))
  {
    var need := (1.0 - tokens) / r;
    Quotient(1.0 - tokens, r, need);
    WaitReaches(wait, wait as real, 1.0 - tokens, r, need);
  }

  lemma DeniedBucket(cfg: Config, entries: Entries, key: Key, now: int, wait: int)
    requires Sane(cfg) && wait >= 0 && Tokens(cfg, entries, key, now) < 1.0
    ensures Tokens(cfg, Step(cfg, entries, Allow(key, now)), key, now + wait) >= 1.0 <==>
      Tokens(cfg, entries, key, now) + wait as real * cfg.refill >= 1.0
  {
    var tokens := Tokens(cfg, entries, key, now);
    var denied := Step(cfg, entries, Allow(key, now));
    assert denied[key] == Entry(tokens, now);
    assert now + wait - now == wait;
    if wait == 0 {
      assert wait as real * cfg.refill == 0.0;
      assert Tokens(cfg, denied, key, now + wait) == tokens;
    } else {
      var filled := tokens + wait as real * cfg.refill;
      assert Tokens(cfg, denied, key, now + wait) == if filled > cfg.capacity then cfg.capacity else filled;
    }
  }

  /**
   * After a denial the key is admitted exactly from `retryAfter` on: the wait is enough,
   * and a nanosecond less is not.
   */
  lemma RetryAfterIsExact(cfg: Config, entries: Entries, key: Key, now: int, wait: int)
    requires Sane(cfg) && wait >= 0 && Decide(cfg, Tokens(cfg, entries, key, now)).Deny?
    ensures var denied := Step(cfg, entries, Allow(key, now));
      Decide(cfg, Tokens(cfg, denied, key, now + wait)).Admit? <==>
      wait >= Decide(cfg, Tokens(cfg, entries, key, now)).retryAfter
  {
    var tokens := Tokens(cfg, entries, key, now);
    WaitCovers(tokens, wait, cfg.refill);
    CeilBounds((1.0 - tokens) / cfg.refill);
    DeniedBucket(cfg, entries, key, now, wait);
  }

  // ----- The bounded limiter -----

  /** Entries idle for a whole window are dropped when the table is full. */
  function Swept(cfg: Config, entries: Entries, now: int): Entries {
    if |entries| < cfg.maxEntries then entries
    else map k | k in entries && now - entries[k].updatedAt < cfg.window :: entries[k]
  }

  /** If that is not enough an entry updated longest ago goes. */
  predicate MayEvict(cfg: Config, entries: Entries, now: int, evicted: Option<Key>) {
    var swept := Swept(cfg, entries, now);
    if |swept| < cfg.maxEntries then evicted == None
    else evicted.Some? && evicted.value in swept &&
         forall k :: k in swept ==> swept[evicted.value].updatedAt <= swept[k].updatedAt
  }

  function Room(cfg: Config, entries: Entries, now: int, evicted: Option<Key>): Entries {
    var swept := Swept(cfg, entries, now);
    if evicted.Some? then swept - {evicted.value} else swept
  }

  /** One call on the bounded table; nothing is made room for when the key is known. */
  function BoundedStep(cfg: Config, entries: Entries, e: Event, evicted: Option<Key>): Entries
    requires Sane(cfg)
  {
    match e
    case Allow(key, now) =>
      Step(cfg, if key in entries then entries else Room(cfg, entries, now, evicted), e)
    case Reset(key) => entries - {key}
  }

  predicate MayStep(cfg: Config, entries: Entries, e: Event, evicted: Option<Key>) {
    if e.Allow? && e.key !in entries then MayEvict(cfg, entries, e.now, evicted) else evicted == None
  }

  /**
   * Nothing goes while there is room. Else everything idle for a window goes, and only if nothing was idle one entry
   * that was updated no later than any other.
   */
  lemma RoomMeans(cfg: Config, entries: Entries, now: int, evicted: Option<Key>)
    requires |entries| <= cfg.maxEntries && MayEvict(cfg, entries, now, evicted)
    ensures |entries| < cfg.maxEntries ==> Room(cfg, entries, now, evicted) == entries
    ensures |entries| == cfg.maxEntries ==>
      if forall k :: k in entries ==> now - entries[k].updatedAt < cfg.window then
        && evicted.Some? && evicted.value in entries && Room(cfg, entries, now, evicted) == entries - {evicted.value}
        && forall k :: k in entries ==> entries[evicted.value].updatedAt <= entries[k].updatedAt
      else
        && evicted.None?
        && Room(cfg, entries, now, evicted) == map k | k in entries && now - entries[k].updatedAt < cfg.window :: entries[k]
  {
    var swept := Swept(cfg, entries, now);
    if forall k :: k in entries ==> now - entries[k].updatedAt < cfg.window {
      assert swept == entries;
    } else {
      var k :| k in entries && now - entries[k].updatedAt >= cfg.window;
      if |entries| == cfg.maxEntries {
        assert swept.Keys <= entries.Keys - {k};
        SubsetSize(swept.Keys, entries.Keys - {k});
        assert |swept| == |swept.Keys| && |entries| == |entries.Keys|;
      }
    }
  }

  lemma MapSize(entries: Entries, part: Entries)
    requires part.Keys <= entries.Keys
    ensures |part| <= |entries|
  {
    assert |part| == |part.Keys| && |entries| == |entries.Keys|;
    SubsetSize(part.Keys, entries.Keys);
  }

  /** The table never holds more entries than it may. */
  lemma EntriesBounded(cfg: Config, entries: Entries, e: Event, evicted: Option<Key>)
    requires Sane(cfg) && |entries| <= cfg.maxEntries && MayStep(cfg, entries, e, evicted)
    ensures |BoundedStep(cfg, entries, e, evicted)| <= cfg.maxEntries
  {
    match e {
      case Reset(key) => MapSize(entries, entries - {key});
      case Allow(key, now) =>
        if key in entries {
          WriteSize(entries, key, After(Tokens(cfg, entries, key, now), now));
        } else {
          var room := Room(cfg, entries, now, evicted);
          RoomSize(cfg, entries, now, evicted);
          WriteSize(room, key, After(Tokens(cfg, room, key, now), now));
        }
    }
  }

  lemma WriteSize(entries: Entries, key: Key, e: Entry)
    ensures |entries[key := e]| == |entries| + if key in entries then 0 else 1
  {
    var after := entries[key := e];
    assert after.Keys == entries.Keys + {key};
    assert |after| == |after.Keys| && |entries| == |entries.Keys|;
  }

  lemma RoomSize(cfg: Config, entries: Entries, now: int, evicted: Option<Key>)
    requires |entries| <= cfg.maxEntries && cfg.maxEntries >= 1 && MayEvict(cfg, entries, now, evicted)
    ensures |Room(cfg, entries, now, evicted)| < cfg.maxEntries
  {
    var swept := Swept(cfg, entries, now);
    MapSize(entries, swept);
    if evicted.Some? {
      var room := swept - {evicted.value};
      WriteSize(room, evicted.value, swept[evicted.value]);
      assert room[evicted.value := swept[evicted.value]] == swept;
    }
  }

  /** The bounded table agrees with the unbounded one, but for keys once evicted as oldest. */
  ghost predicate Agrees(cfg: Config, bounded: Entries, unbounded: Entries, now: int, lost: set<Key>) {
    && Healthy(cfg, bounded) && Healthy(cfg, unbounded)
    && (forall k :: k in bounded && k !in lost ==> k in unbounded && unbounded[k] == bounded[k])
    && (forall k :: k in unbounded && k !in bounded && k !in lost ==> now - unbounded[k].updatedAt >= cfg.window)
    && (forall k :: k in bounded ==> bounded[k].updatedAt <= now)
    && (forall k :: k in unbounded ==> unbounded[k].updatedAt <= now)
  }

  /** A bucket idle for a window is full again, like that of an unknown key. */
  lemma IdleIsFull(cfg: Config, entries: Entries, key: Key, now: int)
    requires Sane(cfg) && Healthy(cfg, entries) && key in entries && now - entries[key].updatedAt >= cfg.window
    ensures Tokens(cfg, entries, key, now) == cfg.capacity
  {
    ScaleMonotone(cfg.window as real, (now - entries[key].updatedAt) as real, cfg.refill);
  }

  /** Outside the lost keys both tables give every key the same tokens. */
  lemma AgreeOnTokens(cfg: Config, bounded: Entries, unbounded: Entries, now: int, lost: set<Key>, key: Key, later: int)
    requires Sane(cfg) && Agrees(cfg, bounded, unbounded, now, lost) && key !in lost && now <= later
    ensures Tokens(cfg, bounded, key, later) == Tokens(cfg, unbounded, key, later)
  {
    if key in unbounded && key !in bounded {
      IdleIsFull(cfg, unbounded, key, later);
    }
  }

  function LostBy(lost: set<Key>, evicted: Option<Key>): set<Key> {
    if evicted.Some? then lost + {evicted.value} else lost
  }

  function TimeOf(e: Event, now: int): int {
    if e.Allow? then e.now else now
  }

  /** Sweeping idle entries cannot be observed: the step leaves the tables in agreement. */
  lemma StepAgrees(cfg: Config, bounded: Entries, unbounded: Entries, now: int, lost: set<Key>, e: Event, evicted: Option<Key>)
    requires Sane(cfg) && Agrees(cfg, bounded, unbounded, now, lost) && MayStep(cfg, bounded, e, evicted)
    requires e.Allow? ==> now <= e.now
    ensures Agrees(cfg, BoundedStep(cfg, bounded, e, evicted), Step(cfg, unbounded, e), TimeOf(e, now), LostBy(lost, evicted))
  {
    match e {
      case Reset(key) =>
      case Allow(key, later) => AllowAgrees(cfg, bounded, unbounded, now, lost, key, later, evicted);
    }
  }

  lemma AllowAgrees(cfg: Config, bounded: Entries, unbounded: Entries, now: int, lost: set<Key>, key: Key, later: int,
                    evicted: Option<Key>)
    requires Sane(cfg) && Agrees(cfg, bounded, unbounded, now, lost) && now <= later
    requires MayStep(cfg, bounded, Allow(key, later), evicted)
    ensures Agrees(cfg, BoundedStep(cfg, bounded, Allow(key, later), evicted), Step(cfg, unbounded, Allow(key, later)),
                   later, LostBy(lost, evicted))
  {
    var base := if key in bounded then bounded else Room(cfg, bounded, later, evicted);
    RoomAgrees(cfg, bounded, unbounded, now, lost, key, later, evicted);
    StepHealthy(cfg, unbounded, Allow(key, later));
    StepHealthy(cfg, base, Allow(key, later));
    if key !in LostBy(lost, evicted) {
      AgreeOnTokens(cfg, base, unbounded, later, LostBy(lost, evicted), key, later);
    }
  }

  /** Making room forgets idle entries, and one that counts as lost. */
  lemma RoomAgrees(cfg: Config, bounded: Entries, unbounded: Entries, now: int, lost: set<Key>, key: Key, later: int,
                   evicted: Option<Key>)
    requires Sane(cfg) && Agrees(cfg, bounded, unbounded, now, lost) && now <= later
    requires MayStep(cfg, bounded, Allow(key, later), evicted)
    ensures var base := if key in bounded then bounded else Room(cfg, bounded, later, evicted);
      Agrees(cfg, base, unbounded, later, LostBy(lost, evicted))
  {
  }

  // ----- Runs of the bounded limiter -----

  /** A call and the key, if any, that the table chose to evict for it. */
  type Call = (Event, Option<Key>)

  ghost predicate Feasible(cfg: Config, entries: Entries, calls: seq<Call>)
    requires Sane(cfg)
    decreases |calls|
  {
    calls == [] || (MayStep(cfg, entries, calls[0].0, calls[0].1) &&
                    Feasible(cfg, BoundedStep(cfg, entries, calls[0].0, calls[0].1), calls[1..]))
  }

  function BoundedAdmitted(cfg: Config, entries: Entries, calls: seq<Call>, key: Key): nat
    requires Sane(cfg)
    decreases |calls|
  {
    if calls == [] then 0
    else
      (if Admits(cfg, entries, calls[0].0, key) then 1 else 0)
      + BoundedAdmitted(cfg, BoundedStep(cfg, entries, calls[0].0, calls[0].1), calls[1..], key)
  }

  function EventsOf(calls: seq<Call>): (events: seq<Event>)
    ensures |events| == |calls| && forall i :: 0 <= i < |calls| ==> events[i] == calls[i].0
  {
    if calls == [] then [] else [calls[0].0] + EventsOf(calls[1..])
  }

  predicate NeverEvicted(calls: seq<Call>, key: Key) {
    forall i :: 0 <= i < |calls| ==> calls[i].1 != Some(key)
  }

  /** No call comes before `now`. */
  predicate From(calls: seq<Call>, now: int) {
    forall i :: 0 <= i < |calls| && calls[i].0.Allow? ==> now <= calls[i].0.now
  }

  /** A key never evicted as oldest is treated exactly as by a limiter that remembers everyone. */
  lemma {:induction false} BoundedLikeUnbounded(cfg: Config, bounded: Entries, unbounded: Entries, now: int, lost: set<Key>,
                                                calls: seq<Call>, key: Key)
    requires Sane(cfg) && Agrees(cfg, bounded, unbounded, now, lost) && key !in lost
    requires Feasible(cfg, bounded, calls) && NeverEvicted(calls, key) && Ordered(EventsOf(calls)) && From(calls, now)
    ensures BoundedAdmitted(cfg, bounded, calls, key) == Admitted(cfg, unbounded, EventsOf(calls), key)
    decreases |calls|
  {
    if calls != [] {
      var e, evicted := calls[0].0, calls[0].1;
      LaterCalls(calls, now);
      SameFirst(cfg, bounded, unbounded, now, lost, e, key);
      StepAgrees(cfg, bounded, unbounded, now, lost, e, evicted);
      BoundedLikeUnbounded(cfg, BoundedStep(cfg, bounded, e, evicted), Step(cfg, unbounded, e), TimeOf(e, now),
                           LostBy(lost, evicted), calls[1..], key);
    }
  }

  lemma SameFirst(cfg: Config, bounded: Entries, unbounded: Entries, now: int, lost: set<Key>, e: Event, key: Key)
    requires Sane(cfg) && Agrees(cfg, bounded, unbounded, now, lost) && key !in lost && now <= TimeOf(e, now)
    ensures Admits(cfg, bounded, e, key) == Admits(cfg, unbounded, e, key)
  {
    if e.Allow? {
      AgreeOnTokens(cfg, bounded, unbounded, now, lost, key, e.now);
    }
  }

  /** The calls after the first come no earlier than it. */
  lemma {:induction false} LaterCalls(calls: seq<Call>, now: int)
    requires calls != [] && Ordered(EventsOf(calls)) && From(calls, now)
    ensures now <= TimeOf(calls[0].0, now) && From(calls[1..], TimeOf(calls[0].0, now))
    ensures EventsOf(calls)[0] == calls[0].0
    ensures EventsOf(calls)[1..] == EventsOf(calls[1..]) && Ordered(EventsOf(calls[1..]))
  {
    forall i | 0 <= i < |calls[1..]| && calls[1..][i].0.Allow?
      ensures TimeOf(calls[0].0, now) <= calls[1..][i].0.now
    {
      assert EventsOf(calls)[i + 1] == calls[i + 1].0 && EventsOf(calls)[0] == calls[0].0;
    }
    OrderedTail(EventsOf(calls));
  }

  lemma {:induction false} OrderedTail(events: seq<Event>)
    requires Ordered(events) && events != []
    ensures Ordered(events[1..])
  {
  }

  /** From an empty table: what the bounded limiter admits a key that is neither reset nor evicted as oldest. */
  lemma BoundedAdmissionBound(cfg: Config, calls: seq<Call>, key: Key, from: int, to: int)
    requires Sane(cfg) && from <= to && Feasible(cfg, map[], calls) && NeverEvicted(calls, key)
    requires Timed(EventsOf(calls), from, to) && Ordered(EventsOf(calls)) && NeverReset(EventsOf(calls), key)
    ensures BoundedAdmitted(cfg, map[], calls, key) as real <= cfg.capacity + (to - from) as real * cfg.refill
  {
    forall i | 0 <= i < |calls| && calls[i].0.Allow?
      ensures from <= calls[i].0.now
    {
      assert EventsOf(calls)[i] == calls[i].0;
    }
    BoundedLikeUnbounded(cfg, map[], map[], from, {}, calls, key);
    AdmissionBound(cfg, map[], EventsOf(calls), key, from, to);
  }

  // ----- The limiter itself -----

  class RateLimiter {
    var entries: Entries
    const cfg: Config

    constructor (limit: int, window: int, maxEntries: int)
      ensures Valid() && entries == map[] && cfg == Configure(limit, window, maxEntries)
    {
      cfg := Configure(limit, window, maxEntries);
      entries := map[];
    }

    predicate Valid()
      reads this
    {
      Sane(cfg) && |entries| <= cfg.maxEntries
    }

    /** Drop what has been idle for a window, and if need be one entry updated longest ago. */
    method EnsureCapacity(now: int) returns (ghost evicted: Option<Key>)
      requires Valid()
      modifies this`entries
      ensures MayEvict(cfg, old(entries), now, evicted) && entries == Room(cfg, old(entries), now, evicted)
    {
      evicted := None;
      if |entries| < cfg.maxEntries {
        return;
      }
      ghost var goal := Swept(cfg, entries, now);
      var rest := entries.Keys;
      while rest != {}
        invariant rest <= entries.Keys
        invariant forall k :: k in entries <==> k in rest || k in goal
        invariant forall k :: k in entries ==> k in old(entries) && entries[k] == old(entries)[k]
        invariant forall k :: k in rest ==> k in old(entries)
        decreases rest
      {
        var k :| k in rest;
        rest := rest - {k};
        if now - entries[k].updatedAt >= cfg.window {
          entries := entries - {k};
        }
      }
      assert entries == goal;
      if |entries| < cfg.maxEntries {
        return;
      }
      var oldest := OldestKey();
      evicted := Some(oldest);
      entries := entries - {oldest};
    }

    method OldestKey() returns (oldest: Key)
      requires |entries| > 0
      ensures oldest in entries && forall k :: k in entries ==> entries[oldest].updatedAt <= entries[k].updatedAt
    {
      var found := false;
      oldest := "";
      var rest := entries.Keys;
      while rest != {}
        invariant rest <= entries.Keys
        invariant found ==> oldest in entries
        invariant !found ==> rest == entries.Keys
        invariant found ==> forall k :: k in entries && k !in rest ==> entries[oldest].updatedAt <= entries[k].updatedAt
        decreases rest
      {
        var k :| k in rest;
        rest := rest - {k};
        if !found || entries[k].updatedAt < entries[oldest].updatedAt {
          oldest, found := k, true;
        }
      }
      assert |entries.Keys| == |entries|;
    }

    /** `Allow`: one token for one admission, or how long to wait for it. */
    method Allow(key: Key, now: int) returns (allowed: bool, retryAfter: int, ghost evicted: Option<Key>)
      requires Valid()
      modifies this`entries
      ensures Valid() && MayStep(cfg, old(entries), Event.Allow(key, now), evicted)
      ensures entries == BoundedStep(cfg, old(entries), Event.Allow(key, now), evicted)
      ensures Decide(cfg, Tokens(cfg, old(entries), key, now)) == if allowed then Admit else Deny(retryAfter)
    {
      ghost var before := entries;
      evicted := None;
      var item: Entry;
      if key in entries {
        item := entries[key];
      } else {
        evicted := EnsureCapacity(now);
        item := Entry(cfg.capacity, now);
      }
      EntriesBounded(cfg, before, Event.Allow(key, now), evicted);
      var tokens := item.tokens;
      var elapsed := now - item.updatedAt;
      if elapsed > 0 {
        tokens := tokens + elapsed as real * cfg.refill;
        if tokens > cfg.capacity {
          tokens := cfg.capacity;
        }
      }
      assert tokens == Tokens(cfg, before, key, now);
      if tokens >= 1.0 {
        entries := entries[key := Entry(tokens - 1.0, now)];
        assert entries == BoundedStep(cfg, before, Event.Allow(key, now), evicted);
        return true, 0, evicted;
      }
      entries := entries[key := Entry(tokens, now)];
      assert entries == BoundedStep(cfg, before, Event.Allow(key, now), evicted);
      var wait := Ceil((1.0 - tokens) / cfg.refill);
      if wait < 1 {
        wait := 1;
      }
      return false, wait, evicted;
    }

    method Reset(key: Key)
      requires Valid()
      modifies this`entries
      ensures Valid() && entries == BoundedStep(cfg, old(entries), Event.Reset(key), None)
    {
      EntriesBounded(cfg, entries, Event.Reset(key), None);
      entries := entries - {key};
    }
  }
}
