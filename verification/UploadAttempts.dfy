/** Attempts to store a part: at most five, each with another bot, and the retry loop around them. */
module UploadAttempts {
  import opened Text
  import opened Wrappers

  const MAX_ATTEMPTS: nat := 5

  type SessionId = string

  type AttemptId = nat

  type BotId = string

  datatype Status = Started | Succeeded | Failed

  datatype Row = Row(session: SessionId, part: int, number: int, bot: BotId, status: Status)

  type Rows = map<AttemptId, Row>

  datatype Session = Session(open: bool, expectedParts: int, expiresAt: int)

  datatype Error =
    | InvalidPart | SessionNotFound | SessionClosed | SessionExpired | BotAlreadyTried | AttemptsExhausted
    | AttemptNotFound | AttemptClosed

  // ----- The attempts of one part -----

  function Of(rows: Rows, session: SessionId, part: int): set<AttemptId> {
    set id | id in rows && rows[id].session == session && rows[id].part == part
  }

  function Tried(rows: Rows, session: SessionId, part: int): set<BotId> {
    set id | id in Of(rows, session, part) :: rows[id].bot
  }

  /** What the two unique constraints and the check on the number say. */
  ghost predicate Keyed(rows: Rows) {
    && (forall id :: id in rows ==> 1 <= rows[id].number <= MAX_ATTEMPTS)
    && (forall a, b :: a in rows && b in rows && SamePart(rows[a], rows[b]) && a != b ==> rows[a].number != rows[b].number)
    && (forall a, b :: a in rows && b in rows && SamePart(rows[a], rows[b]) && a != b ==> rows[a].bot != rows[b].bot)
  }

  predicate SamePart(a: Row, b: Row) {
    a.session == b.session && a.part == b.part
  }

  /** The attempts of a part are numbered without gaps. */
  ghost predicate Gapless(rows: Rows) {
    forall id, n {:trigger HasNumber(rows, rows[id].session, rows[id].part, n)} ::
      id in rows && 1 <= n <= rows[id].number ==> HasNumber(rows, rows[id].session, rows[id].part, n)
  }

  predicate HasNumber(rows: Rows, session: SessionId, part: int, n: int) {
    exists id :: id in Of(rows, session, part) && rows[id].number == n
  }

  ghost predicate Sound(rows: Rows) {
    Keyed(rows) && Gapless(rows)
  }

  /** `COALESCE(MAX(attempt_number), 0)`. */
  predicate IsLast(rows: Rows, session: SessionId, part: int, n: int) {
    && (forall id :: id in Of(rows, session, part) ==> rows[id].number <= n)
    && if Of(rows, session, part) == {} then n == 0 else HasNumber(rows, session, part, n)
  }

  /** The bots of the first `n` attempts. */
  function BotsUpTo(rows: Rows, session: SessionId, part: int, n: int): set<BotId> {
    set id | id in Of(rows, session, part) && rows[id].number <= n :: rows[id].bot
  }

  lemma {:induction false} FirstBots(rows: Rows, session: SessionId, part: int, n: nat)
    requires Sound(rows) && (n > 0 ==> HasNumber(rows, session, part, n))
    ensures |BotsUpTo(rows, session, part, n)| == n
    decreases n
  {
    if n == 0 {
      assert BotsUpTo(rows, session, part, n) == {};
    } else {
      var last := WithNumber(rows, session, part, n);
      FirstBots(rows, session, part, n - 1);
      OneMoreBot(rows, session, part, last);
    }
  }

  lemma WithNumber(rows: Rows, session: SessionId, part: int, n: nat) returns (last: AttemptId)
    requires Gapless(rows) && HasNumber(rows, session, part, n)
    ensures last in Of(rows, session, part) && rows[last].number == n
    ensures n > 1 ==> HasNumber(rows, session, part, n - 1)
  {
    last :| last in Of(rows, session, part) && rows[last].number == n;
    assert n > 1 ==> HasNumber(rows, rows[last].session, rows[last].part, n - 1);
  }

  /** The bot of an attempt is not among those of the attempts before it. */
  lemma OneMoreBot(rows: Rows, session: SessionId, part: int, last: AttemptId)
    requires Keyed(rows) && last in Of(rows, session, part)
    ensures var n := rows[last].number;
      && BotsUpTo(rows, session, part, n) == BotsUpTo(rows, session, part, n - 1) + {rows[last].bot}
      && rows[last].bot !in BotsUpTo(rows, session, part, n - 1)
  {
    var n := rows[last].number;
    forall bot | bot in BotsUpTo(rows, session, part, n)
      ensures bot == rows[last].bot || bot in BotsUpTo(rows, session, part, n - 1)
    {
      var id :| id in Of(rows, session, part) && rows[id].number <= n && rows[id].bot == bot;
      assert id == last || SamePart(rows[id], rows[last]);
    }
    forall id | id in Of(rows, session, part) && rows[id].number <= n - 1
      ensures rows[id].bot != rows[last].bot
    {
      assert SamePart(rows[id], rows[last]);
    }
  }

  /** The last number of a part counts the bots that were tried. */
  lemma LastCountsBots(rows: Rows, session: SessionId, part: int, n: int)
    requires Sound(rows) && IsLast(rows, session, part, n)
    ensures n >= 0 && |Tried(rows, session, part)| == n
  {
    if Of(rows, session, part) != {} {
      var last :| last in Of(rows, session, part) && rows[last].number == n;
      FirstBots(rows, session, part, n);
    }
    assert Tried(rows, session, part) == BotsUpTo(rows, session, part, n);
  }

  /** The number of an attempt is at most five, and so is the number of bots tried. */
  lemma {:induction false} AtMostFive(rows: Rows, session: SessionId, part: int, bound: nat)
    requires Sound(rows) && forall id :: id in Of(rows, session, part) ==> rows[id].number <= bound
    ensures |Tried(rows, session, part)| <= bound
    decreases bound
  {
    if bound == 0 || HasNumber(rows, session, part, bound) || Of(rows, session, part) == {} {
      var n := if Of(rows, session, part) == {} then 0 else bound;
      LastCountsBots(rows, session, part, n);
    } else {
      AtMostFive(rows, session, part, bound - 1);
    }
  }

  /** A new attempt with the next number and a new bot keeps the table as the constraints want it. */
  lemma Appended(rows: Rows, id: AttemptId, row: Row, last: int)
    requires Sound(rows) && id !in rows && IsLast(rows, row.session, row.part, last)
    requires row.number == last + 1 <= MAX_ATTEMPTS && row.bot !in Tried(rows, row.session, row.part)
    ensures Sound(rows[id := row])
  {
    LastCountsBots(rows, row.session, row.part, last);
    AppendedKeyed(rows, id, row, last);
    var after := rows[id := row];
    forall a, n | a in after && 1 <= n <= after[a].number
      ensures HasNumber(after, after[a].session, after[a].part, n)
    {
      if a == id && n == row.number {
        assert id in Of(after, row.session, row.part);
      } else {
        EarlierNumber(rows, after[a].session, after[a].part, n, a, row, last);
        var b :| b in Of(rows, after[a].session, after[a].part) && rows[b].number == n;
        assert b in Of(after, after[a].session, after[a].part) && after[b] == rows[b];
      }
    }
  }

  lemma AppendedKeyed(rows: Rows, id: AttemptId, row: Row, last: int)
    requires Keyed(rows) && id !in rows && IsLast(rows, row.session, row.part, last) && last >= 0
    requires row.number == last + 1 <= MAX_ATTEMPTS && row.bot !in Tried(rows, row.session, row.part)
    ensures Keyed(rows[id := row])
  {
    forall a | a in rows && SamePart(rows[a], row)
      ensures rows[a].number < row.number && rows[a].bot != row.bot
    {
      assert a in Of(rows, row.session, row.part);
    }
  }

  lemma EarlierNumber(rows: Rows, session: SessionId, part: int, n: int, a: AttemptId, row: Row, last: int)
    requires Sound(rows) && IsLast(rows, row.session, row.part, last) && 1 <= n
    requires if a in rows then rows[a].session == session && rows[a].part == part && n <= rows[a].number
             else row.session == session && row.part == part && n <= last
    ensures HasNumber(rows, session, part, n)
  {
    if a in rows {
      assert HasNumber(rows, rows[a].session, rows[a].part, n);
    } else {
      var b :| b in Of(rows, session, part) && rows[b].number == last;
      assert HasNumber(rows, rows[b].session, rows[b].part, n);
    }
  }

  /** The same attempts by the same bots with the same numbers. */
  ghost predicate SameAttempts(before: Rows, after: Rows) {
    && after.Keys == before.Keys
    && forall id :: id in before ==> after[id].(status := Started) == before[id].(status := Started)
  }

  lemma SameTried(before: Rows, after: Rows, session: SessionId, part: int)
    requires SameAttempts(before, after)
    ensures Of(after, session, part) == Of(before, session, part) && Tried(after, session, part) == Tried(before, session, part)
  {
    assert Of(after, session, part) == Of(before, session, part);
    assert forall id :: id in Of(before, session, part) ==> after[id].bot == before[id].bot;
  }

  /** Closing an attempt changes neither its number nor its bot. */
  lemma Closed(rows: Rows, id: AttemptId, status: Status)
    requires Sound(rows) && id in rows
    ensures var after := rows[id := rows[id].(status := status)];
      Sound(after) && forall session, part :: Tried(after, session, part) == Tried(rows, session, part)
  {
    var after := rows[id := rows[id].(status := status)];
    forall session, part
      ensures Tried(after, session, part) == Tried(rows, session, part)
    {
      SameTried(rows, after, session, part);
    }
    SameIsGapless(rows, after);
  }

  lemma SameIsGapless(before: Rows, after: Rows)
    requires SameAttempts(before, after) && Gapless(before)
    ensures Gapless(after)
  {
    forall a, n | a in after && 1 <= n <= after[a].number
      ensures HasNumber(after, after[a].session, after[a].part, n)
    {
      assert HasNumber(before, before[a].session, before[a].part, n);
      var b :| b in Of(before, before[a].session, before[a].part) && before[b].number == n;
      assert b in Of(after, after[a].session, after[a].part) && after[b].number == n;
    }
  }

  // ----- The table -----

  /** The session accepts attempts on the part. */
  predicate Accepts(sessions: map<SessionId, Session>, session: SessionId, part: int, now: int) {
    && session in sessions && sessions[session].open && now < sessions[session].expiresAt
    && part < sessions[session].expectedParts
  }

  /** What happens around one turn of the retry loop: who is free, what others do meanwhile, what storing comes to. */
  datatype Turn = Turn(acquire: set<BotId> -> Option<BotId>, sessions: map<SessionId, Session>, rivals: seq<BotId>, now: int, put: Put)

  datatype Put = StoredBy(bot: BotId, registered: bool) | Lost(retryable: bool)

  /** The scheduler never hands out an excluded bot, and bot ids carry no surrounding spaces. */
  ghost predicate Honest(turn: Turn) {
    forall used :: turn.acquire(used).Some? ==> turn.acquire(used).value !in used && Trimmed(turn.acquire(used).value)
  }

  predicate Trimmed(bot: BotId) {
    TrimSpace(bot) == bot
  }

  datatype Outcome =
    | Stored(attempt: AttemptId) | Refused(error: Error) | NoBot | PutFailed | Protocol | NotRegistered(attempt: AttemptId)

  /** The session would take an attempt on the part, but the trimmed id has been tried. */
  predicate TakesTried(sessions: map<SessionId, Session>, rows: Rows, session: SessionId, part: int, bot: string, now: int) {
    && part >= 0 && TrimSpace(bot) != "" && Accepts(sessions, session, part, now)
    && TrimSpace(bot) in Tried(rows, session, part)
  }

  /** The turn offers, to a session that would take the part, a bot whose trimmed id has been tried already. */
  predicate OffersTried(rows: Rows, session: SessionId, part: int, turn: Turn) {
    var tried := Tried(rows, session, part);
    && |tried| < MAX_ATTEMPTS && turn.acquire(tried).Some?
    && TakesTried(turn.sessions, rows, session, part, turn.acquire(tried).value, turn.now)
  }

  /** What an attempt may be refused for. */
  predicate RefusedFor(e: Error, sessions: map<SessionId, Session>, session: SessionId, part: int, bot: string, now: int) {
    match e
    case InvalidPart =>
      part < 0 || TrimSpace(bot) == "" || (session in sessions && part >= sessions[session].expectedParts)
    case SessionNotFound => session !in sessions
    case SessionClosed => session in sessions && !sessions[session].open
    case SessionExpired => session in sessions && sessions[session].open && sessions[session].expiresAt <= now
    case BotAlreadyTried => Accepts(sessions, session, part, now)
    case AttemptsExhausted => Accepts(sessions, session, part, now)
    case _ => false
  }

  /** What ends the loop at a turn, given the bots tried before it. */
  predicate Explains(turn: Turn, session: SessionId, part: int, used: set<BotId>, outcome: Outcome) {
    match outcome
    case NoBot => |used| < MAX_ATTEMPTS && turn.acquire(used).None?
    case Stored(_) => turn.acquire(used).Some? && turn.put == StoredBy(turn.acquire(used).value, true)
    case NotRegistered(_) => turn.acquire(used).Some? && turn.put == StoredBy(turn.acquire(used).value, false)
    case Protocol => turn.acquire(used).Some? && turn.put.StoredBy? && turn.put.bot != turn.acquire(used).value
    case PutFailed => turn.put == Lost(false)
    case Refused(e) =>
      (e != BotAlreadyTried &&
       (e == AttemptsExhausted || part < 0 ||
        (turn.acquire(used).Some? && RefusedFor(e, turn.sessions, session, part, turn.acquire(used).value, turn.now))))
  }

  /** What the turn answers once the data was sent, by what storing it came to. */
  predicate Answers(put: Put, bot: BotId, outcome: Option<Outcome>) {
    match outcome
    case None => put == Lost(true)
    case Some(Stored(_)) => put == StoredBy(bot, true)
    case Some(NotRegistered(_)) => put == StoredBy(bot, false)
    case Some(Protocol) => put.StoredBy? && put.bot != bot
    case Some(PutFailed) => put == Lost(false)
    case Some(_) => false
  }

  /** How the attempt of a turn is left behind: `None` when the loop goes on. */
  function Mark(outcome: Option<Outcome>): Status {
    match outcome
    case Some(Stored(_)) => Succeeded
    case Some(NotRegistered(_)) => Started
    case _ => Failed
  }

  /** Everything that was there is still there, unchanged. */
  ghost predicate Kept(before: Rows, after: Rows) {
    forall id :: id in before ==> id in after && after[id] == before[id]
  }

  lemma KeptTried(before: Rows, after: Rows, session: SessionId, part: int)
    requires Kept(before, after)
    ensures Tried(before, session, part) <= Tried(after, session, part)
  {
    forall bot | bot in Tried(before, session, part)
      ensures bot in Tried(after, session, part)
    {
      var id :| id in Of(before, session, part) && before[id].bot == bot;
      assert id in Of(after, session, part);
    }
  }

  lemma StartedIsTried(before: Rows, after: Rows, id: AttemptId, session: SessionId, part: int)
    requires Kept(before, after) && id in Of(after, session, part)
    ensures Tried(before, session, part) <= Tried(after, session, part) && after[id].bot in Tried(after, session, part)
  {
    KeptTried(before, after, session, part);
  }

  /** New attempts on the part, no two by the same bot. */
  ghost predicate Attempted(before: Rows, after: Rows, session: SessionId, part: int, mine: seq<AttemptId>) {
    && (forall i :: 0 <= i < |mine| ==> mine[i] !in before && mine[i] in Of(after, session, part))
    && (forall i, j :: 0 <= i < j < |mine| ==> after[mine[i]].bot != after[mine[j]].bot)
  }

  /** All attempts failed but for the last, which is marked as given. */
  predicate Marked(rows: Rows, mine: seq<AttemptId>, last: Status) {
    forall i :: 0 <= i < |mine| ==> mine[i] in rows && rows[mine[i]].status == if i < |mine| - 1 then Failed else last
  }

  lemma StillMarked(before: Rows, after: Rows, mine: seq<AttemptId>, tried: Option<AttemptId>, mark: Status)
    requires Marked(before, mine, Failed) && Kept(before, after)
    requires if tried.Some? then tried.value in after && after[tried.value].status == mark else mark == Failed
    ensures Marked(after, mine + if tried.Some? then [tried.value] else [], mark)
  {
  }

  lemma StillAttempted(first: Rows, before: Rows, after: Rows, session: SessionId, part: int, mine: seq<AttemptId>,
                       tried: Option<AttemptId>)
    requires Attempted(first, before, session, part, mine) && Kept(first, before) && Kept(before, after) && Keyed(after)
    requires tried.Some? ==> tried.value !in before && tried.value in Of(after, session, part)
    ensures Attempted(first, after, session, part, mine + if tried.Some? then [tried.value] else [])
  {
    var all := mine + if tried.Some? then [tried.value] else [];
    forall i, j | 0 <= i < j < |all|
      ensures after[all[i]].bot != after[all[j]].bot
    {
      if j == |mine| {
        assert all[i] in before && SamePart(after[all[i]], after[all[j]]);
      }
    }
  }

  /** The loop so far: attempts of its own on top of what there was, each with a bot not tried before. */
  ghost predicate Underway(first: Rows, now: Rows, session: SessionId, part: int, mine: seq<AttemptId>) {
    && Kept(first, now) && Attempted(first, now, session, part, mine)
    && |mine| + |Tried(first, session, part)| <= |Tried(now, session, part)|
  }

  /** One turn more. */
  lemma GoesOn(first: Rows, before: Rows, after: Rows, session: SessionId, part: int, mine: seq<AttemptId>,
               tried: Option<AttemptId>)
    requires Underway(first, before, session, part, mine) && Kept(before, after) && Sound(after)
    requires tried.Some? ==>
      && tried.value !in before && tried.value in Of(after, session, part)
      && |Tried(after, session, part)| > |Tried(before, session, part)|
    ensures Underway(first, after, session, part, mine + if tried.Some? then [tried.value] else [])
  {
    StillAttempted(first, before, after, session, part, mine, tried);
    KeptTried(before, after, session, part);
    SubsetSize(Tried(before, session, part), Tried(after, session, part));
  }

  class Table {
    var sessions: map<SessionId, Session>
    var rows: Rows
    var nextId: AttemptId

    ghost predicate Valid()
      reads this
    {
      Sound(rows) && forall id :: id in rows ==> id < nextId
    }

    constructor (sessions: map<SessionId, Session>)
      ensures Valid() && rows == map[] && this.sessions == sessions
    {
      this.sessions, rows, nextId := sessions, map[], 0;
    }

    /** `UsedBotIDs`: the bots already tried for a part. */
    method UsedBotIds(session: SessionId, part: int) returns (bots: Result<set<BotId>, Error>)
      requires Valid()
      ensures bots == if part < 0 then Failure(InvalidPart) else Success(Tried(rows, session, part))
      ensures bots.Success? ==> |bots.value| <= MAX_ATTEMPTS
    {
      if part < 0 {
        return Failure(InvalidPart);
      }
      AtMostFive(rows, session, part, MAX_ATTEMPTS);
      bots := Success(Tried(rows, session, part));
    }

    /** `StartAttempt`: accepted exactly for an untried bot while fewer than five bots were tried. */
    method StartAttempt(session: SessionId, part: int, botUserId: string, now: int) returns (result: Result<AttemptId, Error>)
      requires Valid()
      modifies `rows, `nextId
      ensures Valid()
      ensures result.Success? <==>
        && session in sessions && sessions[session].open && now < sessions[session].expiresAt
        && 0 <= part < sessions[session].expectedParts && TrimSpace(botUserId) != ""
        && TrimSpace(botUserId) !in Tried(old(rows), session, part) && |Tried(old(rows), session, part)| < MAX_ATTEMPTS
      ensures result.Success? ==>
        && result.value !in old(rows)
        && rows == old(rows)[result.value :=
             Row(session, part, |Tried(old(rows), session, part)| + 1, TrimSpace(botUserId), Started)]
      ensures result.Failure? ==> rows == old(rows)
      ensures result == Failure(BotAlreadyTried) <==> TakesTried(sessions, old(rows), session, part, botUserId, now)
      ensures result == Failure(AttemptsExhausted) ==> |Tried(rows, session, part)| == MAX_ATTEMPTS
      ensures result.Failure? ==> RefusedFor(result.error, sessions, session, part, botUserId, now)
    {
      var bot := TrimSpace(botUserId);
      if part < 0 || bot == "" {
        return Failure(InvalidPart);
      }
      if session !in sessions {
        return Failure(SessionNotFound);
      }
      if !sessions[session].open {
        return Failure(SessionClosed);
      }
      if now >= sessions[session].expiresAt {
        return Failure(SessionExpired);
      }
      if part >= sessions[session].expectedParts {
        return Failure(InvalidPart);
      }
      if bot in Tried(rows, session, part) {
        return Failure(BotAlreadyTried);
      }
      var attemptNumber := MaxNumber(session, part);
      LastCountsBots(rows, session, part, attemptNumber);
      if attemptNumber >= MAX_ATTEMPTS {
        AtMostFive(rows, session, part, MAX_ATTEMPTS);
        return Failure(AttemptsExhausted);
      }
      var id := Insert(session, part, attemptNumber, bot);
      result := Success(id);
    }

    method Insert(session: SessionId, part: int, last: int, bot: BotId) returns (id: AttemptId)
      requires Valid() && IsLast(rows, session, part, last) && last < MAX_ATTEMPTS && bot !in Tried(rows, session, part)
      modifies `rows, `nextId
      ensures Valid() && id !in old(rows) && rows == old(rows)[id := Row(session, part, last + 1, bot, Started)]
    {
      id := nextId;
      Appended(rows, id, Row(session, part, last + 1, bot, Started), last);
      rows := rows[id := Row(session, part, last + 1, bot, Started)];
      nextId := nextId + 1;
    }

    method MaxNumber(session: SessionId, part: int) returns (last: int)
      requires Valid()
      ensures IsLast(rows, session, part, last)
    {
      last := 0;
      var rest := Of(rows, session, part);
      while rest != {}
        invariant rest <= Of(rows, session, part)
        invariant forall id :: id in Of(rows, session, part) - rest ==> rows[id].number <= last
        invariant if Of(rows, session, part) == rest then last == 0 else HasNumber(rows, session, part, last)
        decreases rest
      {
        var id :| id in rest;
        if rows[id].number > last {
          last := rows[id].number;
        }
        rest := rest - {id};
      }
    }

    /** `FinishAttempt`: the first outcome stays; telling it again is fine, telling another is not. */
    method FinishAttempt(id: AttemptId, status: Status) returns (error: Option<Error>)
      requires Valid()
      modifies `rows
      ensures Valid()
      ensures error == None <==> status != Started && id in old(rows) && old(rows)[id].status in {Started, status}
      ensures error == None ==> rows == old(rows)[id := old(rows)[id].(status := status)]
      ensures error.Some? ==> rows == old(rows)
      ensures error == Some(AttemptNotFound) <==> status != Started && id !in old(rows)
      ensures error.Some? && error != Some(AttemptNotFound) ==> error == Some(AttemptClosed)
    {
      if status == Started {
        return Some(AttemptClosed);
      }
      if id !in rows {
        return Some(AttemptNotFound);
      }
      if rows[id].status == Started {
        Closed(rows, id, status);
        rows := rows[id := rows[id].(status := status)];
        return None;
      }
      if rows[id].status == status {
        assert rows == rows[id := rows[id].(status := status)];
        return None;
      }
      error := Some(AttemptClosed);
    }

    /** Other calls on the same part start attempts of their own. */
    method Rivals(session: SessionId, part: int, bots: seq<BotId>, now: int)
      requires Valid()
      modifies `rows, `nextId
      ensures Valid() && Kept(old(rows), rows) && (bots == [] ==> rows == old(rows))
    {
      var i := 0;
      while i < |bots|
        invariant 0 <= i && Valid() && Kept(old(rows), rows) && (bots == [] ==> rows == old(rows))
      {
        var ignored := StartAttempt(session, part, bots[i], now);
        i := i + 1;
      }
    }

    /**
     * One turn of the retry loop of `PutPart`. When it goes on, the bot offered counts as tried by its trimmed id,
     * and that is progress unless the id was tried before; a bot offered under an untrimmed form of a tried id
     * makes the turn go on with nothing changed, so the next turn can be the same.
     */
    method TryOnce(session: SessionId, part: int, turn: Turn) returns (outcome: Option<Outcome>, ghost mine: Option<AttemptId>)
      requires Valid()
      modifies this
      ensures Valid() && Kept(old(rows), rows)
      ensures outcome.None? ==>
        && turn.acquire(Tried(old(rows), session, part)).Some?
        && TrimSpace(turn.acquire(Tried(old(rows), session, part)).value) in Tried(rows, session, part)
      ensures outcome.None? && TrimSpace(turn.acquire(Tried(old(rows), session, part)).value) !in Tried(old(rows), session, part) ==>
        |Tried(rows, session, part)| > |Tried(old(rows), session, part)|
      ensures outcome.None? && turn.rivals == [] ==>
        (rows == old(rows) <==>
         TrimSpace(turn.acquire(Tried(old(rows), session, part)).value) in Tried(old(rows), session, part))
      ensures OffersTried(old(rows), session, part, turn) ==> outcome.None? && mine.None? && (turn.rivals == [] ==> rows == old(rows))
      ensures mine.Some? ==>
        && mine.value !in old(rows) && mine.value in Of(rows, session, part)
        && rows[mine.value].status == Mark(outcome)
        && |Tried(rows, session, part)| > |Tried(old(rows), session, part)|
      ensures outcome.Some? && (outcome.value.Stored? || outcome.value.NotRegistered?) ==> mine == Some(outcome.value.attempt)
      ensures outcome == Some(Refused(AttemptsExhausted)) ==> mine == None && |Tried(rows, session, part)| == MAX_ATTEMPTS
      ensures outcome.Some? ==> Explains(turn, session, part, Tried(old(rows), session, part), outcome.value)
      ensures outcome.None? && mine.Some? ==> turn.put == Lost(true)
    {
      mine := None;
      var used := UsedBotIds(session, part);
      if used.Failure? {
        return Some(Refused(used.error)), None;
      }
      var excluded := used.value;
      if |excluded| >= MAX_ATTEMPTS {
        return Some(Refused(AttemptsExhausted)), None;
      }
      var acquired := turn.acquire(excluded);
      if acquired.None? {
        return Some(NoBot), None;
      }
      var bot := acquired.value;
      sessions := turn.sessions;
      Rivals(session, part, turn.rivals, turn.now);
      KeptTried(old(rows), rows, session, part);
      outcome, mine := TryBot(session, part, bot, turn);
      SubsetSize(Tried(old(rows), session, part), Tried(rows, session, part));
    }

    /** The turn of a bot that was free: unless the attempt is refused for another reason, the bot ends up tried. */
    method TryBot(session: SessionId, part: int, bot: BotId, turn: Turn) returns (outcome: Option<Outcome>, ghost mine: Option<AttemptId>)
      requires Valid()
      modifies `rows, `nextId
      ensures Valid() && Kept(old(rows), rows)
      ensures Tried(old(rows), session, part) <= Tried(rows, session, part)
      ensures outcome.None? ==> TrimSpace(bot) in Tried(rows, session, part)
      ensures mine.Some? ==> TrimSpace(bot) in Tried(rows, session, part) && TrimSpace(bot) !in Tried(old(rows), session, part)
      ensures mine.None? ==> rows == old(rows)
      ensures TakesTried(sessions, old(rows), session, part, bot, turn.now) ==> outcome.None?
      ensures mine.Some? ==>
        mine.value !in old(rows) && mine.value in Of(rows, session, part) && rows[mine.value].status == Mark(outcome)
      ensures outcome.Some? && (outcome.value.Stored? || outcome.value.NotRegistered?) ==> mine == Some(outcome.value.attempt)
      ensures outcome == Some(Refused(AttemptsExhausted)) ==> mine == None && |Tried(rows, session, part)| == MAX_ATTEMPTS
      ensures mine.Some? ==> Answers(turn.put, bot, outcome)
      ensures mine.None? && outcome.Some? ==>
        && outcome.value.Refused? && outcome.value.error != BotAlreadyTried
        && RefusedFor(outcome.value.error, sessions, session, part, bot, turn.now)
    {
      var started := StartAttempt(session, part, bot, turn.now);
      if started == Failure(BotAlreadyTried) {
        return None, None;
      }
      if started.Failure? {
        return Some(Refused(started.error)), None;
      }
      mine := Some(started.value);
      StartedIsTried(old(rows), rows, started.value, session, part);
      outcome := Settle(started.value, bot, turn.put);
      KeptTried(old(rows), rows, session, part);
    }

    /** What is done with the attempt once the data was sent. */
    method Settle(attempt: AttemptId, bot: BotId, put: Put) returns (outcome: Option<Outcome>)
      requires Valid() && attempt in rows && rows[attempt].status == Started
      modifies `rows
      ensures Valid() && rows == old(rows)[attempt := old(rows)[attempt].(status := Mark(outcome))]
      ensures forall session, part :: Tried(rows, session, part) == Tried(old(rows), session, part)
      ensures Answers(put, bot, outcome)
      ensures outcome.Some? && (outcome.value.Stored? || outcome.value.NotRegistered?) ==> outcome.value.attempt == attempt
    {
      var error;
      Closed(rows, attempt, Failed);
      Closed(rows, attempt, Succeeded);
      if put.Lost? {
        error := FinishAttempt(attempt, Failed);
        return if put.retryable then None else Some(PutFailed);
      }
      if put.bot != bot {
        error := FinishAttempt(attempt, Failed);
        return Some(Protocol);
      }
      if !put.registered {
        assert rows == rows[attempt := rows[attempt].(status := Started)];
        return Some(NotRegistered(attempt));
      }
      error := FinishAttempt(attempt, Succeeded);
      return Some(Stored(attempt));
    }

    /**
     * The retry loop of `PutPart`, whatever other calls do meanwhile. It ends; it tries no more bots than are left
     * of five, each once; every attempt it leaves behind failed but for the last, which says what the call answers.
     */
    method Deliver(session: SessionId, part: int, turns: nat -> Turn)
      returns (outcome: Outcome, ghost mine: seq<AttemptId>, ghost last: nat, ghost used: set<BotId>)
      requires Valid() && forall i :: Honest(turns(i))
      modifies this
      ensures Valid() && Kept(old(rows), rows)
      ensures |mine| + |Tried(old(rows), session, part)| <= MAX_ATTEMPTS
      ensures Attempted(old(rows), rows, session, part, mine)
      ensures outcome == Refused(AttemptsExhausted) ==> |Tried(rows, session, part)| == MAX_ATTEMPTS
      ensures outcome.Stored? || outcome.NotRegistered? ==> mine != [] && mine[|mine| - 1] == outcome.attempt
      ensures Marked(rows, mine, Mark(Some(outcome)))
      ensures Explains(turns(last), session, part, used, outcome) && Tried(old(rows), session, part) <= used && |mine| <= last + 1
    {
      mine, last, used := [], 0, {};
      var i := 0;
      AtMostFive(rows, session, part, MAX_ATTEMPTS);
      while true
        invariant Valid() && Underway(old(rows), rows, session, part, mine) && Marked(rows, mine, Failed)
        invariant |mine| <= i && |Tried(rows, session, part)| <= MAX_ATTEMPTS
        decreases MAX_ATTEMPTS - |Tried(rows, session, part)|
      {
        ghost var before := rows;
        var step;
        ghost var tried;
        last, used := i, Tried(rows, session, part);
        KeptTried(old(rows), rows, session, part);
        assert Honest(turns(i));
        step, tried := TryOnce(session, part, turns(i));
        GoesOn(old(rows), before, rows, session, part, mine, tried);
        StillMarked(before, rows, mine, tried, Mark(step));
        mine := mine + if tried.Some? then [tried.value] else [];
        AtMostFive(rows, session, part, MAX_ATTEMPTS);
        if step.Some? {
          return step.value, mine, last, used;
        }
        i := i + 1;
      }
    }
  }
}
