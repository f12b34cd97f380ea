/** Part uploads, sweeps and table transactions interleaved: when a blob in use is lost, and when never. */
module ChunkGc {
  import opened ChunkTables
  import opened Wrappers

  type Pid = nat

  /** Program points of `PutPart` (left) and of one sweep candidate (right); `Locked` states hold the digest lock. */
  datatype Proc =
    | Idle
    | WantsPart(k: PartKey, key: Key)
    | InPart(k: PartKey, key: Key)
    | Missing(k: PartKey, key: Key)
    | Uploaded(k: PartKey, key: Key, location: Location)
    | Found(k: PartKey, key: Key, chunk: ChunkId)
    | WantsSweep(chunk: ChunkId, key: Key)
    | InSweep(chunk: ChunkId, key: Key)
    | Doomed(chunk: ChunkId, key: Key, location: Location)
    | BlobGone(chunk: ChunkId, key: Key)
    | Leaving(key: Key)

  predicate Holds(p: Proc, key: Key) {
    !p.Idle? && !p.WantsPart? && !p.WantsSweep? && p.key == key
  }

  /** `blobs` says which content each stored message holds. */
  datatype Sys = Sys(
    db: Db, blobs: map<Location, Key>, locks: map<Key, Pid>, procs: map<Pid, Proc>,
    clock: int, nextChunk: ChunkId, nextLocation: Location, nextFile: FileId, nextVersion: VersionId)

  datatype Action =
    | StartPart(pid: Pid, k: PartKey, key: Key)
    | StartSweep(pid: Pid, chunk: ChunkId)
    | Lock(pid: Pid)
    | Inspect(pid: Pid)
    | Put(pid: Pid)
    | RegisterChunk(pid: Pid)
    | Attach(pid: Pid)
    | Load(pid: Pid, cutoff: int)
    | DeleteBlob(pid: Pid)
    | RemoveRow(pid: Pid)
    | Fail(pid: Pid)
    | Crash(pid: Pid)
    | Unlock(pid: Pid)
    | OpenSession(sid: SessionId)
    | FinalizeNew(sid: SessionId)
    | FinalizeVersion(sid: SessionId, file: FileId)
    | CloseSession(sid: SessionId, status: Status)
    | Restore(file: FileId, source: VersionId)
    | PurgeFiles(doomed: set<FileId>, closed: set<SessionId>)
    | Tick(elapsed: nat)

  function ProcOf(s: Sys, pid: Pid): Proc {
    if pid in s.procs then s.procs[pid] else Idle
  }

  predicate Enabled(s: Sys, a: Action) {
    match a
    case StartPart(pid, _, _) => ProcOf(s, pid).Idle?
    case StartSweep(pid, c) => ProcOf(s, pid).Idle? && c in s.db.chunks
    case Lock(pid) =>
      var p := ProcOf(s, pid);
      (p.WantsPart? || p.WantsSweep?) && p.key !in s.locks
    case Inspect(pid) => ProcOf(s, pid).InPart?
    case Put(pid) => ProcOf(s, pid).Missing?
    case RegisterChunk(pid) => ProcOf(s, pid).Uploaded?
    case Attach(pid) => ProcOf(s, pid).Found?
    case Load(pid, _) => ProcOf(s, pid).InSweep?
    case DeleteBlob(pid) => ProcOf(s, pid).Doomed?
    case RemoveRow(pid) => ProcOf(s, pid).BlobGone?
    case Fail(pid) =>
      var p := ProcOf(s, pid);
      p.InPart? || p.Missing? || p.Uploaded? || p.Found? || p.InSweep? || p.Doomed?
    case Crash(pid) => ProcOf(s, pid).BlobGone?
    case Unlock(pid) => ProcOf(s, pid).Leaving?
    case OpenSession(sid) => sid !in s.db.sessions
    case FinalizeVersion(_, file) => file in s.db.files
    case CloseSession(_, status) => status in {Cancelled, Expired}
    case _ => true
  }

  function At(s: Sys, pid: Pid, p: Proc): Sys {
    s.(procs := s.procs[pid := p])
  }

  /** After the session check, look the content up by digest. */
  ghost function Inspected(s: Sys, p: Proc): Proc
    requires p.InPart?
  {
    if p.k.session !in s.db.sessions || s.db.sessions[p.k.session] != Open || p.k in s.db.parts then Leaving(p.key)
    else
      match s.db.Find(p.key)
      case Some(c) => Found(p.k, p.key, c)
      case None => Missing(p.k, p.key)
  }

  ghost function Apply(s: Sys, a: Action): Sys
    requires Enabled(s, a)
  {
    match a
    case StartPart(pid, k, key) => At(s, pid, WantsPart(k, key))
    case StartSweep(pid, c) => At(s, pid, WantsSweep(c, s.db.chunks[c].key))
    case Lock(pid) =>
      var p := ProcOf(s, pid);
      At(s, pid, if p.WantsPart? then InPart(p.k, p.key) else InSweep(p.chunk, p.key)).(locks := s.locks[p.key := pid])
    case Inspect(pid) => At(s, pid, Inspected(s, ProcOf(s, pid)))
    case Put(pid) =>
      var p := ProcOf(s, pid);
      At(s, pid, Uploaded(p.k, p.key, s.nextLocation))
        .(blobs := s.blobs[s.nextLocation := p.key], nextLocation := s.nextLocation + 1)
    case RegisterChunk(pid) =>
      var p := ProcOf(s, pid);
      var (db, c) := s.db.Register(s.nextChunk, p.key, p.location, s.clock);
      var stored := At(s, pid, Found(p.k, p.key, c)).(db := db, nextChunk := s.nextChunk + 1);
      if c in db.chunks && db.chunks[c].location != p.location then stored.(blobs := s.blobs - {p.location}) else stored
    case Attach(pid) =>
      var p := ProcOf(s, pid);
      At(s, pid, Leaving(p.key)).(db := s.db.AttachPart(p.k, p.chunk))
    case Load(pid, cutoff) =>
      var p := ProcOf(s, pid);
      if s.db.IsCandidate(p.chunk, cutoff) then At(s, pid, Doomed(p.chunk, p.key, s.db.chunks[p.chunk].location))
      else At(s, pid, Leaving(p.key))
    case DeleteBlob(pid) =>
      var p := ProcOf(s, pid);
      At(s, pid, BlobGone(p.chunk, p.key)).(blobs := s.blobs - {p.location})
    case RemoveRow(pid) =>
      var p := ProcOf(s, pid);
      At(s, pid, Leaving(p.key)).(db := s.db.RemoveCandidate(p.chunk))
    case Fail(pid) => At(s, pid, Leaving(ProcOf(s, pid).key))
    case Crash(pid) => At(s, pid, Leaving(ProcOf(s, pid).key))
    case Unlock(pid) => At(s, pid, Idle).(locks := s.locks - {ProcOf(s, pid).key})
    case OpenSession(sid) => s.(db := s.db.(sessions := s.db.sessions[sid := Open]))
    case FinalizeNew(sid) =>
      s.(db := s.db.Finalize(sid, s.nextFile, s.nextVersion), nextFile := s.nextFile + 1, nextVersion := s.nextVersion + 1)
    case FinalizeVersion(sid, file) =>
      s.(db := s.db.Finalize(sid, file, s.nextVersion), nextVersion := s.nextVersion + 1)
    case CloseSession(sid, status) => s.(db := s.db.Close(sid, status))
    case Restore(file, source) =>
      s.(db := s.db.RestoreVersion(file, source, s.nextVersion), nextVersion := s.nextVersion + 1)
    case PurgeFiles(doomed, closed) => s.(db := s.db.Purge(doomed, closed))
    case Tick(elapsed) => s.(clock := s.clock + elapsed)
  }

  ghost predicate CanRun(s: Sys, actions: seq<Action>)
    decreases |actions|
  {
    actions == [] || (Enabled(s, actions[0]) && CanRun(Apply(s, actions[0]), actions[1..]))
  }

  ghost function Run(s: Sys, actions: seq<Action>): Sys
    requires CanRun(s, actions)
    decreases |actions|
  {
    if actions == [] then s else Run(Apply(s, actions[0]), actions[1..])
  }

  function Init(): Sys {
    Sys(Db(map[], map[], map[], map[], map[]), map[], map[], map[], 0, 0, 0, 0, 0)
  }

  // ----- Invariants -----

  /** Uniqueness of content and of stored messages, and allocated names. */
  ghost predicate RowsUnique(s: Sys) {
    && (forall c, d :: c in s.db.chunks && d in s.db.chunks && s.db.chunks[c].key == s.db.chunks[d].key ==> c == d)
    && (forall c, d :: c in s.db.chunks && d in s.db.chunks && s.db.chunks[c].location == s.db.chunks[d].location ==> c == d)
    && (forall c :: c in s.db.chunks ==> c < s.nextChunk && s.db.chunks[c].location < s.nextLocation)
    && (forall v :: v in s.db.versions ==> v < s.nextVersion)
    && (forall f :: f in s.db.files ==> f < s.nextFile)
  }

  predicate ReadyRow(db: Db, c: ChunkId) {
    c in db.chunks && db.chunks[c].ready
  }

  ghost predicate RowsReady(db: Db, rows: Rows) {
    forall i :: i in rows ==> ReadyRow(db, rows[i])
  }

  /** Foreign keys, and what a file or version refers to is ready. */
  ghost predicate References(db: Db) {
    && (forall k :: k in db.parts ==> db.parts[k] in db.chunks && k.session in db.sessions)
    && (forall f :: f in db.files ==> RowsReady(db, db.files[f]))
    && (forall v :: v in db.versions ==> RowsReady(db, db.versions[v].rows) && db.versions[v].file in db.files)
  }

  predicate HoldsAt(s: Sys, pid: Pid, key: Key) {
    pid in s.procs && Holds(s.procs[pid], key)
  }

  /** A process inside a critical section owns the lock of its digest, and every lock has such an owner. */
  ghost predicate LocksHeld(s: Sys) {
    && (forall pid, key :: HoldsAt(s, pid, key) ==> key in s.locks && s.locks[key] == pid)
    && (forall key :: key in s.locks ==> HoldsAt(s, s.locks[key], key))
  }

  /** What a process knows about the row it is working on stays true until it lets go of the lock. */
  ghost predicate Stable(s: Sys, p: Proc) {
    match p
    case WantsSweep(c, key) => c < s.nextChunk && (c in s.db.chunks ==> s.db.chunks[c].key == key)
    case InSweep(c, key) => c < s.nextChunk && (c in s.db.chunks ==> s.db.chunks[c].key == key)
    case Missing(_, key) => NoRow(s.db, key)
    case Uploaded(_, key, location) =>
      (&& NoRow(s.db, key) && location in s.blobs && s.blobs[location] == key && location < s.nextLocation
       && forall c :: c in s.db.chunks ==> s.db.chunks[c].location != location)
    case Found(_, key, c) => c < s.nextChunk && (c in s.db.chunks ==> s.db.chunks[c].key == key)
    case Doomed(c, key, location) => Condemned(s.db, c, key) && s.db.chunks[c].location == location
    case BlobGone(c, key) => Condemned(s.db, c, key)
    case _ => true
  }

  ghost predicate NoRow(db: Db, key: Key) {
    forall c :: c in db.chunks ==> db.chunks[c].key != key
  }

  predicate Condemned(db: Db, c: ChunkId, key: Key) {
    c in db.chunks && db.chunks[c].key == key && !db.chunks[c].ready && !db.Referenced(c)
  }

  ghost predicate AllStable(s: Sys) {
    forall pid :: pid in s.procs ==> Stable(s, s.procs[pid])
  }

  predicate SameUpload(s: Sys, p: Pid, q: Pid) {
    ProcOf(s, p).Uploaded? && ProcOf(s, q).Uploaded? && ProcOf(s, p).location == ProcOf(s, q).location
  }

  /** Two uploads in flight never share a message. */
  ghost predicate UploadsApart(s: Sys) {
    forall p, q :: SameUpload(s, p, q) ==> p == q
  }

  /** A message that a row names holds the content of the row. */
  ghost predicate BlobsTrue(s: Sys) {
    forall c :: c in s.db.chunks && s.db.chunks[c].location in s.blobs ==> s.blobs[s.db.chunks[c].location] == s.db.chunks[c].key
  }

  /** What every step keeps, whatever is lost. */
  ghost predicate Inv(s: Sys) {
    RowsUnique(s) && References(s.db) && LocksHeld(s) && AllStable(s) && UploadsApart(s) && BlobsTrue(s)
  }

  /** A row without its blob is unfinished and nothing refers to it. */
  ghost predicate Intact(s: Sys) {
    forall c :: c in s.db.chunks && s.db.chunks[c].location !in s.blobs ==> Condemned(s.db, c, s.db.chunks[c].key)
  }

  // ----- The promise -----

  /** The row is there, and so is its blob with the right content. */
  predicate Held(s: Sys, c: ChunkId) {
    c in s.db.chunks && s.db.chunks[c].location in s.blobs && s.blobs[s.db.chunks[c].location] == s.db.chunks[c].key
  }

  /** Nothing in use has lost its blob, and files and versions are committed. */
  ghost predicate Safe(s: Sys) {
    && (forall c :: s.db.Referenced(c) ==> Held(s, c))
    && (forall c :: s.db.InFile(c) || s.db.InVersion(c) ==> c in s.db.chunks && s.db.chunks[c].ready)
  }

  lemma ReferencedRow(db: Db, c: ChunkId)
    requires References(db) && db.Referenced(c)
    ensures c in db.chunks
    ensures db.InFile(c) || db.InVersion(c) ==> db.chunks[c].ready
  {
    if db.InFile(c) {
      var f :| f in db.files && c in db.files[f].Values;
      var i :| i in db.files[f] && db.files[f][i] == c;
    }
    if db.InVersion(c) {
      var v :| v in db.versions && c in db.versions[v].rows.Values;
      var i :| i in db.versions[v].rows && db.versions[v].rows[i] == c;
    }
  }

  lemma IntactIsSafe(s: Sys)
    requires Inv(s) && Intact(s)
    ensures Safe(s)
  {
    forall c | s.db.Referenced(c)
      ensures Held(s, c)
      ensures s.db.InFile(c) || s.db.InVersion(c) ==> s.db.chunks[c].ready
    {
      ReferencedRow(s.db, c);
    }
  }

  // ----- Table transactions -----

  /** No new rows, and what a row says about its content and blob is permanent. */
  ghost predicate RowsKept(db: Db, after: Db) {
    forall c :: c in after.chunks ==>
      c in db.chunks && after.chunks[c].key == db.chunks[c].key && after.chunks[c].location == db.chunks[c].location
      && (db.chunks[c].ready ==> after.chunks[c].ready)
  }

  /** Whatever was condemned stays condemned. */
  ghost predicate CondemnedKept(db: Db, after: Db) {
    forall c, key :: Condemned(db, c, key) ==> Condemned(after, c, key)
  }

  // What refers to a chunk after a change referred to it before.

  lemma FilesShrink(db: Db, after: Db, c: ChunkId)
    requires forall f :: f in after.files ==> f in db.files && after.files[f] == db.files[f]
    ensures after.InFile(c) ==> db.InFile(c)
  {
  }

  lemma VersionsShrink(db: Db, after: Db, c: ChunkId)
    requires forall v :: v in after.versions ==> v in db.versions && after.versions[v] == db.versions[v]
    ensures after.InVersion(c) ==> db.InVersion(c)
  {
  }

  ghost predicate FewerLive(db: Db, after: Db) {
    forall k :: k in after.parts ==> k in db.parts && after.parts[k] == db.parts[k] && (after.Live(k.session) ==> db.Live(k.session))
  }

  lemma LivePartsShrink(db: Db, after: Db, c: ChunkId)
    requires FewerLive(db, after)
    ensures after.InLivePart(c) ==> db.InLivePart(c)
  {
    if after.InLivePart(c) {
      var k :| k in after.parts && after.parts[k] == c && after.Live(k.session);
      assert k in db.parts && db.parts[k] == c && db.Live(k.session);
    }
  }

  lemma FileWritten(db: Db, file: FileId, rows: Rows, c: ChunkId)
    ensures db.(files := db.files[file := rows]).InFile(c) ==> db.InFile(c) || c in rows.Values
  {
    var after := db.(files := db.files[file := rows]);
    if after.InFile(c) {
      var f :| f in after.files && c in after.files[f].Values;
      assert f != file ==> f in db.files && c in db.files[f].Values;
    }
  }

  lemma VersionWritten(db: Db, version: VersionId, v: Version, c: ChunkId)
    ensures db.(versions := db.versions[version := v]).InVersion(c) ==> db.InVersion(c) || c in v.rows.Values
  {
    var after := db.(versions := db.versions[version := v]);
    if after.InVersion(c) {
      var w :| w in after.versions && c in after.versions[w].rows.Values;
      assert w != version ==> w in db.versions && c in db.versions[w].rows.Values;
    }
  }

  lemma CloseKeeps(db: Db, sid: SessionId, status: Status)
    requires References(db) && status in {Cancelled, Expired}
    ensures References(db.Close(sid, status)) && RowsKept(db, db.Close(sid, status)) && CondemnedKept(db, db.Close(sid, status))
  {
    var after := db.Close(sid, status);
    assert FewerLive(db, after);
    forall c, key | Condemned(db, c, key)
      ensures Condemned(after, c, key)
    {
      LivePartsShrink(db, after, c);
    }
  }

  lemma OpenKeeps(db: Db, sid: SessionId)
    requires References(db) && sid !in db.sessions
    ensures var after := db.(sessions := db.sessions[sid := Open]);
      References(after) && RowsKept(db, after) && CondemnedKept(db, after)
  {
    var after := db.(sessions := db.sessions[sid := Open]);
    assert FewerLive(db, after);
    forall c, key | Condemned(db, c, key)
      ensures Condemned(after, c, key)
    {
      LivePartsShrink(db, after, c);
    }
  }

  lemma PartsOfLive(db: Db, sid: SessionId, c: ChunkId)
    requires db.Live(sid)
    ensures c in db.PartsOf(sid).Values ==> db.InLivePart(c)
  {
    if c in db.PartsOf(sid).Values {
      var i :| i in db.PartsOf(sid) && db.PartsOf(sid)[i] == c;
      assert PartKey(sid, i) in db.parts;
    }
  }

  lemma FinalizeKeeps(db: Db, sid: SessionId, file: FileId, version: VersionId)
    requires References(db) && version !in db.versions
    ensures var after := db.Finalize(sid, file, version);
      References(after) && RowsKept(db, after) && CondemnedKept(db, after)
  {
    if sid in db.sessions && db.sessions[sid] == Open {
      FinalizeReferences(db, sid, file, version);
      FinalizeCondemned(db, sid, file, version);
    }
  }

  lemma FinalizeReferences(db: Db, sid: SessionId, file: FileId, version: VersionId)
    requires References(db) && sid in db.sessions && db.sessions[sid] == Open && version !in db.versions
    ensures References(db.Finalize(sid, file, version)) && RowsKept(db, db.Finalize(sid, file, version))
  {
    FinalizeKeepsRows(db, sid, file, version);
    FinalizedFiles(db, sid, file, version);
    FinalizedVersions(db, sid, file, version);
  }

  lemma FinalizedFiles(db: Db, sid: SessionId, file: FileId, version: VersionId)
    requires References(db) && sid in db.sessions && db.sessions[sid] == Open
    ensures var after := db.Finalize(sid, file, version);
      forall f :: f in after.files ==> RowsReady(after, after.files[f])
  {
    var after := db.Finalize(sid, file, version);
    CommittedReady(db, sid, file, version);
    forall f | f in after.files
      ensures RowsReady(after, after.files[f])
    {
      if f != file {
        ReadyStays(db, sid, file, version, db.files[f]);
      }
    }
  }

  lemma FinalizedVersions(db: Db, sid: SessionId, file: FileId, version: VersionId)
    requires References(db) && sid in db.sessions && db.sessions[sid] == Open
    ensures var after := db.Finalize(sid, file, version);
      forall v :: v in after.versions ==> RowsReady(after, after.versions[v].rows)
  {
    var after := db.Finalize(sid, file, version);
    CommittedReady(db, sid, file, version);
    forall v | v in after.versions
      ensures RowsReady(after, after.versions[v].rows)
    {
      if v != version {
        ReadyStays(db, sid, file, version, db.versions[v].rows);
      }
    }
  }

  lemma ReadyStays(db: Db, sid: SessionId, file: FileId, version: VersionId, rows: Rows)
    requires RowsReady(db, rows)
    ensures RowsReady(db.Finalize(sid, file, version), rows)
  {
    forall i | i in rows
      ensures ReadyRow(db.Finalize(sid, file, version), rows[i])
    {
      assert ReadyRow(db, rows[i]);
    }
  }

  lemma FinalizeKeepsRows(db: Db, sid: SessionId, file: FileId, version: VersionId)
    ensures RowsKept(db, db.Finalize(sid, file, version))
    ensures db.Finalize(sid, file, version).chunks.Keys == db.chunks.Keys
  {
  }

  /** Finalizing marks the chunks of its parts ready. */
  lemma CommittedReady(db: Db, sid: SessionId, file: FileId, version: VersionId)
    requires References(db) && sid in db.sessions && db.sessions[sid] == Open
    ensures RowsReady(db.Finalize(sid, file, version), db.PartsOf(sid))
  {
    var rows := db.PartsOf(sid);
    forall i | i in rows
      ensures ReadyRow(db.Finalize(sid, file, version), rows[i])
    {
      assert PartKey(sid, i) in db.parts;
      assert rows[i] in rows.Values;
    }
  }

  lemma FinalizeCondemned(db: Db, sid: SessionId, file: FileId, version: VersionId)
    requires References(db) && sid in db.sessions && db.sessions[sid] == Open
    ensures CondemnedKept(db, db.Finalize(sid, file, version))
  {
    var after := db.Finalize(sid, file, version);
    var rows := db.PartsOf(sid);
    assert FewerLive(db, after);
    forall c, key | Condemned(db, c, key)
      ensures Condemned(after, c, key)
    {
      PartsOfLive(db, sid, c);
      FileWritten(db, file, rows, c);
      VersionWritten(db, version, Version(file, rows), c);
      LivePartsShrink(db, after, c);
      assert after.InFile(c) == db.(files := after.files).InFile(c);
      assert after.InVersion(c) == db.(versions := after.versions).InVersion(c);
    }
  }

  lemma RestoreKeeps(db: Db, file: FileId, source: VersionId, version: VersionId)
    requires References(db) && version !in db.versions
    ensures var after := db.RestoreVersion(file, source, version);
      References(after) && RowsKept(db, after) && CondemnedKept(db, after)
  {
    var after := db.RestoreVersion(file, source, version);
    if after != db {
      var copy := db.versions[source];
      forall c, key | Condemned(db, c, key)
        ensures Condemned(after, c, key)
      {
        FileWritten(db, file, copy.rows, c);
        VersionWritten(db, version, copy, c);
        assert c in copy.rows.Values ==> db.InVersion(c);
        assert after.InFile(c) == db.(files := after.files).InFile(c);
        assert after.InVersion(c) == db.(versions := after.versions).InVersion(c);
      }
    }
  }

  lemma PurgeKeeps(db: Db, doomed: set<FileId>, closed: set<SessionId>)
    requires References(db)
    ensures var after := db.Purge(doomed, closed);
      References(after) && RowsKept(db, after) && CondemnedKept(db, after)
  {
    if !exists sid :: sid in closed && db.Live(sid) {
      PurgeReferences(db, doomed, closed);
      PurgeCondemned(db, doomed, closed);
    }
  }

  lemma PurgeReferences(db: Db, doomed: set<FileId>, closed: set<SessionId>)
    requires References(db) && !exists sid :: sid in closed && db.Live(sid)
    ensures References(db.Purge(doomed, closed))
  {
    var after := db.Purge(doomed, closed);
    forall k | k in after.parts
      ensures after.parts[k] in after.chunks && k.session in after.sessions
    {
      assert after.InAnyPart(after.parts[k]);
    }
    forall f, i | f in after.files && i in after.files[f]
      ensures ReadyRow(after, after.files[f][i])
    {
      assert RowsReady(db, db.files[f]) && after.files[f][i] in after.files[f].Values;
      assert after.InFile(after.files[f][i]);
    }
    forall v, i | v in after.versions && i in after.versions[v].rows
      ensures ReadyRow(after, after.versions[v].rows[i])
    {
      assert RowsReady(db, db.versions[v].rows) && after.versions[v].rows[i] in after.versions[v].rows.Values;
      assert after.InVersion(after.versions[v].rows[i]);
    }
  }

  lemma PurgeCondemned(db: Db, doomed: set<FileId>, closed: set<SessionId>)
    requires References(db) && !exists sid :: sid in closed && db.Live(sid)
    ensures CondemnedKept(db, db.Purge(doomed, closed))
  {
    var after := db.Purge(doomed, closed);
    assert FewerLive(db, after);
    forall c, key | Condemned(db, c, key)
      ensures Condemned(after, c, key)
    {
      assert !db.PurgeTarget(doomed, c);
      FilesShrink(db, after, c);
      VersionsShrink(db, after, c);
      LivePartsShrink(db, after, c);
    }
  }

  lemma AttachKeeps(db: Db, k: PartKey, c: ChunkId)
    requires References(db)
    ensures References(db.AttachPart(k, c)) && RowsKept(db, db.AttachPart(k, c))
    ensures forall d, key :: d != c && Condemned(db, d, key) ==> Condemned(db.AttachPart(k, c), d, key)
  {
    forall d, key | d != c && Condemned(db, d, key)
      ensures Condemned(db.AttachPart(k, c), d, key)
    {
      AttachElsewhere(db, k, c, d);
    }
  }

  lemma AttachElsewhere(db: Db, k: PartKey, c: ChunkId, d: ChunkId)
    requires d != c
    ensures db.AttachPart(k, c).InLivePart(d) ==> db.InLivePart(d)
  {
    var after := db.AttachPart(k, c);
    if after.InLivePart(d) {
      var j :| j in after.parts && after.parts[j] == d && after.Live(j.session);
      assert j in db.parts && db.parts[j] == d && db.Live(j.session);
    }
  }

  /** Removing a condemned candidate always removes the row, and condemns no other row less. */
  lemma RemoveKeeps(db: Db, c: ChunkId, key: Key)
    requires References(db) && Condemned(db, c, key)
    ensures var after := db.RemoveCandidate(c);
      && c !in after.chunks && References(after) && RowsKept(db, after)
      && (forall d :: d in db.chunks && d != c ==> d in after.chunks)
      && (forall d, other :: d != c && Condemned(db, d, other) ==> Condemned(after, d, other))
  {
    var after := db.RemoveCandidate(c);
    var unlinked := db.(parts := after.parts);
    forall d | unlinked.InLivePart(d)
      ensures db.InLivePart(d)
    {
      var k :| k in unlinked.parts && unlinked.parts[k] == d && unlinked.Live(k.session);
      assert k in db.parts;
    }
    assert !unlinked.Referenced(c);
    forall f, i | f in after.files && i in after.files[f]
      ensures after.files[f][i] != c
    {
      assert after.files[f][i] in db.files[f].Values;
    }
    forall v, i | v in after.versions && i in after.versions[v].rows
      ensures after.versions[v].rows[i] != c
    {
      assert after.versions[v].rows[i] in db.versions[v].rows.Values;
    }
    forall k | k in after.parts
      ensures after.parts[k] != c
    {
      assert after.parts[k] == c ==> db.InLivePart(c);
    }
    forall d, other | d != c && Condemned(db, d, other)
      ensures Condemned(after, d, other)
    {
      assert after.InLivePart(d) ==> unlinked.InLivePart(d);
    }
  }

  lemma RegisterKeeps(db: Db, newId: ChunkId, key: Key, location: Location, now: int)
    requires References(db) && NoRow(db, key) && newId !in db.chunks
    ensures var (after, c) := db.Register(newId, key, location, now);
      && c == newId && after == db.(chunks := db.chunks[newId := Chunk(key, location, false, now)])
      && References(after) && CondemnedKept(db, after)
  {
    var (after, c) := db.Register(newId, key, location, now);
    assert after == db.(chunks := db.chunks[newId := Chunk(key, location, false, now)]);
  }

  // ----- Steps -----

  /** Locations already taken stay taken; counters only grow. */
  predicate NamesGrow(s: Sys, t: Sys) {
    s.nextChunk <= t.nextChunk && s.nextLocation <= t.nextLocation
  }

  lemma StableThrough(s: Sys, t: Sys, p: Proc)
    requires Stable(s, p) && NamesGrow(s, t) && RowsKept(s.db, t.db) && t.blobs == s.blobs
    requires forall c, key :: Condemned(s.db, c, key) ==> Condemned(t.db, c, key)
    ensures Stable(t, p)
  {
  }

  /** Transactions outside the digest lock. */
  predicate TableAction(a: Action) {
    a.OpenSession? || a.FinalizeNew? || a.FinalizeVersion? || a.CloseSession? || a.Restore? || a.PurgeFiles? || a.Tick?
  }

  lemma TableReferences(s: Sys, a: Action)
    requires Inv(s) && Enabled(s, a) && TableAction(a)
    ensures var t := Apply(s, a); References(t.db) && RowsKept(s.db, t.db) && CondemnedKept(s.db, t.db)
  {
    match a
    case OpenSession(sid) => OpenKeeps(s.db, sid);
    case FinalizeNew(sid) => FinalizeKeeps(s.db, sid, s.nextFile, s.nextVersion);
    case FinalizeVersion(sid, file) => FinalizeKeeps(s.db, sid, file, s.nextVersion);
    case CloseSession(sid, status) => CloseKeeps(s.db, sid, status);
    case Restore(file, source) => RestoreKeeps(s.db, file, source, s.nextVersion);
    case PurgeFiles(doomed, closed) => PurgeKeeps(s.db, doomed, closed);
    case Tick(_) =>
  }

  /** No versions but those of before and one new one. */
  predicate NamesAmong(db: Db, after: Db, file: FileId, version: VersionId) {
    after.files.Keys <= db.files.Keys + {file} && after.versions.Keys <= db.versions.Keys + {version}
  }

  lemma CommitNames(db: Db, sid: SessionId, file: FileId, version: VersionId)
    ensures NamesAmong(db, db.Finalize(sid, file, version), file, version)
  {
  }

  lemma RestoreNames(db: Db, file: FileId, source: VersionId, version: VersionId)
    ensures NamesAmong(db, db.RestoreVersion(file, source, version), file, version)
    ensures db.RestoreVersion(file, source, version).files.Keys <= db.files.Keys
  {
  }

  lemma PurgeNames(db: Db, doomed: set<FileId>, closed: set<SessionId>)
    ensures db.Purge(doomed, closed).files.Keys <= db.files.Keys
    ensures db.Purge(doomed, closed).versions.Keys <= db.versions.Keys
  {
  }

  lemma TableNames(s: Sys, a: Action)
    requires RowsUnique(s) && Enabled(s, a) && TableAction(a)
    ensures var t := Apply(s, a);
      && NamesGrow(s, t)
      && (forall v :: v in t.db.versions ==> v < t.nextVersion)
      && (forall f :: f in t.db.files ==> f < t.nextFile)
      && t.procs == s.procs && t.blobs == s.blobs && t.locks == s.locks
  {
    match a
    case FinalizeNew(sid) => CommitNames(s.db, sid, s.nextFile, s.nextVersion);
    case FinalizeVersion(sid, file) => CommitNames(s.db, sid, file, s.nextVersion);
    case Restore(file, source) => RestoreNames(s.db, file, source, s.nextVersion);
    case PurgeFiles(doomed, closed) => PurgeNames(s.db, doomed, closed);
    case _ =>
  }

  lemma UniqueThrough(s: Sys, t: Sys)
    requires RowsUnique(s) && RowsKept(s.db, t.db) && NamesGrow(s, t)
    requires (forall v :: v in t.db.versions ==> v < t.nextVersion) && (forall f :: f in t.db.files ==> f < t.nextFile)
    ensures RowsUnique(t)
  {
  }

  lemma TableStep(s: Sys, a: Action)
    requires Inv(s) && Enabled(s, a) && TableAction(a)
    ensures Inv(Apply(s, a))
  {
    TableReferences(s, a);
    TableNames(s, a);
    TableInv(s, Apply(s, a));
  }

  lemma TableInv(s: Sys, t: Sys)
    requires Inv(s) && References(t.db) && RowsKept(s.db, t.db) && CondemnedKept(s.db, t.db) && NamesGrow(s, t)
    requires (forall v :: v in t.db.versions ==> v < t.nextVersion) && (forall f :: f in t.db.files ==> f < t.nextFile)
    requires t.procs == s.procs && t.blobs == s.blobs && t.locks == s.locks
    ensures Inv(t)
  {
    UniqueThrough(s, t);
    forall pid | pid in t.procs
      ensures Stable(t, t.procs[pid])
    {
      StableThrough(s, t, s.procs[pid]);
    }
    SameProcs(s, t);
  }

  lemma SameProcs(s: Sys, t: Sys)
    requires LocksHeld(s) && UploadsApart(s) && BlobsTrue(s) && RowsKept(s.db, t.db)
    requires t.procs == s.procs && t.blobs == s.blobs && t.locks == s.locks
    ensures LocksHeld(t) && UploadsApart(t) && BlobsTrue(t)
  {
    assert forall pid, key :: HoldsAt(t, pid, key) <==> HoldsAt(s, pid, key);
    assert forall p, q :: SameUpload(t, p, q) ==> SameUpload(s, p, q);
  }

  // ----- Processes -----

  /** Steps that only move a process and its lock. */
  predicate MoveOnly(a: Action) {
    a.StartPart? || a.StartSweep? || a.Lock? || a.Inspect? || a.Load? || a.Fail? || a.Crash? || a.Unlock?
  }

  predicate SameStore(s: Sys, t: Sys) {
    && t.db == s.db && t.blobs == s.blobs && t.nextChunk == s.nextChunk && t.nextLocation == s.nextLocation
    && t.nextFile == s.nextFile && t.nextVersion == s.nextVersion
  }

  lemma MovesKeepStore(s: Sys, a: Action)
    requires Enabled(s, a) && MoveOnly(a)
    ensures SameStore(s, Apply(s, a))
  {
  }

  /** Entering, staying in and leaving a critical section keep the lock table consistent. */
  lemma LockStep(s: Sys, a: Action)
    requires LocksHeld(s) && Enabled(s, a) && !TableAction(a)
    ensures LocksHeld(Apply(s, a))
  {
    var pid := a.pid;
    var t := Apply(s, a);
    assert a.Unlock? ==> HoldsAt(s, pid, s.procs[pid].key);
    forall q, key | HoldsAt(t, q, key)
      ensures key in t.locks && t.locks[key] == q
    {
      assert q != pid ==> HoldsAt(s, q, key);
      assert q == pid && !a.Lock? ==> HoldsAt(s, q, key);
    }
    forall key | key in t.locks
      ensures HoldsAt(t, t.locks[key], key)
    {
      assert key in s.locks ==> HoldsAt(s, s.locks[key], key);
    }
  }

  /** No two processes are inside critical sections of the same content. */
  lemma Exclusion(s: Sys, p: Pid, q: Pid, key: Key)
    requires LocksHeld(s) && HoldsAt(s, p, key)
    ensures HoldsAt(s, q, key) ==> p == q
  {
  }

  /** Steps of one process as seen by the others. */
  lemma OthersStable(s: Sys, a: Action, q: Pid)
    requires Inv(s) && Enabled(s, a) && !TableAction(a) && q in s.procs && q != a.pid
    ensures Stable(Apply(s, a), s.procs[q])
  {
    if MoveOnly(a) {
      MovesKeepStore(s, a);
      SameStoreStable(s, Apply(s, a), s.procs[q]);
    } else {
      OthersStableStored(s, a, q);
    }
  }

  lemma SameStoreStable(s: Sys, t: Sys, p: Proc)
    requires SameStore(s, t)
    ensures Stable(t, p) <==> Stable(s, p)
  {
  }

  lemma OthersStableStored(s: Sys, a: Action, q: Pid)
    requires Inv(s) && Enabled(s, a) && !TableAction(a) && !MoveOnly(a) && q in s.procs && q != a.pid
    ensures Stable(Apply(s, a), s.procs[q])
  {
    var t := Apply(s, a);
    var p := ProcOf(s, a.pid);
    match a
    case RegisterChunk(pid) =>
      RegisterKeeps(s.db, s.nextChunk, p.key, p.location, s.clock);
      assert !SameUpload(s, pid, q);
      Exclusion(s, pid, q, p.key);
    case Attach(pid) =>
      AttachKeeps(s.db, p.k, p.chunk);
      Exclusion(s, pid, q, p.key);
      CondemnedApart(s, t, q, p.chunk, p.key);
    case RemoveRow(pid) =>
      RemoveKeeps(s.db, p.chunk, p.key);
      Exclusion(s, pid, q, p.key);
      CondemnedApart(s, t, q, p.chunk, p.key);
    case DeleteBlob(pid) =>
      assert s.procs[q].Uploaded? ==> s.procs[q].location != p.location;
    case _ =>
  }

  lemma CondemnedApart(s: Sys, t: Sys, q: Pid, c: ChunkId, key: Key)
    requires AllStable(s) && q in s.procs && !Holds(s.procs[q], key)
    requires RowsKept(s.db, t.db) && NamesGrow(s, t) && t.blobs == s.blobs
    requires c in s.db.chunks ==> s.db.chunks[c].key == key
    requires forall d, other :: d != c && Condemned(s.db, d, other) ==> Condemned(t.db, d, other)
    ensures Stable(t, s.procs[q])
  {
  }

  lemma ActorStable(s: Sys, a: Action)
    requires Inv(s) && Enabled(s, a) && !TableAction(a)
    ensures Stable(Apply(s, a), ProcOf(Apply(s, a), a.pid))
  {
    if MoveOnly(a) {
      MovesKeepStore(s, a);
      MoverStable(s, a);
      SameStoreStable(s, Apply(s, a), ProcOf(Apply(s, a), a.pid));
    } else {
      ActorStableStored(s, a);
    }
  }

  /** What a process learns by moving is true. */
  lemma MoverStable(s: Sys, a: Action)
    requires Inv(s) && Enabled(s, a) && MoveOnly(a)
    ensures Stable(s, ProcOf(Apply(s, a), a.pid))
  {
    var p := ProcOf(s, a.pid);
    if a.Inspect? {
      InspectedStable(s, p);
    } else {
      assert a.pid in s.procs ==> Stable(s, p);
    }
  }

  lemma InspectedStable(s: Sys, p: Proc)
    requires Inv(s) && p.InPart?
    ensures Stable(s, Inspected(s, p))
  {
    assert s.db.Find(p.key).None? ==> NoRow(s.db, p.key);
  }

  lemma ActorStableStored(s: Sys, a: Action)
    requires Inv(s) && Enabled(s, a) && !TableAction(a) && !MoveOnly(a)
    ensures Stable(Apply(s, a), ProcOf(Apply(s, a), a.pid))
  {
    var p := ProcOf(s, a.pid);
    assert Stable(s, p);
    match a
    case RegisterChunk(pid) => RegisterKeeps(s.db, s.nextChunk, p.key, p.location, s.clock);
    case _ =>
  }

  lemma ProcRows(s: Sys, a: Action)
    requires Inv(s) && Enabled(s, a) && !TableAction(a)
    ensures RowsUnique(Apply(s, a)) && References(Apply(s, a).db)
  {
    if MoveOnly(a) {
      MovesKeepStore(s, a);
    } else {
      ProcRowsStored(s, a);
    }
  }

  lemma ProcRowsStored(s: Sys, a: Action)
    requires Inv(s) && Enabled(s, a) && !TableAction(a) && !MoveOnly(a)
    ensures RowsUnique(Apply(s, a)) && References(Apply(s, a).db)
  {
    var p := ProcOf(s, a.pid);
    var t := Apply(s, a);
    match a
    case RegisterChunk(pid) =>
      assert Stable(s, p);
      RegisterKeeps(s.db, s.nextChunk, p.key, p.location, s.clock);
    case Attach(pid) =>
      AttachKeeps(s.db, p.k, p.chunk);
      UniqueThrough(s, t);
    case RemoveRow(pid) =>
      RemoveKeeps(s.db, p.chunk, p.key);
      UniqueThrough(s, t);
    case _ =>
  }

  lemma ProcUploads(s: Sys, a: Action)
    requires Inv(s) && Enabled(s, a) && !TableAction(a)
    ensures UploadsApart(Apply(s, a))
  {
    var t := Apply(s, a);
    forall p, q | SameUpload(t, p, q)
      ensures p == q
    {
      assert p != a.pid && q != a.pid ==> SameUpload(s, p, q);
      UploadsBelow(s, p);
      UploadsBelow(s, q);
    }
  }

  /** Uploads in flight hold messages already handed out. */
  lemma UploadsBelow(s: Sys, pid: Pid)
    requires AllStable(s)
    ensures ProcOf(s, pid).Uploaded? ==> ProcOf(s, pid).location < s.nextLocation
  {
    assert pid in s.procs ==> Stable(s, s.procs[pid]);
  }

  lemma ProcBlobs(s: Sys, a: Action)
    requires Inv(s) && Enabled(s, a) && !TableAction(a)
    ensures BlobsTrue(Apply(s, a))
  {
    var p := ProcOf(s, a.pid);
    if MoveOnly(a) {
      MovesKeepStore(s, a);
    } else if a.RegisterChunk? {
      RegisterKeeps(s.db, s.nextChunk, p.key, p.location, s.clock);
    } else if a.RemoveRow? {
      RemoveKeeps(s.db, p.chunk, p.key);
    }
  }

  lemma ProcStep(s: Sys, a: Action)
    requires Inv(s) && Enabled(s, a) && !TableAction(a)
    ensures Inv(Apply(s, a))
  {
    var t := Apply(s, a);
    LockStep(s, a);
    ProcRows(s, a);
    ProcUploads(s, a);
    ProcBlobs(s, a);
    ActorStable(s, a);
    forall q | q in t.procs
      ensures Stable(t, t.procs[q])
    {
      if q != a.pid {
        OthersStable(s, a, q);
      }
    }
  }

  lemma StepKeepsInv(s: Sys, a: Action)
    requires Inv(s) && Enabled(s, a)
    ensures Inv(Apply(s, a))
  {
    if TableAction(a) { TableStep(s, a); } else { ProcStep(s, a); }
  }

  lemma {:induction false} RunKeepsInv(s: Sys, actions: seq<Action>)
    requires Inv(s) && CanRun(s, actions)
    ensures Inv(Run(s, actions))
    decreases |actions|
  {
    if actions != [] {
      StepKeepsInv(s, actions[0]);
      RunKeepsInv(Apply(s, actions[0]), actions[1..]);
    }
  }

  // ----- When a blob in use is lost -----

  /** An upload that found a row attaches it although the row's blob is gone. */
  predicate LostAttach(s: Sys, a: Action)
    requires Enabled(s, a)
  {
    a.Attach? &&
    var p := ProcOf(s, a.pid);
    s.db.CanAttach(p.k, p.chunk) && s.db.chunks[p.chunk].location !in s.blobs
  }

  lemma TableIntact(s: Sys, a: Action)
    requires Inv(s) && Intact(s) && Enabled(s, a) && TableAction(a)
    ensures Intact(Apply(s, a))
  {
    TableReferences(s, a);
    TableNames(s, a);
  }

  lemma ProcIntact(s: Sys, a: Action)
    requires Inv(s) && Intact(s) && Enabled(s, a) && !TableAction(a) && !LostAttach(s, a)
    ensures Intact(Apply(s, a))
  {
    if MoveOnly(a) {
      MovesKeepStore(s, a);
    } else {
      StoredIntact(s, a);
    }
  }

  lemma StoredIntact(s: Sys, a: Action)
    requires Inv(s) && Intact(s) && Enabled(s, a) && !TableAction(a) && !MoveOnly(a) && !LostAttach(s, a)
    ensures Intact(Apply(s, a))
  {
    var p := ProcOf(s, a.pid);
    assert Stable(s, p);
    match a
    case RegisterChunk(pid) => RegisterKeeps(s.db, s.nextChunk, p.key, p.location, s.clock);
    case Attach(pid) => AttachKeeps(s.db, p.k, p.chunk);
    case RemoveRow(pid) => RemoveKeeps(s.db, p.chunk, p.key);
    case _ =>
  }

  lemma AttachedIsReferenced(db: Db, k: PartKey, c: ChunkId)
    requires db.CanAttach(k, c)
    ensures db.AttachPart(k, c).Referenced(c)
  {
    var after := db.AttachPart(k, c);
    assert after.parts[k] == c && after.Live(k.session);
    assert after.InLivePart(c);
  }

  /** The attach step is the only one that can break the promise, and it does exactly when the row's blob is gone. */
  lemma AttachIsSafeIff(s: Sys, pid: Pid)
    requires Safe(s) && References(s.db) && BlobsTrue(s) && ProcOf(s, pid).Found?
    ensures Safe(Apply(s, Attach(pid))) <==> !LostAttach(s, Attach(pid))
  {
    var p := ProcOf(s, pid);
    var t := Apply(s, Attach(pid));
    if s.db.CanAttach(p.k, p.chunk) {
      AttachedIsReferenced(s.db, p.k, p.chunk);
    }
    forall c | t.db.Referenced(c)
      ensures s.db.Referenced(c) || (c == p.chunk && s.db.CanAttach(p.k, p.chunk))
    {
      if c != p.chunk {
        AttachElsewhere(s.db, p.k, p.chunk, c);
      }
    }
    assert t.db.chunks == s.db.chunks && t.blobs == s.blobs;
    assert forall c :: Held(t, c) <==> Held(s, c);
    assert forall c :: t.db.InFile(c) <==> s.db.InFile(c);
    assert forall c :: t.db.InVersion(c) <==> s.db.InVersion(c);
  }

  /** Every step but that one keeps the promise and what it rests on. */
  lemma StepSafeIff(s: Sys, a: Action)
    requires Inv(s) && Intact(s) && Enabled(s, a)
    ensures Safe(Apply(s, a)) <==> !LostAttach(s, a)
    ensures !LostAttach(s, a) ==> Intact(Apply(s, a))
  {
    if LostAttach(s, a) {
      IntactIsSafe(s);
      AttachIsSafeIff(s, a.pid);
    } else {
      if TableAction(a) { TableIntact(s, a); } else { ProcIntact(s, a); }
      StepKeepsInv(s, a);
      IntactIsSafe(Apply(s, a));
    }
  }

  ghost predicate NoLostAttach(s: Sys, actions: seq<Action>)
    requires CanRun(s, actions)
    decreases |actions|
  {
    actions == [] || (!LostAttach(s, actions[0]) && NoLostAttach(Apply(s, actions[0]), actions[1..]))
  }

  /** The promise holds in every state on the way. */
  ghost predicate AlwaysSafe(s: Sys, actions: seq<Action>)
    requires CanRun(s, actions)
    decreases |actions|
  {
    Safe(s) && (actions == [] || AlwaysSafe(Apply(s, actions[0]), actions[1..]))
  }

  lemma {:induction false} SafeAlongIff(s: Sys, actions: seq<Action>)
    requires Inv(s) && Intact(s) && CanRun(s, actions)
    ensures AlwaysSafe(s, actions) <==> NoLostAttach(s, actions)
    ensures NoLostAttach(s, actions) ==> Intact(Run(s, actions))
    decreases |actions|
  {
    IntactIsSafe(s);
    if actions != [] {
      StepSafeIff(s, actions[0]);
      if LostAttach(s, actions[0]) {
        UnsafeStart(Apply(s, actions[0]), actions[1..]);
      } else {
        StepKeepsInv(s, actions[0]);
        SafeAlongIff(Apply(s, actions[0]), actions[1..]);
      }
    }
  }

  lemma UnsafeStart(s: Sys, actions: seq<Action>)
    requires !Safe(s) && CanRun(s, actions)
    ensures !AlwaysSafe(s, actions)
  {
  }

  /**
   * The exact condition, with sweeps dying at any point: nothing in use loses its blob anywhere along a run
   * if and only if no upload in it attaches a row whose blob is gone.
   */
  lemma BlobsInUseSurviveIff(actions: seq<Action>)
    requires CanRun(Init(), actions)
    ensures AlwaysSafe(Init(), actions) <==> NoLostAttach(Init(), actions)
  {
    SafeAlongIff(Init(), actions);
  }

  // ----- Runs in which no sweep dies between its two deletions -----

  ghost predicate NoCrash(actions: seq<Action>) {
    forall a :: a in actions ==> !a.Crash?
  }

  predicate Removing(s: Sys, pid: Pid, c: ChunkId) {
    pid in s.procs && s.procs[pid].BlobGone? && s.procs[pid].chunk == c
  }

  ghost predicate BeingRemoved(s: Sys, c: ChunkId) {
    exists pid :: Removing(s, pid, c)
  }

  /** Every row has its blob, except a row whose sweep has just deleted it. */
  ghost predicate BlobsPresent(s: Sys) {
    forall c :: c in s.db.chunks && !BeingRemoved(s, c) ==> s.db.chunks[c].location in s.blobs
  }

  lemma PresentStep(s: Sys, a: Action)
    requires Inv(s) && BlobsPresent(s) && Enabled(s, a) && !a.Crash?
    ensures BlobsPresent(Apply(s, a)) && !LostAttach(s, a)
  {
    if TableAction(a) {
      TableReferences(s, a);
      TableNames(s, a);
      assert forall pid, c :: Removing(s, pid, c) ==> Removing(Apply(s, a), pid, c);
    } else {
      ProcPresent(s, a);
      AttachFindsBlob(s, a);
    }
  }

  lemma OthersMove(s: Sys, a: Action, pid: Pid)
    requires Enabled(s, a) && (TableAction(a) || a.pid != pid)
    ensures ProcOf(Apply(s, a), pid) == ProcOf(s, pid)
  {
  }

  lemma StillBeingRemoved(s: Sys, a: Action, c: ChunkId)
    requires Enabled(s, a) && !TableAction(a) && !a.Crash? && !a.RemoveRow? && BeingRemoved(s, c)
    ensures BeingRemoved(Apply(s, a), c)
  {
    var pid :| Removing(s, pid, c);
    OthersAtLeast(s, a, pid);
    assert Removing(Apply(s, a), pid, c);
  }

  /** Only a crash or the row deletion moves a sweep on from there. */
  lemma OthersAtLeast(s: Sys, a: Action, pid: Pid)
    requires Enabled(s, a) && !TableAction(a) && !a.Crash? && !a.RemoveRow? && ProcOf(s, pid).BlobGone?
    ensures ProcOf(Apply(s, a), pid) == ProcOf(s, pid)
  {
    OthersMove(s, a, pid);
  }

  lemma ProcPresent(s: Sys, a: Action)
    requires Inv(s) && BlobsPresent(s) && Enabled(s, a) && !TableAction(a) && !a.Crash?
    ensures BlobsPresent(Apply(s, a))
  {
    if a.RemoveRow? {
      RemovedPresent(s, a.pid);
    } else {
      var t := Apply(s, a);
      forall c | c in t.db.chunks && !BeingRemoved(t, c)
        ensures t.db.chunks[c].location in t.blobs
      {
        if BeingRemoved(s, c) {
          StillBeingRemoved(s, a, c);
        }
        RowPresent(s, a, c);
      }
    }
  }

  lemma RowPresent(s: Sys, a: Action, c: ChunkId)
    requires Inv(s) && BlobsPresent(s) && Enabled(s, a) && !TableAction(a) && !a.Crash? && !a.RemoveRow?
    requires c in Apply(s, a).db.chunks && !BeingRemoved(s, c) && !BeingRemoved(Apply(s, a), c)
    ensures Apply(s, a).db.chunks[c].location in Apply(s, a).blobs
  {
    var p := ProcOf(s, a.pid);
    if MoveOnly(a) {
      MovesKeepStore(s, a);
    } else if a.DeleteBlob? {
      assert Stable(s, p) && Removing(Apply(s, a), a.pid, p.chunk);
    } else if a.RegisterChunk? {
      assert Stable(s, p);
      RegisterKeeps(s.db, s.nextChunk, p.key, p.location, s.clock);
    }
  }

  lemma RemovedPresent(s: Sys, pid: Pid)
    requires Inv(s) && BlobsPresent(s) && Enabled(s, RemoveRow(pid))
    ensures BlobsPresent(Apply(s, RemoveRow(pid)))
  {
    var p, t := ProcOf(s, pid), Apply(s, RemoveRow(pid));
    assert Stable(s, p);
    RemoveKeeps(s.db, p.chunk, p.key);
    RestPresent(s, t, pid, p.chunk);
  }

  lemma RestPresent(s: Sys, t: Sys, pid: Pid, gone: ChunkId)
    requires BlobsPresent(s) && RowsKept(s.db, t.db) && t.blobs == s.blobs && gone !in t.db.chunks
    requires forall q :: q != pid ==> ProcOf(t, q) == ProcOf(s, q)
    requires ProcOf(s, pid).BlobGone? && ProcOf(s, pid).chunk == gone
    ensures BlobsPresent(t)
  {
    forall c | c in t.db.chunks && !BeingRemoved(t, c)
      ensures !BeingRemoved(s, c)
    {
      forall q
        ensures !Removing(s, q, c)
      {
        assert ProcOf(t, q) == ProcOf(s, q) ==> Removing(s, q, c) ==> Removing(t, q, c);
      }
    }
  }

  /** The lock keeps an upload away from a row that is being removed. */
  lemma AttachFindsBlob(s: Sys, a: Action)
    requires Inv(s) && BlobsPresent(s) && Enabled(s, a)
    ensures !LostAttach(s, a)
  {
    if a.Attach? {
      var p := ProcOf(s, a.pid);
      assert Stable(s, p) && HoldsAt(s, a.pid, p.key);
      if BeingRemoved(s, p.chunk) && p.chunk in s.db.chunks {
        var q :| Removing(s, q, p.chunk);
        assert Stable(s, s.procs[q]) && HoldsAt(s, q, s.procs[q].key);
        Exclusion(s, a.pid, q, p.key);
      }
    }
  }

  lemma {:induction false} UntornIsSafe(s: Sys, actions: seq<Action>)
    requires Inv(s) && BlobsPresent(s) && CanRun(s, actions) && NoCrash(actions)
    ensures NoLostAttach(s, actions)
    decreases |actions|
  {
    if actions != [] {
      StepKeepsInv(s, actions[0]);
      PresentStep(s, actions[0]);
      UntornIsSafe(Apply(s, actions[0]), actions[1..]);
    }
  }

  /** In every interleaving of whole sweeps, nothing that a file, a version or an open session refers to loses its blob. */
  lemma BlobsInUseSurvive(actions: seq<Action>)
    requires CanRun(Init(), actions) && NoCrash(actions)
    ensures AlwaysSafe(Init(), actions) && Safe(Run(Init(), actions))
  {
    UntornIsSafe(Init(), actions);
    SafeAlongIff(Init(), actions);
    RunKeepsInv(Init(), actions);
    IntactIsSafe(Run(Init(), actions));
  }

  // ----- What the lock gives a sweep and an upload -----

  /** A loaded candidate stays unreferenced, whatever the others do, until its own sweep moves on. */
  lemma {:induction false} CandidateStaysUnreferenced(s: Sys, actions: seq<Action>, pid: Pid)
    requires Inv(s) && CanRun(s, actions)
    requires ProcOf(s, pid).Doomed? || ProcOf(s, pid).BlobGone?
    requires forall a :: a in actions ==> TableAction(a) || a.pid != pid
    ensures var t := Run(s, actions);
      ProcOf(t, pid) == ProcOf(s, pid) && Condemned(t.db, ProcOf(s, pid).chunk, ProcOf(s, pid).key)
    decreases |actions|
  {
    if actions == [] {
      assert Stable(s, s.procs[pid]);
    } else {
      StepKeepsInv(s, actions[0]);
      OthersMove(s, actions[0], pid);
      CandidateStaysUnreferenced(Apply(s, actions[0]), actions[1..], pid);
    }
  }

  /** So the row deletion that follows a blob deletion always finds the row removable: no row is left without its blob. */
  lemma RemovalCompletes(s: Sys, pid: Pid)
    requires Inv(s) && ProcOf(s, pid).BlobGone?
    ensures ProcOf(s, pid).chunk in s.db.chunks
    ensures ProcOf(s, pid).chunk !in Apply(s, RemoveRow(pid)).db.chunks
  {
    var p := s.procs[pid];
    assert Stable(s, p);
    RemoveKeeps(s.db, p.chunk, p.key);
  }

  /** Under the lock `Register` always inserts, so an upload never deletes the message it has just stored. */
  lemma CleanupNeverNeeded(s: Sys, pid: Pid)
    requires Inv(s) && ProcOf(s, pid).Uploaded?
    ensures Apply(s, RegisterChunk(pid)).blobs == s.blobs
    ensures s.nextChunk in Apply(s, RegisterChunk(pid)).db.chunks
  {
    var p := s.procs[pid];
    assert Stable(s, p);
    RegisterKeeps(s.db, s.nextChunk, p.key, p.location, s.clock);
  }

  // ----- Why the blob deletion and the row deletion must not be torn apart -----

  /** The sweep dies after deleting the blob; the next upload of the same content finds the row and trusts it. */
  function TornRun(sweeper: Pid, uploader: Pid, k: PartKey, key: Key): seq<Action> {
    [DeleteBlob(sweeper)] + ([Crash(sweeper)] + ([Unlock(sweeper)] + ([StartPart(uploader, k, key)] +
      ([Lock(uploader)] + ([Inspect(uploader)] + ([Attach(uploader)] + []))))))
  }

  lemma RunStep(s: Sys, a: Action, rest: seq<Action>)
    requires Enabled(s, a)
    ensures CanRun(s, [a] + rest) <==> CanRun(Apply(s, a), rest)
    ensures CanRun(Apply(s, a), rest) ==> Run(s, [a] + rest) == Run(Apply(s, a), rest)
  {
    assert ([a] + rest)[1..] == rest;
  }

  /** Deleting the blob and dying leaves the row behind for anyone to find. */
  lemma TornSweep(s: Sys, sweeper: Pid)
    requires Inv(s) && ProcOf(s, sweeper).Doomed?
    ensures Enabled(s, DeleteBlob(sweeper)) && Enabled(Apply(s, DeleteBlob(sweeper)), Crash(sweeper))
    ensures Enabled(Apply(Apply(s, DeleteBlob(sweeper)), Crash(sweeper)), Unlock(sweeper))
    ensures var p := s.procs[sweeper];
      var s3 := Apply(Apply(Apply(s, DeleteBlob(sweeper)), Crash(sweeper)), Unlock(sweeper));
      && s3 == s.(blobs := s.blobs - {p.location}, locks := s.locks - {p.key}, procs := s3.procs)
      && forall q :: q != sweeper ==> ProcOf(s3, q) == ProcOf(s, q)
  {
  }

  /** A later upload of the content attaches the row it finds. */
  lemma UploadFindsRow(s: Sys, uploader: Pid, k: PartKey, key: Key, c: ChunkId)
    requires RowsUnique(s) && ProcOf(s, uploader).Idle? && key !in s.locks
    requires c in s.db.chunks && s.db.chunks[c].key == key && s.db.CanAttach(k, c)
    ensures Enabled(Apply(s, StartPart(uploader, k, key)), Lock(uploader))
    ensures Enabled(Apply(Apply(s, StartPart(uploader, k, key)), Lock(uploader)), Inspect(uploader))
    ensures var s3 := Apply(Apply(Apply(s, StartPart(uploader, k, key)), Lock(uploader)), Inspect(uploader));
      && Enabled(s3, Attach(uploader))
      && Apply(s3, Attach(uploader)).db == s.db.AttachPart(k, c)
      && Apply(s3, Attach(uploader)).blobs == s.blobs
  {
    assert s.db.Find(key) == Some(c);
  }

  lemma TornSweepLosesData(s: Sys, sweeper: Pid, uploader: Pid, k: PartKey)
    requires Inv(s) && ProcOf(s, sweeper).Doomed? && ProcOf(s, uploader).Idle?
    requires k.session in s.db.sessions && s.db.sessions[k.session] == Open && k !in s.db.parts
    ensures var actions := TornRun(sweeper, uploader, k, s.procs[sweeper].key);
      CanRun(s, actions) && !Safe(Run(s, actions))
  {
    var p := s.procs[sweeper];
    var s1 := Apply(s, DeleteBlob(sweeper));
    TornSweep(s, sweeper);
    var s2 := Apply(s1, Crash(sweeper));
    var s3 := Apply(s2, Unlock(sweeper));
    assert Stable(s, p);
    UploadFindsRow(s3, uploader, k, p.key, p.chunk);
    var s4 := Apply(s3, StartPart(uploader, k, p.key));
    var s5 := Apply(s4, Lock(uploader));
    var s6 := Apply(s5, Inspect(uploader));
    var s7 := Apply(s6, Attach(uploader));
    RunStep(s6, Attach(uploader), []);
    RunStep(s5, Inspect(uploader), [Attach(uploader)] + []);
    RunStep(s4, Lock(uploader), [Inspect(uploader)] + ([Attach(uploader)] + []));
    TornTail(s, s3, s7, sweeper, uploader, k);
  }

  lemma TornTail(s: Sys, s3: Sys, s7: Sys, sweeper: Pid, uploader: Pid, k: PartKey)
    requires Inv(s) && ProcOf(s, sweeper).Doomed? && Enabled(s3, StartPart(uploader, k, s.procs[sweeper].key))
    requires Enabled(s, DeleteBlob(sweeper)) && Enabled(Apply(s, DeleteBlob(sweeper)), Crash(sweeper))
    requires Enabled(Apply(Apply(s, DeleteBlob(sweeper)), Crash(sweeper)), Unlock(sweeper))
    requires s3 == Apply(Apply(Apply(s, DeleteBlob(sweeper)), Crash(sweeper)), Unlock(sweeper))
    requires var tail := [Lock(uploader)] + ([Inspect(uploader)] + ([Attach(uploader)] + []));
      var s4 := Apply(s3, StartPart(uploader, k, s.procs[sweeper].key));
      CanRun(s4, tail) && Run(s4, tail) == s7
    requires var p := s.procs[sweeper];
      s7.db == s.db.AttachPart(k, p.chunk) && s7.blobs == s.blobs - {p.location} && s.db.CanAttach(k, p.chunk)
      && Condemned(s.db, p.chunk, p.key) && s.db.chunks[p.chunk].location == p.location
    ensures var actions := TornRun(sweeper, uploader, k, s.procs[sweeper].key);
      CanRun(s, actions) && !Safe(Run(s, actions))
  {
    var p := s.procs[sweeper];
    var tail := [Lock(uploader)] + ([Inspect(uploader)] + ([Attach(uploader)] + []));
    var s1 := Apply(s, DeleteBlob(sweeper));
    var s2 := Apply(s1, Crash(sweeper));
    RunStep(s3, StartPart(uploader, k, p.key), tail);
    RunStep(s2, Unlock(sweeper), [StartPart(uploader, k, p.key)] + tail);
    RunStep(s1, Crash(sweeper), [Unlock(sweeper)] + ([StartPart(uploader, k, p.key)] + tail));
    RunStep(s, DeleteBlob(sweeper), [Crash(sweeper)] + ([Unlock(sweeper)] + ([StartPart(uploader, k, p.key)] + tail)));
    assert s7.db.parts[k] == p.chunk && s7.db.Live(k.session);
    assert s7.db.Referenced(p.chunk);
  }

  // A whole run that loses a part: process 0 uploads a content and dies before attaching it, the sweep 1 of the
  // row is torn, and process 2 uploads the same content again.

  const CONTENT := Key(1, 1)
  const PART := PartKey(0, 0)
  const ROW := Chunk(CONTENT, 0, false, 0)
  const STORED: map<Location, Key> := map[0 := CONTENT]

  const Abandoned: seq<Action> := [OpenSession(0)] + ([StartPart(0, PART, CONTENT)] + ([Lock(0)] + ([Inspect(0)] + ([Put(0)] +
    ([RegisterChunk(0)] + ([Fail(0)] + ([Unlock(0)] + [])))))))
  const Swept: seq<Action> := [StartSweep(1, 0)] + ([Lock(1)] + ([Load(1, 1)] + []))

  /** Session 0 is open; nothing but the given rows, messages, locks and processes. */
  function Scene(chunks: map<ChunkId, Chunk>, blobs: map<Location, Key>, locks: map<Key, Pid>, procs: map<Pid, Proc>,
                 chunk: ChunkId, location: Location): Sys {
    Sys(Db(chunks, map[0 := Open], map[], map[], map[]), blobs, locks, procs, 0, chunk, location, 0, 0)
  }

  const Before := Scene(map[], map[], map[], map[], 0, 0)
  const Missed := Scene(map[], map[], map[CONTENT := 0], map[0 := Missing(PART, CONTENT)], 0, 0)
  const Sent := Scene(map[], STORED, map[CONTENT := 0], map[0 := Uploaded(PART, CONTENT, 0)], 0, 1)
  const Registered := Scene(map[0 := ROW], STORED, map[CONTENT := 0], map[0 := Found(PART, CONTENT, 0)], 1, 1)
  const Left := Scene(map[0 := ROW], STORED, map[], map[0 := Idle], 1, 1)
  const Loaded := Scene(map[0 := ROW], STORED, map[CONTENT := 1], map[0 := Idle, 1 := Doomed(0, CONTENT, 0)], 1, 1)

  lemma UntilMissed()
    ensures Enabled(Init(), OpenSession(0)) && Apply(Init(), OpenSession(0)) == Before
    ensures var tail := [StartPart(0, PART, CONTENT)] + ([Lock(0)] + ([Inspect(0)] + []));
      CanRun(Before, tail) && Run(Before, tail) == Missed
  {
    var s1 := Apply(Before, StartPart(0, PART, CONTENT));
    var s2 := Apply(s1, Lock(0));
    assert s2.db.Find(CONTENT) == None;
    assert Apply(s2, Inspect(0)) == Missed;
    RunStep(s2, Inspect(0), []);
    RunStep(s1, Lock(0), [Inspect(0)] + []);
    RunStep(Before, StartPart(0, PART, CONTENT), [Lock(0)] + ([Inspect(0)] + []));
  }

  lemma UntilLeft()
    ensures var tail := [Put(0)] + ([RegisterChunk(0)] + ([Fail(0)] + ([Unlock(0)] + [])));
      CanRun(Missed, tail) && Run(Missed, tail) == Left
  {
    assert Apply(Missed, Put(0)) == Sent;
    assert Sent.db.Find(CONTENT) == None;
    assert Apply(Sent, RegisterChunk(0)) == Registered;
    var s3 := Apply(Registered, Fail(0));
    assert Apply(s3, Unlock(0)) == Left;
    RunStep(s3, Unlock(0), []);
    RunStep(Registered, Fail(0), [Unlock(0)] + []);
    RunStep(Sent, RegisterChunk(0), [Fail(0)] + ([Unlock(0)] + []));
    RunStep(Missed, Put(0), [RegisterChunk(0)] + ([Fail(0)] + ([Unlock(0)] + [])));
  }

  lemma UntilLoaded()
    ensures CanRun(Left, Swept) && Run(Left, Swept) == Loaded
  {
    var s1 := Apply(Left, StartSweep(1, 0));
    var s2 := Apply(s1, Lock(1));
    assert !s2.db.Referenced(0);
    assert Apply(s2, Load(1, 1)) == Loaded;
    RunStep(s2, Load(1, 1), []);
    RunStep(s1, Lock(1), [Load(1, 1)] + []);
    RunStep(Left, StartSweep(1, 0), [Lock(1)] + ([Load(1, 1)] + []));
  }

  lemma {:induction false} RunOn(s: Sys, first: seq<Action>, second: seq<Action>)
    requires CanRun(s, first) && CanRun(Run(s, first), second)
    ensures CanRun(s, first + second) && Run(s, first + second) == Run(Run(s, first), second)
    decreases |first|
  {
    if first == [] {
      assert first + second == second;
    } else {
      RunOn(Apply(s, first[0]), first[1..], second);
      assert (first + second)[1..] == first[1..] + second;
    }
  }

  lemma UntilAbandoned()
    ensures CanRun(Init(), Abandoned) && Run(Init(), Abandoned) == Left
  {
    UntilMissed();
    UntilLeft();
    var first := [StartPart(0, PART, CONTENT)] + ([Lock(0)] + ([Inspect(0)] + []));
    var second := [Put(0)] + ([RegisterChunk(0)] + ([Fail(0)] + ([Unlock(0)] + [])));
    RunOn(Before, first, second);
    RunStep(Init(), OpenSession(0), first + second);
    assert Abandoned == [OpenSession(0)] + (first + second);
  }

  /** From the empty store to a lost part. */
  lemma TornSweepRun()
    ensures var actions := Abandoned + Swept + TornRun(1, 2, PART, CONTENT);
      CanRun(Init(), actions) && !Safe(Run(Init(), actions))
  {
    UntilAbandoned();
    UntilLoaded();
    RunOn(Init(), Abandoned, Swept);
    RunKeepsInv(Init(), Abandoned + Swept);
    TornSweepLosesData(Loaded, 1, 2, PART);
    RunOn(Init(), Abandoned + Swept, TornRun(1, 2, PART, CONTENT));
  }
}
