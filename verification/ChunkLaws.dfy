/** What the chunk transactions do to the tables, row by row, and what an upload and a sweep come to when nothing disturbs them. */
module ChunkLaws {
  import opened ChunkGc
  import opened ChunkTables
  import opened Wrappers

  // ----- Who uses a chunk -----

  predicate FileUses(db: Db, f: FileId, c: ChunkId) {
    f in db.files && exists i :: i in db.files[f] && db.files[f][i] == c
  }

  predicate VersionUses(db: Db, v: VersionId, c: ChunkId) {
    v in db.versions && exists i :: i in db.versions[v].rows && db.versions[v].rows[i] == c
  }

  ghost predicate SomeFileUses(db: Db, c: ChunkId) {
    exists f :: FileUses(db, f, c)
  }

  ghost predicate SomeVersionUses(db: Db, c: ChunkId) {
    exists v :: VersionUses(db, v, c)
  }

  predicate PartUses(db: Db, k: PartKey, c: ChunkId) {
    k in db.parts && db.parts[k] == c
  }

  ghost predicate SomePartUses(db: Db, c: ChunkId) {
    exists k :: PartUses(db, k, c)
  }

  /** The session still takes parts, or is being finalized. */
  predicate GoesOn(db: Db, sid: SessionId) {
    sid in db.sessions && (db.sessions[sid] == Open || db.sessions[sid] == Completing)
  }

  ghost predicate OpenPartUses(db: Db, c: ChunkId) {
    exists k :: PartUses(db, k, c) && GoesOn(db, k.session)
  }

  /** A file, a version or an upload that goes on uses it. */
  ghost predicate InUse(db: Db, c: ChunkId) {
    SomeFileUses(db, c) || SomeVersionUses(db, c) || OpenPartUses(db, c)
  }

  lemma UsesMean(db: Db, c: ChunkId)
    ensures db.InFile(c) <==> SomeFileUses(db, c)
    ensures db.InVersion(c) <==> SomeVersionUses(db, c)
    ensures db.InAnyPart(c) <==> SomePartUses(db, c)
    ensures db.InLivePart(c) <==> OpenPartUses(db, c)
  {
    if db.InFile(c) {
      var f :| f in db.files && c in db.files[f].Values;
      assert FileUses(db, f, c);
    }
    if f :| FileUses(db, f, c) {
      assert c in db.files[f].Values;
    }
    if db.InVersion(c) {
      var v :| v in db.versions && c in db.versions[v].rows.Values;
      assert VersionUses(db, v, c);
    }
    if v :| VersionUses(db, v, c) {
      assert c in db.versions[v].rows.Values;
    }
    if db.InAnyPart(c) {
      var k :| k in db.parts && db.parts[k] == c;
      assert PartUses(db, k, c);
    }
    if db.InLivePart(c) {
      var k :| k in db.parts && db.parts[k] == c && db.Live(k.session);
      assert PartUses(db, k, c) && GoesOn(db, k.session);
    }
    if k :| PartUses(db, k, c) && GoesOn(db, k.session) {
      assert db.Live(k.session);
    }
  }

  // ----- Purge -----

  /** The chunk was used by something that goes. */
  ghost predicate DoomedUses(db: Db, doomed: set<FileId>, c: ChunkId) {
    || (exists f :: f in doomed && FileUses(db, f, c))
    || (exists v :: VersionUses(db, v, c) && db.versions[v].file in doomed)
  }

  /** Exactly the doomed files with their versions are gone, the closed sessions with their parts, and their last chunks. */
  ghost predicate Purged(db: Db, after: Db, doomed: set<FileId>, closed: set<SessionId>) {
    && (forall f :: f in after.files <==> f in db.files && f !in doomed)
    && (forall f :: f in after.files ==> after.files[f] == db.files[f])
    && (forall v :: v in after.versions <==> v in db.versions && db.versions[v].file !in doomed)
    && (forall v :: v in after.versions ==> after.versions[v] == db.versions[v])
    && (forall s :: s in after.sessions <==> s in db.sessions && s !in closed)
    && (forall s :: s in after.sessions ==> after.sessions[s] == db.sessions[s])
    && (forall k :: k in after.parts <==> k in db.parts && k.session !in closed)
    && (forall k :: k in after.parts ==> after.parts[k] == db.parts[k])
    && (forall c :: c in after.chunks <==> c in db.chunks && !(DoomedUses(db, doomed, c) && NothingLeft(after, c)))
    && (forall c :: c in after.chunks ==> after.chunks[c] == db.chunks[c])
  }

  ghost predicate NothingLeft(after: Db, c: ChunkId) {
    !SomeFileUses(after, c) && !SomeVersionUses(after, c) && !SomePartUses(after, c)
  }

  /** All or nothing: a purge that would close a session that goes on changes nothing. */
  lemma PurgeDoes(db: Db, doomed: set<FileId>, closed: set<SessionId>)
    ensures if exists s :: s in closed && GoesOn(db, s) then db.Purge(doomed, closed) == db
      else Purged(db, db.Purge(doomed, closed), doomed, closed)
  {
    if s :| s in closed && GoesOn(db, s) {
      assert db.Live(s);
    } else {
      assert forall s :: s in closed ==> !db.Live(s) || GoesOn(db, s);
      PurgeRows(db, doomed, closed);
    }
  }

  lemma PurgeRows(db: Db, doomed: set<FileId>, closed: set<SessionId>)
    requires forall s :: s in closed ==> !db.Live(s)
    ensures Purged(db, db.Purge(doomed, closed), doomed, closed)
  {
    var after := db.Purge(doomed, closed);
    forall c | c in db.chunks
      ensures c in after.chunks <==> !(DoomedUses(db, doomed, c) && NothingLeft(after, c))
    {
      UsesMean(after, c);
      TargetMeans(db, doomed, c);
      SameUses(after, after.(chunks := db.chunks), c);
    }
  }

  lemma SameUses(a: Db, b: Db, c: ChunkId)
    requires a.files == b.files && a.versions == b.versions && a.parts == b.parts
    ensures a.InFile(c) == b.InFile(c) && a.InVersion(c) == b.InVersion(c) && a.InAnyPart(c) == b.InAnyPart(c)
  {
  }

  lemma TargetMeans(db: Db, doomed: set<FileId>, c: ChunkId)
    ensures db.PurgeTarget(doomed, c) <==> DoomedUses(db, doomed, c)
  {
    if f :| f in doomed && f in db.files && c in db.files[f].Values {
      assert FileUses(db, f, c);
    }
    if v :| v in db.versions && db.versions[v].file in doomed && c in db.versions[v].rows.Values {
      assert VersionUses(db, v, c);
    }
    if f :| f in doomed && FileUses(db, f, c) {
      assert c in db.files[f].Values;
    }
    if v :| VersionUses(db, v, c) && db.versions[v].file in doomed {
      assert c in db.versions[v].rows.Values;
    }
  }

  // ----- The other transactions -----

  /** A content that has a row keeps it and nothing changes; a new one gets an unfinished row for the message. */
  lemma RegisterDoes(db: Db, newId: ChunkId, key: Key, location: Location, now: int)
    requires newId !in db.chunks
    ensures var (after, id) := db.Register(newId, key, location, now);
      && id in after.chunks && after.chunks[id].key == key
      && (id in db.chunks ==> after == db)
      && (id !in db.chunks ==>
            && (forall c :: c in db.chunks ==> db.chunks[c].key != key)
            && id == newId && after == db.(chunks := db.chunks[newId := Chunk(key, location, false, now)]))
  {
  }

  /** A part goes to an open session that has none of that index, for a row that is there; otherwise nothing happens. */
  lemma AttachDoes(db: Db, k: PartKey, c: ChunkId)
    ensures var after := db.AttachPart(k, c);
      if k.session in db.sessions && db.sessions[k.session] == Open && k !in db.parts && c in db.chunks
      then PartUses(after, k, c) && after == db.(parts := after.parts) && after.parts - {k} == db.parts
      else after == db
  {
  }

  /** The parts of closed sessions let go of the chunk; its row goes if it is unfinished and not in use. */
  lemma RemoveCandidateDoes(db: Db, c: ChunkId)
    ensures var after := db.RemoveCandidate(c);
      && after == db.(parts := after.parts, chunks := after.chunks)
      && (forall k :: k in after.parts <==>
            k in db.parts && !(db.parts[k] == c && k.session in db.sessions && !GoesOn(db, k.session)))
      && (forall k :: k in after.parts ==> after.parts[k] == db.parts[k])
      && after.chunks == (if c in db.chunks && !db.chunks[c].ready && !InUse(db, c) then db.chunks - {c} else db.chunks)
  {
    var unlinked := db.(parts := map k | k in db.parts && (db.parts[k] != c || db.Live(k.session) || k.session !in db.sessions)
      :: db.parts[k]);
    UsesMean(db, c);
    UsesMean(unlinked, c);
    forall k
      ensures PartUses(unlinked, k, c) && GoesOn(unlinked, k.session) <==> PartUses(db, k, c) && GoesOn(db, k.session)
    {
    }
    OnlyOpenPartsCount(db, unlinked, c);
  }

  lemma OnlyOpenPartsCount(db: Db, after: Db, c: ChunkId)
    requires after.files == db.files && after.versions == db.versions && after.sessions == db.sessions
    requires forall k :: PartUses(after, k, c) && GoesOn(after, k.session) <==> PartUses(db, k, c) && GoesOn(db, k.session)
    ensures InUse(after, c) <==> InUse(db, c)
  {
    assert forall f :: FileUses(after, f, c) <==> FileUses(db, f, c);
    assert forall v :: VersionUses(after, v, c) <==> VersionUses(db, v, c);
  }

  /** The parts of an open session become the rows of the file and of a version, and their chunks are ready. */
  ghost predicate Finalized(db: Db, after: Db, sid: SessionId, file: FileId, version: VersionId) {
    && sid in db.sessions && after.parts == db.parts && after.sessions == db.sessions[sid := Completed]
    && file in after.files && after.files == db.files[file := after.files[file]]
    && after.versions == db.versions[version := Version(file, after.files[file])]
    && (forall i :: i in after.files[file] <==> PartKey(sid, i) in db.parts)
    && (forall i :: i in after.files[file] ==> after.files[file][i] == db.parts[PartKey(sid, i)])
    && after.chunks.Keys == db.chunks.Keys
    && (forall c :: c in db.chunks ==> after.chunks[c] == db.chunks[c].(ready := after.chunks[c].ready))
    && (forall c :: c in db.chunks ==> (after.chunks[c].ready <==> db.chunks[c].ready || SessionUses(db, sid, c)))
  }

  ghost predicate SessionUses(db: Db, sid: SessionId, c: ChunkId) {
    exists k :: PartUses(db, k, c) && k.session == sid
  }

  lemma FinalizeDoes(db: Db, sid: SessionId, file: FileId, version: VersionId)
    ensures var after := db.Finalize(sid, file, version);
      if sid in db.sessions && db.sessions[sid] == Open then Finalized(db, after, sid, file, version) else after == db
  {
    if sid in db.sessions && db.sessions[sid] == Open {
      var rows := db.PartsOf(sid);
      forall c | c in db.chunks
        ensures c in rows.Values <==> SessionUses(db, sid, c)
      {
        if c in rows.Values {
          var i :| i in rows && rows[i] == c;
          assert PartUses(db, PartKey(sid, i), c);
        }
        if k :| PartUses(db, k, c) && k.session == sid {
          assert k.index in rows && rows[k.index] == c;
        }
      }
    }
  }

  /** Closing and restoring touch nothing else. */
  lemma CloseDoes(db: Db, sid: SessionId, status: Status)
    ensures db.Close(sid, status) ==
      if sid in db.sessions && db.sessions[sid] == Open then db.(sessions := db.sessions[sid := status]) else db
  {
  }

  lemma RestoreVersionDoes(db: Db, file: FileId, source: VersionId, version: VersionId)
    ensures var after := db.RestoreVersion(file, source, version);
      if source in db.versions && db.versions[source].file == file && file in db.files
      then after == db.(files := after.files, versions := after.versions)
        && after.files == db.files[file := db.versions[source].rows]
        && after.versions == db.versions[version := Version(file, db.versions[source].rows)]
      else after == db
  {
  }

  // ----- Sweeps -----

  /** A sweep goes for a row exactly if it is unfinished, past the grace period and not in use; else it leaves it. */
  lemma LoadDecides(s: Sys, pid: Pid, cutoff: int)
    requires ProcOf(s, pid).InSweep?
    ensures var c := ProcOf(s, pid).chunk;
      var after := Apply(s, Load(pid, cutoff));
      && after.db == s.db && after.blobs == s.blobs
      && ProcOf(after, pid) ==
           if c in s.db.chunks && !s.db.chunks[c].ready && s.db.chunks[c].created < cutoff && !InUse(s.db, c)
           then Doomed(c, ProcOf(s, pid).key, s.db.chunks[c].location)
           else Leaving(ProcOf(s, pid).key)
  {
    UsesMean(s.db, ProcOf(s, pid).chunk);
  }

  /** Nothing but a purge of its last user and the end of a sweep takes a row away. */
  lemma RowsGoOnlyThen(s: Sys, a: Action, c: ChunkId)
    requires Enabled(s, a) && c in s.db.chunks && c !in Apply(s, a).db.chunks
    ensures match a
      case PurgeFiles(doomed, closed) => DoomedUses(s.db, doomed, c) && NothingLeft(Apply(s, a).db, c)
      case RemoveRow(pid) => ProcOf(s, pid).BlobGone? && ProcOf(s, pid).chunk == c && !s.db.chunks[c].ready && !InUse(s.db, c)
      case _ => false
  {
    match a
    case PurgeFiles(doomed, closed) => PurgeDoes(s.db, doomed, closed);
    case RemoveRow(pid) => RemoveCandidateDoes(s.db, ProcOf(s, pid).chunk);
    case _ => OthersKeepRows(s, a);
  }

  lemma OthersKeepRows(s: Sys, a: Action)
    requires Enabled(s, a) && !a.PurgeFiles? && !a.RemoveRow?
    ensures s.db.chunks.Keys <= Apply(s, a).db.chunks.Keys
  {
    match a
    case FinalizeNew(sid) => FinalizeDoes(s.db, sid, s.nextFile, s.nextVersion);
    case FinalizeVersion(sid, file) => FinalizeDoes(s.db, sid, file, s.nextVersion);
    case _ =>
  }

  /** A stored message is deleted only by a sweep of the row that names it. */
  lemma BlobsGoOnlyThen(s: Sys, a: Action, location: Location)
    requires Inv(s) && Enabled(s, a) && location in s.blobs && location !in Apply(s, a).blobs
    ensures a.DeleteBlob? && ProcOf(s, a.pid).Doomed? && ProcOf(s, a.pid).location == location
    ensures var c := ProcOf(s, a.pid).chunk;
      c in s.db.chunks && s.db.chunks[c].location == location && !s.db.chunks[c].ready && !InUse(s.db, c)
  {
    if a.RegisterChunk? {
      CleanupNeverNeeded(s, a.pid);
    }
    var c := ProcOf(s, a.pid).chunk;
    assert Stable(s, ProcOf(s, a.pid));
    UsesMean(s.db, c);
  }

  /** One sweep of one row, from start to end. */
  function WholeSweep(pid: Pid, c: ChunkId, cutoff: int): seq<Action> {
    SweepOpens(pid, c, cutoff) + SweepEnds(pid)
  }

  function SweepOpens(pid: Pid, c: ChunkId, cutoff: int): seq<Action> {
    [StartSweep(pid, c)] + ([Lock(pid)] + ([Load(pid, cutoff)] + []))
  }

  function SweepEnds(pid: Pid): seq<Action> {
    [DeleteBlob(pid)] + ([RemoveRow(pid)] + ([Unlock(pid)] + []))
  }

  /** The row can go: unfinished, old enough and not in use. */
  ghost predicate IsOrphan(db: Db, c: ChunkId, cutoff: int) {
    c in db.chunks && !db.chunks[c].ready && db.chunks[c].created < cutoff && !InUse(db, c)
  }

  lemma SweepBegins(s: Sys, pid: Pid, c: ChunkId, cutoff: int)
    requires ProcOf(s, pid).Idle? && IsOrphan(s.db, c, cutoff) && s.db.chunks[c].key !in s.locks
    ensures var key := s.db.chunks[c].key;
      && CanRun(s, SweepOpens(pid, c, cutoff))
      && Run(s, SweepOpens(pid, c, cutoff)) ==
           s.(locks := s.locks[key := pid], procs := s.procs[pid := Doomed(c, key, s.db.chunks[c].location)])
  {
    var s1 := Apply(s, StartSweep(pid, c));
    var s2 := Apply(s1, Lock(pid));
    LoadDecides(s2, pid, cutoff);
    var s3 := Apply(s2, Load(pid, cutoff));
    assert s3.procs == s.procs[pid := Doomed(c, s.db.chunks[c].key, s.db.chunks[c].location)];
    RunStep(s2, Load(pid, cutoff), []);
    RunStep(s1, Lock(pid), [Load(pid, cutoff)] + []);
    RunStep(s, StartSweep(pid, c), [Lock(pid)] + ([Load(pid, cutoff)] + []));
  }

  lemma SweepFinishes(s: Sys, pid: Pid, c: ChunkId, key: Key, location: Location)
    requires ProcOf(s, pid) == Doomed(c, key, location) && c in s.db.chunks && !s.db.chunks[c].ready && !InUse(s.db, c)
    ensures CanRun(s, SweepEnds(pid))
    ensures var after := Run(s, SweepEnds(pid));
      && after.db.chunks == s.db.chunks - {c} && after.blobs == s.blobs - {location} && after.locks == s.locks - {key}
  {
    var s1 := Apply(s, DeleteBlob(pid));
    RemoveCandidateDoes(s1.db, c);
    var s2 := Apply(s1, RemoveRow(pid));
    RunStep(s2, Unlock(pid), []);
    RunStep(s1, RemoveRow(pid), [Unlock(pid)] + []);
    RunStep(s, DeleteBlob(pid), [RemoveRow(pid)] + ([Unlock(pid)] + []));
  }

  /** Undisturbed, a sweep of an orphan takes the row and its message, and lets go of the lock. */
  lemma SweepCollects(s: Sys, pid: Pid, c: ChunkId, cutoff: int)
    requires ProcOf(s, pid).Idle? && IsOrphan(s.db, c, cutoff) && s.db.chunks[c].key !in s.locks
    ensures CanRun(s, WholeSweep(pid, c, cutoff))
    ensures var after := Run(s, WholeSweep(pid, c, cutoff));
      && after.db.chunks == s.db.chunks - {c} && after.blobs == s.blobs - {s.db.chunks[c].location} && after.locks == s.locks
  {
    var key, location := s.db.chunks[c].key, s.db.chunks[c].location;
    SweepBegins(s, pid, c, cutoff);
    var doomed := Run(s, SweepOpens(pid, c, cutoff));
    SweepFinishes(doomed, pid, c, key, location);
    RunOn(s, SweepOpens(pid, c, cutoff), SweepEnds(pid));
    assert doomed.locks - {key} == s.locks;
  }

  // ----- Uploads -----

  /** An upload of a content that has a row, and of one that has none. */
  function DedupedUpload(pid: Pid, k: PartKey, key: Key): seq<Action> {
    [StartPart(pid, k, key)] + ([Lock(pid)] + ([Inspect(pid)] + ([Attach(pid)] + [])))
  }

  function StoringUpload(pid: Pid, k: PartKey, key: Key): seq<Action> {
    [StartPart(pid, k, key)] + ([Lock(pid)] + ([Inspect(pid)] + ([Put(pid)] + ([RegisterChunk(pid)] + ([Attach(pid)] + [])))))
  }

  /**
   * Under the lock an upload goes on exactly if the session is open and lacks the part, and stores a message only
   * if its content has no row; otherwise it leaves.
   */
  lemma InspectDecides(s: Sys, pid: Pid)
    requires ProcOf(s, pid).InPart?
    ensures var k, key := ProcOf(s, pid).k, ProcOf(s, pid).key;
      var after := Apply(s, Inspect(pid));
      && after == s.(procs := after.procs)
      && if k.session in s.db.sessions && s.db.sessions[k.session] == Open && k !in s.db.parts then
           if NoRow(s.db, key) then ProcOf(after, pid) == Missing(k, key)
           else exists c :: c in s.db.chunks && s.db.chunks[c].key == key && ProcOf(after, pid) == Found(k, key, c)
         else ProcOf(after, pid) == Leaving(key)
  {
    var p := ProcOf(s, pid);
    if s.db.Find(p.key).Some? {
      var c := s.db.Find(p.key).value;
      assert c in s.db.chunks && s.db.chunks[c].key == p.key;
    }
  }

  /** Undisturbed, an upload to an open session attaches a row of its content, storing a message only if there was none. */
  lemma UploadArrives(s: Sys, pid: Pid, k: PartKey, key: Key)
    requires Inv(s) && ProcOf(s, pid).Idle? && key !in s.locks
    requires k.session in s.db.sessions && s.db.sessions[k.session] == Open && k !in s.db.parts
    ensures var actions := if NoRow(s.db, key) then StoringUpload(pid, k, key) else DedupedUpload(pid, k, key);
      CanRun(s, actions) &&
      var after := Run(s, actions);
      && k in after.db.parts && after.db.parts[k] in after.db.chunks && after.db.chunks[after.db.parts[k]].key == key
      && (NoRow(s.db, key) ==> Held(after, after.db.parts[k]))
      && (!NoRow(s.db, key) ==> after.blobs == s.blobs && after.db == s.db.(parts := after.db.parts))
  {
    if NoRow(s.db, key) {
      StoresAnew(s, pid, k, key);
    } else {
      var c :| c in s.db.chunks && s.db.chunks[c].key == key;
      UploadFindsRow(s, pid, k, key, c);
      var s1 := Apply(s, StartPart(pid, k, key));
      var s2 := Apply(s1, Lock(pid));
      var s3 := Apply(s2, Inspect(pid));
      RunStep(s3, Attach(pid), []);
      RunStep(s2, Inspect(pid), [Attach(pid)] + []);
      RunStep(s1, Lock(pid), [Inspect(pid)] + ([Attach(pid)] + []));
      RunStep(s, StartPart(pid, k, key), [Lock(pid)] + ([Inspect(pid)] + ([Attach(pid)] + [])));
    }
  }

  lemma StoresAnew(s: Sys, pid: Pid, k: PartKey, key: Key)
    requires RowsUnique(s) && ProcOf(s, pid).Idle? && key !in s.locks && NoRow(s.db, key)
    requires k.session in s.db.sessions && s.db.sessions[k.session] == Open && k !in s.db.parts
    ensures var actions := StoringUpload(pid, k, key);
      && CanRun(s, actions)
      && k in Run(s, actions).db.parts && Held(Run(s, actions), Run(s, actions).db.parts[k])
      && Run(s, actions).db.chunks[Run(s, actions).db.parts[k]].key == key
  {
    var s1 := Apply(s, StartPart(pid, k, key));
    var s2 := Apply(s1, Lock(pid));
    assert s2.db.Find(key) == None;
    var s3 := Apply(s2, Inspect(pid));
    assert s3.procs[pid] == Missing(k, key);
    StoresMissing(s3, pid, k, key);
    RunStep(s2, Inspect(pid), [Put(pid)] + ([RegisterChunk(pid)] + ([Attach(pid)] + [])));
    RunStep(s1, Lock(pid), [Inspect(pid)] + ([Put(pid)] + ([RegisterChunk(pid)] + ([Attach(pid)] + []))));
    RunStep(s, StartPart(pid, k, key), [Lock(pid)] + ([Inspect(pid)] + ([Put(pid)] + ([RegisterChunk(pid)] + ([Attach(pid)] + [])))));
  }

  lemma StoresMissing(s: Sys, pid: Pid, k: PartKey, key: Key)
    requires RowsUnique(s) && ProcOf(s, pid) == Missing(k, key) && NoRow(s.db, key)
    requires k.session in s.db.sessions && s.db.sessions[k.session] == Open && k !in s.db.parts
    ensures var actions := [Put(pid)] + ([RegisterChunk(pid)] + ([Attach(pid)] + []));
      && CanRun(s, actions)
      && k in Run(s, actions).db.parts && Held(Run(s, actions), Run(s, actions).db.parts[k])
      && Run(s, actions).db.chunks[Run(s, actions).db.parts[k]].key == key
  {
    var s1 := Apply(s, Put(pid));
    assert s1.db.Find(key) == None;
    var s2 := Apply(s1, RegisterChunk(pid));
    assert s2.procs[pid] == Found(k, key, s.nextChunk);
    RunStep(s2, Attach(pid), []);
    RunStep(s1, RegisterChunk(pid), [Attach(pid)] + []);
    RunStep(s, Put(pid), [RegisterChunk(pid)] + ([Attach(pid)] + []));
  }
}
