/** What was uploaded can be read back after whatever happens later: the blob store, the tables and the reader together. */
module Durability {
  import opened ChunkGc
  import opened ChunkTables
  import opened RoundTrip
  import opened Wrappers
  import ByteRange
  import ChunkLayout
  import RangeReader

  type Bytes = seq<RangeReader.byte>

  /** The bytes behind a digest and size; equal digests mean equal content. */
  type Contents = Key -> Bytes

  ghost predicate Faithful(content: Contents) {
    forall key: Key :: |content(key)| == key.size
  }

  /** The blob store as the reader sees it. */
  function Blobs(s: Sys, content: Contents): RangeReader.Blobs {
    map l | l in s.blobs :: content(s.blobs[l])
  }

  predicate RowsKnown(db: Db, rows: Rows) {
    forall i :: i in rows ==> rows[i] in db.chunks
  }

  /** An ordered chunk list as an upload: sizes and locations of its parts. */
  function UploadOf(db: Db, rows: Rows, parts: nat, chunk: int, size: nat): Upload
    requires RowsKnown(db, rows)
  {
    Upload(parts, chunk, size, map i | i in rows :: PartRow(db.chunks[rows[i]].key.size, db.chunks[rows[i]].location))
  }

  // ----- Versions are for good -----

  predicate SameVersion(db: Db, after: Db, v: VersionId) {
    v in after.versions ==> v in db.versions && after.versions[v] == db.versions[v]
  }

  lemma CommitsLeaveVersions(db: Db, sid: SessionId, file: FileId, source: VersionId, version: VersionId, v: VersionId)
    requires v != version
    ensures SameVersion(db, db.Finalize(sid, file, version), v)
    ensures SameVersion(db, db.RestoreVersion(file, source, version), v)
  {
  }

  lemma PurgeLeavesVersions(db: Db, doomed: set<FileId>, closed: set<SessionId>, v: VersionId)
    ensures SameVersion(db, db.Purge(doomed, closed), v)
  {
  }

  /** A step changes no version that was there, and reuses no number. */
  lemma VersionStep(s: Sys, a: Action, v: VersionId)
    requires Inv(s) && Enabled(s, a) && v < s.nextVersion
    ensures v < Apply(s, a).nextVersion && SameVersion(s.db, Apply(s, a).db, v)
  {
    if !TableAction(a) {
      ProcLeavesVersions(s, a);
    } else {
      match a
      case FinalizeNew(sid) => CommitsLeaveVersions(s.db, sid, s.nextFile, 0, s.nextVersion, v);
      case FinalizeVersion(sid, file) => CommitsLeaveVersions(s.db, sid, file, 0, s.nextVersion, v);
      case Restore(file, source) => CommitsLeaveVersions(s.db, 0, file, source, s.nextVersion, v);
      case PurgeFiles(doomed, closed) => PurgeLeavesVersions(s.db, doomed, closed, v);
      case _ =>
    }
  }

  lemma ProcLeavesVersions(s: Sys, a: Action)
    requires Inv(s) && Enabled(s, a) && !TableAction(a)
    ensures Apply(s, a).db.versions == s.db.versions && Apply(s, a).nextVersion == s.nextVersion
  {
    if MoveOnly(a) {
      MovesKeepStore(s, a);
    } else if a.RegisterChunk? {
      var p := ProcOf(s, a.pid);
      assert Stable(s, p);
      RegisterKeeps(s.db, s.nextChunk, p.key, p.location, s.clock);
    }
  }

  predicate SameRow(db: Db, after: Db, c: ChunkId) {
    c in db.chunks && c in after.chunks ==>
      after.chunks[c].key == db.chunks[c].key && after.chunks[c].location == db.chunks[c].location
  }

  /** A row never changes its content or its message. */
  lemma RowStep(s: Sys, a: Action, c: ChunkId)
    requires Inv(s) && Enabled(s, a)
    ensures SameRow(s.db, Apply(s, a).db, c)
  {
    if TableAction(a) {
      TableReferences(s, a);
    } else if MoveOnly(a) {
      MovesKeepStore(s, a);
    } else {
      StoredRowStep(s, a, c);
    }
  }

  lemma StoredRowStep(s: Sys, a: Action, c: ChunkId)
    requires Inv(s) && Enabled(s, a) && !TableAction(a) && !MoveOnly(a)
    ensures SameRow(s.db, Apply(s, a).db, c)
  {
    var p := ProcOf(s, a.pid);
    assert Stable(s, p);
    match a
    case RegisterChunk(_) => RegisterKeeps(s.db, s.nextChunk, p.key, p.location, s.clock);
    case RemoveRow(_) => RemoveKeeps(s.db, p.chunk, p.key);
    case _ =>
  }

  /** A version still there after a run is the version it was, made of the same rows and messages. */
  lemma {:induction false} VersionEndures(s: Sys, actions: seq<Action>, v: VersionId)
    requires Inv(s) && CanRun(s, actions) && v < s.nextVersion && v in Run(s, actions).db.versions
    ensures SameVersion(s.db, Run(s, actions).db, v)
    ensures SameRows(s.db, Run(s, actions).db, s.db.versions[v].rows)
    decreases |actions|
  {
    if actions != [] {
      var next := Apply(s, actions[0]);
      StepKeepsInv(s, actions[0]);
      VersionStep(s, actions[0], v);
      VersionEndures(next, actions[1..], v);
      RowsStep(s, actions[0], Run(s, actions), s.db.versions[v].rows);
    }
  }

  ghost predicate SameRows(db: Db, after: Db, rows: Rows) {
    forall i :: i in rows ==> SameRow(db, after, rows[i])
  }

  lemma RowsStep(s: Sys, a: Action, t: Sys, rows: Rows)
    requires Inv(s) && Enabled(s, a) && RowsReady(Apply(s, a).db, rows) && SameRows(Apply(s, a).db, t.db, rows)
    ensures SameRows(s.db, t.db, rows)
  {
    forall i | i in rows
      ensures SameRow(s.db, t.db, rows[i])
    {
      RowStep(s, a, rows[i]);
      assert ReadyRow(Apply(s, a).db, rows[i]) && SameRow(Apply(s, a).db, t.db, rows[i]);
    }
  }

  /** Every chunk of a version is ready, and its blob holds its content. */
  lemma VersionHeld(s: Sys, v: VersionId)
    requires Inv(s) && Intact(s) && v in s.db.versions
    ensures forall i :: i in s.db.versions[v].rows ==> Held(s, s.db.versions[v].rows[i])
  {
    forall i | i in s.db.versions[v].rows
      ensures Held(s, s.db.versions[v].rows[i])
    {
      assert ReadyRow(s.db, s.db.versions[v].rows[i]);
    }
  }

  // ----- From the upload to a later download -----

  /** The contents of the first `n` parts, one after the other. */
  ghost function Uploaded(db: Db, rows: Rows, content: Contents, n: nat): Bytes
    requires RowsKnown(db, rows) && forall i :: 0 <= i < n ==> i in rows
  {
    if n == 0 then [] else Uploaded(db, rows, content, n - 1) + content(db.chunks[rows[n - 1]].key)
  }

  /** A session whose upload is finalized, and whatever happens afterwards. */
  datatype History = History(start: Sys, session: SessionId, later: seq<Action>)
  {
    function Rows(): Rows {
      start.db.PartsOf(session)
    }

    /** The version that the finalization creates. */
    function Version(): VersionId {
      start.nextVersion
    }

    ghost function Committed(): Sys {
      Apply(start, FinalizeNew(session))
    }

    /** In the end the version has not been purged, and no upload attached a row whose blob was gone. */
    ghost predicate Happens() {
      && Inv(start) && Intact(start) && session in start.db.sessions && start.db.sessions[session] == Open
      && CanRun(Committed(), later) && NoLostAttach(Committed(), later)
      && Version() in Run(Committed(), later).db.versions
    }

    ghost function End(): Sys
      requires Happens()
    {
      Run(Committed(), later)
    }

    /** The upload is the one that finalization accepted: its parts are complete. */
    ghost predicate Uploads(u: Upload) {
      && RowsKnown(start.db, Rows()) && ChunkLayout.Cut(u.parts, u.chunk, u.size)
      && u == UploadOf(start.db, Rows(), u.parts, u.chunk, u.size)
      && ChunkLayout.Complete(u.parts, u.chunk, u.size, Sizes(u))
    }
  }

  /** The commit of a finalization turns the parts of the session into a version. */
  lemma CommitMakesVersion(db: Db, sid: SessionId, file: FileId, version: VersionId)
    requires References(db) && sid in db.sessions && db.sessions[sid] == Open
    ensures var after := db.Finalize(sid, file, version);
      && version in after.versions && after.versions[version].rows == db.PartsOf(sid)
      && RowsKnown(db, db.PartsOf(sid)) && RowsReady(after, db.PartsOf(sid))
  {
    CommittedReady(db, sid, file, version);
    forall i | i in db.PartsOf(sid)
      ensures db.PartsOf(sid)[i] in db.chunks
    {
      assert PartKey(sid, i) in db.parts;
    }
  }

  /** After everything, the rows of the version are the parts as they were, and the blobs are there. */
  lemma RowsEndure(h: History)
    requires h.Happens()
    ensures Inv(h.End()) && RowsKnown(h.start.db, h.Rows()) && h.End().db.versions[h.Version()].rows == h.Rows()
    ensures forall i :: i in h.Rows() ==> Held(h.End(), h.Rows()[i]) && SameRow(h.start.db, h.End().db, h.Rows()[i])
  {
    var s, first, v := h.start, h.Committed(), h.Version();
    StepSafeIff(s, FinalizeNew(h.session));
    StepKeepsInv(s, FinalizeNew(h.session));
    CommitMakesVersion(s.db, h.session, s.nextFile, v);
    RunKeepsInv(first, h.later);
    SafeAlongIff(first, h.later);
    VersionEndures(first, h.later, v);
    VersionHeld(h.End(), v);
    RowsStep(s, FinalizeNew(h.session), h.End(), h.Rows());
  }

  /**
   * Finalize a complete upload, then let anything happen: as long as no upload attaches a row whose blob is gone
   * and the version is not purged, every part is in the blob store as it was uploaded.
   */
  lemma UploadEndures(h: History, u: Upload, content: Contents)
    requires h.Happens() && h.Uploads(u) && Faithful(content)
    ensures RowsKnown(h.End().db, h.Rows()) && UploadOf(h.End().db, h.Rows(), u.parts, u.chunk, u.size) == u
    ensures Finalizable(u, Blobs(h.End(), content))
    ensures PartsAsUploaded(h.start.db, h.Rows(), u, Blobs(h.End(), content), content)
  {
    RowsEndure(h);
    PartsHeld(h.start.db, h.End(), h.Rows(), u, content);
  }

  ghost predicate PartsAsUploaded(db: Db, rows: Rows, u: Upload, blobs: RangeReader.Blobs, content: Contents)
    requires RowsKnown(db, rows)
  {
    forall i :: i in rows ==>
      i in u.rows && u.rows[i].location in blobs && blobs[u.rows[i].location] == content(db.chunks[rows[i]].key)
  }

  lemma PartsHeld(db: Db, t: Sys, rows: Rows, u: Upload, content: Contents)
    requires RowsKnown(db, rows) && Faithful(content) && u == UploadOf(db, rows, u.parts, u.chunk, u.size)
    requires forall i :: i in rows ==> Held(t, rows[i]) && SameRow(db, t.db, rows[i])
    ensures RowsKnown(t.db, rows) && UploadOf(t.db, rows, u.parts, u.chunk, u.size) == u
    ensures Stored(u, Blobs(t, content)) && PartsAsUploaded(db, rows, u, Blobs(t, content), content)
  {
    forall i | i in rows
      ensures rows[i] in t.db.chunks && t.db.chunks[rows[i]].key == db.chunks[rows[i]].key
      ensures t.db.chunks[rows[i]].location == db.chunks[rows[i]].location && u.rows[i].location in t.blobs
    {
      assert Held(t, rows[i]) && SameRow(db, t.db, rows[i]);
    }
  }

  lemma {:induction false} JoinedIsUploaded(db: Db, rows: Rows, u: Upload, blobs: RangeReader.Blobs, content: Contents, n: nat)
    requires RowsKnown(db, rows) && PartsAsUploaded(db, rows, u, blobs, content)
    requires forall i :: 0 <= i < n ==> i in rows && i in u.rows && PartHeld(u, blobs, i)
    ensures Joined(u, blobs, n) == Uploaded(db, rows, content, n)
  {
    if n > 0 {
      JoinedIsUploaded(db, rows, u, blobs, content, n - 1);
    }
  }

  lemma PartsMakeContent(db: Db, rows: Rows, u: Upload, blobs: RangeReader.Blobs, content: Contents)
    requires RowsKnown(db, rows) && u == UploadOf(db, rows, u.parts, u.chunk, u.size)
    requires Finalizable(u, blobs) && PartsAsUploaded(db, rows, u, blobs, content)
    ensures RangeReader.WellLaid(Filed(u), blobs)
    ensures forall i :: 0 <= i < u.parts ==> i in rows && i in u.rows && PartHeld(u, blobs, i)
    ensures RangeReader.Content(Filed(u), blobs) == Uploaded(db, rows, content, u.parts)
    ensures Joined(u, blobs, u.parts) == Uploaded(db, rows, content, u.parts)
  {
    FileIsItsParts(u, blobs);
    assert u.rows.Keys == rows.Keys;
    JoinedIsUploaded(db, rows, u, blobs, content, u.parts);
  }

  /** The content of the finalized file, read at any later time, is what was uploaded. */
  lemma ContentEndures(h: History, u: Upload, content: Contents)
    requires h.Happens() && h.Uploads(u) && Faithful(content)
    ensures Finalizable(u, Blobs(h.End(), content)) && RangeReader.WellLaid(Filed(u), Blobs(h.End(), content))
    ensures forall i :: 0 <= i < u.parts ==> i in h.Rows() && i in u.rows && PartHeld(u, Blobs(h.End(), content), i)
    ensures RangeReader.Content(Filed(u), Blobs(h.End(), content)) == Uploaded(h.start.db, h.Rows(), content, u.parts)
    ensures Joined(u, Blobs(h.End(), content), u.parts) == Uploaded(h.start.db, h.Rows(), content, u.parts)
  {
    UploadEndures(h, u, content);
    PartsMakeContent(h.start.db, h.Rows(), u, Blobs(h.End(), content), content);
  }

  /** What the parts of the finalized upload held, joined. */
  ghost function FileAsUploaded(h: History, u: Upload, content: Contents): Bytes
    requires h.Happens() && h.Uploads(u) && Faithful(content)
  {
    ContentEndures(h, u, content);
    Uploaded(h.start.db, h.Rows(), content, u.parts)
  }

  /**
   * So a client that asks for the version later, with or without a range, gets the uploaded parts or that slice
   * of them; only a failing blob store interrupts it.
   */
  method DownloadLater(ghost h: History, ghost content: Contents, u: Upload, blobs: RangeReader.Blobs, header: string,
                       plan: seq<RangeReader.Opening>, bufferSize: nat -> nat) returns (answer: Answer)
    requires h.Happens() && h.Uploads(u) && Faithful(content)
    requires blobs == Blobs(h.End(), content) && forall i :: bufferSize(i) > 0
    ensures |FileAsUploaded(h, u, content)| == u.size
    ensures answer.Whole? ==> answer.body == FileAsUploaded(h, u, content)
    ensures answer.Partial? ==>
      && ByteRange.ParseRange(header, u.size) == Success(Some(answer.range))
      && 0 <= answer.range.start <= answer.range.end < u.size
      && answer.body == FileAsUploaded(h, u, content)[answer.range.start..answer.range.end + 1]
    ensures RangeReader.Reliable(plan) ==> !answer.Interrupted?
    ensures answer.Rejected? <==> ByteRange.ParseRange(header, u.size).Failure?
  {
    ContentEndures(h, u, content);
    answer := Download(u, blobs, header, plan, bufferSize);
  }
}
