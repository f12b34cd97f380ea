/** The tables that hold references to stored chunks, and the transactions on them. */
module ChunkTables {
  import opened Wrappers

  type ChunkId = nat
  type Location = nat
  type SessionId = nat
  type FileId = nat
  type VersionId = nat

  /** Digest and size: what makes two chunks the same content. */
  datatype Key = Key(digest: nat, size: nat)

  datatype Chunk = Chunk(key: Key, location: Location, ready: bool, created: int)

  datatype Status = Open | Completing | Completed | Cancelled | Expired | Failed

  datatype PartKey = PartKey(session: SessionId, index: nat)

  /** Ordered chunk lists are rows by part index. */
  type Rows = map<nat, ChunkId>

  datatype Version = Version(file: FileId, rows: Rows)

  datatype Db = Db(
    chunks: map<ChunkId, Chunk>,
    sessions: map<SessionId, Status>,
    parts: map<PartKey, ChunkId>,
    files: map<FileId, Rows>,
    versions: map<VersionId, Version>)
  {
    predicate Live(sid: SessionId) {
      sid in sessions && sessions[sid] in {Open, Completing}
    }

    predicate InFile(c: ChunkId) {
      exists f :: f in files && c in files[f].Values
    }

    predicate InVersion(c: ChunkId) {
      exists v :: v in versions && c in versions[v].rows.Values
    }

    predicate InLivePart(c: ChunkId) {
      exists k :: k in parts && parts[k] == c && Live(k.session)
    }

    predicate InAnyPart(c: ChunkId) {
      exists k :: k in parts && parts[k] == c
    }

    predicate Referenced(c: ChunkId) {
      InFile(c) || InVersion(c) || InLivePart(c)
    }

    function PartsOf(sid: SessionId): Rows {
      map k | k in parts && k.session == sid :: k.index := parts[k]
    }

    /** `FindByDigest`: the row holding this content. */
    ghost function Find(key: Key): Option<ChunkId> {
      if exists c :: c in chunks && chunks[c].key == key then
        var c :| c in chunks && chunks[c].key == key;
        Some(c)
      else None
    }

    /** `loadCandidate`: uncommitted, past the grace period and referenced by nothing that counts. */
    predicate IsCandidate(c: ChunkId, cutoff: int) {
      c in chunks && !chunks[c].ready && chunks[c].created < cutoff && !Referenced(c)
    }

    /** `Register`: insert the content unless a row for it exists. */
    ghost function Register(newId: ChunkId, key: Key, location: Location, now: int): (Db, ChunkId) {
      match Find(key)
      case Some(c) => (this, c)
      case None => (this.(chunks := chunks[newId := Chunk(key, location, false, now)]), newId)
    }

    /** `attachPart`: only to an open session, only to an existing chunk row, never over another part. */
    predicate CanAttach(k: PartKey, c: ChunkId) {
      k.session in sessions && sessions[k.session] == Open && k !in parts && c in chunks
    }

    function AttachPart(k: PartKey, c: ChunkId): Db {
      if CanAttach(k, c) then this.(parts := parts[k := c]) else this
    }

    /** `removeCandidate`: drop references from closed sessions, then the row if it is still unreferenced. */
    function RemoveCandidate(c: ChunkId): Db {
      var unlinked := this.(parts := map k | k in parts && (parts[k] != c || Live(k.session) || k.session !in sessions) :: parts[k]);
      if c in chunks && !chunks[c].ready && !unlinked.Referenced(c)
      then unlinked.(chunks := chunks - {c}) else unlinked
    }

    /** The commit of `Finalize`, for a new file or a new version of an existing one. */
    function Finalize(sid: SessionId, file: FileId, version: VersionId): Db {
      if sid !in sessions || sessions[sid] != Open then this
      else
        var rows := PartsOf(sid);
        this.(files := files[file := rows],
              versions := versions[version := Version(file, rows)],
              chunks := MarkReady(rows.Values),
              sessions := sessions[sid := Completed])
    }

    function MarkReady(ids: set<ChunkId>): map<ChunkId, Chunk> {
      map c | c in chunks :: if c in ids then chunks[c].(ready := true) else chunks[c]
    }

    /** `Cancel` and `expireOne` close an open session. */
    function Close(sid: SessionId, status: Status): Db {
      if sid in sessions && sessions[sid] == Open then this.(sessions := sessions[sid := status]) else this
    }

    /** `RestoreVersion`: a new version and the file's rows copied from an old version. */
    function RestoreVersion(file: FileId, source: VersionId, version: VersionId): Db {
      if source !in versions || versions[source].file != file || file !in files then this
      else
        this.(versions := versions[version := versions[source]], files := files[file := versions[source].rows])
    }

    predicate PurgeTarget(doomed: set<FileId>, c: ChunkId) {
      || (exists f :: f in doomed && f in files && c in files[f].Values)
      || (exists v :: v in versions && versions[v].file in doomed && c in versions[v].rows.Values)
    }

    /** The deletions of `purgeTx` that touch chunks: closed sessions with their parts, files with their
        versions, and the rows of the chunks they used once nothing refers to them. */
    function Purge(doomed: set<FileId>, closed: set<SessionId>): Db {
      if exists sid :: sid in closed && Live(sid) then this
      else
        var left := this.(
          sessions := sessions - closed,
          parts := map k | k in parts && k.session !in closed :: parts[k],
          files := files - doomed,
          versions := map v | v in versions && versions[v].file !in doomed :: versions[v]);
        left.(chunks := map c | c in chunks && !(PurgeTarget(doomed, c) && !left.InFile(c) && !left.InVersion(c) && !left.InAnyPart(c))
                        :: chunks[c])
    }
  }

  /** The same tables as mutable state, one statement at a time. */
  class Store {
    var chunks: map<ChunkId, Chunk>
    var sessions: map<SessionId, Status>
    var parts: map<PartKey, ChunkId>
    var files: map<FileId, Rows>
    var versions: map<VersionId, Version>

    constructor ()
      ensures View() == Db(map[], map[], map[], map[], map[])
    {
      chunks, sessions, parts, files, versions := map[], map[], map[], map[], map[];
    }

    function View(): Db
      reads this
    {
      Db(chunks, sessions, parts, files, versions)
    }

    method FindByDigest(key: Key) returns (found: Option<ChunkId>)
      requires forall c, d :: c in chunks && d in chunks && chunks[c].key == chunks[d].key ==> c == d
      ensures found == View().Find(key)
    {
      var rest := chunks.Keys;
      found := None;
      while rest != {}
        invariant rest <= chunks.Keys
        invariant found.None? && forall c :: c in chunks && c !in rest ==> chunks[c].key != key
        decreases rest
      {
        var c :| c in rest;
        if chunks[c].key == key {
          return Some(c);
        }
        rest := rest - {c};
      }
    }

    method Register(newId: ChunkId, key: Key, location: Location, now: int) returns (id: ChunkId, created: bool)
      requires forall c, d :: c in chunks && d in chunks && chunks[c].key == chunks[d].key ==> c == d
      modifies `chunks
      ensures (View(), id) == old(View()).Register(newId, key, location, now)
      ensures created <==> old(View()).Find(key).None?
    {
      var existing := FindByDigest(key);
      if existing.Some? {
        return existing.value, false;
      }
      chunks := chunks[newId := Chunk(key, location, false, now)];
      id, created := newId, true;
    }

    method AttachPart(k: PartKey, c: ChunkId) returns (inserted: bool)
      modifies `parts
      ensures View() == old(View()).AttachPart(k, c)
      ensures inserted <==> old(View()).CanAttach(k, c)
      ensures inserted ==> View().InLivePart(c) && parts - {k} == old(parts)
      ensures !inserted ==> parts == old(parts)
    {
      if k.session !in sessions || sessions[k.session] != Open || k in parts || c !in chunks {
        return false;
      }
      parts := parts[k := c];
      inserted := true;
      assert parts[k] == c && View().Live(k.session);
    }

    method RemoveCandidate(c: ChunkId) returns (bytes: nat, deleted: bool)
      modifies `parts, `chunks
      ensures View() == old(View()).RemoveCandidate(c)
      ensures deleted <==> c in old(chunks) && c !in chunks
      ensures deleted ==> bytes == old(chunks[c].key.size)
    {
      parts := map k | k in parts && (parts[k] != c || View().Live(k.session) || k.session !in sessions) :: parts[k];
      bytes, deleted := 0, false;
      if c in chunks && !chunks[c].ready && !View().Referenced(c) {
        bytes, deleted := chunks[c].key.size, true;
        chunks := chunks - {c};
      }
    }

    method FinalizeCommit(sid: SessionId, file: FileId, version: VersionId) returns (done: bool)
      modifies this
      ensures View() == old(View()).Finalize(sid, file, version)
      ensures done <==> sid in old(sessions) && old(sessions[sid]) == Open
      ensures !done ==> View() == old(View())
      ensures done ==> sessions[sid] == Completed && parts == old(parts)
      ensures done ==> file in files && version in versions && versions[version] == Version(file, files[file])
      ensures done ==> forall i :: i in files[file] <==> PartKey(sid, i) in parts
      ensures done ==> forall i :: i in files[file] ==>
        files[file][i] == parts[PartKey(sid, i)] && (files[file][i] in chunks ==> chunks[files[file][i]].ready)
      ensures chunks.Keys == old(chunks).Keys && forall c :: c in chunks && old(chunks[c].ready) ==> chunks[c].ready
    {
      if sid !in sessions || sessions[sid] != Open {
        return false;
      }
      var rows := View().PartsOf(sid);
      files := files[file := rows];
      versions := versions[version := Version(file, rows)];
      chunks := map c | c in chunks :: if c in rows.Values then chunks[c].(ready := true) else chunks[c];
      sessions := sessions[sid := Completed];
      done := true;
      forall i | i in rows
        ensures rows[i] in rows.Values
      {
      }
    }

    method RestoreVersionCommit(file: FileId, source: VersionId, version: VersionId) returns (done: bool)
      modifies `versions, `files
      ensures View() == old(View()).RestoreVersion(file, source, version)
      ensures done <==> source in old(versions) && old(versions[source]).file == file && file in old(files)
      ensures !done ==> View() == old(View())
      ensures done ==> file in files && files[file] == old(versions[source]).rows && files - {file} == old(files) - {file}
      ensures done ==> version in versions && versions[version] == old(versions[source])
      ensures done ==> forall v :: v in old(versions) && v != version ==> v in versions && versions[v] == old(versions[v])
    {
      if source !in versions || versions[source].file != file || file !in files {
        return false;
      }
      var copy := versions[source];
      versions := versions[version := copy];
      files := files - {file};
      files := files[file := copy.rows];
      done := true;
    }

    method PurgeCommit(doomed: set<FileId>, closed: set<SessionId>) returns (done: bool)
      modifies this
      ensures View() == old(View()).Purge(doomed, closed)
      ensures done <==> !exists sid :: sid in closed && old(View()).Live(sid)
    {
      if exists sid :: sid in closed && View().Live(sid) {
        return false;
      }
      ghost var before := View();
      var targets := set c | c in chunks && View().PurgeTarget(doomed, c);
      parts := map k | k in parts && k.session !in closed :: parts[k];
      sessions := sessions - closed;
      files := files - doomed;
      versions := map v | v in versions && versions[v].file !in doomed :: versions[v];
      var left := View();
      assert left == before.(sessions := sessions, parts := parts, files := files, versions := versions);
      chunks := map c | c in chunks && !(c in targets && !left.InFile(c) && !left.InVersion(c) && !left.InAnyPart(c)) :: chunks[c];
      done := true;
    }
  }
}
