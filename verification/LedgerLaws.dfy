/** What pairs of transactions do together: create then finalize, trash then restore. */
module LedgerLaws {
  import opened Access
  import opened Forest
  import opened ForestEdits
  import opened Ledger
  import opened LedgerCommits
  import opened LedgerKeeps
  import opened LedgerState
  import opened Wrappers

  // ----- Create then finalize -----

  /** The state a successful creation leaves behind. */
  ghost predicate Created(db: Db, after: Db, actor: Actor, id: SessionId, s: Session) {
    && id !in db.sessions && s.owner in db.users && s.status == Open && s.actor == actor.user
    && s.folder in db.nodes && db.nodes[s.folder].owner == s.owner
    && after == db.(
      users := db.users[s.owner := db.users[s.owner].(reserved := db.users[s.owner].reserved + s.reserved)],
      sessions := db.sessions[id := s])
  }

  lemma CreatedSession(db: Db, actor: Actor, folder: NodeId, name: string, key: string, size: nat,
                       target: Option<NodeId>, expiresAt: int, id: SessionId) returns (s: Session)
    requires IsForest(db.nodes) && CreateSession(db, actor, folder, name, key, size, target, expiresAt, id).Done?
    ensures Created(db, CreateSession(db, actor, folder, name, key, size, target, expiresAt, id).db, actor, id, s)
    ensures s.folder == folder && s.name == name && s.nameKey == key && s.size == size
    ensures s.target == target && s.expiresAt == expiresAt
    ensures Reservation(db, actor, folder, key, size, target) == Success(s.reserved)
    ensures Require(db, folder, actor, EDIT).None?
  {
    s := CreateSession(db, actor, folder, name, key, size, target, expiresAt, id).db.sessions[id];
  }

  /** A replacement reserves the growth, which is the whole size only for an empty old or new file. */
  lemma ReplacementReserves(db: Db, actor: Actor, folder: NodeId, key: string, size: nat, file: NodeId)
    requires Shape(db) && Reservation(db, actor, folder, key, size, Some(file)).Success?
    ensures ActiveChild(db.nodes, file, folder, key) && file in db.sizes
    ensures Reservation(db, actor, folder, key, size, Some(file)).value == size <==> db.sizes[file] == 0 || size == 0
  {
  }

  /** Finalizing at once passes every check but the one on the reservation. */
  lemma FinalizeAfterCreate(db: Db, actor: Actor, id: SessionId, now: int, newFile: NodeId, version: VersionId)
    requires Valid(db) && id in db.sessions && db.sessions[id].status == Open && db.sessions[id].actor == actor.user
    requires now < db.sessions[id].expiresAt
    requires Require(db, db.sessions[id].folder, actor, EDIT).None?
    ensures db.sessions[id].reserved != db.sessions[id].size ==>
      Finalize(db, actor, id, now, true, newFile, version) == Refused(ReservationMismatch)
    ensures db.sessions[id].reserved == db.sessions[id].size ==> Committable(db, id)
    ensures db.sessions[id].reserved == db.sessions[id].size && db.sessions[id].target.None? ==>
      Finalize(db, actor, id, now, true, newFile, version) == CommitNewFile(db, id, newFile, version)
    ensures db.sessions[id].reserved == db.sessions[id].size && db.sessions[id].target.Some? ==>
      Finalize(db, actor, id, now, true, newFile, version) ==
      CommitReplacement(db, id, db.sessions[id].target.value, version)
  {
    assert SessionPlaced(db, db.sessions[id]);
    ReservationCounted(db, id);
    AccessNeedsLife(db, db.sessions[id].folder, actor, EDIT);
  }

  /** When the replacement of a file by a session on its folder commits. */
  lemma ReplacementWrites(db: Db, id: SessionId, file: NodeId, version: VersionId)
    requires Valid(db) && Committable(db, id) && version !in db.versions
    requires ActiveChild(db.nodes, file, db.sessions[id].folder, db.sessions[id].nameKey) && file in db.sizes
    ensures CommitReplacement(db, id, file, version).Done? <==>
      && db.nodes[file].name == db.sessions[id].name
      && db.users[db.sessions[id].owner].used - db.sizes[file] + db.sessions[id].size <= MAX_INT64
  {
    ParentSameOwner(db.nodes, file);
    ParentLive(db.nodes, file);
    LiveFileCounted(db, file);
  }

  /**
   * A replacement upload that was accepted, and whose parts are all there, commits exactly when the old or
   * the new file is empty, the display name is that of the file, and the counter has room.
   */
  lemma ReplacementCommitsIff(db: Db, actor: Actor, folder: NodeId, name: string, key: string, size: nat,
                              file: NodeId, expiresAt: int, id: SessionId, now: int, version: VersionId)
    requires Valid(db) && now < expiresAt && version !in db.versions
    requires CreateSession(db, actor, folder, name, key, size, Some(file), expiresAt, id).Done?
    ensures folder in db.nodes && db.nodes[folder].owner in db.users && file in db.sizes && file in db.nodes
    ensures var created := CreateSession(db, actor, folder, name, key, size, Some(file), expiresAt, id).db;
      IsForest(created.nodes) &&
      (Finalize(created, actor, id, now, true, 0, version).Done? <==>
         && (db.sizes[file] == 0 || size == 0)
         && db.nodes[file].name == name
         && db.users[db.nodes[folder].owner].used - db.sizes[file] + size <= MAX_INT64)
  {
    ReplacementReserves(db, actor, folder, key, size, file);
    var s := CreatedSession(db, actor, folder, name, key, size, Some(file), expiresAt, id);
    CreateSessionKeeps(db, actor, folder, name, key, size, Some(file), expiresAt, id);
    var created := CreateSession(db, actor, folder, name, key, size, Some(file), expiresAt, id).db;
    FinalizeAfterCreate(created, actor, id, now, 0, version);
    if s.reserved == s.size {
      ReplacementWrites(created, id, file, version);
    }
  }

  lemma ParentSameOwner(nodes: Nodes, x: NodeId)
    requires IsForest(nodes) && x in nodes && nodes[x].parent.Some?
    ensures nodes[x].parent.value in nodes && nodes[nodes[x].parent.value].owner == nodes[x].owner
  {
    assert WellPlaced(nodes, x);
  }

  /** A new-file upload that was accepted, and whose parts are all there, commits if the counter has room. */
  lemma NewUploadCommits(db: Db, actor: Actor, folder: NodeId, name: string, key: string, size: nat,
                         expiresAt: int, id: SessionId, now: int, newFile: NodeId, version: VersionId)
    requires Valid(db) && now < expiresAt && version !in db.versions && newFile !in db.nodes
    requires CreateSession(db, actor, folder, name, key, size, None, expiresAt, id).Done?
    ensures folder in db.nodes && db.nodes[folder].owner in db.users
    ensures var created := CreateSession(db, actor, folder, name, key, size, None, expiresAt, id).db;
      IsForest(created.nodes) &&
      (Finalize(created, actor, id, now, true, newFile, version).Done? <==>
       db.users[db.nodes[folder].owner].used + size <= MAX_INT64)
  {
    var s := CreatedSession(db, actor, folder, name, key, size, None, expiresAt, id);
    CreateSessionKeeps(db, actor, folder, name, key, size, None, expiresAt, id);
    NewFileReserves(db, actor, folder, key, size);
    var created := CreateSession(db, actor, folder, name, key, size, None, expiresAt, id).db;
    FinalizeAfterCreate(created, actor, id, now, newFile, version);
  }

  lemma NewFileReserves(db: Db, actor: Actor, folder: NodeId, key: string, size: nat)
    requires IsForest(db.nodes) && Reservation(db, actor, folder, key, size, None).Success?
    ensures Reservation(db, actor, folder, key, size, None).value == size && !NameExists(db.nodes, folder, key)
  {
  }

  /** Cancelling a session right after it was created gives back the counters as they were. */
  lemma CancelUndoesCreate(db: Db, actor: Actor, created: Db, id: SessionId, s: Session)
    requires Created(db, created, actor, id, s)
    ensures Cancel(created, actor, id) == Done(db.(sessions := db.sessions[id := s.(status := Cancelled)]))
  {
    var reserved := created.users[s.owner];
    assert reserved.(reserved := reserved.reserved - s.reserved) == db.users[s.owner];
    assert created.users[s.owner := db.users[s.owner]] == db.users;
    assert created.sessions[id := s.(status := Cancelled)] == db.sessions[id := s.(status := Cancelled)];
  }

  // ----- Trash then restore -----

  /** Which nodes are active under `n` does not depend on whether `n` itself is deleted. */
  lemma {:induction false} FlagKeepsActive(nodes: Nodes, n: NodeId, flagged: Node, x: NodeId)
    requires Rooted(nodes, x) && n in nodes && flagged == nodes[n].(deleted := flagged.deleted)
    requires Rooted(nodes[n := flagged], x)
    ensures ActiveUnder(nodes[n := flagged], n, x) <==> ActiveUnder(nodes, n, x)
    decreases Depth(nodes, x)
  {
    if x != n && nodes[x].parent.Some? {
      ParentDepth(nodes, x);
      ParentDepth(nodes[n := flagged], x);
      FlagKeepsActive(nodes, n, flagged, nodes[x].parent.value);
    }
  }

  lemma RestoreFindsHome(db: Db, actor: Actor, id: NodeId)
    requires Valid(db) && id in db.nodes && Live(db.nodes, id) && !db.nodes[id].root
    requires actor.admin || actor.user == db.nodes[id].owner
    requires IsForest(db.nodes[id := db.nodes[id].(deleted := true)])
    ensures var trashed := db.(nodes := db.nodes[id := db.nodes[id].(deleted := true)]);
      && db.nodes[id].parent.Some?
      && RestoreInto(trashed, actor, id, None) == Success(db.nodes[id].parent.value)
      && !NameExists(trashed.nodes, db.nodes[id].parent.value, db.nodes[id].nameKey)
  {
    var nodes := db.nodes[id := db.nodes[id].(deleted := true)];
    assert WellPlaced(db.nodes, id);
    ParentDepth(db.nodes, id);
    var parent := db.nodes[id].parent.value;
    ChainStopsBelow(db.nodes, id, parent);
    Flagged(db.nodes, id, nodes[id], parent);
    if NameExists(nodes, parent, db.nodes[id].nameKey) {
      var x :| ActiveChild(nodes, x, parent, db.nodes[id].nameKey);
      assert ActiveChild(db.nodes, x, parent, db.nodes[id].nameKey);
      assert ActiveChild(db.nodes, id, parent, db.nodes[id].nameKey);
    }
    LiveIsUndeletedChain(nodes, parent);
  }

  /**
   * Restoring what was just trashed gives back every table as it was, exactly when the owner was
   * within the quota before; an owner over the quota cannot undo a deletion.
   */
  lemma TrashThenRestore(db: Db, remover: Actor, id: NodeId, actor: Actor)
    requires Valid(db) && Trash(db, remover, id).Done? && (actor.admin || actor.user == db.nodes[id].owner)
    ensures db.nodes[id].owner in db.users
    ensures Valid(Trash(db, remover, id).db)
    ensures Restore(Trash(db, remover, id).db, actor, id, None, None) ==
      if OverQuota(db.users[db.nodes[id].owner]) then Refused(QuotaExceeded) else Done(db)
  {
    AccessNeedsLife(db, id, remover, EDIT);
    TrashKeeps(db, remover, id);
    RestoreTrashed(db, id, Trash(db, remover, id).db, actor);
  }

  lemma RestoreTrashed(db: Db, id: NodeId, trashed: Db, actor: Actor)
    requires Valid(db) && id in db.nodes && Live(db.nodes, id) && !db.nodes[id].root && IsForest(trashed.nodes)
    requires actor.admin || actor.user == db.nodes[id].owner
    requires var taken := SubtractUsed(db.users, db.nodes[id].owner, Sums.Sum(db.sizes, ActiveSubtree(db.nodes, id)));
      taken.Success? &&
      trashed == db.(nodes := db.nodes[id := db.nodes[id].(deleted := true)], users := taken.value)
    ensures Restore(trashed, actor, id, None, None) ==
      if OverQuota(db.users[db.nodes[id].owner]) then Refused(QuotaExceeded) else Done(db)
  {
    RestoreFindsHome(db, actor, id);
    assert RestoreInto(trashed, actor, id, None) == Success(db.nodes[id].parent.value);
    ActiveSubtreeKept(db.nodes, id, db.nodes[id].(deleted := true));
    ChargeBack(db, db.nodes[id].owner, Sums.Sum(db.sizes, ActiveSubtree(db.nodes, id)));
    RowRestored(db.nodes, id);
  }

  lemma RowRestored(nodes: Nodes, id: NodeId)
    requires id in nodes && !nodes[id].deleted && nodes[id].parent.Some?
    ensures var flagged := nodes[id].(deleted := true);
      nodes[id := flagged][id := flagged.(parent := Some(nodes[id].parent.value), name := nodes[id].name,
                                          nameKey := nodes[id].nameKey, deleted := false)] == nodes
  {
    assert nodes[id := nodes[id]] == nodes;
  }

  lemma ActiveSubtreeKept(nodes: Nodes, id: NodeId, flagged: Node)
    requires IsForest(nodes) && id in nodes && flagged == nodes[id].(deleted := true) && IsForest(nodes[id := flagged])
    ensures ActiveSubtree(nodes[id := flagged], id) == ActiveSubtree(nodes, id)
  {
    forall x | x in nodes
      ensures ActiveUnder(nodes[id := flagged], id, x) <==> ActiveUnder(nodes, id, x)
    {
      FlagKeepsActive(nodes, id, flagged, x);
    }
  }

  lemma ChargeBack(db: Db, owner: UserId, bytes: nat)
    requires Valid(db) && SubtractUsed(db.users, owner, bytes).Success?
    ensures AddUsed(SubtractUsed(db.users, owner, bytes).value, owner, bytes) ==
      if OverQuota(db.users[owner]) then Failure(QuotaExceeded) else Success(db.users)
  {
    var users := SubtractUsed(db.users, owner, bytes).value;
    assert CountsExactly(db, owner);
    assert users[owner].(used := users[owner].used + bytes) == db.users[owner];
    assert Charge(users, owner, bytes) == db.users;
  }
}
