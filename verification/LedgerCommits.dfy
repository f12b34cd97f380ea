/** Finalizing uploads, restoring versions and purging keep the ledger; the counter checks inside them never fail. */
module LedgerCommits {
  import opened Access
  import opened Forest
  import opened ForestEdits
  import opened Ledger
  import opened LedgerKeeps
  import opened LedgerState
  import opened Sums
  import opened Wrappers

  // ----- Finalize -----

  /** What the checks of a finalization establish. */
  ghost predicate Committable(db: Db, id: SessionId)
    requires IsForest(db.nodes)
  {
    && id in db.sessions && db.sessions[id].status == Open
    && db.sessions[id].owner in db.users && db.sessions[id].reserved == db.sessions[id].size
    && db.sessions[id].reserved <= db.users[db.sessions[id].owner].reserved
    && db.sessions[id].folder in db.nodes && Live(db.nodes, db.sessions[id].folder)
    && db.nodes[db.sessions[id].folder].kind == Folder
    && db.nodes[db.sessions[id].folder].owner == db.sessions[id].owner
  }

  lemma ChecksMakeCommittable(db: Db, actor: Actor, id: SessionId, now: int, complete: bool)
    requires IsForest(db.nodes) && id in db.sessions && FinalizeChecks(db, actor, id, now, complete).None?
    ensures Committable(db, id)
  {
    AccessNeedsLife(db, db.sessions[id].folder, actor, EDIT);
  }

  /** Of the counter checks before a commit only the one on the session's own reservation can fail. */
  lemma ChecksFindGoodCounters(db: Db, actor: Actor, id: SessionId, now: int, complete: bool)
    requires IsForest(db.nodes) && id in db.sessions && SessionPlaced(db, db.sessions[id])
    requires db.sessions[id].status == Open ==> db.sessions[id].reserved <= db.users[db.sessions[id].owner].reserved
    ensures FinalizeChecks(db, actor, id, now, complete) != Some(CounterUnderflow)
    ensures FinalizeChecks(db, actor, id, now, complete) != Some(OwnerChanged)
  {
  }

  ghost function NewFile(db: Db, id: SessionId): Node
    requires id in db.sessions
  {
    var s := db.sessions[id];
    Node(File, s.owner, Some(s.folder), s.name, s.nameKey, false, false)
  }

  /** The file joined the live nodes of its owner, and nobody else's. */
  ghost predicate LiveWith(before: Nodes, after: Nodes, user: UserId, owner: UserId, file: NodeId)
    requires IsForest(before) && IsForest(after)
  {
    LiveNodes(after, user) == if user == owner then LiveNodes(before, user) + {file} else LiveNodes(before, user)
  }

  /** The rows of a new file fit the other tables. */
  lemma FileInserted(db: Db, id: SessionId, file: NodeId, version: VersionId, users: map<UserId, User>)
    requires Shape(db) && Committable(db, id) && file !in db.nodes && users.Keys == db.users.Keys
    requires !NameExists(db.nodes, db.sessions[id].folder, db.sessions[id].nameKey)
    ensures Shape(Filed(db, id, file, version, users))
    ensures forall u :: LiveWith(db.nodes, Filed(db, id, file, version, users).nodes, u, db.sessions[id].owner, file)
  {
    var node := NewFile(db, id);
    InsertLeaf(db.nodes, file, node, db.sessions[id].folder);
    NamesStay(db.nodes, file, node);
    FiledRows(db, id, file, version, users);
  }

  lemma FiledRows(db: Db, id: SessionId, file: NodeId, version: VersionId, users: map<UserId, User>)
    requires Shape(db) && id in db.sessions && file !in db.nodes && users.Keys == db.users.Keys
    requires var after := Filed(db, id, file, version, users); IsForest(after.nodes) && UniqueNames(after.nodes)
    ensures Shape(Filed(db, id, file, version, users))
  {
    var after := Filed(db, id, file, version, users);
    assert SessionPlaced(db, db.sessions[id]);
    FiledFiles(db, id, file, version, users);
    SessionsKept(db, after);
    VersionsKept(db, after);
    GrantsKept(db, after);
  }

  lemma FiledFiles(db: Db, id: SessionId, file: NodeId, version: VersionId, users: map<UserId, User>)
    requires FilesSized(db.nodes, db.sizes) && OwnersKnown(db.nodes, db.users) && file !in db.nodes
    requires id in db.sessions && SessionPlaced(db, db.sessions[id]) && users.Keys == db.users.Keys
    ensures var after := Filed(db, id, file, version, users);
      && FilesSized(after.nodes, after.sizes) && OwnersKnown(after.nodes, after.users) && Preserves(db, after)
      && SessionPlaced(after, after.sessions[id])
  {
    var after := Filed(db, id, file, version, users);
    assert Preserves(db, after);
  }

  ghost function Filed(db: Db, id: SessionId, file: NodeId, version: VersionId, users: map<UserId, User>): Db
    requires id in db.sessions
  {
    var s := db.sessions[id];
    db.(nodes := db.nodes[file := NewFile(db, id)],
        sizes := db.sizes[file := s.size],
        versions := db.versions[version := Version(file, s.size)],
        users := users,
        sessions := db.sessions[id := Complete(s, file)])
  }

  lemma FileCounted(sizes: map<NodeId, nat>, live: set<NodeId>, file: NodeId, size: nat)
    requires file !in live
    ensures Sum(sizes[file := size], live + {file}) == Sum(sizes, live) + size
    ensures Sum(sizes[file := size], live) == Sum(sizes, live)
  {
    var after := sizes[file := size];
    SumTake(after, live + {file}, file);
    assert live + {file} - {file} == live;
    SumAgree(sizes, after, live);
  }

  lemma FileMoves(db: Db, id: SessionId, file: NodeId, version: VersionId, users: map<UserId, User>)
    requires Shape(db) && Committable(db, id) && file !in db.nodes && users.Keys == db.users.Keys
    requires !NameExists(db.nodes, db.sessions[id].folder, db.sessions[id].nameKey)
    ensures Shape(Filed(db, id, file, version, users))
    ensures AllMoved(db, Filed(db, id, file, version, users), db.sessions[id].owner, db.sessions[id].size)
  {
    FileInserted(db, id, file, version, users);
    var s := db.sessions[id];
    var after := Filed(db, id, file, version, users);
    forall user: UserId
      ensures MovedBy(db, after, user, s.owner, s.size)
    {
      assert LiveWith(db.nodes, after.nodes, user, s.owner, file);
      FileCounted(db.sizes, LiveNodes(db.nodes, user), file, s.size);
    }
  }

  lemma CompletionReleases(db: Db, after: Db, id: SessionId, file: NodeId, delta: int)
    requires id in db.sessions && Pending(db.sessions[id].status)
    requires after.sessions == db.sessions[id := Complete(db.sessions[id], file)]
    requires delta + db.sessions[id].reserved == 0
    ensures AllReserved(db, after, db.sessions[id].owner, delta)
  {
    forall user: UserId
      ensures ReservedBy(db, after, user, db.sessions[id].owner, delta)
    {
      SessionCloses(db.sessions, id, Complete(db.sessions[id], file), user);
    }
  }

  lemma NewFileKeeps(db: Db, id: SessionId, file: NodeId, version: VersionId)
    requires Valid(db) && Committable(db, id) && CommitNewFile(db, id, file, version).Done?
    ensures Keeps(db, CommitNewFile(db, id, file, version).db)
  {
    var s := db.sessions[id];
    var after := CommitNewFile(db, id, file, version).db;
    var taken: int := s.reserved;
    var delta := -taken;
    assert after == Filed(db, id, file, version, after.users);
    FileMoves(db, id, file, version, after.users);
    CompletionReleases(db, after, id, file, delta);
    assert CountsExactly(db, s.owner);
    CountsMoved(db, after, s.owner, s.size, delta);
  }

  ghost function Replaced(db: Db, id: SessionId, file: NodeId, version: VersionId, users: map<UserId, User>): Db
    requires id in db.sessions
  {
    var s := db.sessions[id];
    db.(sizes := db.sizes[file := s.size],
        versions := db.versions[version := Version(file, s.size)],
        users := users,
        sessions := db.sessions[id := Complete(s, file)])
  }

  /** Giving a live file another size moves its owner's bytes by the difference. */
  lemma ResizeMoves(db: Db, after: Db, file: NodeId, size: nat, delta: int)
    requires IsForest(db.nodes) && file in db.nodes && file in db.sizes && Live(db.nodes, file)
    requires after.nodes == db.nodes && after.sizes == db.sizes[file := size] && delta + db.sizes[file] == size
    ensures AllMoved(db, after, db.nodes[file].owner, delta)
  {
    forall user: UserId
      ensures MovedBy(db, after, user, db.nodes[file].owner, delta)
    {
      FileResized(db.nodes, db.sizes, file, size, user);
    }
  }

  lemma ReplacedShape(db: Db, id: SessionId, file: NodeId, version: VersionId, users: map<UserId, User>)
    requires Shape(db) && id in db.sessions && file in db.sizes && users.Keys == db.users.Keys
    ensures Shape(Replaced(db, id, file, version, users))
  {
    var after := Replaced(db, id, file, version, users);
    assert SessionPlaced(db, db.sessions[id]);
    SessionsKept(db, after);
    VersionsKept(db, after);
  }

  /** The users after a commit that moves the used counter by `used`. */
  function SpentUsers(db: Db, id: SessionId, used: int): map<UserId, User>
    requires id in db.sessions && db.sessions[id].owner in db.users
    requires db.sessions[id].reserved <= db.users[db.sessions[id].owner].reserved
    requires db.users[db.sessions[id].owner].used + used >= 0
  {
    var s := db.sessions[id];
    db.users[s.owner := Spend(db.users[s.owner], s.reserved, db.users[s.owner].used + used)]
  }

  ghost predicate Replaceable(db: Db, id: SessionId, file: NodeId, used: int)
    requires IsForest(db.nodes) && Committable(db, id)
  {
    && file in db.nodes && file in db.sizes && Live(db.nodes, file) && db.nodes[file].owner == db.sessions[id].owner
    && used + db.sizes[file] == db.sessions[id].size
    && 0 <= db.users[db.sessions[id].owner].used + used
    && (used > 0 ==> db.users[db.sessions[id].owner].used + used <= MAX_INT64)
  }

  lemma ReplacementKeeps(db: Db, id: SessionId, file: NodeId, version: VersionId)
    requires Valid(db) && Committable(db, id) && CommitReplacement(db, id, file, version).Done?
    ensures Keeps(db, CommitReplacement(db, id, file, version).db)
  {
    var used := ReplacementWrites(db, id, file, version);
    ReplacementKept(db, id, file, version, used);
  }

  /** The facts behind a committed replacement. */
  lemma ReplacementWrites(db: Db, id: SessionId, file: NodeId, version: VersionId) returns (used: int)
    requires IsForest(db.nodes) && Committable(db, id) && CommitReplacement(db, id, file, version).Done?
    ensures Replaceable(db, id, file, used)
    ensures CommitReplacement(db, id, file, version).db == Replaced(db, id, file, version, SpentUsers(db, id, used))
  {
    ParentLive(db.nodes, file);
    used := db.sessions[id].size - db.sizes[file];
  }

  lemma ReplacementKept(db: Db, id: SessionId, file: NodeId, version: VersionId, used: int)
    requires Valid(db) && Committable(db, id) && Replaceable(db, id, file, used)
    ensures Keeps(db, Replaced(db, id, file, version, SpentUsers(db, id, used)))
  {
    var s := db.sessions[id];
    var users := SpentUsers(db, id, used);
    var after := Replaced(db, id, file, version, users);
    var taken: int := s.reserved;
    var delta := -taken;
    ReplacedShape(db, id, file, version, users);
    ResizeMoves(db, after, file, s.size, used);
    CompletionReleases(db, after, id, file, delta);
    assert CountsExactly(db, s.owner);
    CountsMoved(db, after, s.owner, used, delta);
  }

  lemma ParentLive(nodes: Nodes, x: NodeId)
    requires IsForest(nodes) && Undeleted(nodes, x) && nodes[x].parent.Some? && Live(nodes, nodes[x].parent.value)
    ensures Live(nodes, x)
  {
    ParentDepth(nodes, x);
  }

  /** The counter is never smaller than the file it counts. */
  lemma ReplacementNeverUnderflows(db: Db, id: SessionId, file: NodeId, version: VersionId)
    requires Valid(db) && Committable(db, id)
    ensures CommitReplacement(db, id, file, version) != Refused(CounterUnderflow)
  {
    if Undeleted(db.nodes, file) && file in db.sizes && db.nodes[file].parent == Some(db.sessions[id].folder) {
      ParentLive(db.nodes, file);
      LiveFileCounted(db, file);
    }
  }

  lemma LiveFileCounted(db: Db, file: NodeId)
    requires Valid(db) && file in db.nodes && file in db.sizes && Live(db.nodes, file)
    ensures db.nodes[file].owner in db.users && db.users[db.nodes[file].owner].used >= db.sizes[file]
  {
    FileResized(db.nodes, db.sizes, file, 0, db.nodes[file].owner);
    assert CountsExactly(db, db.nodes[file].owner);
  }

  lemma FinalizeKeeps(db: Db, actor: Actor, id: SessionId, now: int, complete: bool, newFile: NodeId, version: VersionId)
    requires Valid(db) && Finalize(db, actor, id, now, complete, newFile, version).Done?
    ensures Keeps(db, Finalize(db, actor, id, now, complete, newFile, version).db)
  {
    if db.sessions[id].status == Completed {
      NothingChanged(db);
    } else {
      ChecksMakeCommittable(db, actor, id, now, complete);
      match db.sessions[id].target {
        case None => NewFileKeeps(db, id, newFile, version);
        case Some(file) => ReplacementKeeps(db, id, file, version);
      }
    }
  }

  lemma FinalizeCountersHold(db: Db, actor: Actor, id: SessionId, now: int, complete: bool, newFile: NodeId, version: VersionId)
    requires Valid(db)
    ensures Finalize(db, actor, id, now, complete, newFile, version) != Refused(CounterUnderflow)
    ensures Finalize(db, actor, id, now, complete, newFile, version) != Refused(OwnerChanged)
  {
    if id in db.sessions && (actor.admin || db.sessions[id].actor == actor.user) && db.sessions[id].status != Completed {
      SessionCountersHold(db, actor, id, now, complete);
      if FinalizeChecks(db, actor, id, now, complete).None? {
        CommitCountersHold(db, actor, id, now, complete, newFile, version);
      }
    }
  }

  lemma SessionCountersHold(db: Db, actor: Actor, id: SessionId, now: int, complete: bool)
    requires Valid(db) && id in db.sessions
    ensures FinalizeChecks(db, actor, id, now, complete) != Some(CounterUnderflow)
    ensures FinalizeChecks(db, actor, id, now, complete) != Some(OwnerChanged)
  {
    assert SessionPlaced(db, db.sessions[id]);
    if db.sessions[id].status == Open {
      ReservationCounted(db, id);
    }
    ChecksFindGoodCounters(db, actor, id, now, complete);
  }

  lemma CommitCountersHold(db: Db, actor: Actor, id: SessionId, now: int, complete: bool, newFile: NodeId, version: VersionId)
    requires Valid(db) && id in db.sessions && FinalizeChecks(db, actor, id, now, complete).None?
    ensures Committable(db, id)
    ensures CommitNewFile(db, id, newFile, version) != Refused(CounterUnderflow)
    ensures CommitNewFile(db, id, newFile, version) != Refused(OwnerChanged)
    ensures db.sessions[id].target.Some? ==>
      CommitReplacement(db, id, db.sessions[id].target.value, version) != Refused(CounterUnderflow)
    ensures db.sessions[id].target.Some? ==>
      CommitReplacement(db, id, db.sessions[id].target.value, version) != Refused(OwnerChanged)
  {
    ChecksMakeCommittable(db, actor, id, now, complete);
    if db.sessions[id].target.Some? {
      ReplacementNeverUnderflows(db, id, db.sessions[id].target.value, version);
    }
  }

  // ----- Versions -----

  ghost function Rewritten(db: Db, file: NodeId, size: nat, version: VersionId, users: map<UserId, User>): Db {
    db.(sizes := db.sizes[file := size], versions := db.versions[version := Version(file, size)], users := users)
  }

  lemma RewrittenShape(db: Db, file: NodeId, size: nat, version: VersionId, users: map<UserId, User>)
    requires Shape(db) && file in db.sizes && size <= MAX_INT64 && users.Keys == db.users.Keys
    ensures Shape(Rewritten(db, file, size, version, users))
  {
    var after := Rewritten(db, file, size, version, users);
    SessionsKept(db, after);
    VersionsKept(db, after);
  }

  lemma VersionRestored(db: Db, file: NodeId, size: nat, version: VersionId, users: map<UserId, User>, delta: int)
    requires Valid(db) && file in db.nodes && file in db.sizes && Live(db.nodes, file) && size <= MAX_INT64
    requires db.nodes[file].owner in db.users && delta + db.sizes[file] == size
    requires 0 <= db.users[db.nodes[file].owner].used + delta <= MAX_INT64
    requires users == Charge(db.users, db.nodes[file].owner, delta) && !OverQuota(users[db.nodes[file].owner])
    ensures Keeps(db, Rewritten(db, file, size, version, users))
  {
    var owner := db.nodes[file].owner;
    var after := Rewritten(db, file, size, version, users);
    RewrittenShape(db, file, size, version, users);
    ResizeMoves(db, after, file, size, delta);
    UsedMoved(db, after, owner, delta);
  }

  /** The facts behind a committed restore of a version. */
  lemma RestoreVersionWrites(db: Db, actor: Actor, file: NodeId, source: VersionId, version: VersionId)
    returns (size: nat, users: map<UserId, User>, delta: int)
    requires IsForest(db.nodes) && RestoreVersion(db, actor, file, source, version).Done?
    ensures file in db.nodes && file in db.sizes && Live(db.nodes, file) && size <= MAX_INT64
    ensures db.nodes[file].owner in db.users && delta + db.sizes[file] == size
    ensures 0 <= db.users[db.nodes[file].owner].used + delta <= MAX_INT64
    ensures users == Charge(db.users, db.nodes[file].owner, delta) && !OverQuota(users[db.nodes[file].owner])
    ensures RestoreVersion(db, actor, file, source, version).db == Rewritten(db, file, size, version, users)
  {
    AccessNeedsLife(db, file, actor, EDIT);
    size := db.versions[source].size;
    users := RestoreVersion(db, actor, file, source, version).db.users;
    delta := size - db.sizes[file];
  }

  lemma RestoreVersionKeeps(db: Db, actor: Actor, file: NodeId, source: VersionId, version: VersionId)
    requires Valid(db) && RestoreVersion(db, actor, file, source, version).Done?
    ensures Keeps(db, RestoreVersion(db, actor, file, source, version).db)
  {
    var size, users, delta := RestoreVersionWrites(db, actor, file, source, version);
    VersionRestored(db, file, size, version, users, delta);
  }

  lemma RestoreVersionCountersHold(db: Db, actor: Actor, file: NodeId, source: VersionId, version: VersionId)
    requires Valid(db)
    ensures RestoreVersion(db, actor, file, source, version) != Refused(CounterUnderflow)
  {
    if Require(db, file, actor, EDIT).None? && file in db.sizes {
      AccessNeedsLife(db, file, actor, EDIT);
      LiveFileCounted(db, file);
    }
  }

  /** Trashing never finds the counter smaller than what it takes out. */
  lemma TrashCountersHold(db: Db, actor: Actor, id: NodeId)
    requires Valid(db)
    ensures Trash(db, actor, id) != Refused(CounterUnderflow)
  {
    if Undeleted(db.nodes, id) && Require(db, id, actor, EDIT).None? {
      AccessNeedsLife(db, id, actor, EDIT);
      SubtreeCounted(db, id);
    }
  }

  // ----- Purge -----

  /** Removing a deleted subtree: rows that referred to it are gone or cleared, everything else stays. */
  lemma WithoutShape(db: Db, id: NodeId)
    requires Shape(db) && id in db.nodes && db.nodes[id].deleted
    ensures Shape(Without(db, Subtree(db.nodes, id)))
  {
    var gone := Subtree(db.nodes, id);
    var after := Without(db, gone);
    PurgeLive(db.nodes, id, 0);
    forall x, y, parent, key | ActiveChild(after.nodes, x, parent, key) && ActiveChild(after.nodes, y, parent, key)
      ensures x == y
    {
      assert ActiveChild(db.nodes, x, parent, key) && ActiveChild(db.nodes, y, parent, key);
    }
    forall i | i in after.sessions
      ensures SessionPlaced(after, after.sessions[i])
    {
      assert SessionPlaced(db, db.sessions[i]);
    }
  }

  lemma WithoutPending(db: Db, gone: set<NodeId>, user: UserId)
    requires !HasActiveUpload(db, gone)
    ensures DerivedReserved(Without(db, gone).sessions, user) == DerivedReserved(db.sessions, user)
  {
    var after := Without(db, gone);
    assert PendingOf(after.sessions, user) == PendingOf(db.sessions, user);
    SumAgree(Reservations(after.sessions), Reservations(db.sessions), PendingOf(db.sessions, user));
  }

  lemma PurgeKeeps(db: Db, id: NodeId)
    requires Valid(db) && id in db.nodes && db.nodes[id].deleted && PurgeNode(db, id).Done?
    ensures Keeps(db, PurgeNode(db, id).db)
  {
    var gone := Subtree(db.nodes, id);
    var after := Without(db, gone);
    WithoutShape(db, id);
    forall user | user in after.users
      ensures CountsExactly(after, user)
    {
      assert CountsExactly(db, user);
      PurgeLive(db.nodes, id, user);
      WithoutPending(db, gone, user);
      forall x | x in LiveNodes(db.nodes, user)
        ensures x in after.nodes
      {
      }
      SumAgree(after.sizes, db.sizes, LiveNodes(db.nodes, user));
    }
  }

  // ----- Administration -----

  lemma CreateUserKeeps(db: Db, user: UserId, root: NodeId, quota: Option<nat>)
    requires Valid(db) && CreateUser(db, user, root, quota).Done?
    ensures Keeps(db, CreateUser(db, user, root, quota).db)
  {
    UserShape(db, user, root, quota);
    UserCounts(db, user, root, quota);
  }

  lemma UserCounts(db: Db, user: UserId, root: NodeId, quota: Option<nat>)
    requires Valid(db) && user !in db.users && root !in db.nodes && IsForest(UserAdded(db, user, root, quota).nodes)
    ensures CountersExact(UserAdded(db, user, root, quota))
  {
    var after := UserAdded(db, user, root, quota);
    InsertRoot(db.nodes, root, after.nodes[root]);
    NothingYet(db, user, root, after);
    forall u | u in after.users
      ensures CountsExactly(after, u)
    {
      if u != user {
        OthersCounted(db, root, after, u);
      }
    }
  }

  lemma OthersCounted(db: Db, root: NodeId, after: Db, u: UserId)
    requires Valid(db) && IsForest(after.nodes) && root !in db.nodes && root in after.nodes && after.nodes[root].owner != u
    requires after.nodes == db.nodes[root := after.nodes[root]] && after.sizes == db.sizes && after.sessions == db.sessions
    requires forall x :: x in db.nodes ==> (Live(after.nodes, x) <==> Live(db.nodes, x))
    requires u in db.users && u in after.users && after.users[u] == db.users[u]
    ensures CountsExactly(after, u)
  {
    assert CountsExactly(db, u);
    OthersLive(db.nodes, root, after.nodes, u);
  }

  lemma OthersLive(nodes: Nodes, root: NodeId, after: Nodes, u: UserId)
    requires IsForest(nodes) && IsForest(after) && root !in nodes && root in after && after[root].owner != u
    requires after == nodes[root := after[root]]
    requires forall x :: x in nodes ==> (Live(after, x) <==> Live(nodes, x))
    ensures LiveNodes(after, u) == LiveNodes(nodes, u)
  {
  }

  /** A user unknown so far has no sessions, and only the new root. */
  lemma NothingYet(db: Db, user: UserId, root: NodeId, after: Db)
    requires Shape(db) && user !in db.users && root !in db.nodes && IsForest(after.nodes)
    requires after.nodes == db.nodes[root := Node(Folder, user, None, "", "", true, false)]
    requires after.sizes == db.sizes && after.sessions == db.sessions
    ensures DerivedUsed(after.nodes, after.sizes, user) == 0 && DerivedReserved(after.sessions, user) == 0
  {
    assert LiveNodes(after.nodes, user) <= {root};
    if root in LiveNodes(after.nodes, user) {
      assert LiveNodes(after.nodes, user) == {root};
      SumTake(after.sizes, {root}, root);
    }
    forall i | i in db.sessions
      ensures db.sessions[i].owner != user
    {
      assert SessionPlaced(db, db.sessions[i]);
    }
    assert PendingOf(after.sessions, user) == {};
  }

  lemma UserShape(db: Db, user: UserId, root: NodeId, quota: Option<nat>)
    requires Shape(db) && user !in db.users && root !in db.nodes
    ensures Shape(UserAdded(db, user, root, quota))
  {
    var after := UserAdded(db, user, root, quota);
    InsertRoot(db.nodes, root, after.nodes[root]);
    NamesStay(db.nodes, root, after.nodes[root]);
    assert Preserves(db, after);
    SessionsKept(db, after);
    VersionsKept(db, after);
    GrantsKept(db, after);
  }

  lemma QuotaKeeps(db: Db, user: UserId, quota: Option<int>)
    requires Valid(db) && SetQuota(db, user, quota).Done?
    ensures Valid(SetQuota(db, user, quota).db)
  {
    var after := SetQuota(db, user, quota).db;
    SessionsKept(db, after);
    forall u | u in after.users
      ensures CountsExactly(after, u)
    {
      assert CountsExactly(db, u);
    }
  }

  lemma GrantKeeps(db: Db, actor: Actor, folder: NodeId, user: UserId, level: Option<Level>)
    requires Valid(db) && SetGrant(db, actor, folder, user, level).Done?
    ensures Keeps(db, SetGrant(db, actor, folder, user, level).db)
  {
    var grants := GrantWrites(db, actor, folder, user, level);
    GrantsChanged(db, grants);
  }

  lemma GrantWrites(db: Db, actor: Actor, folder: NodeId, user: UserId, level: Option<Level>) returns (grants: Grants)
    requires IsForest(db.nodes) && GrantsPlaced(db) && SetGrant(db, actor, folder, user, level).Done?
    ensures GrantsPlaced(db.(grants := grants)) && SetGrant(db, actor, folder, user, level).db == db.(grants := grants)
  {
    grants := SetGrant(db, actor, folder, user, level).db.grants;
  }

  lemma GrantsChanged(db: Db, grants: Grants)
    requires Valid(db) && GrantsPlaced(db.(grants := grants))
    ensures Keeps(db, db.(grants := grants))
  {
    var after := db.(grants := grants);
    SessionsKept(db, after);
    SameCounts(db, after);
  }

  /** On a valid ledger the reconciliation has nothing to correct. */
  lemma ReconcileChangesNothing(db: Db, chosen: set<UserId>)
    requires Valid(db)
    ensures Reconcile(db, chosen) == db
  {
    forall u | u in db.users
      ensures Recounted(db, u) == db.users[u]
    {
      assert CountsExactly(db, u);
    }
    assert Reconcile(db, chosen).users == db.users;
  }
}
