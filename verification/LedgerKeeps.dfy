/** Every transaction keeps the tables in shape, the counters exact and the quotas respected. */
module LedgerKeeps {
  import opened Access
  import opened Forest
  import opened ForestEdits
  import opened Ledger
  import opened LedgerState
  import opened Sums
  import opened Wrappers

  /** What every commit owes: the invariant holds again and nobody was pushed past the quota. */
  ghost predicate Keeps(db: Db, after: Db) {
    Valid(after) && QuotaRespected(db, after)
  }

  lemma AccessNeedsLife(db: Db, x: NodeId, actor: Actor, required: Level)
    requires IsForest(db.nodes) && Require(db, x, actor, required).None?
    ensures x in db.nodes && Live(db.nodes, x)
  {
  }

  lemma NothingChanged(db: Db)
    requires Valid(db)
    ensures Keeps(db, db)
  {
  }

  // ----- Edits of one node -----

  /** The unique index survives writing one row whose name is free. */
  lemma NamesStay(nodes: Nodes, id: NodeId, node: Node)
    requires UniqueNames(nodes)
    requires node.deleted || node.parent.None? || !NameTaken(nodes, node.parent.value, node.nameKey, id)
    ensures UniqueNames(nodes[id := node])
  {
    var after := nodes[id := node];
    forall x, y, parent, key | ActiveChild(after, x, parent, key) && ActiveChild(after, y, parent, key)
      ensures x == y
    {
      assert x != id ==> ActiveChild(nodes, x, parent, key);
      assert y != id ==> ActiveChild(nodes, y, parent, key);
    }
  }

  /** Replacing a row by one of the same kind and owner keeps every table that refers to it in place. */
  lemma RowEdited(db: Db, id: NodeId, node: Node, users: map<UserId, User>)
    requires Shape(db) && id in db.nodes && SameIdentity(node, db.nodes[id]) && users.Keys == db.users.Keys
    requires IsForest(db.nodes[id := node]) && UniqueNames(db.nodes[id := node])
    ensures Shape(db.(nodes := db.nodes[id := node], users := users))
  {
    var after := db.(nodes := db.nodes[id := node], users := users);
    assert Preserves(db, after);
    SessionsKept(db, after);
    VersionsKept(db, after);
    GrantsKept(db, after);
  }

  /** One user's counters moved together with what they count. */
  lemma CountsMoved(db: Db, after: Db, owner: UserId, used: int, reserved: int)
    requires Valid(db) && Shape(after) && owner in db.users && owner in after.users
    requires AllMoved(db, after, owner, used) && AllReserved(db, after, owner, reserved)
    requires after.users == db.users[owner := after.users[owner]] && after.users[owner].quota == db.users[owner].quota
    requires after.users[owner].used == db.users[owner].used + used <= MAX_INT64
    requires after.users[owner].reserved == db.users[owner].reserved + reserved <= MAX_INT64
    requires used + reserved <= 0 || !OverQuota(after.users[owner])
    ensures Keeps(db, after)
  {
    forall user | user in after.users
      ensures CountsExactly(after, user)
    {
      assert CountsExactly(db, user);
      assert MovedBy(db, after, user, owner, used);
      assert ReservedBy(db, after, user, owner, reserved);
    }
  }

  lemma UsedMoved(db: Db, after: Db, owner: UserId, delta: int)
    requires Valid(db) && Shape(after) && after.sessions == db.sessions && owner in db.users
    requires 0 <= db.users[owner].used + delta <= MAX_INT64
    requires after.users == Charge(db.users, owner, delta)
    requires AllMoved(db, after, owner, delta)
    requires delta <= 0 || !OverQuota(after.users[owner])
    ensures Keeps(db, after)
  {
    assert CountsExactly(db, owner);
    assert AllReserved(db, after, owner, 0);
    CountsMoved(db, after, owner, delta, 0);
  }

  ghost predicate AllReserved(db: Db, after: Db, owner: UserId, delta: int) {
    forall user :: ReservedBy(db, after, user, owner, delta)
  }

  ghost predicate ReservedBy(db: Db, after: Db, user: UserId, owner: UserId, delta: int) {
    DerivedReserved(after.sessions, user) == DerivedReserved(db.sessions, user) + if user == owner then delta else 0
  }

  /** The bytes counted for the owner moved by `delta`, those of other users did not. */
  ghost predicate AllMoved(db: Db, after: Db, owner: UserId, delta: int)
    requires IsForest(db.nodes) && IsForest(after.nodes)
  {
    forall user :: MovedBy(db, after, user, owner, delta)
  }

  ghost predicate MovedBy(db: Db, after: Db, user: UserId, owner: UserId, delta: int)
    requires IsForest(db.nodes) && IsForest(after.nodes)
  {
    DerivedUsed(after.nodes, after.sizes, user) ==
    DerivedUsed(db.nodes, db.sizes, user) + if user == owner then delta else 0
  }

  lemma TrashMoves(db: Db, id: NodeId, node: Node, users: map<UserId, User>, delta: int)
    requires Shape(db) && id in db.nodes && Live(db.nodes, id) && !node.root && node == db.nodes[id].(deleted := true)
    requires users.Keys == db.users.Keys && delta + Sum(db.sizes, ActiveSubtree(db.nodes, id)) == 0
    ensures Shape(db.(nodes := db.nodes[id := node], users := users))
    ensures AllMoved(db, db.(nodes := db.nodes[id := node], users := users), node.owner, delta)
  {
    TrashLive(db.nodes, id, node);
    NamesStay(db.nodes, id, node);
    RowEdited(db, id, node, users);
    SumSplit(db.sizes, LiveNodes(db.nodes, node.owner), ActiveSubtree(db.nodes, id));
  }

  lemma Subtracted(users: map<UserId, User>, owner: UserId, bytes: nat, delta: int)
    requires SubtractUsed(users, owner, bytes).Success? && delta + bytes == 0
    ensures SubtractUsed(users, owner, bytes).value == Charge(users, owner, delta)
  {
  }

  lemma TrashKeeps(db: Db, actor: Actor, id: NodeId)
    requires Valid(db) && Trash(db, actor, id).Done?
    ensures Keeps(db, Trash(db, actor, id).db)
  {
    var node := db.nodes[id].(deleted := true);
    var bytes: int := Sum(db.sizes, ActiveSubtree(db.nodes, id));
    var delta := -bytes;
    Subtracted(db.users, node.owner, bytes, delta);
    AccessNeedsLife(db, id, actor, EDIT);
    Trashed(db, id, node, Trash(db, actor, id).db.users, delta);
  }

  lemma Trashed(db: Db, id: NodeId, node: Node, users: map<UserId, User>, delta: int)
    requires Valid(db) && id in db.nodes && Live(db.nodes, id) && !node.root && node == db.nodes[id].(deleted := true)
    requires node.owner in db.users && db.users[node.owner].used + delta >= 0
    requires delta + Sum(db.sizes, ActiveSubtree(db.nodes, id)) == 0 && users == Charge(db.users, node.owner, delta)
    ensures Keeps(db, db.(nodes := db.nodes[id := node], users := users))
  {
    OwnerKnown(db, id);
    TrashMoves(db, id, node, users, delta);
    UsedMoved(db, db.(nodes := db.nodes[id := node], users := users), node.owner, delta);
  }

  /** What is known when a restore commits. */
  ghost predicate Revival(db: Db, id: NodeId, node: Node, parent: NodeId)
    requires IsForest(db.nodes)
  {
    && id in db.nodes && db.nodes[id].deleted && parent in db.nodes && Live(db.nodes, parent)
    && SameIdentity(node, db.nodes[id]) && node.parent == Some(parent) && !node.deleted && !node.root
    && db.nodes[parent].kind == Folder && db.nodes[parent].owner == node.owner
    && !NameExists(db.nodes, parent, node.nameKey)
  }

  lemma RestoreRevives(db: Db, actor: Actor, id: NodeId, into: Option<NodeId>, rename: Option<(string, string)>)
    returns (node: Node, parent: NodeId, users: map<UserId, User>)
    requires IsForest(db.nodes) && Restore(db, actor, id, into, rename).Done?
    ensures Revival(db, id, node, parent)
    ensures AddUsed(db.users, node.owner, Sum(db.sizes, ActiveSubtree(db.nodes, id))) == Success(users)
    ensures Restore(db, actor, id, into, rename).db == db.(nodes := db.nodes[id := node], users := users)
  {
    parent := RestoreInto(db, actor, id, into).value;
    node := Restore(db, actor, id, into, rename).db.nodes[id];
    users := Restore(db, actor, id, into, rename).db.users;
    AccessNeedsLife(db, parent, actor, EDIT);
  }

  lemma RestoreKeeps(db: Db, actor: Actor, id: NodeId, into: Option<NodeId>, rename: Option<(string, string)>)
    requires Valid(db) && Restore(db, actor, id, into, rename).Done?
    ensures Keeps(db, Restore(db, actor, id, into, rename).db)
  {
    var node, parent, users := RestoreRevives(db, actor, id, into, rename);
    Revived(db, id, node, parent, users);
  }

  lemma RevivalMoves(db: Db, id: NodeId, node: Node, parent: NodeId, users: map<UserId, User>)
    requires Shape(db) && Revival(db, id, node, parent) && users.Keys == db.users.Keys
    ensures var after := db.(nodes := db.nodes[id := node], users := users);
      Shape(after) && AllMoved(db, after, node.owner, Sum(db.sizes, ActiveSubtree(db.nodes, id)))
  {
    NoCycleOnRestore(db, id, parent);
    RestoreLive(db.nodes, id, node, parent);
    NamesStay(db.nodes, id, node);
    RowEdited(db, id, node, users);
    SumDisjoint(db.sizes, LiveNodes(db.nodes, node.owner), ActiveSubtree(db.nodes, id));
  }

  /** Hanging a deleted node back under a live folder, charged for what comes back to life. */
  lemma Revived(db: Db, id: NodeId, node: Node, parent: NodeId, users: map<UserId, User>)
    requires Valid(db) && Revival(db, id, node, parent)
    requires AddUsed(db.users, node.owner, Sum(db.sizes, ActiveSubtree(db.nodes, id))) == Success(users)
    ensures Keeps(db, db.(nodes := db.nodes[id := node], users := users))
  {
    RevivalMoves(db, id, node, parent, users);
    UsedMoved(db, db.(nodes := db.nodes[id := node], users := users), node.owner,
              Sum(db.sizes, ActiveSubtree(db.nodes, id)));
  }

  /** A deleted node is on no live chain: the cycle check of a restore never fires. */
  lemma NoCycleOnRestore(db: Db, id: NodeId, parent: NodeId)
    requires IsForest(db.nodes) && id in db.nodes && db.nodes[id].deleted && parent in db.nodes && Live(db.nodes, parent)
    ensures id !in Chain(db.nodes, parent)
  {
    LiveIsUndeletedChain(db.nodes, parent);
  }

  lemma MoveKeeps(db: Db, actor: Actor, id: NodeId, parent: NodeId)
    requires Valid(db) && Move(db, actor, id, parent).Done?
    ensures Keeps(db, Move(db, actor, id, parent).db)
  {
    var outcome := Move(db, actor, id, parent);
    if outcome.db != db {
      var node := db.nodes[id].(parent := Some(parent));
      AccessNeedsLife(db, id, actor, EDIT);
      AccessNeedsLife(db, parent, actor, EDIT);
      if db.nodes[id].kind == File && id in Chain(db.nodes, parent) {
        FileIsNoAncestor(db.nodes, id, parent);
      }
      MoveLive(db.nodes, id, node, parent);
      NamesStay(db.nodes, id, node);
      RowEdited(db, id, node, db.users);
      SameCounts(db, outcome.db);
    }
  }

  /** Nobody's live nodes, sizes or sessions changed: the counters still fit. */
  lemma SameCounts(db: Db, after: Db)
    requires Valid(db) && Shape(after)
    requires after.users == db.users && after.sizes == db.sizes && after.sessions == db.sessions
    requires forall user :: LiveNodes(after.nodes, user) == LiveNodes(db.nodes, user)
    ensures Keeps(db, after)
  {
    forall user | user in after.users
      ensures CountsExactly(after, user)
    {
      assert CountsExactly(db, user);
    }
  }

  lemma RenameKeeps(db: Db, actor: Actor, id: NodeId, name: string, key: string)
    requires Valid(db) && Rename(db, actor, id, name, key).Done?
    ensures Keeps(db, Rename(db, actor, id, name, key).db)
  {
    var outcome := Rename(db, actor, id, name, key);
    if outcome.Done? {
      var node := db.nodes[id].(name := name, nameKey := key);
      var parent := db.nodes[id].parent.value;
      AccessNeedsLife(db, id, actor, EDIT);
      ParentDepth(db.nodes, id);
      ChainStopsBelow(db.nodes, id, parent);
      MoveLive(db.nodes, id, node, parent);
      NamesStay(db.nodes, id, node);
      RowEdited(db, id, node, db.users);
      SameCounts(db, outcome.db);
    }
  }

  lemma ChainStopsBelow(nodes: Nodes, id: NodeId, parent: NodeId)
    requires Rooted(nodes, id) && nodes[id].parent == Some(parent) && Rooted(nodes, parent)
    ensures id !in Chain(nodes, parent)
  {
    ParentDepth(nodes, id);
    if id in Chain(nodes, parent) {
      ChainFacts(nodes, parent, id);
    }
  }

  // ----- New rows -----

  lemma RowInserted(db: Db, id: NodeId, node: Node)
    requires Shape(db) && id !in db.nodes && node.kind == Folder && node.owner in db.users
    requires IsForest(db.nodes[id := node]) && UniqueNames(db.nodes[id := node])
    ensures Shape(db.(nodes := db.nodes[id := node]))
  {
    var after := db.(nodes := db.nodes[id := node]);
    assert Preserves(db, after);
    SessionsKept(db, after);
    VersionsKept(db, after);
    GrantsKept(db, after);
  }

  lemma OwnerKnown(db: Db, x: NodeId)
    requires Valid(db) && x in db.nodes
    ensures db.nodes[x].owner in db.users && db.users[db.nodes[x].owner].used <= MAX_INT64
  {
    assert CountsExactly(db, db.nodes[x].owner);
  }

  lemma FolderMoves(db: Db, id: NodeId, node: Node, parent: NodeId)
    requires Shape(db) && Addition(db, id, node, parent) && node.kind == Folder
    ensures var after := db.(nodes := db.nodes[id := node]);
      Shape(after) && AllMoved(db, after, node.owner, 0)
  {
    InsertLeaf(db.nodes, id, node, parent);
    NamesStay(db.nodes, id, node);
    RowInserted(db, id, node);
    EmptyRow(db.sizes, LiveNodes(db.nodes, node.owner), id);
    forall user: UserId | user != node.owner
      ensures LiveNodes(db.nodes[id := node], user) == LiveNodes(db.nodes, user)
    {
      assert LiveNodes(db.nodes, user) + {} == LiveNodes(db.nodes, user);
    }
  }

  ghost predicate Addition(db: Db, id: NodeId, node: Node, parent: NodeId)
    requires IsForest(db.nodes)
  {
    && id !in db.nodes && parent in db.nodes && Live(db.nodes, parent)
    && db.nodes[parent].kind == Folder && !NameExists(db.nodes, parent, node.nameKey)
    && node.owner == db.nodes[parent].owner && node.parent == Some(parent) && !node.root && !node.deleted
  }

  lemma CreateFolderAdds(db: Db, actor: Actor, parent: NodeId, name: string, key: string, id: NodeId) returns (node: Node)
    requires IsForest(db.nodes) && CreateFolder(db, actor, parent, name, key, id).Done?
    ensures Addition(db, id, node, parent) && node.kind == Folder
    ensures CreateFolder(db, actor, parent, name, key, id).db == db.(nodes := db.nodes[id := node])
  {
    AccessNeedsLife(db, parent, actor, EDIT);
    node := CreateFolder(db, actor, parent, name, key, id).db.nodes[id];
  }

  lemma FolderAdded(db: Db, id: NodeId, node: Node, parent: NodeId)
    requires Valid(db) && Addition(db, id, node, parent) && node.kind == Folder
    ensures Keeps(db, db.(nodes := db.nodes[id := node]))
  {
    var after := db.(nodes := db.nodes[id := node]);
    FolderMoves(db, id, node, parent);
    OwnerKnown(db, parent);
    UsedMoved(db, after, node.owner, 0);
  }

  lemma CreateFolderKeeps(db: Db, actor: Actor, parent: NodeId, name: string, key: string, id: NodeId)
    requires Valid(db) && CreateFolder(db, actor, parent, name, key, id).Done?
    ensures Keeps(db, CreateFolder(db, actor, parent, name, key, id).db)
  {
    var node := CreateFolderAdds(db, actor, parent, name, key, id);
    FolderAdded(db, id, node, parent);
  }

  lemma AddFolderKeeps(db: Db, f: NewFolder)
    requires Valid(db) && AddFolder(db, f).Done?
    ensures Keeps(db, AddFolder(db, f).db)
  {
    FolderAdded(db, f.id, AddFolder(db, f).db.nodes[f.id], f.parent);
  }

  /** A batch of folders changes no counter and keeps everything that a single folder keeps. */
  lemma {:induction false} AddFoldersKeeps(db: Db, folders: seq<NewFolder>)
    requires Valid(db) && AddFolders(db, folders).Done?
    ensures Valid(AddFolders(db, folders).db) && AddFolders(db, folders).db.users == db.users
    decreases |folders|
  {
    if folders != [] {
      var first := folders[..|folders| - 1];
      AddFoldersKeeps(db, first);
      AddFolderKeeps(AddFolders(db, first).db, folders[|folders| - 1]);
    }
  }

  /** A row without size adds nothing. */
  lemma EmptyRow(sizes: map<NodeId, nat>, keys: set<NodeId>, id: NodeId)
    requires id !in sizes && id !in keys
    ensures Sum(sizes, keys + {id}) == Sum(sizes, keys)
  {
    SumTake(sizes, keys + {id}, id);
    assert keys + {id} - {id} == keys;
  }

  // ----- Sessions -----

  lemma SessionWritten(db: Db, id: SessionId, s: Session, users: map<UserId, User>)
    requires Shape(db) && SessionPlaced(db, s) && users.Keys == db.users.Keys
    ensures Shape(db.(sessions := db.sessions[id := s], users := users))
  {
    var after := db.(sessions := db.sessions[id := s], users := users);
    SessionsKept(db, after);
  }

  lemma SessionReleased(db: Db, id: SessionId, closed: Session, users: map<UserId, User>, delta: int)
    requires Valid(db) && id in db.sessions && Pending(db.sessions[id].status)
    requires closed == db.sessions[id].(status := closed.status) && !Pending(closed.status)
    requires closed.owner in db.users && delta + closed.reserved == 0 && users.Keys == db.users.Keys
    ensures var after := db.(sessions := db.sessions[id := closed], users := users);
      Shape(after) && AllMoved(db, after, closed.owner, 0) && AllReserved(db, after, closed.owner, delta)
  {
    var after := db.(sessions := db.sessions[id := closed], users := users);
    assert SessionPlaced(db, db.sessions[id]);
    SessionWritten(db, id, closed, users);
    forall user: UserId
      ensures ReservedBy(db, after, user, closed.owner, delta)
    {
      SessionCloses(db.sessions, id, closed, user);
    }
  }

  lemma CloseWrites(db: Db, id: SessionId, status: Status) returns (closed: Session, users: map<UserId, User>)
    requires id in db.sessions && db.sessions[id].owner in db.users
    requires db.users[db.sessions[id].owner].reserved >= db.sessions[id].reserved
    ensures closed == db.sessions[id].(status := status)
    ensures users ==
      db.users[closed.owner := db.users[closed.owner].(reserved := db.users[closed.owner].reserved - closed.reserved)]
    ensures CloseSession(db, id, status) == Done(db.(users := users, sessions := db.sessions[id := closed]))
  {
    closed := db.sessions[id].(status := status);
    users := CloseSession(db, id, status).db.users;
  }

  /** Closing a session takes back exactly what it had reserved. */
  lemma SessionEnds(db: Db, id: SessionId, status: Status)
    requires Valid(db) && id in db.sessions && Pending(db.sessions[id].status) && !Pending(status)
    ensures CloseSession(db, id, status).Done? && Keeps(db, CloseSession(db, id, status).db)
  {
    ReservationCounted(db, id);
    var closed, users := CloseWrites(db, id, status);
    Ended(db, id, closed, users);
  }

  lemma Ended(db: Db, id: SessionId, closed: Session, users: map<UserId, User>)
    requires Valid(db) && id in db.sessions && Pending(db.sessions[id].status)
    requires closed == db.sessions[id].(status := closed.status) && !Pending(closed.status)
    requires closed.owner in db.users && db.users[closed.owner].reserved >= closed.reserved
    requires users ==
      db.users[closed.owner := db.users[closed.owner].(reserved := db.users[closed.owner].reserved - closed.reserved)]
    ensures Keeps(db, db.(users := users, sessions := db.sessions[id := closed]))
  {
    var taken: int := closed.reserved;
    var delta := -taken;
    assert CountsExactly(db, closed.owner);
    SessionReleased(db, id, closed, users, delta);
    CountsMoved(db, db.(users := users, sessions := db.sessions[id := closed]), closed.owner, 0, delta);
  }

  lemma CancelKeeps(db: Db, actor: Actor, id: SessionId)
    requires Valid(db) && Cancel(db, actor, id).Done?
    ensures Keeps(db, Cancel(db, actor, id).db)
  {
    if db.sessions[id].status == Open {
      assert Cancel(db, actor, id) == CloseSession(db, id, Cancelled);
      SessionEnds(db, id, Cancelled);
    } else {
      assert Cancel(db, actor, id) == Done(db);
      NothingChanged(db);
    }
  }

  lemma ExpireKeeps(db: Db, id: SessionId, now: int)
    requires Valid(db)
    ensures Expire(db, id, now).Done? && Keeps(db, Expire(db, id, now).db)
  {
    if Expire(db, id, now) == Done(db) {
      NothingChanged(db);
    } else {
      SessionEnds(db, id, Expired);
    }
  }

  /** A new session reserves what it may need, within the quota. */
  lemma SessionOpened(db: Db, id: SessionId, s: Session, users: map<UserId, User>)
    requires Valid(db) && id !in db.sessions && s.status == Open && SessionPlaced(db, s)
    requires QuotaAllows(db.users[s.owner], s.reserved) && db.users[s.owner].reserved + s.reserved <= MAX_INT64
    requires users == db.users[s.owner := db.users[s.owner].(reserved := db.users[s.owner].reserved + s.reserved)]
    ensures Keeps(db, db.(users := users, sessions := db.sessions[id := s]))
  {
    var after := db.(users := users, sessions := db.sessions[id := s]);
    SessionWritten(db, id, s, users);
    assert CountsExactly(db, s.owner);
    forall user: UserId
      ensures ReservedBy(db, after, user, s.owner, s.reserved)
    {
      SessionOpens(db.sessions, id, s, user);
    }
    assert AllMoved(db, after, s.owner, 0);
    CountsMoved(db, after, s.owner, 0, s.reserved);
  }

  lemma ReservationFits(db: Db, actor: Actor, folder: NodeId, key: string, size: nat, target: Option<NodeId>)
    requires IsForest(db.nodes) && Reservation(db, actor, folder, key, size, target).Success?
    ensures Reservation(db, actor, folder, key, size, target).value <= size
    ensures target.Some? ==> target.value in db.sizes
  {
  }

  lemma CreateSessionOpens(db: Db, actor: Actor, folder: NodeId, name: string, key: string, size: nat,
                           target: Option<NodeId>, expiresAt: int, id: SessionId)
    returns (s: Session, users: map<UserId, User>)
    requires IsForest(db.nodes) && CreateSession(db, actor, folder, name, key, size, target, expiresAt, id).Done?
    ensures id !in db.sessions && s.status == Open && SessionPlaced(db, s)
    ensures QuotaAllows(db.users[s.owner], s.reserved) && db.users[s.owner].reserved + s.reserved <= MAX_INT64
    ensures users == db.users[s.owner := db.users[s.owner].(reserved := db.users[s.owner].reserved + s.reserved)]
    ensures CreateSession(db, actor, folder, name, key, size, target, expiresAt, id).db ==
      db.(users := users, sessions := db.sessions[id := s])
  {
    ReservationFits(db, actor, folder, key, size, target);
    var after := CreateSession(db, actor, folder, name, key, size, target, expiresAt, id).db;
    s, users := after.sessions[id], after.users;
  }

  lemma CreateSessionKeeps(db: Db, actor: Actor, folder: NodeId, name: string, key: string, size: nat,
                           target: Option<NodeId>, expiresAt: int, id: SessionId)
    requires Valid(db) && CreateSession(db, actor, folder, name, key, size, target, expiresAt, id).Done?
    ensures Keeps(db, CreateSession(db, actor, folder, name, key, size, target, expiresAt, id).db)
  {
    var s, users := CreateSessionOpens(db, actor, folder, name, key, size, target, expiresAt, id);
    SessionOpened(db, id, s, users);
  }
}
