/** When each transaction commits and what the tables hold afterwards; the counters follow, since they always count exactly. */
module LedgerEffects {
  import opened Access
  import opened Forest
  import opened ForestEdits
  import opened Ledger
  import opened LedgerAccess
  import opened LedgerCommits
  import opened LedgerKeeps
  import opened LedgerRuns
  import opened LedgerState
  import opened Sums
  import opened TrashBin
  import opened Wrappers

  // ----- Vocabulary -----

  /** Every other row is as before, and no other row comes or goes. */
  ghost predicate OnlyRow(nodes: Nodes, after: Nodes, id: NodeId) {
    && id in after && after.Keys == nodes.Keys + {id}
    && forall x :: x in nodes && x != id ==> after[x] == nodes[x]
  }

  predicate Named(nodes: Nodes, x: NodeId, parent: NodeId, key: string) {
    x in nodes && !nodes[x].deleted && nodes[x].parent == Some(parent) && nodes[x].nameKey == key
  }

  /** No undeleted child of the folder but `except` has this name key. */
  ghost predicate NameFree(nodes: Nodes, parent: NodeId, key: string, except: Option<NodeId>) {
    forall x: NodeId :: Named(nodes, x, parent, key) ==> Some(x) == except
  }

  predicate FolderAt(nodes: Nodes, x: NodeId) {
    x in nodes && nodes[x].kind == Folder
  }

  predicate CanBeMoved(nodes: Nodes, x: NodeId) {
    x in nodes && !nodes[x].root
  }

  ghost predicate FitsQuota(user: User, bytes: nat) {
    user.quota.Some? ==> user.used + user.reserved + bytes <= user.quota.value
  }

  lemma NamesMean(nodes: Nodes, parent: NodeId, key: string, except: NodeId)
    ensures NameExists(nodes, parent, key) <==> !NameFree(nodes, parent, key, None)
    ensures NameTaken(nodes, parent, key, except) <==> !NameFree(nodes, parent, key, Some(except))
  {
    assert forall x :: Named(nodes, x, parent, key) <==> ActiveChild(nodes, x, parent, key);
  }

  lemma MayIsUndeleted(db: Db, x: NodeId, actor: Actor, least: nat)
    requires IsForest(db.nodes) && May(db, x, actor, least)
    ensures Undeleted(db.nodes, x) && Live(db.nodes, x)
  {
    StandsIsLive(db.nodes, x);
    ChainSelf(db.nodes, x);
  }

  // ----- The tree -----

  lemma CreateFolderIff(db: Db, actor: Actor, parent: NodeId, name: string, key: string, id: NodeId)
    requires IsForest(db.nodes)
    ensures CreateFolder(db, actor, parent, name, key, id).Done? <==>
      May(db, parent, actor, 2) && FolderAt(db.nodes, parent) && id !in db.nodes && NameFree(db.nodes, parent, key, None)
  {
    CheckMeans(db, parent, actor, 2);
    NamesMean(db.nodes, parent, key, id);
    if May(db, parent, actor, 2) {
      MayIsUndeleted(db, parent, actor, 2);
    }
  }

  predicate IsNewFolder(nodes: Nodes, id: NodeId, parent: NodeId, owner: UserId, name: string, key: string) {
    && id in nodes && nodes[id].kind == Folder && nodes[id].parent == Some(parent) && nodes[id].owner == owner
    && nodes[id].name == name && nodes[id].nameKey == key && !nodes[id].root && !nodes[id].deleted
  }

  lemma CreateFolderDoes(db: Db, actor: Actor, parent: NodeId, name: string, key: string, id: NodeId)
    requires IsForest(db.nodes) && CreateFolder(db, actor, parent, name, key, id).Done?
    ensures var after := CreateFolder(db, actor, parent, name, key, id).db;
      && after == db.(nodes := after.nodes) && OnlyRow(db.nodes, after.nodes, id)
      && parent in db.nodes && IsNewFolder(after.nodes, id, parent, db.nodes[parent].owner, name, key)
  {
  }

  lemma RenameIff(db: Db, actor: Actor, id: NodeId, name: string, key: string)
    requires IsForest(db.nodes)
    ensures Rename(db, actor, id, name, key).Done? <==>
      && May(db, id, actor, 2) && CanBeMoved(db.nodes, id) && db.nodes[id].parent.Some?
      && NameFree(db.nodes, db.nodes[id].parent.value, key, Some(id))
  {
    CheckMeans(db, id, actor, 2);
    if May(db, id, actor, 2) {
      MayIsUndeleted(db, id, actor, 2);
      assert WellPlaced(db.nodes, id);
      if db.nodes[id].parent.Some? {
        NamesMean(db.nodes, db.nodes[id].parent.value, key, id);
      }
    }
  }

  lemma RenameDoes(db: Db, actor: Actor, id: NodeId, name: string, key: string)
    requires IsForest(db.nodes) && Rename(db, actor, id, name, key).Done?
    ensures var after := Rename(db, actor, id, name, key).db;
      && after == db.(nodes := after.nodes) && id in db.nodes && OnlyRow(db.nodes, after.nodes, id)
      && after.nodes[id].name == name && after.nodes[id].nameKey == key
      && after.nodes[id].(name := db.nodes[id].name, nameKey := db.nodes[id].nameKey) == db.nodes[id]
  {
  }

  lemma MoveIff(db: Db, actor: Actor, id: NodeId, parent: NodeId)
    requires IsForest(db.nodes)
    ensures Move(db, actor, id, parent).Done? <==>
      && May(db, id, actor, 2) && CanBeMoved(db.nodes, id)
      && May(db, parent, actor, 2) && FolderAt(db.nodes, parent) && db.nodes[parent].owner == db.nodes[id].owner
      && (db.nodes[id].parent == Some(parent) ||
          (id !in Chain(db.nodes, parent) && NameFree(db.nodes, parent, db.nodes[id].nameKey, Some(id))))
  {
    CheckMeans(db, id, actor, 2);
    CheckMeans(db, parent, actor, 2);
    if May(db, id, actor, 2) {
      MayIsUndeleted(db, id, actor, 2);
      if May(db, parent, actor, 2) {
        MayIsUndeleted(db, parent, actor, 2);
        NamesMean(db.nodes, parent, db.nodes[id].nameKey, id);
        if id in Chain(db.nodes, parent) && FolderAt(db.nodes, parent) {
          FoldersContain(db.nodes, id, parent);
        }
      }
    }
  }

  lemma FoldersContain(nodes: Nodes, x: NodeId, folder: NodeId)
    requires IsForest(nodes) && FolderAt(nodes, folder) && x in nodes && x in Chain(nodes, folder)
    ensures nodes[x].kind == Folder
  {
    if nodes[x].kind == File {
      FileIsNoAncestor(nodes, x, folder);
    }
  }

  lemma MoveWrites(db: Db, actor: Actor, id: NodeId, parent: NodeId)
    requires IsForest(db.nodes) && Move(db, actor, id, parent).Done?
    ensures id in db.nodes
    ensures Move(db, actor, id, parent).db == db.(nodes := db.nodes[id := db.nodes[id].(parent := Some(parent))])
  {
    if db.nodes[id].parent == Some(parent) {
      assert db.nodes[id := db.nodes[id]] == db.nodes;
    }
  }

  lemma MoveDoes(db: Db, actor: Actor, id: NodeId, parent: NodeId)
    requires IsForest(db.nodes) && Move(db, actor, id, parent).Done?
    ensures var after := Move(db, actor, id, parent).db;
      && after == db.(nodes := after.nodes) && id in db.nodes && OnlyRow(db.nodes, after.nodes, id)
      && after.nodes[id].parent == Some(parent) && after.nodes[id].(parent := db.nodes[id].parent) == db.nodes[id]
  {
    MoveWrites(db, actor, id, parent);
  }

  lemma TrashIff(db: Db, actor: Actor, id: NodeId)
    requires Valid(db)
    ensures Trash(db, actor, id).Done? <==> May(db, id, actor, 2) && CanBeMoved(db.nodes, id)
  {
    CheckMeans(db, id, actor, 2);
    if May(db, id, actor, 2) {
      MayIsUndeleted(db, id, actor, 2);
      SubtreeCounted(db, id);
    }
  }

  lemma TrashDoes(db: Db, actor: Actor, id: NodeId)
    requires IsForest(db.nodes) && Trash(db, actor, id).Done?
    ensures var after := Trash(db, actor, id).db;
      && after == db.(nodes := after.nodes, users := after.users) && id in db.nodes && OnlyRow(db.nodes, after.nodes, id)
      && after.nodes[id].deleted && after.nodes[id].(deleted := false) == db.nodes[id]
  {
  }

  /** Where a restore leads: the wanted folder, or else the old home. */
  function Destination(db: Db, id: NodeId, into: Option<NodeId>): Option<NodeId>
    requires id in db.nodes
  {
    if into.Some? then into else db.nodes[id].parent
  }

  ghost predicate MayRestore(db: Db, actor: Actor, id: NodeId, into: Option<NodeId>)
    requires IsForest(db.nodes)
  {
    && id in db.nodes && db.nodes[id].deleted && Destination(db, id, into).Some? && db.nodes[id].parent.Some?
    && (actor.admin || actor.user == db.nodes[id].owner || May(db, db.nodes[id].parent.value, actor, 2))
    && var parent := Destination(db, id, into).value;
       May(db, parent, actor, 2) && FolderAt(db.nodes, parent) && db.nodes[parent].owner == db.nodes[id].owner
  }

  /** What the restored bytes may be added to. */
  ghost predicate HasRoom(users: map<UserId, User>, owner: UserId, bytes: nat) {
    owner in users && FitsQuota(users[owner], bytes) && users[owner].used + bytes <= MAX_INT64
  }

  lemma AddedIff(users: map<UserId, User>, owner: UserId, bytes: nat)
    ensures AddUsed(users, owner, bytes).Success? <==> HasRoom(users, owner, bytes)
  {
    if owner in users {
      QuotaAllowsMeans(users[owner], bytes);
    }
  }

  lemma RestoreIff(db: Db, actor: Actor, id: NodeId, into: Option<NodeId>, rename: Option<(string, string)>)
    requires IsForest(db.nodes)
    ensures Restore(db, actor, id, into, rename).Done? <==>
      && MayRestore(db, actor, id, into)
      && NameFree(db.nodes, Destination(db, id, into).value, if rename.Some? then rename.value.1 else db.nodes[id].nameKey, None)
      && HasRoom(db.users, db.nodes[id].owner, Sum(db.sizes, ActiveSubtree(db.nodes, id)))
  {
    RestoreIntoIff(db, actor, id, into);
    if MayRestore(db, actor, id, into) {
      NamesMean(db.nodes, Destination(db, id, into).value, if rename.Some? then rename.value.1 else db.nodes[id].nameKey, id);
      AddedIff(db.users, db.nodes[id].owner, Sum(db.sizes, ActiveSubtree(db.nodes, id)));
    }
  }

  lemma RestoreIntoIff(db: Db, actor: Actor, id: NodeId, into: Option<NodeId>)
    requires IsForest(db.nodes)
    ensures RestoreInto(db, actor, id, into).Success? <==> MayRestore(db, actor, id, into)
    ensures RestoreInto(db, actor, id, into).Success? ==> Some(RestoreInto(db, actor, id, into).value) == Destination(db, id, into)
  {
    if id in db.nodes && db.nodes[id].parent.Some? {
      assert WellPlaced(db.nodes, id);
      var parent := Destination(db, id, into).value;
      CheckMeans(db, db.nodes[id].parent.value, actor, 2);
      CheckMeans(db, parent, actor, 2);
      if May(db, parent, actor, 2) && db.nodes[id].deleted {
        MayIsUndeleted(db, parent, actor, 2);
        NoCycleOnRestore(db, id, parent);
      }
    } else if id in db.nodes {
      assert WellPlaced(db.nodes, id);
    }
  }

  lemma RestoreDoes(db: Db, actor: Actor, id: NodeId, into: Option<NodeId>, rename: Option<(string, string)>)
    requires IsForest(db.nodes) && Restore(db, actor, id, into, rename).Done?
    ensures var after := Restore(db, actor, id, into, rename).db;
      && after == db.(nodes := after.nodes, users := after.users) && id in db.nodes && OnlyRow(db.nodes, after.nodes, id)
      && !after.nodes[id].deleted && after.nodes[id].parent == Destination(db, id, into)
      && (after.nodes[id].name, after.nodes[id].nameKey) ==
           (if rename.Some? then rename.value else (db.nodes[id].name, db.nodes[id].nameKey))
      && SameIdentity(after.nodes[id], db.nodes[id])
  {
    RestoreIntoIff(db, actor, id, into);
  }

  // ----- Purge -----

  /** A session on a folder that goes, or that made a file that goes, goes with it. */
  predicate BelongsTo(s: Session, gone: set<NodeId>) {
    s.folder in gone || (s.committed.Some? && s.committed.value in gone)
  }

  ghost predicate UploadGoesOn(db: Db, gone: set<NodeId>) {
    exists s :: s in db.sessions && BelongsTo(db.sessions[s], gone)
      && (db.sessions[s].status == Open || db.sessions[s].status == Completing)
  }

  lemma PurgeIff(db: Db, actor: Actor, id: NodeId)
    requires IsForest(db.nodes)
    ensures Purge(db, actor, id).Done? <==>
      && id in db.nodes && db.nodes[id].deleted && (actor.admin || actor.user == db.nodes[id].owner)
      && !UploadGoesOn(db, Subtree(db.nodes, id))
  {
    if id in db.nodes {
      assert WellPlaced(db.nodes, id);
      var gone := Subtree(db.nodes, id);
      assert forall s :: s in db.sessions ==> (Touches(db.sessions[s], gone) <==> BelongsTo(db.sessions[s], gone));
    }
  }

  /** The session as it stays: one that was to replace a file that is gone makes a new one. */
  predicate StaysAs(before: Session, after: Session, gone: set<NodeId>) {
    && after.target == (if before.target.Some? && before.target.value in gone then None else before.target)
    && after == before.(target := after.target)
  }

  /** These nodes are gone, with all rows that hang on them and no others. */
  ghost predicate Removed(db: Db, after: Db, gone: set<NodeId>) {
    && after.users == db.users
    && (forall x :: x in after.nodes <==> x in db.nodes && x !in gone)
    && (forall x :: x in after.nodes ==> after.nodes[x] == db.nodes[x])
    && (forall x :: x in after.sizes <==> x in db.sizes && x !in gone)
    && (forall x :: x in after.sizes ==> after.sizes[x] == db.sizes[x])
    && VersionsLeft(db, after, gone) && GrantsLeft(db, after, gone) && SessionsLeft(db, after, gone)
  }

  lemma WithoutRemoves(db: Db, gone: set<NodeId>)
    ensures Removed(db, Without(db, gone), gone)
  {
  }

  /** The node and everything below it. */
  ghost predicate AtOrBelow(nodes: Nodes, id: NodeId, gone: set<NodeId>)
    requires IsForest(nodes)
  {
    forall x :: x in gone <==> x in nodes && id in Chain(nodes, x)
  }

  lemma PurgeDoes(db: Db, actor: Actor, id: NodeId) returns (gone: set<NodeId>)
    requires IsForest(db.nodes) && Purge(db, actor, id).Done?
    ensures AtOrBelow(db.nodes, id, gone) && Removed(db, Purge(db, actor, id).db, gone)
  {
    gone := Subtree(db.nodes, id);
    WithoutRemoves(db, gone);
  }

  /** The owner's nodes that do not stand: deleted, or below something deleted. */
  ghost predicate AllTrashed(nodes: Nodes, owner: UserId, gone: set<NodeId>)
    requires IsForest(nodes)
  {
    forall x :: x in gone <==> x in nodes && nodes[x].owner == owner && !Stands(nodes, x)
  }

  lemma TrashedAreDead(nodes: Nodes, owner: UserId)
    requires IsForest(nodes)
    ensures AllTrashed(nodes, owner, DeadNodes(nodes, owner))
  {
    forall x | x in nodes
      ensures Stands(nodes, x) <==> Live(nodes, x)
    {
      StandsIsLive(nodes, x);
    }
  }

  /** Emptying the trash takes all of it, or nothing when an upload goes on in it. */
  lemma EmptyTrashDoes(db: Db, actor: Actor, owner: UserId, ids: seq<NodeId>) returns (gone: set<NodeId>)
    requires IsForest(db.nodes) && ListsTrashRoots(db.nodes, owner, ids)
    ensures AllTrashed(db.nodes, owner, gone)
    ensures EmptyTrash(db, actor, owner, ids).Done? <==>
      (actor.admin || actor.user == owner) && !UploadGoesOn(db, gone)
    ensures EmptyTrash(db, actor, owner, ids).Done? ==> Removed(db, EmptyTrash(db, actor, owner, ids).db, gone)
  {
    gone := DeadNodes(db.nodes, owner);
    TrashedAreDead(db.nodes, owner);
    DeadAreBelowRoots(db.nodes, owner, ids);
    UploadBelowRoots(db, ids);
    WithoutRemoves(db, gone);
    if actor.admin || actor.user == owner {
      EmptyTrashRemovesTheDead(db, actor, owner, ids);
    }
  }

  lemma UploadBelowRoots(db: Db, ids: seq<NodeId>)
    requires IsForest(db.nodes)
    ensures SomeActiveUpload(db, ids) <==> UploadGoesOn(db, Subtrees(db.nodes, ids))
  {
    var gone := Subtrees(db.nodes, ids);
    if SomeActiveUpload(db, ids) {
      var id :| id in ids && HasActiveUpload(db, Subtree(db.nodes, id));
      var s :| s in db.sessions && Pending(db.sessions[s].status) && Touches(db.sessions[s], Subtree(db.nodes, id));
      assert Subtree(db.nodes, id) <= gone;
      assert BelongsTo(db.sessions[s], gone);
    }
    if UploadGoesOn(db, gone) {
      var s :| s in db.sessions && BelongsTo(db.sessions[s], gone)
        && (db.sessions[s].status == Open || db.sessions[s].status == Completing);
      var x := if db.sessions[s].folder in gone then db.sessions[s].folder else db.sessions[s].committed.value;
      var id :| id in ids && id in Chain(db.nodes, x);
      assert Touches(db.sessions[s], Subtree(db.nodes, id));
    }
  }

  ghost predicate VersionsLeft(db: Db, after: Db, gone: set<NodeId>) {
    && (forall v :: v in after.versions <==> v in db.versions && db.versions[v].file !in gone)
    && (forall v :: v in after.versions ==> after.versions[v] == db.versions[v])
  }

  ghost predicate GrantsLeft(db: Db, after: Db, gone: set<NodeId>) {
    && (forall g :: g in after.grants <==> g in db.grants && g.0 !in gone)
    && (forall g :: g in after.grants ==> after.grants[g] == db.grants[g])
  }

  ghost predicate SessionsLeft(db: Db, after: Db, gone: set<NodeId>) {
    && (forall s :: s in after.sessions <==> s in db.sessions && !BelongsTo(db.sessions[s], gone))
    && (forall s :: s in after.sessions ==> StaysAs(db.sessions[s], after.sessions[s], gone))
  }

  // ----- Uploads -----

  /** The file that a replacement replaces: the child of the folder with that name key. */
  predicate Replaces(db: Db, folder: NodeId, key: string, file: NodeId) {
    Named(db.nodes, file, folder, key) && db.nodes[file].kind == File && file in db.sizes
  }

  /** What an upload reserves: all its bytes for a new file, the growth of a replaced one. */
  function Growth(db: Db, size: nat, target: Option<NodeId>): nat {
    if target.None? then size
    else if target.value in db.sizes && size > db.sizes[target.value] then size - db.sizes[target.value]
    else if target.value in db.sizes then 0 else size
  }

  ghost predicate TargetFits(db: Db, folder: NodeId, key: string, target: Option<NodeId>) {
    match target
    case None => NameFree(db.nodes, folder, key, None)
    case Some(file) => Replaces(db, folder, key, file)
  }

  lemma OneNamed(nodes: Nodes, x: NodeId, folder: NodeId, key: string)
    requires UniqueNames(nodes) && ActiveChild(nodes, x, folder, key)
    ensures forall y: NodeId :: Named(nodes, y, folder, key) <==> y == x
    ensures forall y: NodeId :: ActiveChild(nodes, y, folder, key) ==> y == x
  {
    forall y: NodeId
      ensures Named(nodes, y, folder, key) <==> y == x
    {
      assert Named(nodes, y, folder, key) <==> ActiveChild(nodes, y, folder, key);
    }
  }

  lemma ReservationIff(db: Db, actor: Actor, folder: NodeId, key: string, size: nat, target: Option<NodeId>)
    requires Shape(db) && May(db, folder, actor, 2)
    ensures Reservation(db, actor, folder, key, size, target).Success? <==> TargetFits(db, folder, key, target)
    ensures Reservation(db, actor, folder, key, size, target).Success? ==>
      Reservation(db, actor, folder, key, size, target).value == Growth(db, size, target)
  {
    NamesMean(db.nodes, folder, key, folder);
    if NameExists(db.nodes, folder, key) {
      var x :| ActiveChild(db.nodes, x, folder, key);
      OneNamed(db.nodes, x, folder, key);
      assert IsFile(db.nodes, x) <==> x in db.sizes;
      MayBelow(db, x, actor);
      CheckMeans(db, x, actor, 2);
    }
  }

  /** Whoever may edit a folder may edit the undeleted nodes directly in it. */
  lemma MayBelow(db: Db, x: NodeId, actor: Actor)
    requires IsForest(db.nodes) && x in db.nodes && !db.nodes[x].deleted && db.nodes[x].parent.Some?
    requires May(db, db.nodes[x].parent.value, actor, 2)
    ensures May(db, x, actor, 2)
  {
    var p := db.nodes[x].parent.value;
    ParentDepth(db.nodes, x);
    assert WellPlaced(db.nodes, x) && Chain(db.nodes, x) == {x} + Chain(db.nodes, p);
    if Granted(db, p, actor.user, 2) {
      var a :| a in Chain(db.nodes, p) && (a, actor.user) in db.grants && db.grants[(a, actor.user)] >= 2;
      assert a in Chain(db.nodes, x);
    }
  }

  lemma CreateSessionIff(db: Db, actor: Actor, folder: NodeId, name: string, key: string, size: nat,
                         target: Option<NodeId>, expiresAt: int, id: SessionId)
    requires Shape(db)
    ensures CreateSession(db, actor, folder, name, key, size, target, expiresAt, id).Done? <==>
      && size <= MAX_INT64 && id !in db.sessions && May(db, folder, actor, 2) && FolderAt(db.nodes, folder)
      && TargetFits(db, folder, key, target) && db.nodes[folder].owner in db.users
      && FitsQuota(db.users[db.nodes[folder].owner], Growth(db, size, target))
      && db.users[db.nodes[folder].owner].reserved + Growth(db, size, target) <= MAX_INT64
  {
    CheckMeans(db, folder, actor, 2);
    if May(db, folder, actor, 2) {
      MayIsUndeleted(db, folder, actor, 2);
      ReservationIff(db, actor, folder, key, size, target);
      if db.nodes[folder].owner in db.users {
        QuotaAllowsMeans(db.users[db.nodes[folder].owner], Growth(db, size, target));
      }
    }
  }

  /** The new session is an open one of the actor for the folder's owner, with the reservation charged to the latter. */
  lemma CreateSessionDoes(db: Db, actor: Actor, folder: NodeId, name: string, key: string, size: nat,
                          target: Option<NodeId>, expiresAt: int, id: SessionId)
    requires Shape(db) && CreateSession(db, actor, folder, name, key, size, target, expiresAt, id).Done?
    ensures folder in db.nodes && db.nodes[folder].owner in db.users
    ensures var after := CreateSession(db, actor, folder, name, key, size, target, expiresAt, id).db;
      var owner, bytes := db.nodes[folder].owner, Growth(db, size, target);
      && after == db.(users := after.users, sessions := after.sessions)
      && after.users == db.users[owner := db.users[owner].(reserved := db.users[owner].reserved + bytes)]
      && after.sessions == db.sessions[id :=
           Session(actor.user, owner, folder, name, key, size, bytes, Open, expiresAt, target, None)]
  {
    CheckMeans(db, folder, actor, 2);
    ReservationIff(db, actor, folder, key, size, target);
  }

  /** A closed session keeps all but its status, and its reservation goes back to the owner. */
  ghost predicate Closed(db: Db, after: Db, id: SessionId, status: Status)
    requires id in db.sessions
  {
    var s := db.sessions[id];
    && after == db.(users := after.users, sessions := after.sessions)
    && after.sessions == db.sessions[id := s.(status := status)] && s.owner in db.users
    && db.users[s.owner].reserved >= s.reserved
    && after.users == db.users[s.owner := db.users[s.owner].(reserved := db.users[s.owner].reserved - s.reserved)]
  }

  /** The reservation of the session, if open, is among those its owner is charged with. */
  predicate Charged(db: Db, id: SessionId) {
    id in db.sessions && db.sessions[id].status == Open ==>
      var s := db.sessions[id];
      s.owner in db.users && s.reserved <= db.users[s.owner].reserved
  }

  lemma OpenIsCharged(db: Db, id: SessionId)
    requires Valid(db)
    ensures Charged(db, id)
  {
    if id in db.sessions && db.sessions[id].status == Open {
      ReservationCounted(db, id);
    }
  }

  /** On a valid ledger every reservation is charged, by `OpenIsCharged`. */
  lemma CancelDoes(db: Db, actor: Actor, id: SessionId)
    requires Charged(db, id)
    ensures Cancel(db, actor, id).Done? <==>
      && id in db.sessions && (actor.admin || db.sessions[id].actor == actor.user)
      && db.sessions[id].status in {Open, Cancelled, Expired}
    ensures Cancel(db, actor, id).Done? ==>
      if db.sessions[id].status == Open then Closed(db, Cancel(db, actor, id).db, id, Cancelled)
      else Cancel(db, actor, id).db == db
  {
  }

  lemma ExpireDoes(db: Db, id: SessionId, now: int)
    requires Charged(db, id)
    ensures Expire(db, id, now).Done?
    ensures if id in db.sessions && db.sessions[id].status == Open && db.sessions[id].expiresAt <= now
      then Closed(db, Expire(db, id, now).db, id, Expired)
      else Expire(db, id, now).db == db
  {
  }

  /** The session may be finalized: in time, with all its parts, and with its full size reserved. */
  predicate IsDue(s: Session, now: int, complete: bool) {
    s.status == Open && now < s.expiresAt && complete && s.reserved == s.size
  }

  ghost predicate NewFileFits(db: Db, s: Session, newFile: NodeId, version: VersionId) {
    && newFile !in db.nodes && version !in db.versions && NameFree(db.nodes, s.folder, s.nameKey, None)
    && s.owner in db.users && db.users[s.owner].used + s.size <= MAX_INT64
  }

  predicate ReplacementFits(db: Db, s: Session, file: NodeId, version: VersionId) {
    && file in db.nodes && !db.nodes[file].deleted && file in db.sizes && version !in db.versions
    && db.nodes[file].owner == s.owner && db.nodes[file].parent == Some(s.folder) && db.nodes[file].name == s.name
    && s.owner in db.users && db.users[s.owner].used - db.sizes[file] + s.size <= MAX_INT64
  }

  lemma FinalizeIff(db: Db, actor: Actor, id: SessionId, now: int, complete: bool, newFile: NodeId, version: VersionId)
    requires Valid(db)
    ensures Finalize(db, actor, id, now, complete, newFile, version).Done? <==>
      && id in db.sessions && (actor.admin || db.sessions[id].actor == actor.user)
      && (db.sessions[id].status == Completed ||
          (&& IsDue(db.sessions[id], now, complete) && May(db, db.sessions[id].folder, actor, 2)
           && match db.sessions[id].target
              case None => NewFileFits(db, db.sessions[id], newFile, version)
              case Some(file) => ReplacementFits(db, db.sessions[id], file, version)))
  {
    if id in db.sessions {
      var s := db.sessions[id];
      assert SessionPlaced(db, s);
      OpenIsCharged(db, id);
      ChecksIff(db, actor, id, now, complete);
      if FinalizeChecks(db, actor, id, now, complete).None? {
        CommitCountersHold(db, actor, id, now, complete, newFile, version);
        match s.target
        case None => NewFileIff(db, id, newFile, version);
        case Some(file) => ReplacementIff(db, id, file, version);
      }
    }
  }

  lemma ChecksIff(db: Db, actor: Actor, id: SessionId, now: int, complete: bool)
    requires IsForest(db.nodes) && id in db.sessions && SessionPlaced(db, db.sessions[id]) && Charged(db, id)
    ensures FinalizeChecks(db, actor, id, now, complete).None? <==>
      IsDue(db.sessions[id], now, complete) && May(db, db.sessions[id].folder, actor, 2)
  {
    var folder := db.sessions[id].folder;
    CheckMeans(db, folder, actor, 2);
    if May(db, folder, actor, 2) {
      MayIsUndeleted(db, folder, actor, 2);
    }
  }

  lemma NewFileIff(db: Db, id: SessionId, file: NodeId, version: VersionId)
    requires IsForest(db.nodes) && FilesSized(db.nodes, db.sizes) && Committable(db, id)
    ensures CommitNewFile(db, id, file, version).Done? <==> NewFileFits(db, db.sessions[id], file, version)
  {
    NamesMean(db.nodes, db.sessions[id].folder, db.sessions[id].nameKey, file);
  }

  lemma ReplacementIff(db: Db, id: SessionId, file: NodeId, version: VersionId)
    requires Valid(db) && Committable(db, id)
    ensures CommitReplacement(db, id, file, version).Done? <==> ReplacementFits(db, db.sessions[id], file, version)
  {
    ReplacementNeverUnderflows(db, id, file, version);
  }

  /** The session is completed with that file, and its reservation has become used bytes. */
  ghost predicate Spent(db: Db, after: Db, id: SessionId, file: NodeId, used: int)
    requires id in db.sessions
  {
    var s := db.sessions[id];
    && after.sessions == db.sessions[id := s.(status := Completed, committed := Some(file))] && s.owner in db.users
    && after.users.Keys == db.users.Keys && (forall u :: u in db.users && u != s.owner ==> after.users[u] == db.users[u])
    && after.users[s.owner].quota == db.users[s.owner].quota
    && after.users[s.owner].used == db.users[s.owner].used + used
    && after.users[s.owner].reserved == db.users[s.owner].reserved - s.reserved
  }

  /** A finalization that changes something is the commit of its kind. */
  lemma FinalizeCommits(db: Db, actor: Actor, id: SessionId, now: int, complete: bool, newFile: NodeId, version: VersionId)
    requires IsForest(db.nodes) && id in db.sessions && db.sessions[id].status != Completed
    requires Finalize(db, actor, id, now, complete, newFile, version).Done?
    ensures Committable(db, id)
    ensures Finalize(db, actor, id, now, complete, newFile, version) ==
      if db.sessions[id].target.None? then CommitNewFile(db, id, newFile, version)
      else CommitReplacement(db, id, db.sessions[id].target.value, version)
  {
    ChecksMakeCommittable(db, actor, id, now, complete);
  }

  /** A file of the session's size, name, folder and owner, with a version of that size. */
  ghost predicate MakesFile(db: Db, after: Db, id: SessionId, file: NodeId, version: VersionId)
    requires id in db.sessions
  {
    var s := db.sessions[id];
    && file !in db.nodes && version !in db.versions && after.grants == db.grants
    && after.nodes == db.nodes[file := Node(File, s.owner, Some(s.folder), s.name, s.nameKey, false, false)]
    && after.sizes == db.sizes[file := s.size] && after.versions == db.versions[version := Version(file, s.size)]
    && Spent(db, after, id, file, s.size)
  }

  lemma FinalizeMakesFile(db: Db, actor: Actor, id: SessionId, now: int, complete: bool, newFile: NodeId, version: VersionId)
    requires IsForest(db.nodes) && id in db.sessions && db.sessions[id].status != Completed && db.sessions[id].target.None?
    requires Finalize(db, actor, id, now, complete, newFile, version).Done?
    ensures MakesFile(db, Finalize(db, actor, id, now, complete, newFile, version).db, id, newFile, version)
  {
    FinalizeCommits(db, actor, id, now, complete, newFile, version);
    NewFileWritten(db, id, newFile, version);
  }

  lemma NewFileWritten(db: Db, id: SessionId, file: NodeId, version: VersionId)
    requires IsForest(db.nodes) && Committable(db, id) && CommitNewFile(db, id, file, version).Done?
    ensures MakesFile(db, CommitNewFile(db, id, file, version).db, id, file, version)
  {
  }

  /** The replaced file has the session's size, a new version records it, and the old versions stay. */
  ghost predicate ReplacesFile(db: Db, after: Db, id: SessionId, file: NodeId, version: VersionId)
    requires id in db.sessions
  {
    var s := db.sessions[id];
    && file in db.sizes && version !in db.versions && after.grants == db.grants && after.nodes == db.nodes
    && after.sizes == db.sizes[file := s.size] && after.versions == db.versions[version := Version(file, s.size)]
    && Spent(db, after, id, file, s.size - db.sizes[file])
  }

  lemma FinalizeReplaces(db: Db, actor: Actor, id: SessionId, now: int, complete: bool, newFile: NodeId, version: VersionId)
    requires IsForest(db.nodes) && id in db.sessions && db.sessions[id].status != Completed && db.sessions[id].target.Some?
    requires Finalize(db, actor, id, now, complete, newFile, version).Done?
    ensures ReplacesFile(db, Finalize(db, actor, id, now, complete, newFile, version).db, id, db.sessions[id].target.value, version)
  {
    FinalizeCommits(db, actor, id, now, complete, newFile, version);
    ReplacementWritten(db, id, db.sessions[id].target.value, version);
  }

  lemma ReplacementWritten(db: Db, id: SessionId, file: NodeId, version: VersionId)
    requires IsForest(db.nodes) && Committable(db, id) && CommitReplacement(db, id, file, version).Done?
    ensures ReplacesFile(db, CommitReplacement(db, id, file, version).db, id, file, version)
  {
  }

  // ----- Versions -----

  /** The owner's counter with one file at another size. */
  function UsedWith(db: Db, file: NodeId, size: nat): int
    requires file in db.nodes && db.nodes[file].owner in db.users && file in db.sizes
  {
    db.users[db.nodes[file].owner].used - db.sizes[file] + size
  }

  lemma RestoreVersionIff(db: Db, actor: Actor, file: NodeId, source: VersionId, version: VersionId)
    requires Valid(db)
    ensures RestoreVersion(db, actor, file, source, version).Done? <==>
      && May(db, file, actor, 2) && file in db.sizes
      && source in db.versions && db.versions[source].file == file && version !in db.versions
      && db.nodes[file].owner in db.users
      && var next, user := UsedWith(db, file, db.versions[source].size), db.users[db.nodes[file].owner];
         next <= MAX_INT64 && (user.quota.Some? ==> next + user.reserved <= user.quota.value)
  {
    CheckMeans(db, file, actor, 2);
    if May(db, file, actor, 2) && file in db.sizes {
      MayIsUndeleted(db, file, actor, 2);
      LiveFileCounted(db, file);
    }
  }

  /**
   * The file and the new version have the size recorded for the source; the owner's counter moves by the difference;
   * all other rows are as before.
   */
  ghost predicate TakesSizeOf(db: Db, after: Db, file: NodeId, source: VersionId, version: VersionId) {
    && file in db.sizes && file in db.nodes && db.nodes[file].owner in db.users
    && source in db.versions && db.versions[source].file == file && version !in db.versions
    && var size, owner := db.versions[source].size, db.nodes[file].owner;
       && after == db.(sizes := after.sizes, versions := after.versions, users := after.users)
       && after.sizes == db.sizes[file := size] && after.versions == db.versions[version := Version(file, size)]
       && UsedWith(db, file, size) >= 0 && after.users == db.users[owner := db.users[owner].(used := UsedWith(db, file, size))]
  }

  lemma RestoreVersionDoes(db: Db, actor: Actor, file: NodeId, source: VersionId, version: VersionId)
    requires IsForest(db.nodes) && RestoreVersion(db, actor, file, source, version).Done?
    ensures TakesSizeOf(db, RestoreVersion(db, actor, file, source, version).db, file, source, version)
  {
  }

  /**
   * Restoring a version and then one that has the former size gives back every size and every counter, exactly when
   * the owner was within the quota before.
   */
  lemma RestoreThenBack(db: Db, actor: Actor, file: NodeId, source: VersionId, there: VersionId, former: VersionId, back: VersionId)
    requires Valid(db) && RestoreVersion(db, actor, file, source, there).Done?
    requires former in db.versions && file in db.sizes && db.versions[former] == Version(file, db.sizes[file])
    requires back !in db.versions && back != there
    ensures file in db.nodes && db.nodes[file].owner in db.users
    ensures var after := RestoreVersion(db, actor, file, source, there).db;
      IsForest(after.nodes) &&
      RestoreVersion(after, actor, file, former, back) ==
        if OverQuota(db.users[db.nodes[file].owner]) then Refused(QuotaExceeded)
        else Done(db.(versions := after.versions[back := Version(file, db.sizes[file])]))
  {
    RestoreVersionDoes(db, actor, file, source, there);
    CheckMeans(db, file, actor, 2);
    MayIsUndeleted(db, file, actor, 2);
    LiveFileCounted(db, file);
    assert CountsExactly(db, db.nodes[file].owner);
    BackAgain(db, RestoreVersion(db, actor, file, source, there).db, actor, file, source, there, former, back);
  }

  lemma BackAgain(db: Db, after: Db, actor: Actor, file: NodeId, source: VersionId, there: VersionId, former: VersionId,
                  back: VersionId)
    requires IsForest(db.nodes) && TakesSizeOf(db, after, file, source, there) && Require(db, file, actor, EDIT).None?
    requires former in db.versions && db.versions[former] == Version(file, db.sizes[file])
    requires back !in db.versions && back != there
    requires db.sizes[file] <= db.users[db.nodes[file].owner].used <= MAX_INT64
    ensures RestoreVersion(after, actor, file, former, back) ==
      if OverQuota(db.users[db.nodes[file].owner]) then Refused(QuotaExceeded)
      else Done(db.(versions := after.versions[back := Version(file, db.sizes[file])]))
  {
    var owner := db.nodes[file].owner;
    assert Require(after, file, actor, EDIT) == Require(db, file, actor, EDIT);
    assert after.sizes[file := db.sizes[file]] == db.sizes;
    assert after.users[owner].(used := db.users[owner].used) == db.users[owner];
    assert after.users[owner := db.users[owner]] == db.users;
  }

  // ----- Accounts and permissions -----

  lemma CreateUserDoes(db: Db, user: UserId, root: NodeId, quota: Option<nat>)
    ensures CreateUser(db, user, root, quota).Done? <==> user !in db.users && root !in db.nodes
    ensures CreateUser(db, user, root, quota).Done? ==>
      var after := CreateUser(db, user, root, quota).db;
      && after == db.(users := after.users, nodes := after.nodes) && OnlyRow(db.nodes, after.nodes, root)
      && after.nodes[root].kind == Folder && after.nodes[root].owner == user && after.nodes[root].parent == None
      && after.nodes[root].root && !after.nodes[root].deleted && after.users == db.users[user := User(quota, 0, 0)]
  {
  }

  lemma SetQuotaDoes(db: Db, user: UserId, limit: Option<int>)
    ensures SetQuota(db, user, limit).Done? <==> user in db.users && (limit.Some? ==> limit.value >= 0)
    ensures SetQuota(db, user, limit).Done? ==>
      var after := SetQuota(db, user, limit).db;
      && after == db.(users := after.users) && after.users.Keys == db.users.Keys
      && after.users[user].quota == limit && after.users[user].used == db.users[user].used
      && after.users[user].reserved == db.users[user].reserved
      && forall u :: u in db.users && u != user ==> after.users[u] == db.users[u]
  {
  }

  lemma SetGrantDoes(db: Db, actor: Actor, folder: NodeId, user: UserId, level: Option<Level>)
    requires IsForest(db.nodes)
    ensures SetGrant(db, actor, folder, user, level).Done? <==>
      && May(db, folder, actor, 3) && FolderAt(db.nodes, folder)
      && match level
         case Some(l) => l >= 1 && user in db.users && user != db.nodes[folder].owner
         case None => (folder, user) in db.grants
    ensures SetGrant(db, actor, folder, user, level).Done? ==>
      var after := SetGrant(db, actor, folder, user, level).db;
      && after == db.(grants := after.grants)
      && (forall g :: g != (folder, user) ==> (g in after.grants <==> g in db.grants))
      && (forall g :: g != (folder, user) && g in after.grants ==> after.grants[g] == db.grants[g])
      && ((folder, user) in after.grants <==> level.Some?)
      && (level.Some? ==> after.grants[(folder, user)] == level.value)
  {
    CheckMeans(db, folder, actor, 3);
    if May(db, folder, actor, 3) {
      MayIsUndeleted(db, folder, actor, 3);
    }
  }

  // ----- Reconciliation -----

  /** Whatever the counters said, afterwards those of the chosen users count exactly, and the others are as they were. */
  lemma ReconcileRepairs(db: Db, only: Option<UserId>)
    requires IsForest(db.nodes)
    ensures ReconcileQuota(db, only).Done? <==> only.None? || only.value in db.users
    ensures ReconcileQuota(db, only).Done? ==>
      var after := ReconcileQuota(db, only).db;
      && after == db.(users := after.users) && after.users.Keys == db.users.Keys
      && forall u :: u in db.users ==>
        if only.None? || only == Some(u) then
          && after.users[u].quota == db.users[u].quota
          && after.users[u].used == DerivedUsed(db.nodes, db.sizes, u)
          && after.users[u].reserved == DerivedReserved(db.sessions, u)
        else after.users[u] == db.users[u]
  {
  }

  // ----- Batches -----

  /** The folder is there as wanted, with its parent's owner. */
  predicate AsWanted(nodes: Nodes, f: NewFolder) {
    f.parent in nodes && IsNewFolder(nodes, f.id, f.parent, nodes[f.parent].owner, f.name, f.key)
  }

  predicate ListedId(folders: seq<NewFolder>, x: NodeId) {
    exists i :: 0 <= i < |folders| && folders[i].id == x
  }

  /** All old rows are as they were, and the new ones are the listed folders. */
  ghost predicate Grown(nodes: Nodes, after: Nodes, folders: seq<NewFolder>) {
    && (forall x :: x in nodes ==> x in after && after[x] == nodes[x])
    && (forall x :: x in after ==> x in nodes || ListedId(folders, x))
    && (forall i :: 0 <= i < |folders| ==> folders[i].id !in nodes && AsWanted(after, folders[i]))
  }

  lemma GrownByOne(nodes: Nodes, between: Nodes, after: Nodes, rest: seq<NewFolder>, f: NewFolder,
                   folders: seq<NewFolder>)
    requires folders == rest + [f] && Grown(nodes, between, rest) && f.id !in between && OnlyRow(between, after, f.id) && AsWanted(after, f)
    ensures Grown(nodes, after, folders)
  {
    assert folders[|rest|] == f;
    forall x | x in after
      ensures x in nodes || ListedId(folders, x)
    {
      if x in between && x !in nodes {
        var i :| 0 <= i < |rest| && rest[i].id == x;
        assert folders[i] == rest[i];
      }
    }
    forall i | 0 <= i < |rest|
      ensures folders[i].id !in nodes && AsWanted(after, folders[i])
    {
      assert AsWanted(between, rest[i]);
    }
  }

  lemma AddFolderDoes(db: Db, f: NewFolder)
    requires IsForest(db.nodes) && AddFolder(db, f).Done?
    ensures var after := AddFolder(db, f).db;
      after == db.(nodes := after.nodes) && f.id !in db.nodes && OnlyRow(db.nodes, after.nodes, f.id) && AsWanted(after.nodes, f)
  {
  }

  lemma LastApart(folders: seq<NewFolder>)
    requires folders != []
    ensures folders == folders[..|folders| - 1] + [folders[|folders| - 1]]
  {
  }

  /** The folders of a batch are added as wanted, and nothing else changes. */
  lemma {:induction false} AddFoldersDoes(db: Db, folders: seq<NewFolder>)
    requires IsForest(db.nodes) && AddFolders(db, folders).Done?
    ensures var after := AddFolders(db, folders).db;
      after == db.(nodes := after.nodes) && Grown(db.nodes, after.nodes, folders)
    decreases |folders|
  {
    if folders != [] {
      var rest, f := folders[..|folders| - 1], folders[|folders| - 1];
      LastApart(folders);
      AddFoldersDoes(db, rest);
      var between := AddFolders(db, rest).db;
      AddFolderDoes(between, f);
      GrownByOne(db.nodes, between.nodes, AddFolder(between, f).db.nodes, rest, f, folders);
    }
  }
}
