/** The transactions that touch the tree, the sessions and the quota counters, each as one step on the tables. */
module Ledger {
  import opened Access
  import opened Forest
  import opened ForestEdits
  import opened LedgerState
  import opened Sums
  import opened Wrappers

  // ----- Shared checks -----

  predicate Undeleted(nodes: Nodes, x: NodeId) {
    x in nodes && !nodes[x].deleted
  }

  /** `requireTx`: a level of none is reported like a missing node. */
  ghost function Require(db: Db, x: NodeId, actor: Actor, required: Level): Option<Error>
    requires IsForest(db.nodes)
  {
    match Resolve(db.nodes, db.grants, x, actor.user, actor.admin)
    case None => Some(NotFound)
    case Some(level) =>
      if level >= required then None
      else if level == NONE then Some(NotFound)
      else Some(Forbidden)
  }

  /** The unique index refuses a second undeleted child with this name. */
  ghost predicate NameTaken(nodes: Nodes, parent: NodeId, key: string, except: NodeId) {
    exists x :: x != except && ActiveChild(nodes, x, parent, key)
  }

  ghost predicate NameExists(nodes: Nodes, parent: NodeId, key: string) {
    exists x :: ActiveChild(nodes, x, parent, key)
  }

  predicate QuotaAllows(user: User, requested: nat) {
    if user.quota.None? then true
    else if user.used > user.quota.value then false
    else
      var remaining := user.quota.value - user.used;
      if user.reserved > remaining then false
      else requested <= remaining - user.reserved
  }

  /** The stepwise check is the comparison of the whole sum. */
  lemma QuotaAllowsMeans(user: User, requested: nat)
    ensures QuotaAllows(user, requested) <==>
      !OverQuota(user.(reserved := user.reserved + requested))
  {
  }

  /** The users with one used counter moved by `delta`. */
  function Charge(users: map<UserId, User>, owner: UserId, delta: int): map<UserId, User>
    requires owner in users && users[owner].used + delta >= 0
  {
    users[owner := users[owner].(used := users[owner].used + delta)]
  }

  function SubtractUsed(users: map<UserId, User>, owner: UserId, bytes: nat): Result<map<UserId, User>, Error> {
    if owner !in users then Failure(NotFound)
    else if users[owner].used < bytes then Failure(CounterUnderflow)
    else Success(users[owner := users[owner].(used := users[owner].used - bytes)])
  }

  function AddUsed(users: map<UserId, User>, owner: UserId, bytes: nat): Result<map<UserId, User>, Error> {
    if owner !in users then Failure(NotFound)
    else if !QuotaAllows(users[owner], bytes) then Failure(QuotaExceeded)
    else if users[owner].used + bytes > MAX_INT64 then Failure(OutOfRange)
    else Success(Charge(users, owner, bytes))
  }

  // ----- The tree -----

  ghost function CreateFolder(db: Db, actor: Actor, parent: NodeId, name: string, key: string, id: NodeId): Outcome
    requires IsForest(db.nodes)
  {
    if !Undeleted(db.nodes, parent) then Refused(NotFound)
    else if db.nodes[parent].kind != Folder then Refused(NotFolder)
    else
      match Require(db, parent, actor, EDIT)
      case Some(e) => Refused(e)
      case None =>
        if id in db.nodes then Refused(DuplicateKey)
        else if NameExists(db.nodes, parent, key) then Refused(NameConflict)
        else Done(db.(nodes := db.nodes[id := Node(Folder, db.nodes[parent].owner, Some(parent), name, key, false, false)]))
  }

  /** A folder that a batch adds, its parent known. */
  datatype NewFolder = NewFolder(parent: NodeId, name: string, key: string, id: NodeId)

  ghost function AddFolder(db: Db, f: NewFolder): (r: Outcome)
    requires IsForest(db.nodes)
    ensures r.Done? ==> IsForest(r.db.nodes)
  {
    if f.parent !in db.nodes || db.nodes[f.parent].kind != Folder || !Live(db.nodes, f.parent) then Refused(NotFound)
    else if f.id in db.nodes then Refused(DuplicateKey)
    else if NameExists(db.nodes, f.parent, f.key) then Refused(NameConflict)
    else
      var leaf := Node(Folder, db.nodes[f.parent].owner, Some(f.parent), f.name, f.key, false, false);
      InsertLeaf(db.nodes, f.id, leaf, f.parent);
      Done(db.(nodes := db.nodes[f.id := leaf]))
  }

  ghost function AddFolders(db: Db, folders: seq<NewFolder>): (r: Outcome)
    requires IsForest(db.nodes)
    ensures r.Done? ==> IsForest(r.db.nodes)
    decreases |folders|
  {
    if folders == [] then Done(db)
    else
      match AddFolders(db, folders[..|folders| - 1])
      case Refused(e) => Refused(e)
      case Done(next) => AddFolder(next, folders[|folders| - 1])
  }

  /** What keeps a batch out of its target. */
  ghost function TargetError(db: Db, actor: Actor, target: NodeId): Option<Error>
    requires IsForest(db.nodes)
  {
    if !Undeleted(db.nodes, target) then Some(NotFound)
    else if db.nodes[target].kind != Folder then Some(NotFolder)
    else Require(db, target, actor, EDIT)
  }

  /** The transaction of a folder batch, given the folders that its resolution adds. */
  ghost function CreateBatch(db: Db, actor: Actor, target: NodeId, folders: seq<NewFolder>): Outcome
    requires IsForest(db.nodes)
  {
    match TargetError(db, actor, target)
    case Some(e) => Refused(e)
    case None => AddFolders(db, folders)
  }

  ghost function Rename(db: Db, actor: Actor, id: NodeId, name: string, key: string): Outcome
    requires IsForest(db.nodes)
  {
    if !Undeleted(db.nodes, id) then Refused(NotFound)
    else if db.nodes[id].root then Refused(RootImmutable)
    else
      match Require(db, id, actor, EDIT)
      case Some(e) => Refused(e)
      case None =>
        if NameTaken(db.nodes, db.nodes[id].parent.value, key, id) then Refused(NameConflict)
        else Done(db.(nodes := db.nodes[id := db.nodes[id].(name := name, nameKey := key)]))
  }

  ghost function Move(db: Db, actor: Actor, id: NodeId, parent: NodeId): Outcome
    requires IsForest(db.nodes)
  {
    if !Undeleted(db.nodes, id) then Refused(NotFound)
    else if db.nodes[id].root then Refused(RootImmutable)
    else
      match Require(db, id, actor, EDIT)
      case Some(e) => Refused(e)
      case None =>
        if !Undeleted(db.nodes, parent) then Refused(NotFound)
        else if db.nodes[parent].kind != Folder then Refused(NotFolder)
        else if db.nodes[parent].owner != db.nodes[id].owner then Refused(if actor.admin then CrossOwner else NotFound)
        else
          match Require(db, parent, actor, EDIT)
          case Some(e) => Refused(e)
          case None =>
            if db.nodes[id].parent == Some(parent) then Done(db)
            else if db.nodes[id].kind == Folder && id in Chain(db.nodes, parent) then Refused(Cycle)
            else if NameTaken(db.nodes, parent, db.nodes[id].nameKey, id) then Refused(NameConflict)
            else Done(db.(nodes := db.nodes[id := db.nodes[id].(parent := Some(parent))]))
  }

  ghost function Trash(db: Db, actor: Actor, id: NodeId): Outcome
    requires IsForest(db.nodes)
  {
    if !Undeleted(db.nodes, id) then Refused(NotFound)
    else if db.nodes[id].root then Refused(RootImmutable)
    else
      match Require(db, id, actor, EDIT)
      case Some(e) => Refused(e)
      case None =>
        match SubtractUsed(db.users, db.nodes[id].owner, Sum(db.sizes, ActiveSubtree(db.nodes, id)))
        case Failure(e) => Refused(e)
        case Success(users) => Done(db.(nodes := db.nodes[id := db.nodes[id].(deleted := true)], users := users))
  }

  /** The part of a restore that picks and checks the destination. */
  ghost function RestoreInto(db: Db, actor: Actor, id: NodeId, into: Option<NodeId>): Result<NodeId, Error>
    requires IsForest(db.nodes)
  {
    if id !in db.nodes then Failure(NotFound)
    else if db.nodes[id].root then Failure(RootImmutable)
    else if !db.nodes[id].deleted then Failure(NotDeleted)
    else
      var home := db.nodes[id].parent.value;
      match if actor.admin || actor.user == db.nodes[id].owner then None else Require(db, home, actor, EDIT)
      case Some(e) => Failure(e)
      case None =>
        var parent := if into.Some? then into.value else home;
        if !Undeleted(db.nodes, parent) then Failure(RestoreTarget)
        else if db.nodes[parent].kind != Folder then Failure(NotFolder)
        else if db.nodes[parent].owner != db.nodes[id].owner then Failure(if actor.admin then CrossOwner else NotFound)
        else
          match Require(db, parent, actor, EDIT)
          case Some(e) => Failure(if e == NotFound then RestoreTarget else e)
          case None =>
            if db.nodes[id].kind == Folder && id in Chain(db.nodes, parent) then Failure(Cycle)
            else Success(parent)
  }

  ghost function Restore(db: Db, actor: Actor, id: NodeId, into: Option<NodeId>, rename: Option<(string, string)>): Outcome
    requires IsForest(db.nodes)
  {
    match RestoreInto(db, actor, id, into)
    case Failure(e) => Refused(e)
    case Success(parent) =>
      var name := if rename.Some? then rename.value.0 else db.nodes[id].name;
      var key := if rename.Some? then rename.value.1 else db.nodes[id].nameKey;
      if NameExists(db.nodes, parent, key) then Refused(NameConflict)
      else
        match AddUsed(db.users, db.nodes[id].owner, Sum(db.sizes, ActiveSubtree(db.nodes, id)))
        case Failure(e) => Refused(e)
        case Success(users) =>
          var node := db.nodes[id].(parent := Some(parent), name := name, nameKey := key, deleted := false);
          Done(db.(nodes := db.nodes[id := node], users := users))
  }

  // ----- Purge -----

  predicate Touches(s: Session, gone: set<NodeId>) {
    s.folder in gone || (s.committed.Some? && s.committed.value in gone)
  }

  ghost predicate HasActiveUpload(db: Db, gone: set<NodeId>) {
    exists id :: id in db.sessions && Pending(db.sessions[id].status) && Touches(db.sessions[id], gone)
  }

  /** The foreign key of the replacement target is set to null when the file goes. */
  function ClearTarget(s: Session, gone: set<NodeId>): Session {
    if s.target.Some? && s.target.value in gone then s.(target := None) else s
  }

  function Without(db: Db, gone: set<NodeId>): Db {
    db.(
      nodes := db.nodes - gone,
      sizes := db.sizes - gone,
      sessions := map id | id in db.sessions && !Touches(db.sessions[id], gone) :: ClearTarget(db.sessions[id], gone),
      versions := map v | v in db.versions && db.versions[v].file !in gone :: db.versions[v],
      grants := map g | g in db.grants && g.0 !in gone :: db.grants[g])
  }

  /** `purgeTx` on a node already checked. */
  ghost function PurgeNode(db: Db, id: NodeId): Outcome
    requires IsForest(db.nodes)
  {
    var gone := Subtree(db.nodes, id);
    if HasActiveUpload(db, gone) then Refused(ActiveUpload) else Done(Without(db, gone))
  }

  ghost function Purge(db: Db, actor: Actor, id: NodeId): Outcome
    requires IsForest(db.nodes)
  {
    if id !in db.nodes then Refused(NotFound)
    else if db.nodes[id].root then Refused(RootImmutable)
    else if !actor.admin && actor.user != db.nodes[id].owner then Refused(NotFound)
    else if !db.nodes[id].deleted then Refused(NotDeleted)
    else PurgeNode(db, id)
  }

  // ----- Uploads -----

  /** What the session will reserve: everything for a new file, the growth for a replacement. */
  ghost function Reservation(db: Db, actor: Actor, folder: NodeId, key: string, size: nat, target: Option<NodeId>)
    : Result<nat, Error>
    requires IsForest(db.nodes)
  {
    if NameExists(db.nodes, folder, key) then
      var existing :| ActiveChild(db.nodes, existing, folder, key);
      if target != Some(existing) || db.nodes[existing].kind != File then
        Failure(if db.nodes[existing].kind == File then FileExists else NameConflict)
      else if Require(db, existing, actor, EDIT).Some? then Failure(Forbidden)
      else if existing !in db.sizes then Failure(NotFound)
      else Success(if size > db.sizes[existing] then size - db.sizes[existing] else 0)
    else if target.Some? then Failure(NotFound)
    else Success(size)
  }

  ghost function CreateSession(db: Db, actor: Actor, folder: NodeId, name: string, key: string, size: nat,
                               target: Option<NodeId>, expiresAt: int, id: SessionId): Outcome
    requires IsForest(db.nodes)
  {
    if size > MAX_INT64 then Refused(OutOfRange)
    else if !Undeleted(db.nodes, folder) || db.nodes[folder].kind != Folder then Refused(NotFound)
    else
      match Require(db, folder, actor, EDIT)
      case Some(e) => Refused(e)
      case None =>
        match Reservation(db, actor, folder, key, size, target)
        case Failure(e) => Refused(e)
        case Success(bytes) =>
          var owner := db.nodes[folder].owner;
          if owner !in db.users then Refused(NotFound)
          else if !QuotaAllows(db.users[owner], bytes) then Refused(QuotaExceeded)
          else if db.users[owner].reserved + bytes > MAX_INT64 then Refused(OutOfRange)
          else if id in db.sessions then Refused(DuplicateKey)
          else Done(db.(
            users := db.users[owner := db.users[owner].(reserved := db.users[owner].reserved + bytes)],
            sessions := db.sessions[id :=
              Session(actor.user, owner, folder, name, key, size, bytes, Open, expiresAt, target, None)]))
  }

  /** Release the reservation and close the session. */
  function CloseSession(db: Db, id: SessionId, status: Status): Outcome
    requires id in db.sessions
  {
    var s := db.sessions[id];
    if s.owner !in db.users || db.users[s.owner].reserved < s.reserved then Refused(CounterUnderflow)
    else Done(db.(
      users := db.users[s.owner := db.users[s.owner].(reserved := db.users[s.owner].reserved - s.reserved)],
      sessions := db.sessions[id := s.(status := status)]))
  }

  function Cancel(db: Db, actor: Actor, id: SessionId): Outcome {
    if id !in db.sessions then Refused(NotFound)
    else if !actor.admin && db.sessions[id].actor != actor.user then Refused(NotFound)
    else if db.sessions[id].status == Cancelled || db.sessions[id].status == Expired then Done(db)
    else if db.sessions[id].status != Open then Refused(SessionClosed)
    else CloseSession(db, id, Cancelled)
  }

  function Expire(db: Db, id: SessionId, now: int): Outcome {
    if id !in db.sessions || db.sessions[id].status != Open || now < db.sessions[id].expiresAt then Done(db)
    else CloseSession(db, id, Expired)
  }

  /** The checks of `Finalize` before it writes; `complete` says whether the stored parts passed validation. */
  ghost function FinalizeChecks(db: Db, actor: Actor, id: SessionId, now: int, complete: bool): Option<Error>
    requires IsForest(db.nodes) && id in db.sessions
  {
    var s := db.sessions[id];
    if s.status != Open then Some(SessionClosed)
    else if now >= s.expiresAt then Some(SessionExpired)
    else if !complete then Some(IncompleteUpload)
    else if s.reserved != s.size then Some(ReservationMismatch)
    else
      match Require(db, s.folder, actor, EDIT)
      case Some(e) => Some(e)
      case None =>
        if !Undeleted(db.nodes, s.folder) || db.nodes[s.folder].kind != Folder then Some(NotFound)
        else if db.nodes[s.folder].owner != s.owner then Some(OwnerChanged)
        else if s.owner !in db.users then Some(NotFound)
        else if db.users[s.owner].reserved < s.reserved then Some(CounterUnderflow)
        else None
  }

  function Complete(s: Session, file: NodeId): Session {
    s.(status := Completed, committed := Some(file))
  }

  function Spend(user: User, released: nat, used: nat): User
    requires released <= user.reserved
  {
    user.(reserved := user.reserved - released, used := used)
  }

  ghost function CommitNewFile(db: Db, id: SessionId, file: NodeId, version: VersionId): Outcome
    requires id in db.sessions && db.sessions[id].owner in db.users
    requires db.sessions[id].reserved <= db.users[db.sessions[id].owner].reserved
  {
    var s := db.sessions[id];
    var user := db.users[s.owner];
    if file in db.nodes || file in db.sizes || version in db.versions then Refused(DuplicateKey)
    else if NameExists(db.nodes, s.folder, s.nameKey) then Refused(NameConflict)
    else if user.used + s.size > MAX_INT64 then Refused(OutOfRange)
    else Done(db.(
      nodes := db.nodes[file := Node(File, s.owner, Some(s.folder), s.name, s.nameKey, false, false)],
      sizes := db.sizes[file := s.size],
      versions := db.versions[version := Version(file, s.size)],
      users := db.users[s.owner := Spend(user, s.reserved, user.used + s.size)],
      sessions := db.sessions[id := Complete(s, file)]))
  }

  ghost function CommitReplacement(db: Db, id: SessionId, file: NodeId, version: VersionId): Outcome
    requires id in db.sessions && db.sessions[id].owner in db.users
    requires db.sessions[id].reserved <= db.users[db.sessions[id].owner].reserved
  {
    var s := db.sessions[id];
    var user := db.users[s.owner];
    if !Undeleted(db.nodes, file) || file !in db.sizes then Refused(NotFound)
    else if db.nodes[file].owner != s.owner || db.nodes[file].parent != Some(s.folder) || db.nodes[file].name != s.name
    then Refused(TargetChanged)
    else
      var previous := db.sizes[file];
      if s.size > previous && user.used > MAX_INT64 - (s.size - previous) then Refused(CounterOverflow)
      else if s.size < previous && user.used < previous - s.size then Refused(CounterUnderflow)
      else if version in db.versions then Refused(DuplicateKey)
      else Done(db.(
        sizes := db.sizes[file := s.size],
        versions := db.versions[version := Version(file, s.size)],
        users := db.users[s.owner := Spend(user, s.reserved, user.used + (s.size - previous))],
        sessions := db.sessions[id := Complete(s, file)]))
  }

  ghost function Finalize(db: Db, actor: Actor, id: SessionId, now: int, complete: bool,
                          newFile: NodeId, version: VersionId): Outcome
    requires IsForest(db.nodes)
  {
    if id !in db.sessions then Refused(NotFound)
    else if !actor.admin && db.sessions[id].actor != actor.user then Refused(NotFound)
    else if db.sessions[id].status == Completed then Done(db)
    else
      match FinalizeChecks(db, actor, id, now, complete)
      case Some(e) => Refused(e)
      case None =>
        match db.sessions[id].target
        case None => CommitNewFile(db, id, newFile, version)
        case Some(file) => CommitReplacement(db, id, file, version)
  }

  /** Access check and commit in one step. */
  ghost function RestoreVersion(db: Db, actor: Actor, file: NodeId, source: VersionId, version: VersionId): Outcome
    requires IsForest(db.nodes)
  {
    match Require(db, file, actor, EDIT)
    case Some(e) => Refused(e)
    case None =>
      if file !in db.nodes || file !in db.sizes then Refused(NotFound)
      else if source !in db.versions || db.versions[source].file != file then Refused(VersionNotFound)
      else if db.nodes[file].owner !in db.users then Refused(NotFound)
      else
        var owner := db.nodes[file].owner;
        var user := db.users[owner];
        var size := db.versions[source].size;
        if user.used < db.sizes[file] then Refused(CounterUnderflow)
        else if size > MAX_INT64 - (user.used - db.sizes[file]) then Refused(CounterOverflow)
        else
          var next := user.used - db.sizes[file] + size;
          if user.quota.Some? && (next > user.quota.value || user.reserved > user.quota.value - next)
          then Refused(QuotaExceeded)
          else if version in db.versions then Refused(DuplicateKey)
          else Done(db.(
            sizes := db.sizes[file := size],
            versions := db.versions[version := Version(file, size)],
            users := db.users[owner := user.(used := next)]))
  }

  // ----- Administration -----

  /** A new account and its root folder. */
  function CreateUser(db: Db, user: UserId, root: NodeId, quota: Option<nat>): Outcome {
    if user in db.users || root in db.nodes then Refused(DuplicateKey) else Done(UserAdded(db, user, root, quota))
  }

  function UserAdded(db: Db, user: UserId, root: NodeId, quota: Option<nat>): Db {
    db.(users := db.users[user := User(quota, 0, 0)],
        nodes := db.nodes[root := Node(Folder, user, None, "", "", true, false)])
  }

  function SetQuota(db: Db, user: UserId, quota: Option<int>): Outcome {
    if quota.Some? && quota.value < 0 then Refused(InvalidQuota)
    else if user !in db.users then Refused(NotFound)
    else Done(db.(users := db.users[user := db.users[user].(quota := quota)]))
  }

  /** Set or delete a folder permission. */
  ghost function SetGrant(db: Db, actor: Actor, folder: NodeId, user: UserId, level: Option<Level>): Outcome
    requires IsForest(db.nodes)
  {
    if level == Some(NONE) then Refused(InvalidGrant)
    else if !Undeleted(db.nodes, folder) then Refused(NotFound)
    else if db.nodes[folder].kind != Folder then Refused(NotFolder)
    else
      match Require(db, folder, actor, FULL)
      case Some(e) => Refused(e)
      case None =>
        match level
        case Some(l) =>
          if user !in db.users then Refused(NotFound)
          else if user == db.nodes[folder].owner then Refused(InvalidGrant)
          else Done(db.(grants := db.grants[(folder, user) := l]))
        case None =>
          if (folder, user) !in db.grants then Refused(NotFound)
          else Done(db.(grants := db.grants - {(folder, user)}))
  }

  /** Overwrite the counters of the chosen users with the derived sums. */
  ghost function Reconcile(db: Db, chosen: set<UserId>): Db
    requires IsForest(db.nodes)
  {
    db.(users := map u | u in db.users :: if u in chosen then Recounted(db, u) else db.users[u])
  }

  ghost function Recounted(db: Db, u: UserId): User
    requires IsForest(db.nodes) && u in db.users
  {
    db.users[u].(used := DerivedUsed(db.nodes, db.sizes, u), reserved := DerivedReserved(db.sessions, u))
  }

  /** `ReconcileQuota` for one user or for everybody. */
  ghost function ReconcileQuota(db: Db, only: Option<UserId>): Outcome
    requires IsForest(db.nodes)
  {
    match only
    case None => Done(Reconcile(db, db.users.Keys))
    case Some(u) => if u in db.users then Done(Reconcile(db, {u})) else Refused(NotFound)
  }
}
