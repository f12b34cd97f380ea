/** Every refusal tells the truth: what each transaction may answer, and what is then the case. */
module LedgerRefusals {
  import opened Access
  import opened Forest
  import opened ForestEdits
  import opened Ledger
  import opened LedgerAccess
  import opened LedgerCommits
  import opened LedgerEffects
  import opened LedgerKeeps
  import opened LedgerState
  import opened Sums
  import opened Wrappers

  ghost predicate Hidden(db: Db, x: NodeId, actor: Actor)
    requires IsForest(db.nodes)
  {
    !May(db, x, actor, 1)
  }

  ghost predicate ReadOnly(db: Db, x: NodeId, actor: Actor)
    requires IsForest(db.nodes)
  {
    May(db, x, actor, 1) && !May(db, x, actor, 2)
  }

  predicate NoFolder(nodes: Nodes, x: NodeId) {
    x in nodes && !nodes[x].deleted && nodes[x].kind != Folder
  }

  predicate IsRoot(nodes: Nodes, x: NodeId) {
    x in nodes && nodes[x].root
  }

  predicate OtherOwners(nodes: Nodes, x: NodeId, y: NodeId) {
    x in nodes && y in nodes && nodes[x].owner != nodes[y].owner
  }

  predicate Strange(actor: Actor, user: UserId) {
    !actor.admin && actor.user != user
  }

  /** The check for editing refuses as it should, and passes on undeleted nodes only. */
  lemma EditCheck(db: Db, x: NodeId, actor: Actor)
    requires IsForest(db.nodes)
    ensures match Require(db, x, actor, EDIT)
      case None => May(db, x, actor, 2)
      case Some(e) => (e == Forbidden && ReadOnly(db, x, actor)) || (e == NotFound && Hidden(db, x, actor))
    ensures !Undeleted(db.nodes, x) ==> Hidden(db, x, actor)
  {
    CheckMeans(db, x, actor, 2);
    if May(db, x, actor, 1) {
      MayIsUndeleted(db, x, actor, 1);
    }
  }

  lemma CreateFolderRefuses(db: Db, actor: Actor, parent: NodeId, name: string, key: string, id: NodeId)
    requires IsForest(db.nodes)
    ensures match CreateFolder(db, actor, parent, name, key, id)
      case Done(_) => true
      case Refused(NotFound) => Hidden(db, parent, actor)
      case Refused(NotFolder) => NoFolder(db.nodes, parent)
      case Refused(Forbidden) => ReadOnly(db, parent, actor)
      case Refused(DuplicateKey) => id in db.nodes
      case Refused(NameConflict) => !NameFree(db.nodes, parent, key, None)
      case Refused(_) => false
  {
    EditCheck(db, parent, actor);
    NamesMean(db.nodes, parent, key, id);
  }

  lemma RenameRefuses(db: Db, actor: Actor, id: NodeId, name: string, key: string)
    requires IsForest(db.nodes)
    ensures match Rename(db, actor, id, name, key)
      case Done(_) => true
      case Refused(NotFound) => Hidden(db, id, actor)
      case Refused(RootImmutable) => IsRoot(db.nodes, id)
      case Refused(Forbidden) => ReadOnly(db, id, actor)
      case Refused(NameConflict) =>
        id in db.nodes && db.nodes[id].parent.Some? && !NameFree(db.nodes, db.nodes[id].parent.value, key, Some(id))
      case Refused(_) => false
  {
    EditCheck(db, id, actor);
    if id in db.nodes && db.nodes[id].parent.Some? {
      NamesMean(db.nodes, db.nodes[id].parent.value, key, id);
    }
  }

  /** A destination of another owner is reported as such to administrators only. */
  lemma MoveRefuses(db: Db, actor: Actor, id: NodeId, parent: NodeId)
    requires IsForest(db.nodes)
    ensures match Move(db, actor, id, parent)
      case Done(_) => true
      case Refused(NotFound) =>
        Hidden(db, id, actor) || Hidden(db, parent, actor) || (OtherOwners(db.nodes, id, parent) && !actor.admin)
      case Refused(RootImmutable) => IsRoot(db.nodes, id)
      case Refused(NotFolder) => NoFolder(db.nodes, parent)
      case Refused(CrossOwner) => OtherOwners(db.nodes, id, parent) && actor.admin
      case Refused(Forbidden) => ReadOnly(db, id, actor) || ReadOnly(db, parent, actor)
      case Refused(Cycle) => parent in db.nodes && id in Chain(db.nodes, parent)
      case Refused(NameConflict) => id in db.nodes && !NameFree(db.nodes, parent, db.nodes[id].nameKey, Some(id))
      case Refused(_) => false
  {
    EditCheck(db, id, actor);
    EditCheck(db, parent, actor);
    if id in db.nodes {
      NamesMean(db.nodes, parent, db.nodes[id].nameKey, id);
    }
  }

  lemma TrashRefuses(db: Db, actor: Actor, id: NodeId)
    requires Valid(db)
    ensures match Trash(db, actor, id)
      case Done(_) => true
      case Refused(NotFound) => Hidden(db, id, actor)
      case Refused(RootImmutable) => IsRoot(db.nodes, id)
      case Refused(Forbidden) => ReadOnly(db, id, actor)
      case Refused(_) => false
  {
    EditCheck(db, id, actor);
    TrashIff(db, actor, id);
  }

  /** Who may not see the destination is told that it is missing, and a cycle is never the reason. */
  lemma RestoreIntoRefuses(db: Db, actor: Actor, id: NodeId, into: Option<NodeId>)
    requires IsForest(db.nodes)
    ensures match RestoreInto(db, actor, id, into)
      case Success(_) => true
      case Failure(RootImmutable) => IsRoot(db.nodes, id)
      case Failure(NotDeleted) => id in db.nodes && !db.nodes[id].deleted
      case Failure(e) => (id !in db.nodes && e == NotFound) || DestinationRefuses(db, actor, id, into, e)
  {
    if id in db.nodes && !db.nodes[id].root && db.nodes[id].deleted {
      var home := db.nodes[id].parent.value;
      EditCheck(db, home, actor);
      EditCheck(db, if into.Some? then into.value else home, actor);
      NoCycle(db, actor, id, if into.Some? then into.value else home);
    }
  }

  ghost predicate DestinationRefuses(db: Db, actor: Actor, id: NodeId, into: Option<NodeId>, e: Error)
    requires IsForest(db.nodes)
  {
    id in db.nodes && db.nodes[id].parent.Some? &&
    var home, to := db.nodes[id].parent.value, Destination(db, id, into).value;
    match e
    case NotFound =>
      (Strange(actor, db.nodes[id].owner) && Hidden(db, home, actor)) || (OtherOwners(db.nodes, id, to) && !actor.admin)
    case RestoreTarget => Hidden(db, to, actor)
    case NotFolder => NoFolder(db.nodes, to)
    case CrossOwner => OtherOwners(db.nodes, id, to) && actor.admin
    case Forbidden => (Strange(actor, db.nodes[id].owner) && ReadOnly(db, home, actor)) || ReadOnly(db, to, actor)
    case _ => false
  }

  lemma NoCycle(db: Db, actor: Actor, id: NodeId, parent: NodeId)
    requires IsForest(db.nodes) && id in db.nodes && db.nodes[id].deleted
    ensures May(db, parent, actor, 2) ==> id !in Chain(db.nodes, parent)
  {
  }

  lemma RestoreRefuses(db: Db, actor: Actor, id: NodeId, into: Option<NodeId>, rename: Option<(string, string)>)
    requires IsForest(db.nodes) && RestoreInto(db, actor, id, into).Success?
    ensures id in db.nodes
    ensures var key := if rename.Some? then rename.value.1 else db.nodes[id].nameKey;
      var owner, bytes := db.nodes[id].owner, Sum(db.sizes, ActiveSubtree(db.nodes, id));
      match Restore(db, actor, id, into, rename)
      case Done(_) => true
      case Refused(NameConflict) => Destination(db, id, into).Some? && !NameFree(db.nodes, Destination(db, id, into).value, key, None)
      case Refused(QuotaExceeded) => owner in db.users && !FitsQuota(db.users[owner], bytes)
      case Refused(OutOfRange) => owner in db.users && db.users[owner].used + bytes > MAX_INT64
      case Refused(NotFound) => owner !in db.users
      case Refused(_) => false
  {
    var key := if rename.Some? then rename.value.1 else db.nodes[id].nameKey;
    NamesMean(db.nodes, RestoreInto(db, actor, id, into).value, key, id);
    if db.nodes[id].owner in db.users {
      QuotaAllowsMeans(db.users[db.nodes[id].owner], Sum(db.sizes, ActiveSubtree(db.nodes, id)));
    }
  }

  lemma PurgeRefuses(db: Db, actor: Actor, id: NodeId)
    requires IsForest(db.nodes)
    ensures match Purge(db, actor, id)
      case Done(_) => true
      case Refused(NotFound) => id !in db.nodes || Strange(actor, db.nodes[id].owner)
      case Refused(RootImmutable) => IsRoot(db.nodes, id)
      case Refused(NotDeleted) => id in db.nodes && !db.nodes[id].deleted
      case Refused(ActiveUpload) => UploadGoesOn(db, Subtree(db.nodes, id))
      case Refused(_) => false
  {
    PurgeIff(db, actor, id);
  }

  predicate NameHolder(nodes: Nodes, x: NodeId, folder: NodeId, key: string, kind: Kind) {
    Named(nodes, x, folder, key) && nodes[x].kind == kind
  }

  /** A name held by a file that is not the one to replace, or held by a folder, are told apart. */
  lemma ReservationRefuses(db: Db, actor: Actor, folder: NodeId, key: string, size: nat, target: Option<NodeId>)
    requires Shape(db) && May(db, folder, actor, 2)
    ensures match Reservation(db, actor, folder, key, size, target)
      case Success(_) => true
      case Failure(FileExists) => exists x: NodeId :: NameHolder(db.nodes, x, folder, key, File) && target != Some(x)
      case Failure(NameConflict) => exists x: NodeId :: NameHolder(db.nodes, x, folder, key, Folder)
      case Failure(NotFound) => target.Some? && NameFree(db.nodes, folder, key, None)
      case Failure(_) => false
  {
    ReservationIff(db, actor, folder, key, size, target);
    NamesMean(db.nodes, folder, key, folder);
    if NameExists(db.nodes, folder, key) {
      var x :| ActiveChild(db.nodes, x, folder, key);
      OneNamed(db.nodes, x, folder, key);
      assert NameHolder(db.nodes, x, folder, key, db.nodes[x].kind);
      MayBelow(db, x, actor);
      EditCheck(db, x, actor);
    }
  }

  predicate ReservationTooMuch(db: Db, folder: NodeId, bytes: nat) {
    && folder in db.nodes && db.nodes[folder].owner in db.users
    && db.users[db.nodes[folder].owner].reserved + bytes > MAX_INT64
  }

  ghost predicate OverItsQuota(db: Db, folder: NodeId, bytes: nat) {
    && folder in db.nodes && db.nodes[folder].owner in db.users
    && !FitsQuota(db.users[db.nodes[folder].owner], bytes)
  }

  lemma SessionReasons(db: Db, actor: Actor, folder: NodeId, name: string, key: string, size: nat,
                       target: Option<NodeId>, expiresAt: int, id: SessionId, reservation: Result<nat, Error>)
    requires IsForest(db.nodes) && May(db, folder, actor, 2) && db.nodes[folder].owner in db.users
    requires Reservation(db, actor, folder, key, size, target) == reservation
    ensures match CreateSession(db, actor, folder, name, key, size, target, expiresAt, id)
      case Done(_) => true
      case Refused(OutOfRange) =>
        size > MAX_INT64 || (reservation.Success? && ReservationTooMuch(db, folder, reservation.value)) || reservation == Failure(OutOfRange)
      case Refused(QuotaExceeded) =>
        (reservation.Success? && OverItsQuota(db, folder, reservation.value)) || reservation == Failure(QuotaExceeded)
      case Refused(DuplicateKey) => id in db.sessions || reservation == Failure(DuplicateKey)
      case Refused(NotFound) => NoFolder(db.nodes, folder) || reservation == Failure(NotFound)
      case Refused(e) => reservation == Failure(e)
  {
    EditCheck(db, folder, actor);
    MayIsUndeleted(db, folder, actor, 2);
    if reservation.Success? {
      QuotaAllowsMeans(db.users[db.nodes[folder].owner], reservation.value);
    }
  }

  lemma CreateSessionRefuses(db: Db, actor: Actor, folder: NodeId, name: string, key: string, size: nat,
                             target: Option<NodeId>, expiresAt: int, id: SessionId)
    requires Shape(db)
    ensures match CreateSession(db, actor, folder, name, key, size, target, expiresAt, id)
      case Done(_) => true
      case Refused(Forbidden) => ReadOnly(db, folder, actor)
      case Refused(QuotaExceeded) => OverItsQuota(db, folder, Growth(db, size, target))
      case Refused(OutOfRange) => size > MAX_INT64 || ReservationTooMuch(db, folder, Growth(db, size, target))
      case Refused(DuplicateKey) => id in db.sessions
      case Refused(NotFound) =>
        || Hidden(db, folder, actor) || NoFolder(db.nodes, folder)
        || (target.Some? && NameFree(db.nodes, folder, key, None))
      case Refused(e) =>
        May(db, folder, actor, 2) && Reservation(db, actor, folder, key, size, target) == Failure(e)
  {
    if May(db, folder, actor, 2) {
      var reservation := Reservation(db, actor, folder, key, size, target);
      ReservationIff(db, actor, folder, key, size, target);
      ReservationRefuses(db, actor, folder, key, size, target);
      SessionReasons(db, actor, folder, name, key, size, target, expiresAt, id, reservation);
    } else {
      EditCheck(db, folder, actor);
    }
  }

  lemma CancelRefuses(db: Db, actor: Actor, id: SessionId)
    requires Charged(db, id)
    ensures match Cancel(db, actor, id)
      case Done(_) => true
      case Refused(NotFound) => id !in db.sessions || Strange(actor, db.sessions[id].actor)
      case Refused(SessionClosed) => id in db.sessions && db.sessions[id].status in {Completing, Completed, Failed}
      case Refused(_) => false
  {
  }

  lemma ChecksRefuse(db: Db, actor: Actor, id: SessionId, now: int, complete: bool)
    requires IsForest(db.nodes) && id in db.sessions && SessionPlaced(db, db.sessions[id]) && Charged(db, id)
    ensures var s := db.sessions[id];
      match FinalizeChecks(db, actor, id, now, complete)
      case None => true
      case Some(SessionClosed) => s.status != Open
      case Some(SessionExpired) => s.status == Open && now >= s.expiresAt
      case Some(IncompleteUpload) => !complete
      case Some(ReservationMismatch) => s.reserved != s.size
      case Some(Forbidden) => ReadOnly(db, s.folder, actor)
      case Some(NotFound) => Hidden(db, s.folder, actor)
      case Some(_) => false
  {
    ChecksIff(db, actor, id, now, complete);
    EditCheck(db, db.sessions[id].folder, actor);
    CheckMeans(db, db.sessions[id].folder, actor, 2);
  }

  lemma NewFileRefuses(db: Db, id: SessionId, file: NodeId, version: VersionId)
    requires IsForest(db.nodes) && FilesSized(db.nodes, db.sizes) && Committable(db, id)
    ensures var s := db.sessions[id];
      match CommitNewFile(db, id, file, version)
      case Done(_) => true
      case Refused(DuplicateKey) => file in db.nodes || version in db.versions
      case Refused(NameConflict) => !NameFree(db.nodes, s.folder, s.nameKey, None)
      case Refused(OutOfRange) => db.users[s.owner].used + s.size > MAX_INT64
      case Refused(_) => false
  {
    NamesMean(db.nodes, db.sessions[id].folder, db.sessions[id].nameKey, file);
  }

  predicate TargetGone(db: Db, file: NodeId) {
    file !in db.nodes || db.nodes[file].deleted || file !in db.sizes
  }

  predicate TargetElsewhere(db: Db, s: Session, file: NodeId) {
    && file in db.nodes
    && (db.nodes[file].owner != s.owner || db.nodes[file].parent != Some(s.folder) || db.nodes[file].name != s.name)
  }

  lemma ReplacementReasons(db: Db, id: SessionId, file: NodeId, version: VersionId)
    requires id in db.sessions && db.sessions[id].owner in db.users
    requires db.sessions[id].reserved <= db.users[db.sessions[id].owner].reserved
    ensures match CommitReplacement(db, id, file, version)
      case Done(_) => true
      case Refused(NotFound) => TargetGone(db, file)
      case Refused(TargetChanged) => TargetElsewhere(db, db.sessions[id], file)
      case Refused(CounterOverflow) =>
        file in db.sizes && db.users[db.sessions[id].owner].used - db.sizes[file] + db.sessions[id].size > MAX_INT64
      case Refused(DuplicateKey) => version in db.versions
      case Refused(e) => e == CounterUnderflow
  {
  }

  lemma ReplacementRefuses(db: Db, id: SessionId, file: NodeId, version: VersionId)
    requires Valid(db) && Committable(db, id)
    ensures match CommitReplacement(db, id, file, version)
      case Done(_) => true
      case Refused(NotFound) => TargetGone(db, file)
      case Refused(TargetChanged) => TargetElsewhere(db, db.sessions[id], file)
      case Refused(CounterOverflow) =>
        file in db.sizes && db.users[db.sessions[id].owner].used - db.sizes[file] + db.sessions[id].size > MAX_INT64
      case Refused(DuplicateKey) => version in db.versions
      case Refused(_) => false
  {
    ReplacementNeverUnderflows(db, id, file, version);
    ReplacementReasons(db, id, file, version);
  }

  /** The first check that fails is the one reported; after them, what the commit of its kind says. */
  lemma FinalizeRefuses(db: Db, actor: Actor, id: SessionId, now: int, complete: bool, newFile: NodeId, version: VersionId)
    requires Valid(db)
    ensures match Finalize(db, actor, id, now, complete, newFile, version)
      case Done(_) => true
      case Refused(e) =>
        if id !in db.sessions || Strange(actor, db.sessions[id].actor) then e == NotFound
        else if !(IsDue(db.sessions[id], now, complete) && May(db, db.sessions[id].folder, actor, 2)) then
          FinalizeChecks(db, actor, id, now, complete) == Some(e)
        else
          match db.sessions[id].target
          case None => Committable(db, id) && CommitNewFile(db, id, newFile, version) == Refused(e)
          case Some(file) => Committable(db, id) && CommitReplacement(db, id, file, version) == Refused(e)
  {
    if id in db.sessions {
      OpenIsCharged(db, id);
      ChecksIff(db, actor, id, now, complete);
    }
  }

  lemma RestoreVersionRefuses(db: Db, actor: Actor, file: NodeId, source: VersionId, version: VersionId)
    requires Valid(db)
    ensures match RestoreVersion(db, actor, file, source, version)
      case Done(_) => true
      case Refused(NotFound) => Hidden(db, file, actor) || file !in db.sizes
      case Refused(Forbidden) => ReadOnly(db, file, actor)
      case Refused(VersionNotFound) => source !in db.versions || db.versions[source].file != file
      case Refused(DuplicateKey) => version in db.versions
      case Refused(e) => source in db.versions && NoRoomWith(db, file, db.versions[source].size, e)
  {
    EditCheck(db, file, actor);
    if May(db, file, actor, 2) && file in db.sizes {
      MayIsUndeleted(db, file, actor, 2);
      LiveFileCounted(db, file);
      if source in db.versions && db.versions[source].file == file {
        VersionReasons(db, actor, file, source, version);
      }
    }
  }

  /** Why the owner cannot take the file at this size. */
  predicate NoRoomWith(db: Db, file: NodeId, size: nat, e: Error) {
    && file in db.nodes && file in db.sizes && db.nodes[file].owner in db.users
    && var next, user := UsedWith(db, file, size), db.users[db.nodes[file].owner];
       if e == QuotaExceeded then user.quota.Some? && next + user.reserved > user.quota.value
       else e == CounterOverflow && next > MAX_INT64
  }

  lemma VersionReasons(db: Db, actor: Actor, file: NodeId, source: VersionId, version: VersionId)
    requires IsForest(db.nodes) && Require(db, file, actor, EDIT).None? && file in db.nodes && file in db.sizes
    requires source in db.versions && db.versions[source].file == file
    requires db.nodes[file].owner in db.users && db.sizes[file] <= db.users[db.nodes[file].owner].used
    ensures match RestoreVersion(db, actor, file, source, version)
      case Done(_) => true
      case Refused(e) => (e == DuplicateKey && version in db.versions) || NoRoomWith(db, file, db.versions[source].size, e)
  {
  }

  lemma SetGrantRefuses(db: Db, actor: Actor, folder: NodeId, user: UserId, level: Option<Level>)
    requires IsForest(db.nodes)
    ensures match SetGrant(db, actor, folder, user, level)
      case Done(_) => true
      case Refused(InvalidGrant) => level == Some(0) || (folder in db.nodes && db.nodes[folder].owner == user)
      case Refused(NotFolder) => NoFolder(db.nodes, folder)
      case Refused(Forbidden) => May(db, folder, actor, 1) && !May(db, folder, actor, 3)
      case Refused(NotFound) =>
        || Hidden(db, folder, actor)
        || (if level.Some? then user !in db.users else (folder, user) !in db.grants)
      case Refused(_) => false
  {
    CheckMeans(db, folder, actor, 3);
    if May(db, folder, actor, 1) {
      MayIsUndeleted(db, folder, actor, 1);
    }
  }
}
