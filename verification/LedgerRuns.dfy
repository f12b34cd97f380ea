/** Whole runs of the ledger, starting from empty tables: the invariant, the counters and the quota. */
module LedgerRuns {
  import opened Access
  import opened Forest
  import opened Ledger
  import opened LedgerCommits
  import opened LedgerKeeps
  import opened LedgerState
  import opened TrashBin
  import opened Wrappers

  datatype Action =
    | DoCreateUser(user: UserId, root: NodeId, quota: Option<nat>)
    | DoSetQuota(user: UserId, limit: Option<int>)
    | DoSetGrant(actor: Actor, folder: NodeId, user: UserId, level: Option<Level>)
    | DoReconcile(only: Option<UserId>)
    | DoCreateFolder(actor: Actor, parent: NodeId, name: string, key: string, id: NodeId)
    | DoCreateBatch(actor: Actor, parent: NodeId, folders: seq<NewFolder>)
    | DoRename(actor: Actor, id: NodeId, name: string, key: string)
    | DoMove(actor: Actor, id: NodeId, parent: NodeId)
    | DoTrash(actor: Actor, id: NodeId)
    | DoRestore(actor: Actor, id: NodeId, into: Option<NodeId>, rename: Option<(string, string)>)
    | DoPurge(actor: Actor, id: NodeId)
    | DoEmptyTrash(actor: Actor, user: UserId, ids: seq<NodeId>)
    | DoCreateSession(actor: Actor, folder: NodeId, name: string, key: string, size: nat,
                      target: Option<NodeId>, expiresAt: int, session: SessionId)
    | DoCancel(actor: Actor, session: SessionId)
    | DoExpire(session: SessionId, now: int)
    | DoFinalize(actor: Actor, session: SessionId, now: int, complete: bool, id: NodeId, version: VersionId)
    | DoRestoreVersion(actor: Actor, id: NodeId, source: VersionId, version: VersionId)

  ghost function Attempt(db: Db, action: Action): Outcome
    requires IsForest(db.nodes)
  {
    match action
    case DoCreateUser(user, root, quota) => CreateUser(db, user, root, quota)
    case DoSetQuota(user, limit) => SetQuota(db, user, limit)
    case DoSetGrant(actor, folder, user, level) => SetGrant(db, actor, folder, user, level)
    case DoReconcile(only) => ReconcileQuota(db, only)
    case DoCreateFolder(actor, parent, name, key, id) => CreateFolder(db, actor, parent, name, key, id)
    case DoCreateBatch(actor, target, folders) => CreateBatch(db, actor, target, folders)
    case DoRename(actor, id, name, key) => Rename(db, actor, id, name, key)
    case DoMove(actor, id, parent) => Move(db, actor, id, parent)
    case DoTrash(actor, id) => Trash(db, actor, id)
    case DoRestore(actor, id, into, rename) => Restore(db, actor, id, into, rename)
    case DoPurge(actor, id) => Purge(db, actor, id)
    case DoEmptyTrash(actor, user, ids) => EmptyTrash(db, actor, user, ids)
    case DoCreateSession(actor, folder, name, key, size, target, expiresAt, session) =>
      CreateSession(db, actor, folder, name, key, size, target, expiresAt, session)
    case DoCancel(actor, session) => Cancel(db, actor, session)
    case DoExpire(session, now) => Expire(db, session, now)
    case DoFinalize(actor, session, now, complete, id, version) =>
      Finalize(db, actor, session, now, complete, id, version)
    case DoRestoreVersion(actor, id, source, version) => RestoreVersion(db, actor, id, source, version)
  }

  lemma {:induction false} PurgeEachKeeps(db: Db, owner: UserId, ids: seq<NodeId>)
    requires Valid(db) && PurgeEach(db, owner, ids).Done?
    ensures Valid(PurgeEach(db, owner, ids).db) && PurgeEach(db, owner, ids).db.users == db.users
    decreases |ids|
  {
    if ids != [] {
      PurgeKeeps(db, ids[0]);
      PurgeEachKeeps(PurgeNode(db, ids[0]).db, owner, ids[1..]);
    }
  }

  /** Every committed transaction keeps the invariant. */
  lemma StepKeepsLedger(db: Db, action: Action)
    requires Valid(db) && Attempt(db, action).Done?
    ensures Valid(Attempt(db, action).db)
    ensures !action.DoSetQuota? ==> QuotaRespected(db, Attempt(db, action).db)
  {
    match action {
      case DoCreateUser(user, root, quota) => CreateUserKeeps(db, user, root, quota);
      case DoSetQuota(user, limit) => QuotaKeeps(db, user, limit);
      case DoSetGrant(actor, folder, user, level) => GrantKeeps(db, actor, folder, user, level);
      case DoReconcile(only) =>
        ReconcileChangesNothing(db, if only.None? then db.users.Keys else {only.value});
        NothingChanged(db);
      case DoCreateFolder(actor, parent, name, key, id) => CreateFolderKeeps(db, actor, parent, name, key, id);
      case DoCreateBatch(actor, target, folders) => AddFoldersKeeps(db, folders);
      case DoRename(actor, id, name, key) => RenameKeeps(db, actor, id, name, key);
      case DoMove(actor, id, parent) => MoveKeeps(db, actor, id, parent);
      case DoTrash(actor, id) => TrashKeeps(db, actor, id);
      case DoRestore(actor, id, into, rename) => RestoreKeeps(db, actor, id, into, rename);
      case DoPurge(actor, id) => PurgeKeeps(db, id);
      case DoEmptyTrash(actor, user, ids) => PurgeEachKeeps(db, user, ids);
      case DoCreateSession(actor, folder, name, key, size, target, expiresAt, session) =>
        CreateSessionKeeps(db, actor, folder, name, key, size, target, expiresAt, session);
      case DoCancel(actor, session) => CancelKeeps(db, actor, session);
      case DoExpire(session, now) => ExpireKeeps(db, session, now);
      case DoFinalize(actor, session, now, complete, id, version) =>
        FinalizeKeeps(db, actor, session, now, complete, id, version);
      case DoRestoreVersion(actor, id, source, version) => RestoreVersionKeeps(db, actor, id, source, version);
    }
  }

  predicate ReadsCounters(action: Action) {
    action.DoTrash? || action.DoCancel? || action.DoExpire? || action.DoFinalize? || action.DoRestoreVersion?
    || action.DoEmptyTrash?
  }

  lemma RestoreTakesNothingOut(db: Db, actor: Actor, id: NodeId, into: Option<NodeId>, rename: Option<(string, string)>)
    requires IsForest(db.nodes)
    ensures Restore(db, actor, id, into, rename) != Refused(CounterUnderflow)
  {
  }

  lemma MoveTakesNothingOut(db: Db, actor: Actor, id: NodeId, parent: NodeId)
    requires IsForest(db.nodes)
    ensures Move(db, actor, id, parent) != Refused(CounterUnderflow)
  {
  }

  lemma CreateSessionTakesNothingOut(db: Db, actor: Actor, folder: NodeId, name: string, key: string, size: nat,
                                     target: Option<NodeId>, expiresAt: int, id: SessionId)
    requires IsForest(db.nodes)
    ensures CreateSession(db, actor, folder, name, key, size, target, expiresAt, id) != Refused(CounterUnderflow)
  {
  }

  lemma {:induction false} BatchTakesNothingOut(db: Db, folders: seq<NewFolder>)
    requires IsForest(db.nodes)
    ensures AddFolders(db, folders) != Refused(CounterUnderflow)
    decreases |folders|
  {
    if folders != [] {
      BatchTakesNothingOut(db, folders[..|folders| - 1]);
    }
  }

  lemma OthersTakeNothingOut(db: Db, action: Action)
    requires IsForest(db.nodes) && !ReadsCounters(action)
    ensures Attempt(db, action) != Refused(CounterUnderflow)
  {
    match action {
      case DoRestore(actor, id, into, rename) => RestoreTakesNothingOut(db, actor, id, into, rename);
      case DoMove(actor, id, parent) => MoveTakesNothingOut(db, actor, id, parent);
      case DoCreateBatch(actor, target, folders) => BatchTakesNothingOut(db, folders);
      case DoCreateSession(actor, folder, name, key, size, target, expiresAt, session) =>
        CreateSessionTakesNothingOut(db, actor, folder, name, key, size, target, expiresAt, session);
      case _ =>
    }
  }

  /** Cancelling takes from the counter that the reservation of an open session was charged to, and no other. */
  lemma CancelTakes(db: Db, actor: Actor, id: SessionId)
    requires id in db.sessions && db.sessions[id].status == Open ==>
      var s := db.sessions[id];
      s.owner in db.users && s.reserved <= db.users[s.owner].reserved
    ensures Cancel(db, actor, id) != Refused(CounterUnderflow)
  {
  }

  lemma CancelCountersHold(db: Db, actor: Actor, id: SessionId)
    requires Valid(db)
    ensures Cancel(db, actor, id) != Refused(CounterUnderflow)
  {
    if id in db.sessions && db.sessions[id].status == Open {
      ReservationCounted(db, id);
    }
    CancelTakes(db, actor, id);
  }

  /** The exits for a counter smaller than what is taken out of it are dead code. */
  lemma CountersNeverUnderflow(db: Db, action: Action)
    requires Valid(db)
    ensures Attempt(db, action) != Refused(CounterUnderflow)
  {
    match action {
      case DoTrash(actor, id) => TrashCountersHold(db, actor, id);
      case DoCancel(actor, session) => CancelCountersHold(db, actor, session);
      case DoExpire(session, now) => ExpireKeeps(db, session, now);
      case DoFinalize(actor, session, now, complete, id, version) =>
        FinalizeCountersHold(db, actor, session, now, complete, id, version);
      case DoRestoreVersion(actor, id, source, version) =>
        RestoreVersionCountersHold(db, actor, id, source, version);
      case DoEmptyTrash(actor, user, ids) => PurgeEachRefusals(db, user, ids);
      case _ => OthersTakeNothingOut(db, action);
    }
  }

  lemma {:induction false} PurgeEachRefusals(db: Db, owner: UserId, ids: seq<NodeId>)
    requires IsForest(db.nodes)
    ensures PurgeEach(db, owner, ids) != Refused(CounterUnderflow)
    decreases |ids|
  {
    if ids != [] && ids[0] in db.nodes && db.nodes[ids[0]].deleted && PurgeNode(db, ids[0]).Done? {
      var id := ids[0];
      if db.nodes[id].owner == owner && !db.nodes[id].root {
        ForestEdits.PurgeForest(db.nodes, id);
        PurgeEachRefusals(PurgeNode(db, id).db, owner, ids[1..]);
      }
    }
  }

  // ----- Runs -----

  const EMPTY: Db := Db(map[], map[], map[], map[], map[], map[])

  /** The tables after a sequence of requests, each committed or refused. */
  ghost function Run(db: Db, actions: seq<Action>): (after: Db)
    requires Valid(db)
    ensures Valid(after)
    decreases |actions|
  {
    if actions == [] then db
    else
      match Attempt(db, actions[0])
      case Refused(_) => Run(db, actions[1..])
      case Done(next) =>
        StepKeepsLedger(db, actions[0]);
        Run(next, actions[1..])
  }

  /** From empty tables every run ends with a rooted forest and counters that equal what they count. */
  lemma RunsKeepTheLedger(actions: seq<Action>)
    ensures Valid(EMPTY)
    ensures var db := Run(EMPTY, actions);
      && IsForest(db.nodes)
      && UniqueNames(db.nodes)
      && (forall chosen: set<UserId> :: Reconcile(db, chosen) == db)
      && forall user :: user in db.users ==>
        db.users[user].used == DerivedUsed(db.nodes, db.sizes, user) &&
        db.users[user].reserved == DerivedReserved(db.sessions, user)
  {
    EmptyIsValid();
    var db := Run(EMPTY, actions);
    forall chosen: set<UserId>
      ensures Reconcile(db, chosen) == db
    {
      ReconcileChangesNothing(db, chosen);
    }
    forall user | user in db.users
      ensures CountsExactly(db, user)
    {
    }
  }

  lemma EmptyIsValid()
    ensures Valid(EMPTY)
  {
    assert IsForest(EMPTY.nodes);
  }

  predicate NoQuotaChange(actions: seq<Action>) {
    forall i :: 0 <= i < |actions| ==> !actions[i].DoSetQuota?
  }

  /** Without a change of quota, a user within the quota stays within it, whatever the requests. */
  lemma {:induction false} QuotaHolds(db: Db, actions: seq<Action>, user: UserId)
    requires Valid(db) && NoQuotaChange(actions) && user in db.users && !OverQuota(db.users[user])
    ensures user in Run(db, actions).users && !OverQuota(Run(db, actions).users[user])
    ensures Run(db, actions).users[user].quota == db.users[user].quota
    decreases |actions|
  {
    if actions != [] {
      var rest := actions[1..];
      assert NoQuotaChange(rest);
      match Attempt(db, actions[0]) {
        case Refused(_) => QuotaHolds(db, rest, user);
        case Done(next) =>
          StepKeepsLedger(db, actions[0]);
          QuotaHolds(next, rest, user);
      }
    }
  }
}
