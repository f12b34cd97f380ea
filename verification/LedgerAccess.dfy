/** Who may change what: every transaction checked against owners, grants and ancestor chains, with the levels as numbers. */
module LedgerAccess {
  import opened Access
  import opened Forest
  import opened ForestEdits
  import opened Ledger
  import opened LedgerKeeps
  import opened LedgerRuns
  import opened LedgerState
  import opened TrashBin
  import opened Wrappers

  /** Neither the node nor anything above it is deleted. */
  ghost predicate Stands(nodes: Nodes, x: NodeId)
    requires IsForest(nodes)
  {
    x in nodes && forall a :: a in nodes && a in Chain(nodes, x) ==> !nodes[a].deleted
  }

  /** The user was granted at least this level on the node or on a folder above it. */
  ghost predicate Granted(db: Db, x: NodeId, user: UserId, least: nat)
    requires IsForest(db.nodes) && x in db.nodes
  {
    exists a :: a in Chain(db.nodes, x) && (a, user) in db.grants && db.grants[(a, user)] >= least
  }

  /** An administrator, the owner, or somebody with such a grant, on a node that stands. */
  ghost predicate May(db: Db, x: NodeId, actor: Actor, least: nat)
    requires IsForest(db.nodes)
  {
    Stands(db.nodes, x) && (actor.admin || db.nodes[x].owner == actor.user || Granted(db, x, actor.user, least))
  }

  lemma StandsIsLive(nodes: Nodes, x: NodeId)
    requires IsForest(nodes) && x in nodes
    ensures Stands(nodes, x) <==> Live(nodes, x)
  {
    LiveIsUndeletedChain(nodes, x);
  }

  lemma GrantedIsScore(db: Db, x: NodeId, user: UserId, least: Level)
    requires IsForest(db.nodes) && x in db.nodes && Live(db.nodes, x) && least >= 1
    ensures Granted(db, x, user, least) <==> Score(db.nodes, db.grants, x, user) >= least
  {
    ScoreIsMaximum(db.nodes, db.grants, x, user);
    if Granted(db, x, user, least) {
      var a :| a in Chain(db.nodes, x) && (a, user) in db.grants && db.grants[(a, user)] >= least;
      assert Direct(db.grants, a, user) <= Score(db.nodes, db.grants, x, user);
    }
    if Score(db.nodes, db.grants, x, user) >= least {
      var a :| a in Chain(db.nodes, x) && Direct(db.grants, a, user) == Score(db.nodes, db.grants, x, user);
      assert (a, user) in db.grants;
    }
  }

  /** The access check passes, is forbidden, or finds nothing, as the owner and the grants on the chain say. */
  lemma CheckMeans(db: Db, x: NodeId, actor: Actor, required: Level)
    requires IsForest(db.nodes) && required >= 1
    ensures Require(db, x, actor, required) ==
      if May(db, x, actor, required) then None
      else if May(db, x, actor, 1) then Some(Forbidden)
      else Some(NotFound)
  {
    if x in db.nodes {
      StandsIsLive(db.nodes, x);
      if Live(db.nodes, x) {
        GrantedIsScore(db, x, actor.user, required);
        GrantedIsScore(db, x, actor.user, 1);
      }
    }
  }

  // ----- What a request asks for -----

  /**
   * The nodes on which a request needs a level, and the level: 2 is editing, 3 is full control. A restore by
   * somebody other than the owner asks for the old home too.
   */
  ghost predicate Asks(db: Db, action: Action, x: NodeId, level: nat) {
    match action
    case DoSetGrant(_, folder, _, _) => x == folder && level == 3
    case DoCreateFolder(_, parent, _, _, _) => x == parent && level == 2
    case DoCreateBatch(_, parent, _) => x == parent && level == 2
    case DoRename(_, id, _, _) => x == id && level == 2
    case DoMove(_, id, parent) => (x == id || x == parent) && level == 2
    case DoTrash(_, id) => x == id && level == 2
    case DoRestore(actor, id, into, _) =>
      (&& level == 2 && id in db.nodes
       && (Some(x) == into || (Some(x) == db.nodes[id].parent &&
             (into.None? || (!actor.admin && actor.user != db.nodes[id].owner)))))
    case DoCreateSession(_, folder, _, _, _, _, _, _) => x == folder && level == 2
    case DoFinalize(_, session, _, _, _, _) =>
      session in db.sessions && x == db.sessions[session].folder && level == 2
    case DoRestoreVersion(_, id, _, _) => x == id && level == 2
    case _ => false
  }

  /** Beyond levels: trash is for owner and administrator, a session for who created it and administrators. */
  ghost predicate Personal(db: Db, action: Action) {
    match action
    case DoPurge(actor, id) => id in db.nodes && (actor.admin || actor.user == db.nodes[id].owner)
    case DoEmptyTrash(actor, user, _) => actor.admin || actor.user == user
    case DoCancel(actor, session) => session in db.sessions && (actor.admin || actor.user == db.sessions[session].actor)
    case DoFinalize(actor, session, _, _, _, _) =>
      session in db.sessions && (actor.admin || actor.user == db.sessions[session].actor)
    case _ => true
  }

  function ActorOf(action: Action): Option<Actor> {
    match action
    case DoCreateUser(_, _, _) => None
    case DoSetQuota(_, _) => None
    case DoReconcile(_) => None
    case DoExpire(_, _) => None
    case _ => Some(action.actor)
  }

  /** Nothing changes in the name of somebody who may not change it. */
  lemma ChangesAreEntitled(db: Db, action: Action, x: NodeId, level: nat)
    requires IsForest(db.nodes) && ActorOf(action).Some? && Attempt(db, action).Done?
    ensures Personal(db, action)
    ensures Attempt(db, action).db != db && Asks(db, action, x, level) ==> May(db, x, ActorOf(action).value, level)
  {
    var actor := ActorOf(action).value;
    match action
    case DoSetGrant(_, folder, _, _) => CheckMeans(db, folder, actor, 3);
    case DoCreateFolder(_, parent, _, _, _) => CheckMeans(db, parent, actor, 2);
    case DoCreateBatch(_, parent, _) => CheckMeans(db, parent, actor, 2);
    case DoRestore(_, id, into, _) => RestoreIsEntitled(db, actor, id, into);
    case DoCreateSession(_, folder, _, _, _, _, _, _) => CheckMeans(db, folder, actor, 2);
    case DoFinalize(_, session, _, _, _, _) => FinalizeIsEntitled(db, action);
    case DoPurge(_, _) =>
    case DoEmptyTrash(_, _, _) =>
    case DoCancel(_, _) =>
    case _ => EditIsEntitled(db, action);
  }

  lemma EditIsEntitled(db: Db, action: Action)
    requires IsForest(db.nodes) && (action.DoRename? || action.DoMove? || action.DoTrash? || action.DoRestoreVersion?)
    requires Attempt(db, action).Done?
    ensures May(db, action.id, action.actor, 2)
    ensures action.DoMove? ==> May(db, action.parent, action.actor, 2)
  {
    CheckMeans(db, action.id, action.actor, 2);
    if action.DoMove? {
      CheckMeans(db, action.parent, action.actor, 2);
    }
  }

  lemma FinalizeIsEntitled(db: Db, action: Action)
    requires IsForest(db.nodes) && action.DoFinalize? && Attempt(db, action).Done?
    ensures Personal(db, action)
    ensures Attempt(db, action).db != db ==> May(db, db.sessions[action.session].folder, action.actor, 2)
  {
    CheckMeans(db, db.sessions[action.session].folder, action.actor, 2);
  }

  lemma RestoreIsEntitled(db: Db, actor: Actor, id: NodeId, into: Option<NodeId>)
    requires IsForest(db.nodes) && RestoreInto(db, actor, id, into).Success?
    ensures id in db.nodes && RestoreInto(db, actor, id, into).value == (if into.Some? then into.value else db.nodes[id].parent.value)
    ensures May(db, RestoreInto(db, actor, id, into).value, actor, 2)
    ensures !actor.admin && actor.user != db.nodes[id].owner ==> May(db, db.nodes[id].parent.value, actor, 2)
  {
    assert WellPlaced(db.nodes, id);
    CheckMeans(db, db.nodes[id].parent.value, actor, 2);
    CheckMeans(db, RestoreInto(db, actor, id, into).value, actor, 2);
  }

  // ----- What the others are told -----

  /** The request's first access check is on `x`: what comes before it does not refuse. */
  ghost predicate ReachesCheck(db: Db, action: Action, x: NodeId) {
    x in db.nodes && !db.nodes[x].deleted &&
    match action
    case DoSetGrant(_, folder, _, level) => x == folder && db.nodes[x].kind == Folder && level != Some(NONE)
    case DoCreateFolder(_, parent, _, _, _) => x == parent && db.nodes[x].kind == Folder
    case DoCreateBatch(_, parent, _) => x == parent && db.nodes[x].kind == Folder
    case DoRename(_, id, _, _) => x == id && !db.nodes[x].root
    case DoMove(_, id, _) => x == id && !db.nodes[x].root
    case DoTrash(_, id) => x == id && !db.nodes[x].root
    case DoCreateSession(_, folder, _, _, size, _, _, _) => x == folder && db.nodes[x].kind == Folder && size <= MAX_INT64
    case DoFinalize(actor, session, now, complete, _, _) =>
      (session in db.sessions && Personal(db, action) &&
       var s := db.sessions[session];
       x == s.folder && s.status == Open && now < s.expiresAt && complete && s.reserved == s.size)
    case DoRestoreVersion(_, id, _, _) => x == id
    case _ => false
  }

  /** Somebody who may at least view is forbidden, and everybody else is told that there is nothing. */
  lemma OthersAreRefused(db: Db, action: Action, x: NodeId, level: nat)
    requires IsForest(db.nodes) && ActorOf(action).Some?
    requires ReachesCheck(db, action, x) && Asks(db, action, x, level) && !May(db, x, ActorOf(action).value, level)
    ensures Attempt(db, action) == Refused(if May(db, x, ActorOf(action).value, 1) then Forbidden else NotFound)
  {
    CheckMeans(db, x, ActorOf(action).value, 2);
    CheckMeans(db, x, ActorOf(action).value, 3);
  }

  /** The same at the far end of a move, and at the destination of a restore, where nothing is a missing target. */
  lemma MoveNeedsDestination(db: Db, actor: Actor, id: NodeId, parent: NodeId)
    requires IsForest(db.nodes) && May(db, id, actor, 2) && !db.nodes[id].root
    requires parent in db.nodes && !db.nodes[parent].deleted && db.nodes[parent].kind == Folder
    requires db.nodes[parent].owner == db.nodes[id].owner && !May(db, parent, actor, 2)
    ensures Move(db, actor, id, parent) == Refused(if May(db, parent, actor, 1) then Forbidden else NotFound)
  {
    StandsIsLive(db.nodes, id);
    ChainSelf(db.nodes, id);
    CheckMeans(db, id, actor, 2);
    CheckMeans(db, parent, actor, 2);
  }

  lemma RestoreNeedsDestination(db: Db, actor: Actor, id: NodeId, parent: NodeId, rename: Option<(string, string)>)
    requires IsForest(db.nodes) && id in db.nodes && db.nodes[id].deleted && !db.nodes[id].root
    requires actor.admin || actor.user == db.nodes[id].owner || May(db, db.nodes[id].parent.value, actor, 2)
    requires parent in db.nodes && !db.nodes[parent].deleted && db.nodes[parent].kind == Folder
    requires db.nodes[parent].owner == db.nodes[id].owner && !May(db, parent, actor, 2)
    ensures Restore(db, actor, id, Some(parent), rename) ==
      Refused(if May(db, parent, actor, 1) then Forbidden else RestoreTarget)
  {
    assert WellPlaced(db.nodes, id);
    CheckMeans(db, db.nodes[id].parent.value, actor, 2);
    CheckMeans(db, parent, actor, 2);
  }
}
