/** The transactions as they run: reads, loops and row updates on tables, each proved against its one-step meaning. */
module LedgerTables {
  import opened Access
  import opened Forest
  import opened ForestEdits
  import opened Ledger
  import opened LedgerState
  import opened Sums
  import opened TrashBin
  import opened Wrappers

  /** Downward query without regard to deletion: the node and everything below it. */
  method SubtreeIds(nodes: Nodes, id: NodeId) returns (result: set<NodeId>)
    requires IsForest(nodes) && id in nodes
    ensures result == Subtree(nodes, id)
  {
    result := {id};
    var work := {id};
    ChainSelf(nodes, id);
    while work != {}
      invariant work <= result <= nodes.Keys && id in result
      invariant forall x :: x in result ==> id in Chain(nodes, x)
      invariant Children(nodes, result - work) <= result
      decreases nodes.Keys - result + work, work
    {
      var next := Children(nodes, work) - result;
      forall x | x in next
        ensures id in Chain(nodes, x)
      {
        ParentDepth(nodes, x);
      }
      assert nodes.Keys - (result + next) + next < nodes.Keys - result + work;
      work := next;
      result := result + next;
    }
    assert result - work == result;
    forall x | x in Subtree(nodes, id)
      ensures x in result
    {
      ClosedBelow(nodes, result, id, x);
    }
  }

  function Children(nodes: Nodes, work: set<NodeId>): set<NodeId> {
    set c | c in nodes && nodes[c].parent.Some? && nodes[c].parent.value in work
  }

  lemma {:induction false} ClosedBelow(nodes: Nodes, closed: set<NodeId>, id: NodeId, x: NodeId)
    requires Rooted(nodes, x) && id in closed && Children(nodes, closed) <= closed && id in Chain(nodes, x)
    ensures x in closed
    decreases Depth(nodes, x)
  {
    if x != id {
      ParentDepth(nodes, x);
      ClosedBelow(nodes, closed, id, nodes[x].parent.value);
      assert x in Children(nodes, closed);
    }
  }

  /** `folderContains`: the walk up from `start` meets `target`. */
  method FolderContains(nodes: Nodes, start: NodeId, target: NodeId) returns (contains: bool)
    requires IsForest(nodes) && start in nodes
    ensures contains <==> target in Chain(nodes, start)
  {
    var at := start;
    while at != target
      invariant at in nodes && (target in Chain(nodes, start) <==> target in Chain(nodes, at))
      decreases Depth(nodes, at)
    {
      match nodes[at].parent {
        case None => return false;
        case Some(p) =>
          ParentDepth(nodes, at);
          at := p;
      }
    }
    ChainSelf(nodes, at);
    contains := true;
  }

  /** The `NOT EXISTS` of the trash query: no proper ancestor is deleted. */
  method HasDeletedAncestor(nodes: Nodes, x: NodeId) returns (found: bool)
    requires IsForest(nodes) && x in nodes
    ensures found <==> exists a :: a in Chain(nodes, x) && a != x && a in nodes && nodes[a].deleted
  {
    found := false;
    if nodes[x].parent.None? {
      return;
    }
    ParentDepth(nodes, x);
    var at := nodes[x].parent.value;
    DeletedAbove(nodes, x);
    while true
      invariant at in nodes && (Live(nodes, nodes[x].parent.value) <==> Live(nodes, at))
      decreases Depth(nodes, at)
    {
      if nodes[at].deleted {
        return true;
      }
      match nodes[at].parent {
        case None => return false;
        case Some(p) =>
          ParentDepth(nodes, at);
          at := p;
      }
    }
  }

  /** A proper ancestor is deleted exactly when the parent is not live. */
  lemma DeletedAbove(nodes: Nodes, x: NodeId)
    requires IsForest(nodes) && x in nodes && nodes[x].parent.Some?
    ensures nodes[x].parent.value in nodes
    ensures !Live(nodes, nodes[x].parent.value) <==>
      exists a :: a in Chain(nodes, x) && a != x && a in nodes && nodes[a].deleted
  {
    var p := nodes[x].parent.value;
    ParentDepth(nodes, x);
    LiveIsUndeletedChain(nodes, p);
    if x in Chain(nodes, p) {
      ChainFacts(nodes, p, x);
    }
  }

  /** The ids of the owner's trash roots, each once. */
  method TrashRoots(nodes: Nodes, owner: UserId) returns (ids: seq<NodeId>)
    requires IsForest(nodes)
    ensures ListsTrashRoots(nodes, owner, ids)
  {
    ids := [];
    var rest := nodes.Keys;
    while rest != {}
      invariant rest <= nodes.Keys && Distinct(ids)
      invariant forall x :: x in ids <==> x !in rest && IsTrashRoot(nodes, owner, x)
      decreases rest
    {
      var x :| x in rest;
      rest := rest - {x};
      if nodes[x].owner == owner && nodes[x].deleted {
        var hidden := HasDeletedAncestor(nodes, x);
        if !hidden {
          ids := ids + [x];
        }
      }
    }
  }

  /** Sessions outside the purged subtree. */
  function Unaffected(sessions: map<SessionId, Session>, gone: set<NodeId>): map<SessionId, Session> {
    map s | s in sessions && !Touches(sessions[s], gone) :: sessions[s]
  }

  /** The replacement target set to null where the file went. */
  function Cleared(sessions: map<SessionId, Session>, gone: set<NodeId>): map<SessionId, Session> {
    map s | s in sessions :: ClearTarget(sessions[s], gone)
  }

  lemma ClearedUnaffected(db: Db, gone: set<NodeId>)
    ensures Cleared(Unaffected(db.sessions, gone), gone) == Without(db, gone).sessions
  {
  }

  class Tables {
    var nodes: Nodes
    var sizes: map<NodeId, nat>
    var users: map<UserId, User>
    var sessions: map<SessionId, Session>
    var versions: map<VersionId, Version>
    var grants: Grants

    constructor ()
      ensures Contents() == Db(map[], map[], map[], map[], map[], map[])
    {
      nodes, sizes, users, sessions, versions, grants := map[], map[], map[], map[], map[], map[];
    }

    ghost function Contents(): Db
      reads this
    {
      Db(nodes, sizes, users, sessions, versions, grants)
    }

    /** The transaction did what the one-step meaning says, or refused and changed nothing. */
    ghost predicate Ran(before: Db, outcome: Outcome, error: Option<Error>)
      reads this
    {
      match outcome
      case Done(db) => error == None && Contents() == db
      case Refused(e) => error == Some(e) && Contents() == before
    }

    method RequireTx(x: NodeId, actor: Actor, required: Level) returns (error: Option<Error>)
      requires IsForest(nodes)
      ensures error == Require(Contents(), x, actor, required)
    {
      var level := ResolveByWalk(nodes, grants, x, actor.user, actor.admin);
      match level {
        case None => error := Some(NotFound);
        case Some(l) =>
          error := if l >= required then None else if l == NONE then Some(NotFound) else Some(Forbidden);
      }
    }

    method SubtractUsedBytes(owner: UserId, bytes: nat) returns (error: Option<Error>)
      modifies this`users
      ensures match SubtractUsed(old(users), owner, bytes)
        case Failure(e) => error == Some(e) && users == old(users)
        case Success(charged) => error == None && users == charged
    {
      if owner !in users {
        return Some(NotFound);
      }
      var used := users[owner].used;
      if used < bytes {
        return Some(CounterUnderflow);
      }
      users := users[owner := users[owner].(used := used - bytes)];
      error := None;
    }

    method AddUsedBytes(owner: UserId, bytes: nat) returns (error: Option<Error>)
      modifies this`users
      ensures match AddUsed(old(users), owner, bytes)
        case Failure(e) => error == Some(e) && users == old(users)
        case Success(charged) => error == None && users == charged
    {
      if owner !in users {
        return Some(NotFound);
      }
      if !QuotaAllows(users[owner], bytes) {
        return Some(QuotaExceeded);
      }
      if users[owner].used + bytes > MAX_INT64 {
        return Some(OutOfRange);
      }
      users := users[owner := users[owner].(used := users[owner].used + bytes)];
      error := None;
    }

    method Trash(actor: Actor, id: NodeId) returns (error: Option<Error>)
      requires IsForest(nodes)
      modifies this
      ensures Ran(old(Contents()), Ledger.Trash(old(Contents()), actor, id), error)
    {
      if id !in nodes || nodes[id].deleted {
        return Some(NotFound);
      }
      var current := nodes[id];
      if current.root {
        return Some(RootImmutable);
      }
      error := RequireTx(id, actor, EDIT);
      if error.Some? {
        return;
      }
      var bytes := SubtreeBytes(nodes, sizes, id, false);
      error := SubtractUsedBytes(current.owner, bytes);
      if error.Some? {
        return;
      }
      nodes := nodes[id := current.(deleted := true)];
    }

    method Move(actor: Actor, id: NodeId, parent: NodeId) returns (error: Option<Error>)
      requires IsForest(nodes)
      modifies this
      ensures Ran(old(Contents()), Ledger.Move(old(Contents()), actor, id, parent), error)
    {
      if id !in nodes || nodes[id].deleted {
        return Some(NotFound);
      }
      var current := nodes[id];
      if current.root {
        return Some(RootImmutable);
      }
      error := RequireTx(id, actor, EDIT);
      if error.Some? {
        return;
      }
      if parent !in nodes || nodes[parent].deleted {
        return Some(NotFound);
      }
      if nodes[parent].kind != Folder {
        return Some(NotFolder);
      }
      if nodes[parent].owner != current.owner {
        return Some(if actor.admin then CrossOwner else NotFound);
      }
      error := RequireTx(parent, actor, EDIT);
      if error.Some? {
        return;
      }
      if current.parent == Some(parent) {
        return;
      }
      if current.kind == Folder {
        var cycle := FolderContains(nodes, parent, id);
        if cycle {
          return Some(Cycle);
        }
      }
      if exists x :: x in nodes && x != id && ActiveChild(nodes, x, parent, current.nameKey) {
        return Some(NameConflict);
      }
      nodes := nodes[id := current.(parent := Some(parent))];
    }

    method RestoreTarget(actor: Actor, id: NodeId, into: Option<NodeId>) returns (result: Result<NodeId, Error>)
      requires IsForest(nodes)
      ensures result == RestoreInto(Contents(), actor, id, into)
    {
      if id !in nodes {
        return Failure(NotFound);
      }
      var current := nodes[id];
      if current.root {
        return Failure(RootImmutable);
      }
      if !current.deleted {
        return Failure(NotDeleted);
      }
      var home := current.parent.value;
      if !actor.admin && actor.user != current.owner {
        var error := RequireTx(home, actor, EDIT);
        if error.Some? {
          return Failure(error.value);
        }
      }
      var parent := if into.Some? then into.value else home;
      if parent !in nodes || nodes[parent].deleted {
        return Failure(Error.RestoreTarget);
      }
      if nodes[parent].kind != Folder {
        return Failure(NotFolder);
      }
      if nodes[parent].owner != current.owner {
        return Failure(if actor.admin then CrossOwner else NotFound);
      }
      var error := RequireTx(parent, actor, EDIT);
      if error.Some? {
        return Failure(if error.value == NotFound then Error.RestoreTarget else error.value);
      }
      if current.kind == Folder {
        var cycle := FolderContains(nodes, parent, id);
        if cycle {
          return Failure(Cycle);
        }
      }
      result := Success(parent);
    }

    method Restore(actor: Actor, id: NodeId, into: Option<NodeId>, rename: Option<(string, string)>)
      returns (error: Option<Error>)
      requires IsForest(nodes)
      modifies this
      ensures Ran(old(Contents()), Ledger.Restore(old(Contents()), actor, id, into, rename), error)
    {
      var target := RestoreTarget(actor, id, into);
      if target.Failure? {
        return Some(target.error);
      }
      var parent := target.value;
      var current := nodes[id];
      var name, key := current.name, current.nameKey;
      if rename.Some? {
        name, key := rename.value.0, rename.value.1;
      }
      if exists x :: x in nodes && ActiveChild(nodes, x, parent, key) {
        return Some(NameConflict);
      }
      var bytes := SubtreeBytes(nodes, sizes, id, true);
      error := AddUsedBytes(current.owner, bytes);
      if error.Some? {
        return;
      }
      nodes := nodes[id := current.(parent := Some(parent), name := name, nameKey := key, deleted := false)];
    }

    /** `purgeTx`: one delete after another, the foreign keys cascading as declared. */
    method PurgeTx(id: NodeId) returns (error: Option<Error>)
      requires IsForest(nodes) && id in nodes
      modifies this
      ensures Ran(old(Contents()), PurgeNode(old(Contents()), id), error)
    {
      var gone := SubtreeIds(nodes, id);
      if exists s :: s in sessions && Pending(sessions[s].status) && Touches(sessions[s], gone) {
        return Some(ActiveUpload);
      }
      sessions := Unaffected(sessions, gone);
      grants := map g | g in grants && g.0 !in gone :: grants[g];
      sizes := sizes - gone;
      versions := map v | v in versions && versions[v].file !in gone :: versions[v];
      sessions := Cleared(sessions, gone);
      ClearedUnaffected(old(Contents()), gone);
      nodes := nodes - gone;
      error := None;
    }

    method Rollback(saved: Db)
      modifies this
      ensures Contents() == saved
    {
      nodes, sizes, users := saved.nodes, saved.sizes, saved.users;
      sessions, versions, grants := saved.sessions, saved.versions, saved.grants;
    }

    /** The loop over the trash roots; any refusal undoes the whole transaction. */
    method PurgeRoots(owner: UserId, ids: seq<NodeId>) returns (error: Option<Error>)
      requires IsForest(nodes)
      modifies this
      ensures Ran(old(Contents()), PurgeEach(old(Contents()), owner, ids), error)
    {
      var saved := Db(nodes, sizes, users, sessions, versions, grants);
      var i := 0;
      while i < |ids|
        invariant 0 <= i <= |ids| && IsForest(nodes)
        invariant PurgeEach(saved, owner, ids) == PurgeEach(Contents(), owner, ids[i..])
      {
        var id := ids[i];
        assert ids[i..][0] == id && ids[i..][1..] == ids[i + 1..];
        if id !in nodes {
          error := Some(NotFound);
        } else if nodes[id].owner != owner {
          error := Some(NotFound);
        } else if nodes[id].root {
          error := Some(RootImmutable);
        } else if !nodes[id].deleted {
          error := Some(NotDeleted);
        } else {
          PurgeForest(nodes, id);
          error := PurgeTx(id);
        }
        if error.Some? {
          Rollback(saved);
          return;
        }
        i := i + 1;
      }
      error := None;
    }

    /** Emptying the trash removes exactly the owner's nodes that are deleted or under a deleted node. */
    method EmptyTrash(actor: Actor, owner: UserId) returns (error: Option<Error>)
      requires IsForest(nodes)
      modifies this
      ensures !actor.admin && actor.user != owner ==> error == Some(Forbidden) && Contents() == old(Contents())
      ensures actor.admin || actor.user == owner ==> error in {None, Some(ActiveUpload)}
      ensures error == None ==> Contents() == Without(old(Contents()), DeadNodes(old(nodes), owner))
      ensures error.Some? ==> Contents() == old(Contents())
      ensures error == Some(ActiveUpload) ==>
        exists x :: IsTrashRoot(old(nodes), owner, x) && HasActiveUpload(old(Contents()), Subtree(old(nodes), x))
    {
      if !actor.admin && actor.user != owner {
        return Some(Forbidden);
      }
      var ids := TrashRoots(nodes, owner);
      EmptyTrashRemovesTheDead(Contents(), actor, owner, ids);
      error := PurgeRoots(owner, ids);
    }

    /** The inserts and updates of a finalization whose checks passed. */
    method CommitFile(id: SessionId, file: NodeId, version: VersionId) returns (error: Option<Error>)
      requires id in sessions && sessions[id].owner in users && sessions[id].reserved <= users[sessions[id].owner].reserved
      modifies this
      ensures Ran(old(Contents()), CommitNewFile(old(Contents()), id, file, version), error)
    {
      var s := sessions[id];
      if file in nodes || file in sizes || version in versions {
        return Some(DuplicateKey);
      }
      if exists x :: x in nodes && ActiveChild(nodes, x, s.folder, s.nameKey) {
        return Some(NameConflict);
      }
      var user := users[s.owner];
      if user.used + s.size > MAX_INT64 {
        return Some(OutOfRange);
      }
      nodes := nodes[file := Node(File, s.owner, Some(s.folder), s.name, s.nameKey, false, false)];
      sizes := sizes[file := s.size];
      versions := versions[version := Version(file, s.size)];
      users := users[s.owner := user.(reserved := user.reserved - s.reserved, used := user.used + s.size)];
      sessions := sessions[id := s.(status := Completed, committed := Some(file))];
      error := None;
    }

    method CommitVersion(id: SessionId, file: NodeId, version: VersionId) returns (error: Option<Error>)
      requires id in sessions && sessions[id].owner in users && sessions[id].reserved <= users[sessions[id].owner].reserved
      modifies this
      ensures Ran(old(Contents()), CommitReplacement(old(Contents()), id, file, version), error)
    {
      var s := sessions[id];
      if file !in nodes || nodes[file].deleted || file !in sizes {
        return Some(NotFound);
      }
      if nodes[file].owner != s.owner || nodes[file].parent != Some(s.folder) || nodes[file].name != s.name {
        return Some(TargetChanged);
      }
      var user := users[s.owner];
      var delta := s.size - sizes[file];
      if delta > 0 && user.used > MAX_INT64 - delta {
        return Some(CounterOverflow);
      }
      if delta < 0 && user.used < -delta {
        return Some(CounterUnderflow);
      }
      if version in versions {
        return Some(DuplicateKey);
      }
      versions := versions[version := Version(file, s.size)];
      sizes := sizes[file := s.size];
      users := users[s.owner := user.(reserved := user.reserved - s.reserved, used := user.used + delta)];
      sessions := sessions[id := s.(status := Completed, committed := Some(file))];
      error := None;
    }

    method FinalizeCheck(actor: Actor, id: SessionId, now: int, complete: bool) returns (error: Option<Error>)
      requires IsForest(nodes) && id in sessions
      ensures error == FinalizeChecks(Contents(), actor, id, now, complete)
    {
      var s := sessions[id];
      if s.status != Open {
        return Some(Error.SessionClosed);
      }
      if now >= s.expiresAt {
        return Some(SessionExpired);
      }
      if !complete {
        return Some(IncompleteUpload);
      }
      if s.reserved != s.size {
        return Some(ReservationMismatch);
      }
      error := RequireTx(s.folder, actor, EDIT);
      if error.Some? {
        return;
      }
      if s.folder !in nodes || nodes[s.folder].deleted || nodes[s.folder].kind != Folder {
        return Some(NotFound);
      }
      if nodes[s.folder].owner != s.owner {
        return Some(OwnerChanged);
      }
      if s.owner !in users {
        return Some(NotFound);
      }
      if users[s.owner].reserved < s.reserved {
        return Some(CounterUnderflow);
      }
    }

    method Finalize(actor: Actor, id: SessionId, now: int, complete: bool, newFile: NodeId, version: VersionId)
      returns (error: Option<Error>)
      requires IsForest(nodes)
      modifies this
      ensures Ran(old(Contents()), Ledger.Finalize(old(Contents()), actor, id, now, complete, newFile, version), error)
    {
      if id !in sessions || (!actor.admin && sessions[id].actor != actor.user) {
        return Some(NotFound);
      }
      if sessions[id].status == Completed {
        return None;
      }
      error := FinalizeCheck(actor, id, now, complete);
      if error.Some? {
        return;
      }
      match sessions[id].target {
        case None => error := CommitFile(id, newFile, version);
        case Some(file) => error := CommitVersion(id, file, version);
      }
    }

    /** Overwrite the counters of one user. */
    method Recount(u: UserId)
      requires IsForest(nodes) && u in users
      modifies this`users
      ensures users == old(users)[u := Recounted(old(Contents()), u)]
    {
      var used := UsedBytes(nodes, sizes, u);
      var reserved := AddUp(Reservations(sessions), PendingOf(sessions, u));
      users := users[u := users[u].(used := used, reserved := reserved)];
    }

    /** `ReconcileQuota` for one user or for all: walk down from the root, add up, overwrite. */
    method ReconcileQuota(only: Option<UserId>) returns (error: Option<Error>)
      requires IsForest(nodes)
      modifies this`users
      ensures Ran(old(Contents()), Ledger.ReconcileQuota(old(Contents()), only), error)
    {
      if only.Some? && only.value !in users {
        return Some(NotFound);
      }
      error := None;
      RecountAll(if only.Some? then {only.value} else users.Keys);
    }

    method RecountAll(chosen: set<UserId>)
      requires IsForest(nodes) && chosen <= users.Keys
      modifies this`users
      ensures Contents() == Reconcile(old(Contents()), chosen)
    {
      ghost var before := Contents();
      ghost var done: set<UserId> := {};
      var rest := chosen;
      RecountedNone(before);
      while rest != {}
        invariant done + rest == chosen && done !! rest
        invariant Contents() == Reconcile(before, done)
        decreases rest
      {
        var u :| u in rest;
        RecountedOne(before, done, u);
        Recount(u);
        rest, done := rest - {u}, done + {u};
      }
    }
  }

  lemma RecountedNone(db: Db)
    requires IsForest(db.nodes)
    ensures Reconcile(db, {}) == db
  {
    assert Reconcile(db, {}).users == db.users;
  }

  lemma RecountedOne(db: Db, done: set<UserId>, u: UserId)
    requires IsForest(db.nodes) && u in db.users && u !in done
    ensures var now := Reconcile(db, done);
      Reconcile(db, done + {u}) == now.(users := now.users[u := Recounted(now, u)])
  {
    var now := Reconcile(db, done);
    assert Reconcile(db, done + {u}).users == now.users[u := Recounted(now, u)];
  }

  /** The downward walk from an owner's roots visits exactly the owner's live nodes. */
  method UsedBytes(nodes: Nodes, sizes: map<NodeId, nat>, owner: UserId) returns (bytes: nat)
    requires IsForest(nodes)
    ensures bytes == DerivedUsed(nodes, sizes, owner)
  {
    var roots := set r | r in nodes && nodes[r].root && !nodes[r].deleted && nodes[r].owner == owner;
    var active := Descend(nodes, roots);
    forall x
      ensures x in active <==> x in LiveNodes(nodes, owner)
    {
      BelowOwnRoot(nodes, owner, roots, x);
    }
    assert active == LiveNodes(nodes, owner);
    bytes := AddUp(sizes, active);
  }

  lemma BelowOwnRoot(nodes: Nodes, owner: UserId, roots: set<NodeId>, x: NodeId)
    requires IsForest(nodes)
    requires roots == set r | r in nodes && nodes[r].root && !nodes[r].deleted && nodes[r].owner == owner
    ensures Reached(nodes, roots, x) <==> x in LiveNodes(nodes, owner)
  {
    if Reached(nodes, roots, x) {
      var r :| r in roots && ActiveUnder(nodes, r, x);
      ActiveUnderFacts(nodes, r, x);
      assert WellPlaced(nodes, r) && Live(nodes, r);
      ActiveIsLive(nodes, r, x);
      SubtreeOwner(nodes, r, x);
    }
    if x in LiveNodes(nodes, owner) {
      var top := ChainOwner(nodes, x);
      LiveIsUndeletedChain(nodes, x);
      ActiveIsLive(nodes, top, x);
    }
  }
}
