/** The rows behind the quota ledger: nodes, files, users, upload sessions, versions and grants, and what holds of them. */
module LedgerState {
  import opened Access
  import opened Forest
  import opened ForestEdits
  import opened Sums
  import opened Wrappers

  /** The largest value of a bigint column. */
  const MAX_INT64: nat := 0x7fff_ffff_ffff_ffff

  type SessionId = nat
  type VersionId = nat

  datatype Actor = Actor(user: UserId, admin: bool)

  datatype User = User(quota: Option<nat>, used: nat, reserved: nat)

  datatype Status = Open | Completing | Completed | Cancelled | Expired | Failed

  datatype Session = Session(
    actor: UserId, owner: UserId, folder: NodeId, name: string, nameKey: string,
    size: nat, reserved: nat, status: Status, expiresAt: int,
    target: Option<NodeId>, committed: Option<NodeId>)

  datatype Version = Version(file: NodeId, size: nat)

  datatype Db = Db(
    nodes: Nodes, sizes: map<NodeId, nat>, users: map<UserId, User>,
    sessions: map<SessionId, Session>, versions: map<VersionId, Version>, grants: Grants)

  /** The program reports one error for the last five; they are told apart here. */
  datatype Error =
    | NotFound | Forbidden | RootImmutable | NotFolder | CrossOwner | Cycle | NameConflict
    | NotDeleted | RestoreTarget | QuotaExceeded | FileExists | SessionClosed | SessionExpired
    | IncompleteUpload | VersionNotFound | ActiveUpload | InvalidGrant | InvalidQuota | DuplicateKey | OutOfRange
    | CounterUnderflow | CounterOverflow | OwnerChanged | TargetChanged | ReservationMismatch

  datatype Outcome = Done(db: Db) | Refused(error: Error)

  predicate Pending(status: Status) {
    status == Open || status == Completing
  }

  // ----- What the tables always satisfy -----

  predicate ActiveChild(nodes: Nodes, x: NodeId, parent: NodeId, key: string) {
    x in nodes && !nodes[x].deleted && nodes[x].parent == Some(parent) && nodes[x].nameKey == key
  }

  /** The unique index over undeleted siblings. */
  ghost predicate UniqueNames(nodes: Nodes) {
    forall x, y, parent, key :: ActiveChild(nodes, x, parent, key) && ActiveChild(nodes, y, parent, key) ==> x == y
  }

  predicate IsFile(nodes: Nodes, x: NodeId) {
    x in nodes && nodes[x].kind == File
  }

  ghost predicate FilesSized(nodes: Nodes, sizes: map<NodeId, nat>) {
    && (forall x :: x in sizes <==> IsFile(nodes, x))
    && (forall x :: x in sizes ==> sizes[x] <= MAX_INT64)
  }

  ghost predicate OwnersKnown(nodes: Nodes, users: map<UserId, User>) {
    forall x :: x in nodes ==> nodes[x].owner in users
  }

  predicate SessionPlaced(db: Db, s: Session) {
    && s.owner in db.users
    && s.folder in db.nodes && db.nodes[s.folder].kind == Folder && db.nodes[s.folder].owner == s.owner
    && (s.target.Some? ==> s.target.value in db.sizes)
    && (s.committed.Some? ==> s.committed.value in db.sizes)
    && s.size <= MAX_INT64 && s.reserved <= s.size
  }

  ghost predicate SessionsPlaced(db: Db) {
    forall id :: id in db.sessions ==> SessionPlaced(db, db.sessions[id])
  }

  ghost predicate VersionsPlaced(db: Db) {
    forall v :: v in db.versions ==> db.versions[v].file in db.sizes && db.versions[v].size <= MAX_INT64
  }

  ghost predicate GrantsPlaced(db: Db) {
    forall g :: g in db.grants ==> g.0 in db.nodes && db.nodes[g.0].kind == Folder && db.grants[g] >= VIEW
  }

  ghost predicate Shape(db: Db) {
    && IsForest(db.nodes)
    && UniqueNames(db.nodes)
    && FilesSized(db.nodes, db.sizes)
    && OwnersKnown(db.nodes, db.users)
    && SessionsPlaced(db)
    && VersionsPlaced(db)
    && GrantsPlaced(db)
  }

  // ----- Rows that others refer to -----

  /** No row that another row may refer to has gone or changed kind or owner. */
  ghost predicate Preserves(db: Db, after: Db) {
    && (forall x :: x in db.nodes ==> x in after.nodes && SameIdentity(after.nodes[x], db.nodes[x]))
    && (forall x :: x in db.sizes ==> x in after.sizes)
    && (forall u :: u in db.users ==> u in after.users)
  }

  /** The session is an old one, or placed anew. */
  predicate OldOrPlaced(db: Db, after: Db, id: SessionId)
    requires id in after.sessions
  {
    (id in db.sessions && db.sessions[id] == after.sessions[id]) || SessionPlaced(after, after.sessions[id])
  }

  lemma SessionsKept(db: Db, after: Db)
    requires SessionsPlaced(db) && Preserves(db, after)
    requires forall id :: id in after.sessions ==> OldOrPlaced(db, after, id)
    ensures SessionsPlaced(after)
  {
    forall id | id in after.sessions
      ensures SessionPlaced(after, after.sessions[id])
    {
      assert OldOrPlaced(db, after, id);
      if id in db.sessions && db.sessions[id] == after.sessions[id] {
        assert SessionPlaced(db, db.sessions[id]);
      }
    }
  }

  lemma VersionsKept(db: Db, after: Db)
    requires VersionsPlaced(db) && Preserves(db, after)
    requires forall v :: v in after.versions ==>
      (v in db.versions && db.versions[v] == after.versions[v]) ||
      (after.versions[v].file in after.sizes && after.versions[v].size <= MAX_INT64)
    ensures VersionsPlaced(after)
  {
  }

  lemma GrantsKept(db: Db, after: Db)
    requires GrantsPlaced(db) && Preserves(db, after) && after.grants == db.grants
    ensures GrantsPlaced(after)
  {
  }

  // ----- The counters and what they count -----

  /** Bytes of the files whose whole ancestor chain is undeleted. */
  ghost function DerivedUsed(nodes: Nodes, sizes: map<NodeId, nat>, user: UserId): nat
    requires IsForest(nodes)
  {
    Sum(sizes, LiveNodes(nodes, user))
  }

  function Reservations(sessions: map<SessionId, Session>): map<SessionId, nat> {
    map id | id in sessions :: sessions[id].reserved
  }

  function PendingOf(sessions: map<SessionId, Session>, user: UserId): set<SessionId> {
    set id | id in sessions && sessions[id].owner == user && Pending(sessions[id].status)
  }

  /** Bytes reserved by the sessions that are not closed. */
  ghost function DerivedReserved(sessions: map<SessionId, Session>, user: UserId): nat {
    Sum(Reservations(sessions), PendingOf(sessions, user))
  }

  ghost predicate CountsExactly(db: Db, user: UserId)
    requires IsForest(db.nodes) && user in db.users
  {
    && db.users[user].used == DerivedUsed(db.nodes, db.sizes, user)
    && db.users[user].reserved == DerivedReserved(db.sessions, user)
    && db.users[user].used <= MAX_INT64 && db.users[user].reserved <= MAX_INT64
  }

  ghost predicate CountersExact(db: Db)
    requires IsForest(db.nodes)
  {
    forall user :: user in db.users ==> CountsExactly(db, user)
  }

  ghost predicate Valid(db: Db) {
    Shape(db) && CountersExact(db)
  }

  predicate OverQuota(user: User) {
    user.quota.Some? && user.used + user.reserved > user.quota.value
  }

  /** The step kept every user and every quota, and pushed nobody past the quota or further past it. */
  ghost predicate QuotaRespected(before: Db, after: Db) {
    forall user :: user in before.users ==> user in after.users && Within(before.users[user], after.users[user])
  }

  predicate Within(before: User, after: User) {
    after.quota == before.quota && (OverQuota(after) ==> NotRaised(before, after))
  }

  predicate NotRaised(before: User, after: User) {
    after.used + after.reserved <= before.used + before.reserved
  }

  // ----- How the derived sums move -----

  /** Closing a pending session takes its reservation out of the owner's sum. */
  lemma SessionCloses(sessions: map<SessionId, Session>, id: SessionId, closed: Session, user: UserId)
    requires id in sessions && Pending(sessions[id].status) && !Pending(closed.status)
    requires closed.owner == sessions[id].owner
    ensures var after := sessions[id := closed];
      DerivedReserved(sessions, user) ==
      DerivedReserved(after, user) + if user == closed.owner then sessions[id].reserved else 0
  {
    var after := sessions[id := closed];
    var pending := PendingOf(sessions, user);
    if user == closed.owner {
      SumTake(Reservations(sessions), pending, id);
      assert PendingOf(after, user) == pending - {id};
    } else {
      assert PendingOf(after, user) == pending;
    }
    SumAgree(Reservations(sessions), Reservations(after), PendingOf(after, user));
  }

  lemma SessionOpens(sessions: map<SessionId, Session>, id: SessionId, added: Session, user: UserId)
    requires id !in sessions && Pending(added.status)
    ensures var after := sessions[id := added];
      DerivedReserved(after, user) ==
      DerivedReserved(sessions, user) + if user == added.owner then added.reserved else 0
  {
    var after := sessions[id := added];
    var pending := PendingOf(after, user);
    if user == added.owner {
      SumTake(Reservations(after), pending, id);
      assert PendingOf(sessions, user) == pending - {id};
    } else {
      assert PendingOf(sessions, user) == pending;
    }
    SumAgree(Reservations(sessions), Reservations(after), PendingOf(sessions, user));
  }

  /** A reservation that is counted fits into the counter. */
  lemma ReservationCounted(db: Db, id: SessionId)
    requires Valid(db) && id in db.sessions && Pending(db.sessions[id].status)
    ensures db.sessions[id].owner in db.users
    ensures db.users[db.sessions[id].owner].reserved >= db.sessions[id].reserved
  {
    var owner := db.sessions[id].owner;
    assert SessionPlaced(db, db.sessions[id]);
    assert CountsExactly(db, owner);
    SumTake(Reservations(db.sessions), PendingOf(db.sessions, owner), id);
  }

  /** Giving one live file another size moves its owner's sum by the difference. */
  lemma FileResized(nodes: Nodes, sizes: map<NodeId, nat>, file: NodeId, size: nat, user: UserId)
    requires IsForest(nodes) && file in nodes && file in sizes && Live(nodes, file)
    ensures sizes[file] <= DerivedUsed(nodes, sizes, nodes[file].owner)
    ensures DerivedUsed(nodes, sizes[file := size], user) ==
      DerivedUsed(nodes, sizes, user) + if user == nodes[file].owner then size - sizes[file] else 0
  {
    var live := LiveNodes(nodes, user);
    if user == nodes[file].owner {
      SumTake(sizes, live, file);
      SumTake(sizes[file := size], live, file);
    } else {
      SumTake(sizes, LiveNodes(nodes, nodes[file].owner), file);
    }
    SumAgree(sizes, sizes[file := size], live - {file});
    assert user != nodes[file].owner ==> live - {file} == live;
  }

  /** Bytes below a live node are part of the owner's bytes. */
  lemma SubtreeCounted(db: Db, n: NodeId)
    requires Valid(db) && n in db.nodes && Live(db.nodes, n)
    ensures db.nodes[n].owner in db.users
    ensures db.users[db.nodes[n].owner].used >= Sum(db.sizes, ActiveSubtree(db.nodes, n))
  {
    var owner := db.nodes[n].owner;
    forall x | x in ActiveSubtree(db.nodes, n)
      ensures x in LiveNodes(db.nodes, owner)
    {
      ActiveUnderFacts(db.nodes, n, x);
      ActiveIsLive(db.nodes, n, x);
      SubtreeOwner(db.nodes, n, x);
    }
    assert CountsExactly(db, owner);
    SumSplit(db.sizes, LiveNodes(db.nodes, owner), ActiveSubtree(db.nodes, n));
  }
}
