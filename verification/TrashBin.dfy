/** Emptying the trash: the loop over trash roots removes exactly the owner's nodes that are not live. */
module TrashBin {
  import opened Forest
  import opened ForestEdits
  import opened Ledger
  import opened LedgerState

  /** Deleted nodes without a deleted proper ancestor. */
  ghost predicate IsTrashRoot(nodes: Nodes, owner: UserId, x: NodeId)
    requires IsForest(nodes)
  {
    && x in nodes && nodes[x].owner == owner && nodes[x].deleted
    && forall a :: a in Chain(nodes, x) && a != x && a in nodes ==> !nodes[a].deleted
  }

  /** A duplicate-free listing of the trash roots, as the query returns it in some order. */
  ghost predicate ListsTrashRoots(nodes: Nodes, owner: UserId, ids: seq<NodeId>)
    requires IsForest(nodes)
  {
    Distinct(ids) && forall x :: x in ids <==> IsTrashRoot(nodes, owner, x)
  }

  predicate Distinct(ids: seq<NodeId>) {
    forall i, j :: 0 <= i < j < |ids| ==> ids[i] != ids[j]
  }

  /** The loop of `EmptyTrash`: every id is loaded and checked again before its subtree goes. */
  ghost function PurgeEach(db: Db, owner: UserId, ids: seq<NodeId>): Outcome
    requires IsForest(db.nodes)
    decreases |ids|
  {
    if ids == [] then Done(db)
    else
      var id := ids[0];
      if id !in db.nodes || db.nodes[id].owner != owner then Refused(NotFound)
      else if db.nodes[id].root then Refused(RootImmutable)
      else if !db.nodes[id].deleted then Refused(NotDeleted)
      else
        match PurgeNode(db, id)
        case Refused(e) => Refused(e)
        case Done(next) =>
          PurgeForest(db.nodes, id);
          PurgeEach(next, owner, ids[1..])
  }

  ghost function EmptyTrash(db: Db, actor: Actor, owner: UserId, ids: seq<NodeId>): Outcome
    requires IsForest(db.nodes)
  {
    if !actor.admin && actor.user != owner then Refused(Forbidden)
    else PurgeEach(db, owner, ids)
  }

  /** Everything at or below one of the listed nodes. */
  ghost function Subtrees(nodes: Nodes, ids: seq<NodeId>): set<NodeId>
    requires IsForest(nodes)
  {
    set x | x in nodes && Under(nodes, ids, x)
  }

  ghost predicate Under(nodes: Nodes, ids: seq<NodeId>, x: NodeId)
    requires Rooted(nodes, x)
  {
    exists id :: id in ids && id in Chain(nodes, x)
  }

  /** The owner's nodes that are deleted or under a deleted node. */
  ghost function DeadNodes(nodes: Nodes, owner: UserId): set<NodeId>
    requires IsForest(nodes)
  {
    set x | x in nodes && nodes[x].owner == owner && !Live(nodes, x)
  }

  ghost predicate SomeActiveUpload(db: Db, ids: seq<NodeId>)
    requires IsForest(db.nodes)
  {
    exists id :: id in ids && HasActiveUpload(db, Subtree(db.nodes, id))
  }

  /** Two trash roots have no node below both. */
  lemma RootsApart(nodes: Nodes, owner: UserId, a: NodeId, b: NodeId, x: NodeId)
    requires IsForest(nodes) && IsTrashRoot(nodes, owner, a) && IsTrashRoot(nodes, owner, b) && x in nodes
    requires a in Chain(nodes, x) && b in Chain(nodes, x)
    ensures a == b
  {
    ChainIsLine(nodes, x, a, b);
  }

  /** Of two ancestors of a node one is an ancestor of the other. */
  lemma {:induction false} ChainIsLine(nodes: Nodes, x: NodeId, a: NodeId, b: NodeId)
    requires Rooted(nodes, x) && a in Chain(nodes, x) && b in Chain(nodes, x)
    ensures Rooted(nodes, a) && Rooted(nodes, b) && (a in Chain(nodes, b) || b in Chain(nodes, a))
    decreases Depth(nodes, x)
  {
    if a == x {
      ChainFacts(nodes, x, b);
    } else if b == x {
      ChainFacts(nodes, x, a);
    } else {
      ParentDepth(nodes, x);
      ChainIsLine(nodes, nodes[x].parent.value, a, b);
    }
  }

  /** Purging one trash root leaves the others as they were. */
  lemma OtherRootsStay(db: Db, owner: UserId, first: NodeId, id: NodeId)
    requires IsForest(db.nodes) && IsTrashRoot(db.nodes, owner, first) && IsTrashRoot(db.nodes, owner, id) && id != first
    ensures !db.nodes[first].root
    ensures var after := Without(db, Subtree(db.nodes, first));
      && IsForest(after.nodes) && IsTrashRoot(after.nodes, owner, id)
      && Subtree(after.nodes, id) == Subtree(db.nodes, id)
  {
    var after := Without(db, Subtree(db.nodes, first));
    assert WellPlaced(db.nodes, first);
    PurgeForest(db.nodes, first);
    ChainSelf(db.nodes, id);
    if first in Chain(db.nodes, id) {
      RootsApart(db.nodes, owner, first, id, id);
    }
    forall x | x in Subtree(db.nodes, id)
      ensures x in after.nodes
    {
      if first in Chain(db.nodes, x) {
        RootsApart(db.nodes, owner, first, id, x);
      }
    }
  }

  lemma UploadsElsewhereStay(db: Db, gone: set<NodeId>, other: set<NodeId>)
    requires !HasActiveUpload(db, gone)
    ensures HasActiveUpload(Without(db, gone), other) <==> HasActiveUpload(db, other)
  {
    var after := Without(db, gone);
    if HasActiveUpload(db, other) {
      var id :| id in db.sessions && Pending(db.sessions[id].status) && Touches(db.sessions[id], other);
      assert id in after.sessions;
    }
    if HasActiveUpload(after, other) {
      var id :| id in after.sessions && Pending(after.sessions[id].status) && Touches(after.sessions[id], other);
      assert id in db.sessions;
    }
  }

  /** Removing two sets of nodes one after the other is removing their union. */
  lemma WithoutTwice(db: Db, a: set<NodeId>, b: set<NodeId>)
    ensures Without(Without(db, a), b) == Without(db, a + b)
  {
    var twice := Without(Without(db, a), b);
    var both := Without(db, a + b);
    SessionsTwice(db, a, b);
    assert twice.nodes == both.nodes && twice.sizes == both.sizes;
    assert twice.versions == both.versions;
    assert twice.grants == both.grants;
  }

  lemma SessionsTwice(db: Db, a: set<NodeId>, b: set<NodeId>)
    ensures Without(Without(db, a), b).sessions == Without(db, a + b).sessions
  {
    var once := Without(db, a);
    forall id | id in db.sessions && !Touches(db.sessions[id], a)
      ensures Touches(once.sessions[id], b) <==> Touches(db.sessions[id], b)
      ensures ClearTarget(once.sessions[id], b) == ClearTarget(db.sessions[id], a + b)
    {
    }
  }

  /** The loop meets no missing id: it refuses exactly for an active upload, and else removes the subtrees. */
  lemma {:induction false} PurgeEachRemoves(db: Db, owner: UserId, ids: seq<NodeId>)
    requires IsForest(db.nodes) && Distinct(ids) && forall id :: id in ids ==> IsTrashRoot(db.nodes, owner, id)
    ensures PurgeEach(db, owner, ids) ==
      if SomeActiveUpload(db, ids) then Refused(ActiveUpload) else Done(Without(db, Subtrees(db.nodes, ids)))
    decreases |ids|
  {
    if ids == [] {
      assert Subtrees(db.nodes, ids) == {};
      WithoutNothing(db);
    } else {
      var first, rest := ids[0], ids[1..];
      var gone := Subtree(db.nodes, first);
      assert IsTrashRoot(db.nodes, owner, first) && WellPlaced(db.nodes, first);
      if HasActiveUpload(db, gone) {
        assert SomeActiveUpload(db, ids);
      } else {
        RestUnchanged(db, owner, ids);
        PurgeEachRemoves(Without(db, gone), owner, rest);
        SubtreesSplit(db, owner, ids);
        WithoutTwice(db, gone, Subtrees(Without(db, gone).nodes, rest));
      }
    }
  }

  lemma WithoutNothing(db: Db)
    ensures Without(db, {}) == db
  {
    var after := Without(db, {});
    assert after.nodes == db.nodes && after.sizes == db.sizes && after.sessions == db.sessions;
    assert after.versions == db.versions && after.grants == db.grants;
  }

  lemma RestUnchanged(db: Db, owner: UserId, ids: seq<NodeId>)
    requires IsForest(db.nodes) && Distinct(ids) && forall id :: id in ids ==> IsTrashRoot(db.nodes, owner, id)
    requires ids != [] && !HasActiveUpload(db, Subtree(db.nodes, ids[0]))
    ensures var after := Without(db, Subtree(db.nodes, ids[0]));
      && IsForest(after.nodes)
      && (forall id :: id in ids[1..] ==> IsTrashRoot(after.nodes, owner, id))
      && (SomeActiveUpload(after, ids[1..]) <==> SomeActiveUpload(db, ids))
  {
    var first := ids[0];
    var gone := Subtree(db.nodes, first);
    var after := Without(db, gone);
    assert IsTrashRoot(db.nodes, owner, first) && WellPlaced(db.nodes, first);
    PurgeForest(db.nodes, first);
    forall id | id in ids[1..]
      ensures IsTrashRoot(after.nodes, owner, id)
      ensures HasActiveUpload(after, Subtree(after.nodes, id)) <==> HasActiveUpload(db, Subtree(db.nodes, id))
    {
      OtherRootsStay(db, owner, first, id);
      UploadsElsewhereStay(db, gone, Subtree(db.nodes, id));
    }
    if SomeActiveUpload(db, ids) {
      var id :| id in ids && HasActiveUpload(db, Subtree(db.nodes, id));
      assert id in ids[1..];
    }
    if SomeActiveUpload(after, ids[1..]) {
      var id :| id in ids[1..] && HasActiveUpload(after, Subtree(after.nodes, id));
      assert id in ids;
    }
  }

  lemma SubtreesSplit(db: Db, owner: UserId, ids: seq<NodeId>)
    requires IsForest(db.nodes) && forall id :: id in ids ==> IsTrashRoot(db.nodes, owner, id)
    requires ids != [] && IsForest(Without(db, Subtree(db.nodes, ids[0])).nodes)
    ensures var gone := Subtree(db.nodes, ids[0]);
      Subtrees(db.nodes, ids) == gone + Subtrees(Without(db, gone).nodes, ids[1..])
  {
    var first := ids[0];
    var after := Without(db, Subtree(db.nodes, first));
    assert IsTrashRoot(db.nodes, owner, first) && WellPlaced(db.nodes, first);
    PurgeForest(db.nodes, first);
    forall x | x in db.nodes
      ensures Under(db.nodes, ids, x) <==> first in Chain(db.nodes, x) || Under(db.nodes, ids[1..], x)
    {
      if Under(db.nodes, ids, x) {
        var id :| id in ids && id in Chain(db.nodes, x);
        assert id == first || id in ids[1..];
      }
      if Under(db.nodes, ids[1..], x) {
        var id :| id in ids[1..] && id in Chain(db.nodes, x);
        assert id in ids;
      }
    }
  }

  /** Above every dead node stands a trash root. */
  lemma {:induction false} TrashRootAbove(nodes: Nodes, owner: UserId, x: NodeId) returns (top: NodeId)
    requires IsForest(nodes) && x in nodes && nodes[x].owner == owner && !Live(nodes, x)
    ensures top in Chain(nodes, x) && IsTrashRoot(nodes, owner, top)
    decreases Depth(nodes, x)
  {
    assert WellPlaced(nodes, x);
    ParentDepth(nodes, x);
    var p := nodes[x].parent.value;
    if Live(nodes, p) {
      LiveIsUndeletedChain(nodes, p);
      top := x;
    } else {
      top := TrashRootAbove(nodes, owner, p);
    }
  }

  lemma DeadAreBelowRoots(nodes: Nodes, owner: UserId, ids: seq<NodeId>)
    requires IsForest(nodes) && ListsTrashRoots(nodes, owner, ids)
    ensures Subtrees(nodes, ids) == DeadNodes(nodes, owner)
  {
    forall x | x in DeadNodes(nodes, owner)
      ensures x in Subtrees(nodes, ids)
    {
      var top := TrashRootAbove(nodes, owner, x);
      assert top in ids;
    }
    forall x | x in Subtrees(nodes, ids)
      ensures x in DeadNodes(nodes, owner)
    {
      var id :| id in ids && id in Chain(nodes, x);
      LiveIsUndeletedChain(nodes, x);
      SubtreeOwner(nodes, id, x);
    }
  }

  /**
   * Emptying the trash either refuses because an upload is active below a trash root, or removes
   * exactly the owner's nodes that are deleted or under a deleted node.
   */
  lemma EmptyTrashRemovesTheDead(db: Db, actor: Actor, owner: UserId, ids: seq<NodeId>)
    requires IsForest(db.nodes) && ListsTrashRoots(db.nodes, owner, ids) && (actor.admin || actor.user == owner)
    ensures EmptyTrash(db, actor, owner, ids) ==
      if SomeActiveUpload(db, ids) then Refused(ActiveUpload) else Done(Without(db, DeadNodes(db.nodes, owner)))
  {
    PurgeEachRemoves(db, owner, ids);
    DeadAreBelowRoots(db.nodes, owner, ids);
  }
}
