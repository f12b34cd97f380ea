/** What inserting, moving, trashing, restoring and purging do to the forest and to which nodes are live. */
module ForestEdits {
  import opened Forest
  import opened Wrappers

  /** A chain none of whose nodes changed is the same chain. */
  lemma {:induction false} ChainUntouched(nodes: Nodes, after: Nodes, x: NodeId)
    requires Rooted(nodes, x)
    requires forall a :: a in Chain(nodes, x) ==> a in nodes && a in after && after[a] == nodes[a]
    ensures RootedAt(after, x, Depth(nodes, x)) && Rooted(after, x) && Depth(after, x) == Depth(nodes, x)
    ensures Chain(after, x) == Chain(nodes, x) && (Live(after, x) <==> Live(nodes, x))
    decreases Depth(nodes, x)
  {
    assert x in Chain(nodes, x);
    if nodes[x].parent.Some? {
      var p := nodes[x].parent.value;
      ParentDepth(nodes, x);
      ChainUntouched(nodes, after, p);
      assert RootedAt(after, x, Depth(nodes, p) + 1);
      DepthUnique(after, x, Depth(nodes, x), Depth(after, x));
      ParentDepth(after, x);
    } else {
      assert RootedAt(after, x, 0);
      DepthUnique(after, x, 0, Depth(after, x));
    }
  }

  /** The chain only looks at nodes that exist. */
  lemma {:induction false} ChainInside(nodes: Nodes, x: NodeId)
    requires Rooted(nodes, x)
    ensures Chain(nodes, x) <= nodes.Keys
    decreases Depth(nodes, x)
  {
    if nodes[x].parent.Some? {
      ParentDepth(nodes, x);
      ChainInside(nodes, nodes[x].parent.value);
    }
  }

  /** Live nodes of one owner. */
  ghost function LiveNodes(nodes: Nodes, owner: UserId): set<NodeId>
    requires IsForest(nodes)
  {
    set x | x in nodes && nodes[x].owner == owner && Live(nodes, x)
  }

  /** The node and everything below it, deleted or not. */
  ghost function Subtree(nodes: Nodes, n: NodeId): set<NodeId>
    requires IsForest(nodes)
  {
    set x | x in nodes && n in Chain(nodes, x)
  }

  lemma SubtreeOwner(nodes: Nodes, n: NodeId, x: NodeId)
    requires IsForest(nodes) && x in Subtree(nodes, n)
    ensures n in nodes && nodes[x].owner == nodes[n].owner
  {
    var _ := ChainOwner(nodes, x);
  }

  // ----- Insert a leaf -----

  lemma InsertLeaf(nodes: Nodes, id: NodeId, leaf: Node, p: NodeId)
    requires IsForest(nodes) && id !in nodes && p in nodes
    requires leaf.parent == Some(p) && !leaf.root && leaf.owner == nodes[p].owner && nodes[p].kind == Folder
    requires !leaf.deleted && Live(nodes, p)
    ensures var after := nodes[id := leaf];
      && IsForest(after) && Live(after, id)
      && (forall x :: x in nodes ==> (Live(after, x) <==> Live(nodes, x)))
      && (forall owner :: LiveNodes(after, owner) == LiveNodes(nodes, owner) + if owner == leaf.owner then {id} else {})
  {
    var after := nodes[id := leaf];
    forall x | x in nodes
      ensures Rooted(after, x) && (Live(after, x) <==> Live(nodes, x))
    {
      ChainInside(nodes, x);
      ChainUntouched(nodes, after, x);
    }
    assert RootedAt(after, id, Depth(after, p) + 1);
    ParentDepth(after, id);
    assert Live(after, id);
  }

  lemma InsertRoot(nodes: Nodes, id: NodeId, root: Node)
    requires IsForest(nodes) && id !in nodes && root.parent.None? && root.root && root.kind == Folder && !root.deleted
    ensures var after := nodes[id := root];
      && IsForest(after) && Live(after, id)
      && (forall x :: x in nodes ==> (Live(after, x) <==> Live(nodes, x)))
  {
    var after := nodes[id := root];
    forall x | x in nodes
      ensures Rooted(after, x) && (Live(after, x) <==> Live(nodes, x))
    {
      ChainInside(nodes, x);
      ChainUntouched(nodes, after, x);
    }
    assert RootedAt(after, id, 0);
  }

  // ----- Change one node's parent or flags -----

  /** After hanging `n` under `p`: chains above are the same, and below `n` liveness goes through `p`. */
  lemma {:induction false} Reparented(nodes: Nodes, n: NodeId, moved: Node, p: NodeId, x: NodeId)
    requires IsForest(nodes) && n in nodes && p in nodes && x in nodes
    requires n !in Chain(nodes, p) && moved.parent == Some(p)
    ensures var after := nodes[n := moved];
      && Rooted(after, x)
      && (n !in Chain(nodes, x) ==> (Live(after, x) <==> Live(nodes, x)))
      && (n in Chain(nodes, x) ==> (Live(after, x) <==> ActiveUnder(nodes, n, x) && !moved.deleted && Live(nodes, p)))
    decreases Depth(nodes, x)
  {
    var after := nodes[n := moved];
    if n !in Chain(nodes, x) {
      ChainInside(nodes, x);
      ChainUntouched(nodes, after, x);
    } else if x == n {
      ChainInside(nodes, p);
      ChainUntouched(nodes, after, p);
      assert RootedAt(after, n, Depth(after, p) + 1);
      ParentDepth(after, n);
    } else {
      ParentDepth(nodes, x);
      var q := nodes[x].parent.value;
      Reparented(nodes, n, moved, p, q);
      assert RootedAt(after, x, Depth(after, q) + 1);
      ParentDepth(after, x);
    }
  }

  lemma Reparent(nodes: Nodes, n: NodeId, moved: Node, p: NodeId)
    requires IsForest(nodes) && n in nodes && p in nodes && n !in Chain(nodes, p)
    requires moved.parent == Some(p) && SameIdentity(moved, nodes[n]) && !moved.root
    requires nodes[p].kind == Folder && nodes[p].owner == moved.owner
    ensures IsForest(nodes[n := moved])
  {
    var after := nodes[n := moved];
    forall x | x in after
      ensures Rooted(after, x) && WellPlaced(after, x)
    {
      Reparented(nodes, n, moved, p, x);
    }
  }

  /** Restoring: exactly the part active under `n` comes back to life. */
  lemma RestoreLive(nodes: Nodes, n: NodeId, moved: Node, p: NodeId)
    requires IsForest(nodes) && n in nodes && p in nodes && n !in Chain(nodes, p) && nodes[n].deleted
    requires moved.parent == Some(p) && SameIdentity(moved, nodes[n]) && !moved.root && !moved.deleted
    requires nodes[p].kind == Folder && nodes[p].owner == moved.owner && Live(nodes, p)
    ensures var after := nodes[n := moved];
      && IsForest(after)
      && LiveNodes(nodes, moved.owner) !! ActiveSubtree(nodes, n)
      && LiveNodes(after, moved.owner) == LiveNodes(nodes, moved.owner) + ActiveSubtree(nodes, n)
      && (forall owner :: owner != moved.owner ==> LiveNodes(after, owner) == LiveNodes(nodes, owner))
  {
    var after := nodes[n := moved];
    Reparent(nodes, n, moved, p);
    forall x | x in nodes
      ensures Live(after, x) <==> Live(nodes, x) || ActiveUnder(nodes, n, x)
      ensures !(Live(nodes, x) && ActiveUnder(nodes, n, x))
      ensures ActiveUnder(nodes, n, x) ==> nodes[x].owner == moved.owner
    {
      Reparented(nodes, n, moved, p, x);
      if n in Chain(nodes, x) {
        ActiveIsLive(nodes, n, x);
        assert !Live(nodes, n);
        SubtreeOwner(nodes, n, x);
      } else if ActiveUnder(nodes, n, x) {
        ActiveUnderFacts(nodes, n, x);
      }
    }
  }

  /** Moving between live folders changes nobody's liveness. */
  lemma MoveLive(nodes: Nodes, n: NodeId, moved: Node, p: NodeId)
    requires IsForest(nodes) && n in nodes && p in nodes && n !in Chain(nodes, p) && Live(nodes, n)
    requires moved.parent == Some(p) && SameIdentity(moved, nodes[n]) && !moved.root && !moved.deleted
    requires nodes[p].kind == Folder && nodes[p].owner == moved.owner && Live(nodes, p)
    ensures var after := nodes[n := moved];
      IsForest(after) && forall owner :: LiveNodes(after, owner) == LiveNodes(nodes, owner)
  {
    var after := nodes[n := moved];
    Reparent(nodes, n, moved, p);
    forall x | x in nodes
      ensures Live(after, x) <==> Live(nodes, x)
    {
      Reparented(nodes, n, moved, p, x);
      if n in Chain(nodes, x) {
        ActiveIsLive(nodes, n, x);
      }
    }
  }

  /** A file is nobody's ancestor, so it may hang under any folder. */
  lemma {:induction false} FileIsNoAncestor(nodes: Nodes, file: NodeId, p: NodeId)
    requires IsForest(nodes) && p in nodes && file in Chain(nodes, p) && file in nodes && nodes[file].kind == File
    ensures p == file
    decreases Depth(nodes, p)
  {
    if p != file {
      ParentDepth(nodes, p);
      FileIsNoAncestor(nodes, file, nodes[p].parent.value);
    }
  }

  // ----- Trash -----

  lemma {:induction false} Flagged(nodes: Nodes, n: NodeId, flagged: Node, x: NodeId)
    requires Rooted(nodes, x) && n in nodes && flagged.parent == nodes[n].parent && flagged.deleted
    ensures var after := nodes[n := flagged];
      Rooted(after, x) && (Live(after, x) <==> Live(nodes, x) && n !in Chain(nodes, x))
    decreases Depth(nodes, x)
  {
    var after := nodes[n := flagged];
    if nodes[x].parent.Some? {
      var p := nodes[x].parent.value;
      ParentDepth(nodes, x);
      Flagged(nodes, n, flagged, p);
      assert RootedAt(after, x, Depth(after, p) + 1);
      ParentDepth(after, x);
    } else {
      assert RootedAt(after, x, 0);
    }
  }

  /** Trashing a live node takes exactly the part active under it out of life. */
  lemma TrashLive(nodes: Nodes, n: NodeId, flagged: Node)
    requires IsForest(nodes) && n in nodes && Live(nodes, n)
    requires flagged == nodes[n].(deleted := true) && !flagged.root
    ensures var after := nodes[n := flagged];
      && IsForest(after)
      && ActiveSubtree(nodes, n) <= LiveNodes(nodes, flagged.owner)
      && LiveNodes(after, flagged.owner) == LiveNodes(nodes, flagged.owner) - ActiveSubtree(nodes, n)
      && (forall owner :: owner != flagged.owner ==> LiveNodes(after, owner) == LiveNodes(nodes, owner))
  {
    var after := nodes[n := flagged];
    FlaggedForest(nodes, n, flagged);
    forall x | x in nodes
      ensures Live(after, x) <==> Live(nodes, x) && !ActiveUnder(nodes, n, x)
      ensures ActiveUnder(nodes, n, x) ==> Live(nodes, x) && nodes[x].owner == flagged.owner
    {
      FlaggedLive(nodes, n, flagged, x);
    }
  }

  lemma FlaggedForest(nodes: Nodes, n: NodeId, flagged: Node)
    requires IsForest(nodes) && n in nodes && flagged == nodes[n].(deleted := true) && !flagged.root
    ensures IsForest(nodes[n := flagged])
  {
    var after := nodes[n := flagged];
    forall x | x in after
      ensures Rooted(after, x) && WellPlaced(after, x)
    {
      Flagged(nodes, n, flagged, x);
      assert WellPlaced(nodes, x);
    }
  }

  lemma FlaggedLive(nodes: Nodes, n: NodeId, flagged: Node, x: NodeId)
    requires IsForest(nodes) && n in nodes && Live(nodes, n) && flagged == nodes[n].(deleted := true) && x in nodes
    ensures Rooted(nodes[n := flagged], x)
    ensures Live(nodes[n := flagged], x) <==> Live(nodes, x) && !ActiveUnder(nodes, n, x)
    ensures ActiveUnder(nodes, n, x) ==> Live(nodes, x) && nodes[x].owner == flagged.owner
  {
    Flagged(nodes, n, flagged, x);
    if n in Chain(nodes, x) {
      ActiveIsLive(nodes, n, x);
      SubtreeOwner(nodes, n, x);
    } else if ActiveUnder(nodes, n, x) {
      ActiveUnderFacts(nodes, n, x);
    }
  }

  // ----- Purge -----

  /** Removing a whole subtree leaves the rest of the forest as it was. */
  lemma PurgeForest(nodes: Nodes, n: NodeId)
    requires IsForest(nodes) && n in nodes && !nodes[n].root
    ensures var after := nodes - Subtree(nodes, n);
      && IsForest(after)
      && (forall x :: x in after ==> Chain(after, x) == Chain(nodes, x) && (Live(after, x) <==> Live(nodes, x)))
  {
    var after := nodes - Subtree(nodes, n);
    forall x | x in after
      ensures Rooted(after, x) && WellPlaced(after, x)
      ensures Chain(after, x) == Chain(nodes, x) && (Live(after, x) <==> Live(nodes, x))
    {
      ChainInside(nodes, x);
      forall a | a in Chain(nodes, x)
        ensures a in after
      {
        ChainFacts(nodes, x, a);
      }
      ChainUntouched(nodes, after, x);
      if nodes[x].parent.Some? {
        ParentDepth(nodes, x);
        ChainSelf(nodes, nodes[x].parent.value);
      }
    }
  }

  lemma ChainSelf(nodes: Nodes, x: NodeId)
    requires Rooted(nodes, x)
    ensures x in Chain(nodes, x)
  {
  }

  /** Nothing below a deleted node is live. */
  lemma PurgeLive(nodes: Nodes, n: NodeId, owner: UserId)
    requires IsForest(nodes) && n in nodes && nodes[n].deleted
    ensures !nodes[n].root && IsForest(nodes - Subtree(nodes, n))
    ensures LiveNodes(nodes - Subtree(nodes, n), owner) == LiveNodes(nodes, owner)
  {
    assert WellPlaced(nodes, n);
    PurgeForest(nodes, n);
    forall x | x in Subtree(nodes, n)
      ensures !Live(nodes, x)
    {
      LiveIsUndeletedChain(nodes, x);
    }
  }
}
