/** The tree of files and folders, one tree a user: ancestor walks, subtrees and what being active means. */
module Forest {
  import opened Sums
  import opened Wrappers

  type NodeId = nat
  type UserId = nat

  datatype Kind = File | Folder

  datatype Node =
    Node(kind: Kind, owner: UserId, parent: Option<NodeId>, name: string, nameKey: string, root: bool, deleted: bool)

  type Nodes = map<NodeId, Node>

  /** The upward walk from `x` ends at a node without parent after exactly `k` steps. */
  ghost predicate RootedAt(nodes: Nodes, x: NodeId, k: nat)
    decreases k
  {
    x in nodes &&
    match nodes[x].parent
    case None => k == 0
    case Some(p) => k > 0 && RootedAt(nodes, p, k - 1)
  }

  /** The recursive ancestor query started at `x` terminates at a root. */
  ghost predicate Rooted(nodes: Nodes, x: NodeId) {
    exists k :: RootedAt(nodes, x, k)
  }

  /** Every node hangs below a root, under folders of its own owner; only roots have no parent, and roots stay. */
  ghost predicate IsForest(nodes: Nodes) {
    && (forall x :: x in nodes ==> Rooted(nodes, x))
    && (forall x :: x in nodes ==> WellPlaced(nodes, x))
  }

  predicate WellPlaced(nodes: Nodes, x: NodeId)
    requires x in nodes
  {
    match nodes[x].parent
    case None => nodes[x].root && nodes[x].kind == Folder && !nodes[x].deleted
    case Some(p) => !nodes[x].root && p in nodes && nodes[p].kind == Folder && nodes[p].owner == nodes[x].owner
  }

  /** What an edit of a row must leave alone. */
  predicate SameIdentity(a: Node, b: Node) {
    a.kind == b.kind && a.owner == b.owner && a.root == b.root
  }

  lemma {:induction false} DepthUnique(nodes: Nodes, x: NodeId, j: nat, k: nat)
    requires RootedAt(nodes, x, j) && RootedAt(nodes, x, k)
    ensures j == k
    decreases k
  {
    if k > 0 && nodes[x].parent.Some? {
      DepthUnique(nodes, nodes[x].parent.value, j - 1, k - 1);
    }
  }

  ghost function Depth(nodes: Nodes, x: NodeId): (k: nat)
    requires Rooted(nodes, x)
    ensures RootedAt(nodes, x, k)
  {
    var k :| RootedAt(nodes, x, k);
    k
  }

  lemma ParentDepth(nodes: Nodes, x: NodeId)
    requires Rooted(nodes, x) && nodes[x].parent.Some?
    ensures Rooted(nodes, nodes[x].parent.value)
    ensures Depth(nodes, nodes[x].parent.value) + 1 == Depth(nodes, x)
  {
    var k := Depth(nodes, x);
    assert RootedAt(nodes, nodes[x].parent.value, k - 1);
    DepthUnique(nodes, nodes[x].parent.value, k - 1, Depth(nodes, nodes[x].parent.value));
  }

  /** The node and all its ancestors. */
  ghost function Chain(nodes: Nodes, x: NodeId): set<NodeId>
    requires Rooted(nodes, x)
    decreases Depth(nodes, x)
  {
    match nodes[x].parent
    case None => {x}
    case Some(p) =>
      ParentDepth(nodes, x);
      {x} + Chain(nodes, p)
  }

  /** The node and all its ancestors are undeleted. */
  ghost predicate Live(nodes: Nodes, x: NodeId)
    requires Rooted(nodes, x)
    decreases Depth(nodes, x)
  {
    !nodes[x].deleted &&
    match nodes[x].parent
    case None => true
    case Some(p) =>
      ParentDepth(nodes, x);
      Live(nodes, p)
  }

  /** `x` is `a`, or lies below it with nothing deleted strictly between and at `x`. */
  ghost predicate ActiveUnder(nodes: Nodes, a: NodeId, x: NodeId)
    requires Rooted(nodes, x)
    decreases Depth(nodes, x)
  {
    x == a ||
    (!nodes[x].deleted &&
     match nodes[x].parent
     case None => false
     case Some(p) =>
       ParentDepth(nodes, x);
       ActiveUnder(nodes, a, p))
  }

  lemma {:induction false} ChainFacts(nodes: Nodes, x: NodeId, a: NodeId)
    requires Rooted(nodes, x) && a in Chain(nodes, x)
    ensures a in nodes && Rooted(nodes, a) && Chain(nodes, a) <= Chain(nodes, x)
    ensures Depth(nodes, a) <= Depth(nodes, x)
    ensures a != x ==> Depth(nodes, a) < Depth(nodes, x)
    decreases Depth(nodes, x)
  {
    if nodes[x].parent.Some? && a != x {
      ParentDepth(nodes, x);
      ChainFacts(nodes, nodes[x].parent.value, a);
    }
  }

  /** Being live is having no deleted node on the chain. */
  lemma {:induction false} LiveIsUndeletedChain(nodes: Nodes, x: NodeId)
    requires Rooted(nodes, x)
    ensures Live(nodes, x) <==> forall a :: a in Chain(nodes, x) && a in nodes ==> !nodes[a].deleted
    decreases Depth(nodes, x)
  {
    if nodes[x].parent.Some? {
      ParentDepth(nodes, x);
      LiveIsUndeletedChain(nodes, nodes[x].parent.value);
    }
  }

  lemma {:induction false} ActiveUnderFacts(nodes: Nodes, a: NodeId, x: NodeId)
    requires Rooted(nodes, x) && ActiveUnder(nodes, a, x)
    ensures a in Chain(nodes, x)
    decreases Depth(nodes, x)
  {
    if x != a {
      ParentDepth(nodes, x);
      ActiveUnderFacts(nodes, a, nodes[x].parent.value);
    }
  }

  /** Below a live node, active and live are the same; a live node is active under each of its ancestors. */
  lemma {:induction false} ActiveIsLive(nodes: Nodes, a: NodeId, x: NodeId)
    requires Rooted(nodes, x) && a in Chain(nodes, x)
    ensures Rooted(nodes, a)
    ensures Live(nodes, x) <==> ActiveUnder(nodes, a, x) && Live(nodes, a)
    decreases Depth(nodes, x)
  {
    if x != a {
      ParentDepth(nodes, x);
      ActiveIsLive(nodes, a, nodes[x].parent.value);
    }
  }

  /** All nodes of a chain have the owner of the node, and the topmost is that owner's root. */
  lemma {:induction false} ChainOwner(nodes: Nodes, x: NodeId) returns (top: NodeId)
    requires IsForest(nodes) && x in nodes
    ensures top in Chain(nodes, x) && top in nodes && nodes[top].root && nodes[top].owner == nodes[x].owner
    ensures forall a :: a in Chain(nodes, x) ==> a in nodes && nodes[a].owner == nodes[x].owner
    decreases Depth(nodes, x)
  {
    if nodes[x].parent.None? {
      top := x;
    } else {
      ParentDepth(nodes, x);
      top := ChainOwner(nodes, nodes[x].parent.value);
    }
  }

  // ----- Downward queries -----

  /** The recursive term of the subtree queries: undeleted children of the working table. */
  function ActiveChildren(nodes: Nodes, work: set<NodeId>): set<NodeId> {
    set c | c in nodes && !nodes[c].deleted && nodes[c].parent.Some? && nodes[c].parent.value in work
  }

  ghost predicate Reached(nodes: Nodes, roots: set<NodeId>, x: NodeId) {
    Rooted(nodes, x) && exists r :: r in roots && ActiveUnder(nodes, r, x)
  }

  lemma ReachedStep(nodes: Nodes, roots: set<NodeId>, x: NodeId)
    requires IsForest(nodes) && x in nodes && nodes[x].parent.Some? && !nodes[x].deleted
    ensures Reached(nodes, roots, nodes[x].parent.value) ==> Reached(nodes, roots, x)
  {
    var p := nodes[x].parent.value;
    ParentDepth(nodes, x);
    if Reached(nodes, roots, p) {
      var r :| r in roots && ActiveUnder(nodes, r, p);
      assert ActiveUnder(nodes, r, x);
    }
  }

  /** A recursive query with UNION: a working table, and results that are never visited twice. */
  method Descend(nodes: Nodes, roots: set<NodeId>) returns (result: set<NodeId>)
    requires IsForest(nodes) && roots <= nodes.Keys
    ensures forall x :: x in result <==> Reached(nodes, roots, x)
  {
    result := roots;
    var work := roots;
    while work != {}
      invariant work <= result <= nodes.Keys
      invariant roots <= result
      invariant forall x :: x in result ==> Reached(nodes, roots, x)
      invariant ActiveChildren(nodes, result - work) <= result
      decreases nodes.Keys - result + work, work
    {
      var next := ActiveChildren(nodes, work) - result;
      forall x | x in next
        ensures Reached(nodes, roots, x)
      {
        ReachedStep(nodes, roots, x);
      }
      ghost var before := result;
      assert nodes.Keys - (result + next) + next < nodes.Keys - result + work;
      work := next;
      result := result + next;
    }
    assert result - work == result;
    forall x | Reached(nodes, roots, x)
      ensures x in result
    {
      var r :| r in roots && ActiveUnder(nodes, r, x);
      ClosedCovers(nodes, result, r, x);
    }
  }

  /** A set closed under active children contains everything active under its members. */
  lemma {:induction false} ClosedCovers(nodes: Nodes, closed: set<NodeId>, r: NodeId, x: NodeId)
    requires Rooted(nodes, x) && r in closed && ActiveChildren(nodes, closed) <= closed && ActiveUnder(nodes, r, x)
    ensures x in closed
    decreases Depth(nodes, x)
  {
    if x != r {
      ParentDepth(nodes, x);
      ClosedCovers(nodes, closed, r, nodes[x].parent.value);
      assert x in ActiveChildren(nodes, closed);
    }
  }

  /** The nodes whose bytes count with `a`: those active under it. */
  ghost function ActiveSubtree(nodes: Nodes, a: NodeId): set<NodeId>
    requires IsForest(nodes)
  {
    set x | x in nodes && ActiveUnder(nodes, a, x)
  }

  ghost function Layer(nodes: Nodes, a: NodeId, depth: nat): set<NodeId>
    requires IsForest(nodes)
  {
    set x | x in ActiveSubtree(nodes, a) && Depth(nodes, x) == depth
  }

  ghost function Above(nodes: Nodes, a: NodeId, depth: nat): set<NodeId>
    requires IsForest(nodes)
  {
    set x | x in ActiveSubtree(nodes, a) && Depth(nodes, x) < depth
  }

  lemma NextLayer(nodes: Nodes, a: NodeId, depth: nat)
    requires IsForest(nodes) && a in nodes && depth >= Depth(nodes, a)
    ensures ActiveChildren(nodes, Layer(nodes, a, depth)) == Layer(nodes, a, depth + 1)
    ensures Above(nodes, a, depth + 1) == Above(nodes, a, depth) + Layer(nodes, a, depth)
  {
    forall x | x in Layer(nodes, a, depth + 1)
      ensures x in ActiveChildren(nodes, Layer(nodes, a, depth))
    {
      assert x != a;
      ParentDepth(nodes, x);
    }
    forall x | x in ActiveChildren(nodes, Layer(nodes, a, depth))
      ensures x in Layer(nodes, a, depth + 1)
    {
      ParentDepth(nodes, x);
    }
  }

  /** Once a layer is empty nothing lies deeper. */
  lemma {:induction false} NothingDeeper(nodes: Nodes, a: NodeId, depth: nat, x: NodeId)
    requires IsForest(nodes) && a in nodes && depth >= Depth(nodes, a) && Layer(nodes, a, depth) == {}
    requires x in ActiveSubtree(nodes, a)
    ensures Depth(nodes, x) < depth
    decreases Depth(nodes, x)
  {
    if x == a {
      assert Depth(nodes, a) != depth ==> Depth(nodes, a) < depth;
      assert a in Layer(nodes, a, depth) <==> Depth(nodes, a) == depth;
    } else {
      ParentDepth(nodes, x);
      NothingDeeper(nodes, a, depth, nodes[x].parent.value);
      assert x in Layer(nodes, a, depth) <==> Depth(nodes, x) == depth;
    }
  }

  lemma FirstLayer(nodes: Nodes, a: NodeId)
    requires IsForest(nodes) && a in nodes
    ensures Layer(nodes, a, Depth(nodes, a)) == {a} && Above(nodes, a, Depth(nodes, a)) == {}
  {
    forall x | x in ActiveSubtree(nodes, a)
      ensures x != a ==> Depth(nodes, a) < Depth(nodes, x)
    {
      ActiveUnderFacts(nodes, a, x);
      ChainFacts(nodes, x, a);
    }
  }

  ghost predicate Counted(nodes: Nodes, sizes: map<NodeId, nat>, a: NodeId, depth: nat, work: set<NodeId>, total: nat)
    requires IsForest(nodes) && a in nodes
  {
    && depth >= Depth(nodes, a)
    && work == Layer(nodes, a, depth)
    && total == Sum(sizes, Above(nodes, a, depth))
  }

  ghost function Uncounted(nodes: Nodes, a: NodeId, depth: nat): set<NodeId>
    requires IsForest(nodes)
  {
    ActiveSubtree(nodes, a) - Above(nodes, a, depth)
  }

  lemma CountLayer(nodes: Nodes, sizes: map<NodeId, nat>, a: NodeId, depth: nat, work: set<NodeId>, total: nat)
    requires IsForest(nodes) && a in nodes && Counted(nodes, sizes, a, depth, work, total) && work != {}
    ensures Counted(nodes, sizes, a, depth + 1, ActiveChildren(nodes, work), total + Sum(sizes, work))
    ensures Uncounted(nodes, a, depth + 1) < Uncounted(nodes, a, depth)
  {
    NextLayer(nodes, a, depth);
    SumDisjoint(sizes, Above(nodes, a, depth), work);
    var x :| x in work;
    assert x in Uncounted(nodes, a, depth) && x !in Uncounted(nodes, a, depth + 1);
  }

  lemma CountNothing(nodes: Nodes, sizes: map<NodeId, nat>, a: NodeId)
    requires IsForest(nodes) && a in nodes
    ensures Counted(nodes, sizes, a, Depth(nodes, a), {a}, 0)
  {
    FirstLayer(nodes, a);
  }

  lemma CountedAll(nodes: Nodes, sizes: map<NodeId, nat>, a: NodeId, depth: nat, total: nat)
    requires IsForest(nodes) && a in nodes && Counted(nodes, sizes, a, depth, {}, total)
    ensures total == Sum(sizes, ActiveSubtree(nodes, a))
  {
    forall x | x in ActiveSubtree(nodes, a)
      ensures x in Above(nodes, a, depth)
    {
      NothingDeeper(nodes, a, depth, x);
    }
    assert Above(nodes, a, depth) == ActiveSubtree(nodes, a);
  }

  /** The subtree query with UNION ALL and a sum: every active file below `a` is counted exactly once. */
  method SubtreeBytes(nodes: Nodes, sizes: map<NodeId, nat>, a: NodeId, includeDeletedRoot: bool) returns (total: nat)
    requires IsForest(nodes) && a in nodes
    ensures total == if nodes[a].deleted && !includeDeletedRoot then 0 else Sum(sizes, ActiveSubtree(nodes, a))
  {
    total := 0;
    if nodes[a].deleted && !includeDeletedRoot {
      return;
    }
    CountNothing(nodes, sizes, a);
    total := SumLayers(nodes, sizes, a, {a}, 0, Depth(nodes, a));
  }

  /** One round of the recursive term, and the rounds after it. */
  method SumLayers(nodes: Nodes, sizes: map<NodeId, nat>, a: NodeId, work: set<NodeId>, before: nat, ghost depth: nat)
    returns (total: nat)
    requires IsForest(nodes) && a in nodes && Counted(nodes, sizes, a, depth, work, before)
    ensures total == Sum(sizes, ActiveSubtree(nodes, a))
    decreases Uncounted(nodes, a, depth)
  {
    if work == {} {
      CountedAll(nodes, sizes, a, depth, before);
      return before;
    }
    CountLayer(nodes, sizes, a, depth, work, before);
    var bytes := AddUp(sizes, work);
    total := SumLayers(nodes, sizes, a, ActiveChildren(nodes, work), before + bytes, depth + 1);
  }
}
