/** Permissions: the upward resolution of a level and the downward set of visible nodes. */
module Access {
  import opened Forest
  import opened Wrappers

  type Level = n: nat | n <= 3

  const NONE: Level := 0
  const VIEW: Level := 1
  const EDIT: Level := 2
  const FULL: Level := 3

  /** Stored grants; a stored level is never `none`. */
  type Grants = map<(NodeId, UserId), Level>

  ghost predicate GrantsStored(grants: Grants) {
    forall g :: g in grants ==> grants[g] >= VIEW
  }

  function Direct(grants: Grants, x: NodeId, user: UserId): Level {
    if (x, user) in grants then grants[(x, user)] else NONE
  }

  function Max(a: Level, b: Level): Level {
    if a >= b then a else b
  }

  /** The best grant met on the walk up from `x` before the first deleted node. */
  ghost function Score(nodes: Nodes, grants: Grants, x: NodeId, user: UserId): Level
    requires Rooted(nodes, x)
    decreases Depth(nodes, x)
  {
    if nodes[x].deleted then NONE
    else
      match nodes[x].parent
      case None => Direct(grants, x, user)
      case Some(p) =>
        ParentDepth(nodes, x);
        Max(Direct(grants, x, user), Score(nodes, grants, p, user))
  }

  /** `acl.resolve`: not found unless the whole chain is active; administrators and owners have everything. */
  ghost function Resolve(nodes: Nodes, grants: Grants, x: NodeId, user: UserId, admin: bool): Option<Level>
    requires IsForest(nodes)
  {
    if x !in nodes || !Live(nodes, x) then None
    else if admin || nodes[x].owner == user then Some(FULL)
    else Some(Score(nodes, grants, x, user))
  }

  predicate Allows(level: Option<Level>, required: Level) {
    level.Some? && level.value >= required
  }

  /** On a live chain the score is the greatest grant of the node and its ancestors. */
  lemma {:induction false} ScoreIsMaximum(nodes: Nodes, grants: Grants, x: NodeId, user: UserId)
    requires Rooted(nodes, x) && Live(nodes, x)
    ensures forall a :: a in Chain(nodes, x) ==> Direct(grants, a, user) <= Score(nodes, grants, x, user)
    ensures exists a :: a in Chain(nodes, x) && Direct(grants, a, user) == Score(nodes, grants, x, user)
    decreases Depth(nodes, x)
  {
    if nodes[x].parent.Some? {
      var p := nodes[x].parent.value;
      ParentDepth(nodes, x);
      ScoreIsMaximum(nodes, grants, p, user);
      var a :| a in Chain(nodes, p) && Direct(grants, a, user) == Score(nodes, grants, p, user);
      assert a in Chain(nodes, x) && x in Chain(nodes, x);
    } else {
      assert x in Chain(nodes, x);
    }
  }

  /** The walk as the loop the database runs: up to the first deleted node, remembering the best grant. */
  method ResolveByWalk(nodes: Nodes, grants: Grants, x: NodeId, user: UserId, admin: bool) returns (level: Option<Level>)
    requires IsForest(nodes)
    ensures level == Resolve(nodes, grants, x, user, admin)
  {
    if x !in nodes || nodes[x].deleted {
      return None;
    }
    var at := x;
    var score := NONE;
    var reachesRoot := false;
    while !reachesRoot
      invariant at in nodes && !nodes[at].deleted
      invariant !reachesRoot ==> (Live(nodes, x) <==> Live(nodes, at))
      invariant !reachesRoot ==> Score(nodes, grants, x, user) == Max(score, Score(nodes, grants, at, user))
      invariant reachesRoot ==> Live(nodes, x) && score == Score(nodes, grants, x, user)
      decreases !reachesRoot, Depth(nodes, at)
    {
      score := Max(score, Direct(grants, at, user));
      match nodes[at].parent {
        case None => reachesRoot := true;
        case Some(p) =>
          ParentDepth(nodes, at);
          if nodes[p].deleted {
            return None;
          }
          at := p;
      }
    }
    level := if admin || nodes[x].owner == user then Some(FULL) else Some(score);
  }

  // ----- Downward -----

  /** `active_grants`: granted folders whose whole ancestry is undeleted. */
  ghost function ActiveGrants(nodes: Nodes, grants: Grants, user: UserId): set<NodeId>
    requires IsForest(nodes)
  {
    set g | g in nodes && (g, user) in grants && Live(nodes, g)
  }

  /** `structural_roots`: the user's own root (an administrator: every root) and the active grants. */
  ghost function StructuralRoots(nodes: Nodes, grants: Grants, user: UserId, admin: bool): set<NodeId>
    requires IsForest(nodes)
  {
    (set r | r in nodes && nodes[r].root && !nodes[r].deleted && (admin || nodes[r].owner == user))
    + (if admin then {} else ActiveGrants(nodes, grants, user))
  }

  ghost predicate Visible(nodes: Nodes, grants: Grants, user: UserId, admin: bool, x: NodeId)
    requires IsForest(nodes)
  {
    Reached(nodes, StructuralRoots(nodes, grants, user, admin), x)
  }

  lemma RootsAreLive(nodes: Nodes, grants: Grants, user: UserId, admin: bool, r: NodeId)
    requires IsForest(nodes) && r in StructuralRoots(nodes, grants, user, admin)
    ensures Live(nodes, r)
  {
  }

  /** Access duality: what the search can reach downward is what resolves upward to at least viewing. */
  lemma VisibleIffResolves(nodes: Nodes, grants: Grants, user: UserId, admin: bool, x: NodeId)
    requires IsForest(nodes) && GrantsStored(grants) && x in nodes
    ensures Visible(nodes, grants, user, admin, x) <==> Allows(Resolve(nodes, grants, x, user, admin), VIEW)
  {
    if Visible(nodes, grants, user, admin, x) {
      var r :| r in StructuralRoots(nodes, grants, user, admin) && ActiveUnder(nodes, r, x);
      VisibleResolves(nodes, grants, user, admin, r, x);
    }
    if Allows(Resolve(nodes, grants, x, user, admin), VIEW) {
      ResolvesVisible(nodes, grants, user, admin, x);
    }
  }

  lemma VisibleResolves(nodes: Nodes, grants: Grants, user: UserId, admin: bool, r: NodeId, x: NodeId)
    requires IsForest(nodes) && GrantsStored(grants) && x in nodes
    requires r in StructuralRoots(nodes, grants, user, admin) && ActiveUnder(nodes, r, x)
    ensures Allows(Resolve(nodes, grants, x, user, admin), VIEW)
  {
    RootsAreLive(nodes, grants, user, admin, r);
    ActiveUnderFacts(nodes, r, x);
    ActiveIsLive(nodes, r, x);
    var top := ChainOwner(nodes, x);
    ScoreIsMaximum(nodes, grants, x, user);
    assert Direct(grants, r, user) <= Score(nodes, grants, x, user);
  }

  lemma ResolvesVisible(nodes: Nodes, grants: Grants, user: UserId, admin: bool, x: NodeId)
    requires IsForest(nodes) && GrantsStored(grants) && x in nodes
    requires Allows(Resolve(nodes, grants, x, user, admin), VIEW)
    ensures Visible(nodes, grants, user, admin, x)
  {
    var top := ChainOwner(nodes, x);
    if admin || nodes[x].owner == user {
      ActiveIsLive(nodes, top, x);
      assert top in StructuralRoots(nodes, grants, user, admin);
    } else {
      ScoreIsMaximum(nodes, grants, x, user);
      var a :| a in Chain(nodes, x) && Direct(grants, a, user) == Score(nodes, grants, x, user);
      ActiveIsLive(nodes, a, x);
      ChainFacts(nodes, x, a);
      assert a in ActiveGrants(nodes, grants, user);
    }
  }

  /** One grant of `grant_ancestry`: the walk over all ancestors, and whether all of them are undeleted. */
  method AncestryIsActive(nodes: Nodes, g: NodeId) returns (active: bool)
    requires IsForest(nodes) && g in nodes
    ensures active <==> Live(nodes, g)
  {
    var at := g;
    active := !nodes[g].deleted;
    while nodes[at].parent.Some?
      invariant at in nodes && (active ==> !nodes[at].deleted)
      invariant Live(nodes, g) <==> active && Live(nodes, at)
      decreases Depth(nodes, at)
    {
      ParentDepth(nodes, at);
      at := nodes[at].parent.value;
      active := active && !nodes[at].deleted;
    }
  }

  /** `active_grants`, grant by grant. */
  method FindActiveGrants(nodes: Nodes, grants: Grants, user: UserId) returns (found: set<NodeId>)
    requires IsForest(nodes)
    ensures found == ActiveGrants(nodes, grants, user)
  {
    found := {};
    var rest := set g | g in nodes && (g, user) in grants;
    while rest != {}
      invariant rest <= set g | g in nodes && (g, user) in grants
      invariant found == ActiveGrants(nodes, grants, user) - rest
      decreases rest
    {
      var g :| g in rest;
      var active := AncestryIsActive(nodes, g);
      rest := rest - {g};
      found := found + if active then {g} else {};
    }
  }

  /** `structural_roots`. */
  method FindStructuralRoots(nodes: Nodes, grants: Grants, user: UserId, admin: bool) returns (roots: set<NodeId>)
    requires IsForest(nodes)
    ensures roots == StructuralRoots(nodes, grants, user, admin)
  {
    roots := set r | r in nodes && nodes[r].root && !nodes[r].deleted && (admin || nodes[r].owner == user);
    if !admin {
      var granted := FindActiveGrants(nodes, grants, user);
      roots := roots + granted;
    }
  }

  /** The search's access set, computed as the query does: grants upward, then downward from the roots. */
  method StructuralAccess(nodes: Nodes, grants: Grants, user: UserId, admin: bool) returns (access: set<NodeId>)
    requires IsForest(nodes) && GrantsStored(grants)
    ensures forall x :: x in access <==> x in nodes && Allows(Resolve(nodes, grants, x, user, admin), VIEW)
  {
    var roots := FindStructuralRoots(nodes, grants, user, admin);
    access := Descend(nodes, roots);
    forall x
      ensures x in access <==> x in nodes && Allows(Resolve(nodes, grants, x, user, admin), VIEW)
    {
      if x in nodes {
        VisibleIffResolves(nodes, grants, user, admin, x);
      }
    }
  }

  /** `effectiveBrowserAccess`: the level a listing computes for a child from its parent's level. */
  function ChildLevel(inherited: Level, direct: Level, ownerOrAdmin: bool): Level {
    if ownerOrAdmin then FULL
    else if direct > inherited then direct
    else inherited
  }

  /** The incremental level of a listed child is the level resolved for it from scratch. */
  lemma ListedChildLevel(nodes: Nodes, grants: Grants, child: NodeId, user: UserId, admin: bool)
    requires IsForest(nodes) && child in nodes && nodes[child].parent.Some? && !nodes[child].deleted
    requires Resolve(nodes, grants, nodes[child].parent.value, user, admin).Some?
    ensures Resolve(nodes, grants, child, user, admin) ==
      Some(ChildLevel(Resolve(nodes, grants, nodes[child].parent.value, user, admin).value,
                      Direct(grants, child, user), admin || nodes[child].owner == user))
  {
    ParentDepth(nodes, child);
  }

  /** Access never shrinks on the way down an active path. */
  lemma {:induction false} AccessInherited(nodes: Nodes, grants: Grants, a: NodeId, x: NodeId, user: UserId, admin: bool)
    requires IsForest(nodes) && x in nodes && a in Chain(nodes, x) && Live(nodes, x)
    ensures a in nodes && Resolve(nodes, grants, a, user, admin).Some? && Resolve(nodes, grants, x, user, admin).Some?
    ensures Resolve(nodes, grants, a, user, admin).value <= Resolve(nodes, grants, x, user, admin).value
    decreases Depth(nodes, x)
  {
    if a != x {
      ParentDepth(nodes, x);
      AccessInherited(nodes, grants, a, nodes[x].parent.value, user, admin);
    }
  }
}
