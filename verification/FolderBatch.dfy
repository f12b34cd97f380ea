/** Creating a batch of folders that name each other as parents: validation, recursive resolution, cycles. */
module FolderBatch {
  import opened Forest
  import opened ForestEdits
  import opened Text
  import opened Wrappers
  import Access
  import Ledger
  import LedgerKeeps
  import LedgerState

  const MAX_FOLDERS: nat := 1000
  const MAX_ID_BYTES: nat := 128
  const NUL: char := '\0'

  datatype Input = Input(clientId: string, parentClientId: string, name: string)

  /** A validated folder: the client id of its parent (empty for the batch's target), its name and name key. */
  datatype Spec = Spec(parent: string, name: string, key: string)

  type Specs = map<string, Spec>

  /** Display name and key of an acceptable name; how names are normalised is left to the caller. */
  type Normalizer = string -> Option<(string, string)>

  datatype Error = InvalidBatch | InvalidName | NameConflict | TargetRefused(error: LedgerState.Error)

  // ----- Validation -----

  function Utf8Length(s: string): nat {
    if s == "" then 0
    else
      var c := s[0];
      (if c < '\U{80}' then 1 else if c < '\U{800}' then 2 else if c < '\U{10000}' then 3 else 4) + Utf8Length(s[1..])
  }

  /** One to four bytes a character, by its code point. */
  lemma {:induction false} Utf8LengthOf(s: string, c: char)
    ensures Utf8Length([c]) == if c as int < 128 then 1 else if c as int < 2048 then 2 else if c as int < 65536 then 3 else 4
    ensures Utf8Length(s + [c]) == Utf8Length(s) + Utf8Length([c])
    decreases |s|
  {
    if s == "" {
      assert s + [c] == [c];
    } else {
      Utf8LengthOf(s[1..], c);
      assert (s + [c])[1..] == s[1..] + [c];
    }
  }

  predicate IdOk(id: string, parentId: string) {
    id != "" && Utf8Length(id) <= MAX_ID_BYTES && NUL !in id && id != parentId
  }

  function PathKey(spec: Spec): string {
    spec.parent + [NUL] + spec.key
  }

  /** An input as the validation reads it: its id, whether id and name are fit, its specification and path key. */
  datatype Entry = Entry(id: string, idFit: bool, nameFit: bool, spec: Spec, pathKey: string)

  function Read(input: Input, normalize: Normalizer): (e: Entry)
    ensures e.pathKey == PathKey(e.spec) && (e.idFit ==> NUL !in e.id)
    ensures e.nameFit <==> normalize(input.name).Some?
    ensures e.id == TrimSpace(input.clientId) && e.spec.parent == TrimSpace(input.parentClientId)
    ensures e.nameFit ==> (e.spec.name, e.spec.key) == normalize(input.name).value
    ensures e.idFit <==>
      1 <= |e.id| && Utf8Length(e.id) <= 128 && NUL !in e.id && e.id != e.spec.parent
  {
    var id, parent := TrimSpace(input.clientId), TrimSpace(input.parentClientId);
    var name := normalize(input.name);
    var spec := Spec(parent, if name.Some? then name.value.0 else "", if name.Some? then name.value.1 else "");
    Entry(id, IdOk(id, parent), name.Some?, spec, PathKey(spec))
  }

  function Entries(inputs: seq<Input>, normalize: Normalizer): (entries: seq<Entry>)
    ensures |entries| == |inputs| && WellRead(entries)
    ensures forall i :: 0 <= i < |inputs| ==> entries[i] == Read(inputs[i], normalize)
  {
    seq(|inputs|, i requires 0 <= i < |inputs| => Read(inputs[i], normalize))
  }

  predicate WellRead(entries: seq<Entry>) {
    forall i :: 0 <= i < |entries| ==>
      entries[i].pathKey == PathKey(entries[i].spec) && (entries[i].idFit ==> NUL !in entries[i].id)
  }

  predicate SamePlace(a: Spec, b: Spec) {
    a.parent == b.parent && a.key == b.key
  }

  predicate EachFit(entries: seq<Entry>) {
    forall i :: 0 <= i < |entries| ==> entries[i].idFit && entries[i].nameFit
  }

  predicate DistinctIds(entries: seq<Entry>) {
    forall i, j :: 0 <= i < j < |entries| ==> entries[i].id != entries[j].id
  }

  /** No two folders of the batch want the same name in the same parent. */
  predicate DistinctPlaces(entries: seq<Entry>) {
    forall i, j :: 0 <= i < j < |entries| ==> !SamePlace(entries[i].spec, entries[j].spec)
  }

  predicate ParentsKnown(entries: seq<Entry>) {
    forall i :: 0 <= i < |entries| ==> entries[i].spec.parent == "" || HasId(entries, entries[i].spec.parent)
  }

  predicate HasId(entries: seq<Entry>, id: string) {
    exists j :: 0 <= j < |entries| && entries[j].id == id
  }

  /** What a batch must satisfy to be looked at. */
  predicate Acceptable(entries: seq<Entry>) {
    && 1 <= |entries| <= MAX_FOLDERS && EachFit(entries) && DistinctIds(entries)
    && DistinctPlaces(entries) && ParentsKnown(entries)
  }

  /** The map holds exactly the specifications of the entries. */
  ghost predicate Describes(specs: Specs, entries: seq<Entry>) {
    && (forall i :: 0 <= i < |entries| ==> entries[i].id in specs && specs[entries[i].id] == entries[i].spec)
    && (forall id :: id in specs ==> HasId(entries, id))
  }

  // The two maps the validation fills, turn by turn.

  /** What holds of them after the turns on the given entries. */
  ghost predicate Collected(specs: Specs, paths: set<string>, entries: seq<Entry>) {
    && Describes(specs, entries) && EachFit(entries) && DistinctIds(entries)
    && (forall i, j :: 0 <= i < j < |entries| ==> entries[i].pathKey != entries[j].pathKey)
    && (forall i :: 0 <= i < |entries| ==> entries[i].pathKey in paths)
    && (forall p :: p in paths ==> HasPath(entries, p))
  }

  predicate HasPath(entries: seq<Entry>, p: string) {
    exists i :: 0 <= i < |entries| && entries[i].pathKey == p
  }

  lemma Collect(specs: Specs, paths: set<string>, entries: seq<Entry>, e: Entry)
    requires Collected(specs, paths, entries) && e.idFit && e.nameFit && e.id !in specs && e.pathKey !in paths
    ensures Collected(specs[e.id := e.spec], paths + {e.pathKey}, entries + [e])
  {
    DescribesMore(specs, entries, e);
    PathsMore(paths, entries, e);
    forall i | 0 <= i < |entries|
      ensures entries[i].id != e.id && entries[i].pathKey != e.pathKey
    {
      assert entries[i].id in specs && entries[i].pathKey in paths;
    }
    NewAmong(entries, e);
  }

  lemma NewAmong(entries: seq<Entry>, e: Entry)
    requires EachFit(entries) && DistinctIds(entries) && e.idFit && e.nameFit
    requires forall i, j :: 0 <= i < j < |entries| ==> entries[i].pathKey != entries[j].pathKey
    requires forall i :: 0 <= i < |entries| ==> entries[i].id != e.id && entries[i].pathKey != e.pathKey
    ensures EachFit(entries + [e]) && DistinctIds(entries + [e])
    ensures forall i, j :: 0 <= i < j < |entries + [e]| ==> (entries + [e])[i].pathKey != (entries + [e])[j].pathKey
  {
  }

  lemma PathsMore(paths: set<string>, entries: seq<Entry>, e: Entry)
    requires forall p :: p in paths ==> HasPath(entries, p)
    ensures forall p :: p in paths + {e.pathKey} ==> HasPath(entries + [e], p)
  {
    var after := entries + [e];
    forall p | p in paths + {e.pathKey}
      ensures HasPath(after, p)
    {
      if p in paths {
        assert HasPath(entries, p);
        var j :| 0 <= j < |entries| && entries[j].pathKey == p;
        assert after[j] == entries[j];
      } else {
        assert after[|entries|] == e;
      }
    }
  }

  lemma DescribesMore(specs: Specs, entries: seq<Entry>, e: Entry)
    requires Describes(specs, entries) && e.id !in specs
    ensures Describes(specs[e.id := e.spec], entries + [e])
  {
    var after := entries + [e];
    forall id | id in specs[e.id := e.spec]
      ensures HasId(after, id)
    {
      if id in specs {
        assert HasId(entries, id);
        var j :| 0 <= j < |entries| && entries[j].id == id;
        assert after[j] == entries[j];
      } else {
        assert after[|entries|] == e;
      }
    }
  }

  /** Joining with a character that ids never contain does not confuse two places. */
  lemma PathKeysTellPlaces(a: Spec, b: Spec)
    requires NUL !in a.parent && NUL !in b.parent
    ensures PathKey(a) == PathKey(b) <==> SamePlace(a, b)
  {
    CutAt(a.parent, NUL, a.key);
    CutAt(b.parent, NUL, b.key);
  }

  lemma KnownParentsHaveNoNul(entries: seq<Entry>, i: nat)
    requires WellRead(entries) && EachFit(entries) && ParentsKnown(entries) && i < |entries|
    ensures NUL !in entries[i].spec.parent
  {
    if entries[i].spec.parent != "" {
      var j :| 0 <= j < |entries| && entries[j].id == entries[i].spec.parent;
    }
  }

  /** An acceptable batch passes the next turn of the loop. */
  lemma AcceptablePasses(specs: Specs, paths: set<string>, entries: seq<Entry>, n: nat)
    requires WellRead(entries) && Acceptable(entries) && n < |entries| && Collected(specs, paths, entries[..n])
    ensures entries[n].idFit && entries[n].nameFit && entries[n].id !in specs && entries[n].pathKey !in paths
  {
    var seen := entries[..n];
    forall i | 0 <= i < n
      ensures seen[i].id != entries[n].id && seen[i].pathKey != entries[n].pathKey
    {
      assert seen[i] == entries[i];
      KnownParentsHaveNoNul(entries, i);
      KnownParentsHaveNoNul(entries, n);
      PathKeysTellPlaces(entries[i].spec, entries[n].spec);
    }
    assert !HasId(seen, entries[n].id) && !HasPath(seen, entries[n].pathKey);
  }

  /** A batch that passed every turn is acceptable if its parents are known, which its map tells. */
  lemma PassedIsAcceptable(specs: Specs, paths: set<string>, entries: seq<Entry>)
    requires WellRead(entries) && Collected(specs, paths, entries) && 1 <= |entries| <= MAX_FOLDERS
    ensures Acceptable(entries) <==> forall id :: id in specs ==> specs[id].parent == "" || specs[id].parent in specs
  {
    forall i, j | 0 <= i < j < |entries|
      ensures !SamePlace(entries[i].spec, entries[j].spec)
    {
      assert entries[i].pathKey != entries[j].pathKey;
    }
    if forall id :: id in specs ==> specs[id].parent == "" || specs[id].parent in specs {
      forall i | 0 <= i < |entries|
        ensures entries[i].spec.parent == "" || HasId(entries, entries[i].spec.parent)
      {
        assert entries[i].id in specs;
      }
    }
    if ParentsKnown(entries) {
      forall id | id in specs
        ensures specs[id].parent == "" || specs[id].parent in specs
      {
        var i :| 0 <= i < |entries| && entries[i].id == id;
        if entries[i].spec.parent != "" {
          var j :| 0 <= j < |entries| && entries[j].id == entries[i].spec.parent;
        }
      }
    }
  }

  predicate Passes(specs: Specs, paths: set<string>, e: Entry) {
    e.idFit && e.nameFit && e.id !in specs && e.pathKey !in paths
  }

  /** One turn: an entry that does not pass spoils the batch, one that passes joins the collection. */
  lemma Turn(specs: Specs, paths: set<string>, entries: seq<Entry>, n: nat)
    requires WellRead(entries) && n < |entries| && Collected(specs, paths, entries[..n])
    ensures Acceptable(entries) ==> Passes(specs, paths, entries[n])
    ensures Passes(specs, paths, entries[n]) ==>
      Collected(specs[entries[n].id := entries[n].spec], paths + {entries[n].pathKey}, entries[..n + 1])
  {
    if Acceptable(entries) {
      AcceptablePasses(specs, paths, entries, n);
    }
    if Passes(specs, paths, entries[n]) {
      CollectNext(specs, paths, entries, n);
    }
  }

  lemma CollectNext(specs: Specs, paths: set<string>, entries: seq<Entry>, n: nat)
    requires n < |entries| && Collected(specs, paths, entries[..n]) && Passes(specs, paths, entries[n])
    ensures Collected(specs[entries[n].id := entries[n].spec], paths + {entries[n].pathKey}, entries[..n + 1])
  {
    Collect(specs, paths, entries[..n], entries[n]);
    Prefix(entries, n);
  }

  lemma Prefix(entries: seq<Entry>, n: nat)
    requires n < |entries|
    ensures entries[..n + 1] == entries[..n] + [entries[n]]
  {
  }

  /** Why an entry is refused. */
  function Refusal(specs: Specs, paths: set<string>, e: Entry): (error: Option<Error>)
    ensures error.None? <==> Passes(specs, paths, e)
    ensures error == Some(InvalidName) ==> !e.nameFit
    ensures error.Some? ==> error.value == InvalidBatch || error.value == InvalidName
  {
    if !e.idFit || e.id in specs then Some(InvalidBatch)
    else if !e.nameFit then Some(InvalidName)
    else if e.pathKey in paths then Some(InvalidBatch)
    else None
  }

  /** One turn of the loop. */
  method Take(e: Entry, specs: Specs, seen: set<string>, ghost entries: seq<Entry>, ghost n: nat)
    returns (refusal: Option<Error>, more: Specs, moreSeen: set<string>)
    requires WellRead(entries) && n < |entries| && e == entries[n] && Collected(specs, seen, entries[..n])
    ensures refusal.Some? ==> !Acceptable(entries) && (refusal.value == InvalidBatch || refusal.value == InvalidName)
    ensures refusal == Some(InvalidName) ==> !e.nameFit
    ensures refusal.None? ==> Collected(more, moreSeen, entries[..n + 1])
  {
    Turn(specs, seen, entries, n);
    refusal, more, moreSeen := Refusal(specs, seen, e), specs[e.id := e.spec], seen + {e.pathKey};
  }

  /** The loop of the validation: specifications and path keys of inputs that are fit and new. */
  method CollectSpecs(inputs: seq<Input>, normalize: Normalizer) returns (result: Result<Specs, Error>, ghost paths: set<string>)
    ensures result.Success? ==> Collected(result.value, paths, Entries(inputs, normalize))
    ensures result.Failure? ==> !Acceptable(Entries(inputs, normalize)) && (result.error == InvalidBatch || result.error == InvalidName)
    ensures result == Failure(InvalidName) ==> exists i :: 0 <= i < |inputs| && normalize(inputs[i].name).None?
  {
    ghost var entries := Entries(inputs, normalize);
    var specs: Specs := map[];
    var seen: set<string> := {};
    var n := 0;
    while n < |inputs|
      invariant n <= |inputs| && Collected(specs, seen, entries[..n])
    {
      var refusal;
      refusal, specs, seen := Take(Read(inputs[n], normalize), specs, seen, entries, n);
      if refusal.Some? {
        return Failure(refusal.value), seen;
      }
      n := n + 1;
    }
    assert entries[..n] == entries;
    return Success(specs), seen;
  }

  /** `normalizeFolderBatch` accepts exactly the acceptable batches, and describes them. */
  method Normalize(inputs: seq<Input>, normalize: Normalizer) returns (result: Result<Specs, Error>)
    ensures result.Success? <==> Acceptable(Entries(inputs, normalize))
    ensures result.Success? ==> Describes(result.value, Entries(inputs, normalize))
    ensures result == Failure(InvalidName) ==> exists i :: 0 <= i < |inputs| && normalize(inputs[i].name).None?
    ensures result.Failure? ==> (result.error == InvalidBatch || result.error == InvalidName)
  {
    if |inputs| == 0 || |inputs| > MAX_FOLDERS {
      return Failure(InvalidBatch);
    }
    ghost var paths;
    result, paths := CollectSpecs(inputs, normalize);
    if result.Failure? {
      return;
    }
    var specs := result.value;
    PassedIsAcceptable(specs, paths, Entries(inputs, normalize));
    if exists id :: id in specs && specs[id].parent != "" && specs[id].parent !in specs {
      return Failure(InvalidBatch);
    }
  }

  // ----- Parent references -----

  /** Following parents from `c` ends at the batch's target after `k` further folders. */
  ghost predicate LeadsUp(specs: Specs, c: string, k: nat)
    decreases k
  {
    c in specs && if specs[c].parent == "" then k == 0 else k > 0 && LeadsUp(specs, specs[c].parent, k - 1)
  }

  /** The parent references from `c` contain no cycle and no unknown folder. */
  ghost predicate Grounded(specs: Specs, c: string) {
    exists k :: LeadsUp(specs, c, k)
  }

  lemma {:induction false} LeadsUpOnce(specs: Specs, c: string, j: nat, k: nat)
    requires LeadsUp(specs, c, j) && LeadsUp(specs, c, k)
    ensures j == k
    decreases k
  {
    if k > 0 {
      LeadsUpOnce(specs, specs[c].parent, j - 1, k - 1);
    }
  }

  lemma GroundedByParent(specs: Specs, c: string)
    requires c in specs && specs[c].parent != ""
    ensures Grounded(specs, c) <==> Grounded(specs, specs[c].parent)
  {
    if Grounded(specs, c) {
      var k: nat :| LeadsUp(specs, c, k);
      assert LeadsUp(specs, specs[c].parent, k - 1);
    }
    if Grounded(specs, specs[c].parent) {
      var k: nat :| LeadsUp(specs, specs[c].parent, k);
      assert LeadsUp(specs, c, k + 1);
    }
  }

  /** The folders being resolved, each the parent of the one before; `c` is the parent of the last. */
  ghost predicate Stack(specs: Specs, path: seq<string>, c: string) {
    forall i :: 0 <= i < |path| ==> StackLink(specs, path, c, i)
  }

  predicate StackLink(specs: Specs, path: seq<string>, c: string, i: nat)
    requires i < |path|
  {
    path[i] in specs && specs[path[i]].parent != "" && specs[path[i]].parent == if i + 1 < |path| then path[i + 1] else c
  }

  lemma {:induction false} ClimbStack(specs: Specs, path: seq<string>, c: string, j: nat, k: nat)
    requires Stack(specs, path, c) && j < |path| && LeadsUp(specs, path[j], k)
    ensures k >= |path| - j && LeadsUp(specs, c, k - (|path| - j))
    decreases |path| - j
  {
    assert StackLink(specs, path, c, j);
    if j + 1 < |path| {
      ClimbStack(specs, path, c, j + 1, k - 1);
    }
  }

  lemma StackGrows(specs: Specs, path: seq<string>, c: string)
    requires Stack(specs, path, c) && c in specs && specs[c].parent != ""
    ensures Stack(specs, path + [c], specs[c].parent)
  {
    forall i | 0 <= i < |path + [c]|
      ensures StackLink(specs, path + [c], specs[c].parent, i)
    {
      if i < |path| {
        assert StackLink(specs, path, c, i);
      }
    }
  }

  /** A folder met again while it is being resolved is its own ancestor. */
  lemma MetAgain(specs: Specs, path: seq<string>, c: string)
    requires Stack(specs, path, c) && c in path
    ensures !Grounded(specs, c)
  {
    var j :| 0 <= j < |path| && path[j] == c;
    if Grounded(specs, c) {
      var k: nat :| LeadsUp(specs, c, k);
      ClimbStack(specs, path, c, j, k);
      LeadsUpOnce(specs, c, k, k - (|path| - j));
    }
  }

  // ----- What was there before -----

  /** `x` is the folder that a client id, the `k`-th below the target, stands for without anything being created. */
  ghost predicate ExistingAt(nodes: Nodes, target: NodeId, specs: Specs, c: string, x: NodeId, k: nat)
    decreases k
  {
    if c == "" then k == 0 && x == target
    else
      && k > 0 && c in specs && x in nodes && nodes[x].kind == Folder && nodes[x].parent.Some?
      && LedgerState.ActiveChild(nodes, x, nodes[x].parent.value, specs[c].key)
      && ExistingAt(nodes, target, specs, specs[c].parent, nodes[x].parent.value, k - 1)
  }

  ghost predicate Existing(nodes: Nodes, target: NodeId, specs: Specs, c: string, x: NodeId) {
    exists k :: ExistingAt(nodes, target, specs, c, x, k)
  }

  /** The file `x` stands where the folder of `c` would have to be. */
  ghost predicate BlockedBy(nodes: Nodes, target: NodeId, specs: Specs, c: string, x: NodeId) {
    && c in specs && x in nodes && nodes[x].kind == File && nodes[x].parent.Some?
    && LedgerState.ActiveChild(nodes, x, nodes[x].parent.value, specs[c].key)
    && Existing(nodes, target, specs, specs[c].parent, nodes[x].parent.value)
  }

  /** Some file stands in the way of the batch. */
  ghost predicate Blocked(nodes: Nodes, target: NodeId, specs: Specs) {
    exists c, x :: BlockedBy(nodes, target, specs, c, x)
  }

  // ----- Resolution -----

  /** Everything that was there is still there. */
  ghost predicate Kept<K, V>(before: map<K, V>, after: map<K, V>) {
    forall k :: k in before ==> k in after && after[k] == before[k]
  }

  /** Beside a folder there is no other undeleted child of its name. */
  lemma OnlyFolder(nodes: Nodes, folder: NodeId, x: NodeId, parent: NodeId, key: string)
    requires LedgerState.UniqueNames(nodes) && LedgerState.ActiveChild(nodes, folder, parent, key) && nodes[folder].kind == Folder
    ensures LedgerState.ActiveChild(nodes, x, parent, key) ==> nodes[x].kind == Folder
  {
  }

  /** Whatever is new is a folder. */
  ghost predicate OnlyFoldersAdded(before: Nodes, after: Nodes) {
    forall x :: x in after && x !in before ==> after[x].kind == Folder
  }

  /** The added folder is some client id's, under the name it asked for. */
  ghost predicate Named(specs: Specs, results: map<string, NodeId>, f: Ledger.NewFolder) {
    exists c :: c in results && c in specs && results[c] == f.id && specs[c].name == f.name
  }

  ghost predicate AllNamed(specs: Specs, results: map<string, NodeId>, added: seq<Ledger.NewFolder>) {
    forall i :: 0 <= i < |added| ==> Named(specs, results, added[i])
  }

  lemma NamedGrows(specs: Specs, before: map<string, NodeId>, after: map<string, NodeId>, added: seq<Ledger.NewFolder>,
                   more: seq<Ledger.NewFolder>, c: string)
    requires AllNamed(specs, before, added) && Kept(before, after) && c in after && c in specs
    requires |more| <= 1 && forall i :: 0 <= i < |more| ==> more[i].id == after[c] && more[i].name == specs[c].name
    ensures AllNamed(specs, after, added + more)
  {
    forall i | 0 <= i < |added + more|
      ensures Named(specs, after, (added + more)[i])
    {
      if i < |added| {
        assert Named(specs, before, added[i]);
      }
    }
  }

  class Batch {
    const specs: Specs
    const target: NodeId
    var nodes: Nodes
    var nextId: NodeId
    /** Client ids being resolved (false) and resolved (true). */
    var state: map<string, bool>
    var results: map<string, NodeId>
    var created: nat
    /** The tables at the start, and the folders added since. */
    ghost const start: LedgerState.Db
    ghost var added: seq<Ledger.NewFolder>
    /** The tree before and after each of them. */
    ghost var trees: seq<Nodes>

    constructor (specs: Specs, target: NodeId, nodes: Nodes, nextId: NodeId, ghost start: LedgerState.Db)
      requires Tree(nodes, nextId, target) && start.nodes == nodes && "" !in specs
      ensures Valid() && Logged() && Accounted()
      ensures this.specs == specs && this.target == target && this.nodes == nodes && this.start == start
      ensures state == map[] && results == map[] && created == 0
    {
      this.specs, this.target, this.nodes, this.nextId, this.start := specs, target, nodes, nextId, start;
      state, results, created, added, trees := map[], map[], 0, [], [nodes];
    }

    /** Each tree is what the ledger makes of the one before by adding a folder. */
    ghost predicate Logged()
      reads this
    {
      |added| == created && IsLog(start, added, trees, nodes)
    }

    /** Every folder added is one that a client id asked for. */
    ghost predicate Accounted()
      reads this
    {
      AllNamed(specs, results, added)
    }

    /** A well-formed tree with a live target folder and an unused supply of ids. */
    static ghost predicate Tree(nodes: Nodes, nextId: NodeId, target: NodeId) {
      && IsForest(nodes) && LedgerState.UniqueNames(nodes) && (forall x :: x in nodes ==> x < nextId)
      && target in nodes && nodes[target].kind == Folder && Live(nodes, target)
    }

    ghost predicate Valid()
      reads this
    {
      && Tree(nodes, nextId, target) && "" !in specs
      && (forall c :: c in state ==> c in specs)
      && (forall c :: c in results <==> c in state && state[c])
      && (forall c :: c in results ==> Resolved(nodes, results, c))
    }

    /** The folder of the parent. */
    function ParentNode(results: map<string, NodeId>, c: string): NodeId
      requires c in specs && (specs[c].parent == "" || specs[c].parent in results)
    {
      if specs[c].parent == "" then target else results[specs[c].parent]
    }

    /** `c` is resolved to a live folder of its name inside its parent's folder, which was resolved before. */
    ghost predicate Resolved(nodes: Nodes, results: map<string, NodeId>, c: string)
      requires IsForest(nodes)
    {
      && c in specs && c in results && Grounded(specs, c)
      && (specs[c].parent == "" || specs[c].parent in results)
      && results[c] in nodes && nodes[results[c]].kind == Folder && Live(nodes, results[c])
      && LedgerState.ActiveChild(nodes, results[c], ParentNode(results, c), specs[c].key)
    }

    /** Exactly the folders on the stack are being resolved. */
    ghost predicate Busy(path: seq<string>)
      reads this
    {
      forall d :: d in state && !state[d] <==> d in path
    }

    /** `resolveBatchFolder`: the undeleted folder of that name in the parent, or a new one. */
    method ResolveFolder(parent: NodeId, spec: Spec) returns (result: Result<NodeId, Error>)
      requires Valid() && Logged() && parent in nodes && nodes[parent].kind == Folder && Live(nodes, parent)
      modifies this`nodes, this`nextId, this`created, this`added, this`trees
      ensures Valid() && Logged() && Kept(old(nodes), nodes)
      ensures |nodes| - created == |old(nodes)| - old(created)
      ensures result.Success? ==>
        && result.value in nodes && nodes[result.value].kind == Folder && Live(nodes, result.value)
        && LedgerState.ActiveChild(nodes, result.value, parent, spec.key)
      ensures result.Success? ==>
        added == old(added) + if nodes == old(nodes) then [] else [Ledger.NewFolder(parent, spec.name, spec.key, result.value)]
      ensures result.Failure? ==> result.error == NameConflict && nodes == old(nodes)
      ensures result.Failure? ==> exists x :: LedgerState.ActiveChild(nodes, x, parent, spec.key) && nodes[x].kind == File
    {
      if exists x :: x in nodes && LedgerState.ActiveChild(nodes, x, parent, spec.key) {
        var x :| x in nodes && LedgerState.ActiveChild(nodes, x, parent, spec.key);
        if nodes[x].kind != Folder {
          return Failure(NameConflict);
        }
        ChildOfLive(nodes, x, parent);
        return Success(x);
      }
      ghost var before, prior, log := nodes, added, trees;
      var folder;
      ghost var leaf;
      folder, leaf := AddFolder(parent, spec);
      TreeStays(before, folder, parent, leaf);
      ghost var f := Ledger.NewFolder(parent, spec.name, spec.key, folder);
      LeafIsStep(start, before, f, leaf);
      LogGrows(start, prior, log, before, f, nodes);
      result := Success(folder);
    }

    /** The insert of a new folder. */
    method AddFolder(parent: NodeId, spec: Spec) returns (folder: NodeId, ghost leaf: Node)
      requires Valid() && Logged() && parent in nodes && nodes[parent].kind == Folder && Live(nodes, parent)
      requires !Ledger.NameExists(nodes, parent, spec.key)
      modifies this`nodes, this`nextId, this`created, this`added, this`trees
      ensures folder == old(nextId) && nextId == folder + 1 && created == old(created) + 1
      ensures leaf == Node(Folder, old(nodes)[parent].owner, Some(parent), spec.name, spec.key, false, false)
      ensures nodes == old(nodes)[folder := leaf]
      ensures added == old(added) + [Ledger.NewFolder(parent, spec.name, spec.key, folder)] && trees == old(trees) + [nodes]
    {
      folder := nextId;
      leaf := Node(Folder, nodes[parent].owner, Some(parent), spec.name, spec.key, false, false);
      added := added + [Ledger.NewFolder(parent, spec.name, spec.key, folder)];
      nodes := nodes[folder := Node(Folder, nodes[parent].owner, Some(parent), spec.name, spec.key, false, false)];
      trees := trees + [nodes];
      nextId, created := nextId + 1, created + 1;
    }

    lemma TreeStays(before: Nodes, id: NodeId, parent: NodeId, leaf: Node)
      requires nextId == id + 1 && nodes == before[id := leaf] && Tree(before, id, target)
      requires parent in before && before[parent].kind == Folder && Live(before, parent)
      requires leaf.parent == Some(parent) && leaf.owner == before[parent].owner && !leaf.root && !leaf.deleted
      requires !Ledger.NameExists(before, parent, leaf.nameKey)
      requires (forall c :: c in state ==> c in specs) && (forall c :: c in results <==> c in state && state[c])
      requires (forall c :: c in results ==> Resolved(before, results, c)) && "" !in specs
      ensures Valid() && id in nodes && Rooted(nodes, id) && Live(nodes, id)
    {
      TreeGrows(before, id, target, leaf, parent);
      AllResolvedStay(before, id, leaf);
    }

    static lemma TreeGrows(nodes: Nodes, nextId: NodeId, target: NodeId, leaf: Node, parent: NodeId)
      requires Tree(nodes, nextId, target) && parent in nodes && nodes[parent].kind == Folder && Live(nodes, parent)
      requires leaf.parent == Some(parent) && leaf.owner == nodes[parent].owner && !leaf.root && !leaf.deleted
      requires !Ledger.NameExists(nodes, parent, leaf.nameKey)
      ensures Tree(nodes[nextId := leaf], nextId + 1, target) && Live(nodes[nextId := leaf], nextId) && nextId !in nodes
      ensures forall x :: x in nodes ==> (Live(nodes[nextId := leaf], x) <==> Live(nodes, x))
    {
      InsertLeaf(nodes, nextId, leaf, parent);
      LedgerKeeps.NamesStay(nodes, nextId, leaf);
    }

    /** A new leaf leaves what was resolved as it was. */
    lemma AllResolvedStay(nodes: Nodes, id: NodeId, leaf: Node)
      requires IsForest(nodes) && (forall c :: c in results ==> Resolved(nodes, results, c))
      requires id !in nodes && IsForest(nodes[id := leaf])
      requires forall x :: x in nodes ==> (Live(nodes[id := leaf], x) <==> Live(nodes, x))
      ensures forall c :: c in results ==> Resolved(nodes[id := leaf], results, c)
    {
      forall c | c in results
        ensures Resolved(nodes[id := leaf], results, c)
      {
        assert Resolved(nodes, results, c);
      }
    }

    /** An undeleted child of a live folder is live. */
    lemma ChildOfLive(nodes: Nodes, x: NodeId, parent: NodeId)
      requires IsForest(nodes) && parent in nodes && Live(nodes, parent)
      requires x in nodes && !nodes[x].deleted && nodes[x].parent == Some(parent)
      ensures Live(nodes, x)
    {
      ParentDepth(nodes, x);
    }

    /**
     * The recursive resolution. It ends, it fails with InvalidBatch only for folders whose parent references
     * run into a cycle or an unknown id, and it resolves a parent before its child.
     */
    method Resolve(c: string, ghost path: seq<string>) returns (result: Result<NodeId, Error>)
      requires Valid() && Logged() && Accounted() && Stack(specs, path, c)
      requires Busy(path)
      modifies this
      decreases specs.Keys - state.Keys, 0
      ensures result.Success? ==> Valid() && Logged() && Accounted() && c in results && result.value == results[c]
      ensures result.Success? ==> Kept(old(results), results)
      ensures result.Success? ==> Busy(path)
      ensures result == Failure(InvalidBatch) ==> !Grounded(specs, c)
      ensures result == Failure(NameConflict) ==> Blocked(start.nodes, target, specs)
      ensures result.Failure? ==> result.error == InvalidBatch || result.error == NameConflict
    {
      if c in state && !state[c] {
        MetAgain(specs, path, c);
        return Failure(InvalidBatch);
      }
      if c in state {
        return Success(results[c]);
      }
      if c !in specs {
        return Failure(InvalidBatch);
      }
      Enter(c, path);
      var parent := ResolveParent(c, path);
      if parent.Failure? {
        return parent;
      }
      result := ResolveInto(c, parent.value, path);
    }

    /** The folder itself, once its parent's folder is known. */
    method ResolveInto(c: string, parent: NodeId, ghost path: seq<string>) returns (result: Result<NodeId, Error>)
      requires Valid() && Logged() && Accounted() && Busy(path + [c]) && c !in path && c in specs && c in state && !state[c]
      requires Grounded(specs, c) && (specs[c].parent == "" || specs[c].parent in results) && parent == ParentNode(results, c)
      requires parent in nodes && nodes[parent].kind == Folder && Live(nodes, parent)
      modifies this
      ensures result.Success? ==> Valid() && Logged() && Accounted() && c in results && result.value == results[c] && Busy(path)
      ensures result.Success? ==> Kept(old(results), results)
      ensures result.Failure? ==> result.error == NameConflict && Blocked(start.nodes, target, specs)
    {
      ghost var log := added;
      result := ResolveFolder(parent, specs[c]);
      if result.Success? {
        Finish(c, result.value, path, log, added[|log|..]);
      } else {
        ghost var x :| LedgerState.ActiveChild(nodes, x, parent, specs[c].key) && nodes[x].kind == File;
        ConflictWasThere(c, x);
      }
    }

    /** A file met on the way was there before the batch, and so were the folders down to it. */
    lemma ConflictWasThere(c: string, x: NodeId)
      requires Valid() && Logged() && c in specs && (specs[c].parent == "" || specs[c].parent in results)
      requires LedgerState.ActiveChild(nodes, x, ParentNode(results, c), specs[c].key) && nodes[x].kind == File
      ensures Blocked(start.nodes, target, specs)
    {
      StartIsForest();
      StepsAreTransaction(start, added, trees);
      assert x in start.nodes && start.nodes[x] == nodes[x] && WellPlaced(start.nodes, x);
      if specs[c].parent == "" {
        assert ExistingAt(start.nodes, target, specs, "", target, 0);
      } else {
        ResolvedWasThere(specs[c].parent);
      }
      assert BlockedBy(start.nodes, target, specs, c, x);
    }

    lemma {:induction false} ResolvedWasThere(c: string)
      requires Valid() && IsForest(start.nodes) && Kept(start.nodes, nodes) && c in results && results[c] in start.nodes
      ensures Existing(start.nodes, target, specs, c, results[c])
      decreases Depth(nodes, results[c])
    {
      assert Resolved(nodes, results, c);
      var x := results[c];
      assert start.nodes[x] == nodes[x] && WellPlaced(start.nodes, x);
      ParentDepth(nodes, x);
      var p := nodes[x].parent.value;
      if specs[c].parent == "" {
        assert ExistingAt(start.nodes, target, specs, "", p, 0);
        assert ExistingAt(start.nodes, target, specs, c, x, 1);
      } else {
        ResolvedWasThere(specs[c].parent);
        var k: nat :| ExistingAt(start.nodes, target, specs, specs[c].parent, p, k);
        assert ExistingAt(start.nodes, target, specs, c, x, k + 1);
      }
    }

    /** A folder that a client id stood for is the one it is resolved to. */
    lemma {:induction false} ExistingIsReused(c: string, x: NodeId, k: nat)
      requires Valid() && Kept(start.nodes, nodes) && (forall d :: d in specs ==> d in results)
      requires ExistingAt(start.nodes, target, specs, c, x, k)
      ensures c != "" ==> results[c] == x
      decreases k
    {
      if c != "" {
        assert Resolved(nodes, results, c);
        ExistingIsReused(specs[c].parent, start.nodes[x].parent.value, k - 1);
        assert LedgerState.ActiveChild(nodes, x, ParentNode(results, c), specs[c].key);
      }
    }

    lemma NotBlockedBy(c: string, x: NodeId)
      requires Valid() && Kept(start.nodes, nodes) && forall d :: d in specs ==> d in results
      ensures !BlockedBy(start.nodes, target, specs, c, x)
    {
      if c in specs {
        assert Resolved(nodes, results, c);
        OnlyFolder(nodes, results[c], x, ParentNode(results, c), specs[c].key);
      }
      if BlockedBy(start.nodes, target, specs, c, x) {
        var p := start.nodes[x].parent.value;
        var k: nat :| ExistingAt(start.nodes, target, specs, specs[c].parent, p, k);
        ExistingIsReused(specs[c].parent, p, k);
      }
    }

    lemma NothingBlocks()
      requires Valid() && Kept(start.nodes, nodes) && forall d :: d in specs ==> d in results
      ensures !Blocked(start.nodes, target, specs)
    {
      forall c, x
        ensures !BlockedBy(start.nodes, target, specs, c, x)
      {
        NotBlockedBy(c, x);
      }
    }

    lemma StartIsForest()
      requires Valid() && Logged()
      ensures IsForest(start.nodes)
    {
      if added != [] {
        assert LedgerStep(start, trees[0], added[0], trees[1]);
      }
    }

    /** Mark a client id as being resolved. */
    method Enter(c: string, ghost path: seq<string>)
      requires Valid() && Busy(path) && c in specs && c !in state
      modifies `state
      ensures Valid() && Busy(path + [c]) && state == old(state)[c := false]
      ensures specs.Keys - state.Keys < specs.Keys - old(state).Keys
    {
      assert c in specs.Keys - state.Keys;
      state := state[c := false];
      assert c !in specs.Keys - state.Keys;
    }

    /** The folder to put a client id's folder in: the target, or the one its parent is resolved to first. */
    method ResolveParent(c: string, ghost path: seq<string>) returns (result: Result<NodeId, Error>)
      requires Valid() && Logged() && Accounted() && Stack(specs, path, c) && Busy(path + [c]) && c in specs && c in state && !state[c]
      modifies this
      decreases specs.Keys - state.Keys, 1
      ensures result.Success? ==> Valid() && Logged() && Accounted() && Kept(old(results), results) && Busy(path + [c])
      ensures result.Success? ==>
        && Grounded(specs, c) && (specs[c].parent == "" || specs[c].parent in results)
        && result.value == ParentNode(results, c)
        && result.value in nodes && nodes[result.value].kind == Folder && Live(nodes, result.value)
        && c in state && !state[c]
      ensures result == Failure(InvalidBatch) ==> !Grounded(specs, c)
      ensures result == Failure(NameConflict) ==> Blocked(start.nodes, target, specs)
      ensures result.Failure? ==> result.error == InvalidBatch || result.error == NameConflict
    {
      if specs[c].parent == "" {
        assert LeadsUp(specs, c, 0);
        return Success(target);
      }
      GroundedByParent(specs, c);
      StackGrows(specs, path, c);
      result := Resolve(specs[c].parent, path + [c]);
      if result.Success? {
        assert c in path + [c];
        assert Resolved(nodes, results, specs[c].parent);
      }
    }

    /** Record the folder found for a client id whose parent is done. */
    method Finish(c: string, folder: NodeId, ghost path: seq<string>, ghost log: seq<Ledger.NewFolder>,
                  ghost more: seq<Ledger.NewFolder>)
      requires Valid() && c in specs && c in state && !state[c] && c !in path
      requires Busy(path + [c])
      requires Grounded(specs, c) && (specs[c].parent == "" || specs[c].parent in results)
      requires folder in nodes && nodes[folder].kind == Folder && Live(nodes, folder)
      requires LedgerState.ActiveChild(nodes, folder, ParentNode(results, c), specs[c].key)
      requires AllNamed(specs, results, log) && added == log + more && |more| <= 1
      requires forall i :: 0 <= i < |more| ==> more[i].id == folder && more[i].name == specs[c].name
      modifies this`state, this`results
      ensures Accounted()
      ensures Valid() && c in results && results[c] == folder && Kept(old(results), results)
      ensures Busy(path)
    {
      ghost var before := results;
      results := results[c := folder];
      state := state[c := true];
      NamedGrows(specs, before, results, log, more, c);
      forall d | d in results
        ensures Resolved(nodes, results, d)
      {
        if d != c {
          assert Resolved(nodes, before, d);
        }
      }
    }

    /** The batch between two inputs: nothing is being resolved. */
    ghost predicate Progress()
      reads this
    {
      Valid() && Logged() && Accounted() && Busy([])
    }

    ghost predicate Has(ids: seq<string>, n: nat)
      reads this
    {
      n <= |ids| && forall i :: 0 <= i < n ==> ids[i] in results
    }

    method ResolveNext(ids: seq<string>, i: nat) returns (error: Option<Error>)
      requires Progress() && i < |ids| && Has(ids, i)
      modifies this
      ensures error.None? ==> Progress() && Has(ids, i + 1)
      ensures error == Some(InvalidBatch) ==> !Grounded(specs, ids[i])
      ensures error == Some(NameConflict) ==> Blocked(start.nodes, target, specs)
      ensures error.Some? ==> error.value == InvalidBatch || error.value == NameConflict
    {
      var result := Resolve(ids[i], []);
      error := if result.Failure? then Some(result.error) else None;
    }

    /** The loop over the inputs. */
    method ResolveAll(ids: seq<string>) returns (error: Option<Error>)
      requires Progress()
      modifies this
      ensures error.None? ==> Progress() && Has(ids, |ids|)
      ensures error == Some(InvalidBatch) ==> exists i :: 0 <= i < |ids| && !Grounded(specs, ids[i])
      ensures error == Some(NameConflict) ==> Blocked(start.nodes, target, specs)
      ensures error.Some? ==> error.value == InvalidBatch || error.value == NameConflict
    {
      var i := 0;
      error := None;
      while i < |ids|
        invariant 0 <= i <= |ids| && error.None? && Progress() && Has(ids, i)
      {
        error := ResolveNext(ids, i);
        if error.Some? {
          return;
        }
        i := i + 1;
      }
    }

    // ----- What a resolved batch means -----

    /** Every resolved folder lies strictly below the target. */
    lemma {:induction false} BelowTarget(c: string)
      requires Valid() && c in results
      ensures Rooted(nodes, results[c]) && target in Chain(nodes, results[c]) && results[c] != target
      decreases Depth(nodes, results[c])
    {
      assert Resolved(nodes, results, c);
      var x := results[c];
      ParentDepth(nodes, x);
      if specs[c].parent == "" {
        ChainSelf(nodes, target);
      } else {
        BelowTarget(specs[c].parent);
      }
      LedgerKeeps.ChainStopsBelow(nodes, x, nodes[x].parent.value);
    }

    /** Distinct client ids got distinct folders, whether created or found. */
    lemma {:induction false} DistinctFolders(c: string, d: string)
      requires Valid() && c in results && d in results && results[c] == results[d]
      requires OnePlaceEach(specs)
      ensures c == d
      decreases Depth(nodes, results[c])
    {
      assert Resolved(nodes, results, c) && Resolved(nodes, results, d);
      ParentDepth(nodes, results[c]);
      assert ParentNode(results, c) == ParentNode(results, d);
      if specs[c].parent != "" && specs[d].parent != "" {
        DistinctFolders(specs[c].parent, specs[d].parent);
      } else if specs[c].parent != "" {
        BelowTarget(specs[c].parent);
      } else if specs[d].parent != "" {
        BelowTarget(specs[d].parent);
      }
      assert SamePlace(specs[c], specs[d]);
    }

    lemma AllDistinct()
      requires Valid() && OnePlaceEach(specs)
      ensures Injective(results)
    {
      forall c, d | c in results && d in results && results[c] == results[d]
        ensures c == d
      {
        DistinctFolders(c, d);
      }
    }

    lemma AllResolved()
      requires Valid() && forall c :: c in specs ==> c in results
      ensures AllGrounded(specs) && results.Keys == specs.Keys
    {
      forall c | c in specs
        ensures Grounded(specs, c)
      {
        assert Resolved(nodes, results, c);
      }
      forall c | c in results
        ensures c in specs
      {
        assert Resolved(nodes, results, c);
      }
    }
  }

  ghost predicate LedgerStep(start: LedgerState.Db, nodes: Nodes, f: Ledger.NewFolder, after: Nodes) {
    IsForest(nodes) && Ledger.AddFolder(start.(nodes := nodes), f) == LedgerState.Done(start.(nodes := after))
  }

  ghost predicate IsLog(start: LedgerState.Db, added: seq<Ledger.NewFolder>, trees: seq<Nodes>, nodes: Nodes) {
    && |trees| == |added| + 1 && trees[0] == start.nodes && trees[|added|] == nodes
    && forall i :: 0 <= i < |added| ==> LedgerStep(start, trees[i], added[i], trees[i + 1])
  }

  lemma LeafIsStep(start: LedgerState.Db, nodes: Nodes, f: Ledger.NewFolder, leaf: Node)
    requires IsForest(nodes) && f.parent in nodes && nodes[f.parent].kind == Folder && Live(nodes, f.parent) && f.id !in nodes
    requires !Ledger.NameExists(nodes, f.parent, f.key)
    requires leaf == Node(Folder, nodes[f.parent].owner, Some(f.parent), f.name, f.key, false, false)
    ensures LedgerStep(start, nodes, f, nodes[f.id := leaf])
  {
  }

  lemma LogGrows(start: LedgerState.Db, added: seq<Ledger.NewFolder>, trees: seq<Nodes>, nodes: Nodes, f: Ledger.NewFolder,
                 after: Nodes)
    requires IsLog(start, added, trees, nodes) && LedgerStep(start, nodes, f, after)
    ensures IsLog(start, added + [f], trees + [after], after)
  {
    var more, all := added + [f], trees + [after];
    forall i | 0 <= i < |more|
      ensures LedgerStep(start, all[i], more[i], all[i + 1])
    {
      if i < |added| {
        assert LedgerStep(start, trees[i], added[i], trees[i + 1]);
      }
    }
  }

  /** Step by step, the batch is the ledger's transaction. */
  lemma {:induction false} StepsAreTransaction(start: LedgerState.Db, added: seq<Ledger.NewFolder>, trees: seq<Nodes>)
    requires |trees| == |added| + 1 && trees[0] == start.nodes && IsForest(start.nodes)
    requires forall i :: 0 <= i < |added| ==> LedgerStep(start, trees[i], added[i], trees[i + 1])
    ensures Ledger.AddFolders(start, added) == LedgerState.Done(start.(nodes := trees[|added|]))
    ensures Kept(start.nodes, trees[|added|]) && |trees[|added|]| == |start.nodes| + |added|
    ensures OnlyFoldersAdded(start.nodes, trees[|added|])
    decreases |added|
  {
    if added == [] {
      assert start.(nodes := trees[0]) == start;
    } else {
      var n := |added| - 1;
      StepsAreTransaction(start, added[..n], trees[..n + 1]);
      LastStep(start, added, trees[n], trees[n + 1]);
    }
  }

  lemma LastStep(start: LedgerState.Db, added: seq<Ledger.NewFolder>, nodes: Nodes, after: Nodes)
    requires added != [] && IsForest(start.nodes) && LedgerStep(start, nodes, added[|added| - 1], after)
    requires Ledger.AddFolders(start, added[..|added| - 1]) == LedgerState.Done(start.(nodes := nodes))
    ensures Ledger.AddFolders(start, added) == LedgerState.Done(start.(nodes := after))
    ensures Kept(nodes, after) && |after| == |nodes| + 1 && OnlyFoldersAdded(nodes, after)
  {
    OneMore(start.(nodes := nodes), added[|added| - 1], after);
  }

  /** A folder added to the tables is one node more, and changes no other. */
  lemma OneMore(db: LedgerState.Db, f: Ledger.NewFolder, after: Nodes)
    requires IsForest(db.nodes) && Ledger.AddFolder(db, f) == LedgerState.Done(db.(nodes := after))
    ensures Kept(db.nodes, after) && |after| == |db.nodes| + 1 && OnlyFoldersAdded(db.nodes, after)
  {
    assert after.Keys == db.nodes.Keys + {f.id};
    assert |after| == |after.Keys| && |db.nodes| == |db.nodes.Keys|;
  }

  ghost predicate OnePlaceEach(specs: Specs) {
    forall a, b :: a in specs && b in specs && SamePlace(specs[a], specs[b]) ==> a == b
  }

  ghost predicate AllGrounded(specs: Specs) {
    forall c :: c in specs ==> Grounded(specs, c)
  }

  /** Distinct ids of a batch get distinct folders. */
  ghost predicate Injective(results: map<string, NodeId>) {
    forall c, d :: c in results && d in results && results[c] == results[d] ==> c == d
  }

  /** `loadNode`, its kind, and the access check: whether the target takes a batch. */
  method CheckTarget(db: LedgerState.Db, actor: LedgerState.Actor, target: NodeId) returns (error: Option<LedgerState.Error>)
    requires IsForest(db.nodes)
    ensures error == Ledger.TargetError(db, actor, target)
  {
    if target !in db.nodes || db.nodes[target].deleted {
      return Some(LedgerState.NotFound);
    }
    if db.nodes[target].kind != Folder {
      return Some(LedgerState.NotFolder);
    }
    var level := Access.ResolveByWalk(db.nodes, db.grants, target, actor.user, actor.admin);
    if level.None? {
      return Some(LedgerState.NotFound);
    }
    error := if level.value >= Access.EDIT then None
             else if level.value == Access.NONE then Some(LedgerState.NotFound)
             else Some(LedgerState.Forbidden);
  }

  /**
   * The batch as a whole: into a target that takes it, it succeeds exactly when the parent references contain no
   * cycle and no file stands where a folder would have to be; then it gives every client id its own live folder, inside the folder
   * of its parent, and adds to the tables what the ledger's batch transaction adds.
   */
  method CreateBatch(inputs: seq<Input>, normalize: Normalizer, db: LedgerState.Db, actor: LedgerState.Actor, nextId: NodeId,
                     target: NodeId)
    returns (error: Option<Error>, specs: Specs, batch: Option<Batch>)
    requires IsForest(db.nodes) && LedgerState.UniqueNames(db.nodes) && forall x :: x in db.nodes ==> x < nextId
    ensures !Acceptable(Entries(inputs, normalize)) ==> error == Some(InvalidName) || error == Some(InvalidBatch)
    ensures Acceptable(Entries(inputs, normalize)) ==> Describes(specs, Entries(inputs, normalize))
    ensures Acceptable(Entries(inputs, normalize)) && Ledger.TargetError(db, actor, target).Some? ==>
      error == Some(TargetRefused(Ledger.TargetError(db, actor, target).value))
    ensures Acceptable(Entries(inputs, normalize)) && Ledger.TargetError(db, actor, target).None? ==>
      Decided(error, db.nodes, target, specs)
    ensures error == None ==> batch.Some? && fresh(batch.value) && Made(batch.value, specs, db, target)
    ensures error == None ==>
      Ledger.CreateBatch(db, actor, target, batch.value.added) == LedgerState.Done(db.(nodes := batch.value.nodes))
  {
    specs, batch := map[], None;
    var normalized := Normalize(inputs, normalize);
    if normalized.Failure? {
      return Some(normalized.error), specs, None;
    }
    specs := normalized.value;
    var refused := CheckTarget(db, actor, target);
    if refused.Some? {
      return Some(TargetRefused(refused.value)), specs, None;
    }
    LedgerKeeps.AccessNeedsLife(db, target, actor, Access.EDIT);
    error, batch := ResolveBatch(specs, Ids(inputs), Entries(inputs, normalize), db, nextId, target);
  }

  /** Why a batch fails, and that it does not fail otherwise. */
  ghost predicate Decided(error: Option<Error>, nodes: Nodes, target: NodeId, specs: Specs) {
    match error
    case None => AllGrounded(specs) && !Blocked(nodes, target, specs)
    case Some(InvalidBatch) => !AllGrounded(specs)
    case Some(NameConflict) => Blocked(nodes, target, specs)
    case _ => false
  }

  /** Every client id has its own folder, and every new folder is counted and is some client id's, under its name. */
  ghost predicate Made(batch: Batch, specs: Specs, db: LedgerState.Db, target: NodeId)
    reads batch
  {
    && batch.Valid() && batch.Logged() && batch.Accounted() && batch.start == db && batch.specs == specs && batch.target == target
    && IsForest(db.nodes) && Ledger.AddFolders(db, batch.added) == LedgerState.Done(db.(nodes := batch.nodes))
    && batch.results.Keys == specs.Keys && Injective(batch.results) && Kept(db.nodes, batch.nodes)
    && |batch.nodes| == |db.nodes| + batch.created
  }

  function Ids(inputs: seq<Input>): (ids: seq<string>)
    ensures |ids| == |inputs| && forall i :: 0 <= i < |inputs| ==> ids[i] == TrimSpace(inputs[i].clientId)
  {
    seq(|inputs|, i requires 0 <= i < |inputs| => TrimSpace(inputs[i].clientId))
  }

  /** The transaction of an acceptable batch. */
  method ResolveBatch(specs: Specs, ids: seq<string>, ghost entries: seq<Entry>, db: LedgerState.Db, nextId: NodeId, target: NodeId)
    returns (error: Option<Error>, batch: Option<Batch>)
    requires Batch.Tree(db.nodes, nextId, target) && Acceptable(entries) && Describes(specs, entries)
    requires forall i :: 0 <= i < |entries| && entries[i].idFit ==> entries[i].id != ""
    requires |ids| == |entries| && forall i :: 0 <= i < |ids| ==> ids[i] == entries[i].id
    ensures Decided(error, db.nodes, target, specs)
    ensures error == None ==> batch.Some? && fresh(batch.value) && Made(batch.value, specs, db, target)
  {
    batch := None;
    NoBlankId(specs, entries);
    var b := new Batch(specs, target, db.nodes, nextId, db);
    error := b.ResolveAll(ids);
    if error == Some(InvalidBatch) {
      ghost var i :| 0 <= i < |ids| && !Grounded(specs, ids[i]);
      assert entries[i].id in specs;
    }
    if error == None {
      forall c | c in specs
        ensures c in b.results
      {
        assert HasId(entries, c);
        var i :| 0 <= i < |entries| && entries[i].id == c;
        assert ids[i] in b.results;
      }
      b.AllResolved();
      PlacesDiffer(specs, entries);
      b.AllDistinct();
      StepsAreTransaction(db, b.added, b.trees);
      b.NothingBlocks();
      batch := Some(b);
    }
  }

  lemma NoBlankId(specs: Specs, entries: seq<Entry>)
    requires Acceptable(entries) && Describes(specs, entries) && forall i :: 0 <= i < |entries| && entries[i].idFit ==> entries[i].id != ""
    ensures "" !in specs
  {
    forall id | id in specs
      ensures id != ""
    {
      assert HasId(entries, id);
      var i :| 0 <= i < |entries| && entries[i].id == id;
    }
  }

  lemma PlacesDiffer(specs: Specs, entries: seq<Entry>)
    requires DistinctPlaces(entries) && Describes(specs, entries)
    ensures OnePlaceEach(specs)
  {
    forall a, b | a in specs && b in specs && SamePlace(specs[a], specs[b])
      ensures a == b
    {
      assert HasId(entries, a) && HasId(entries, b);
      var i :| 0 <= i < |entries| && entries[i].id == a;
      var j :| 0 <= j < |entries| && entries[j].id == b;
      assert SamePlace(entries[i].spec, entries[j].spec);
    }
  }
}
