/** Naming the entries of a folder archive: every path distinct whatever the case, each below its parent's path. */
module ArchivePaths {
  import opened ByteRange
  import opened Wrappers

  datatype Kind = File | Folder | Other

  datatype TreeNode = TreeNode(id: string, parentId: string, kind: Kind, name: string, size: Option<int>)

  datatype ArchiveEntry = ArchiveEntry(id: string, path: string, kind: Kind, size: int)

  datatype Archive = Archive(filename: string, entries: seq<ArchiveEntry>, nodeCount: nat)

  datatype Error = InvalidPath | BrokenTree | TooLarge

  // ----- Letter case -----

  /** The lower-case mapping of the standard library, one character at a time. */
  type CaseMap = char -> char

  /** What the proofs need of it: digits and the slash are their own lower case, and nothing else becomes a slash. */
  ghost predicate Cased(lower: CaseMap) {
    && (forall c :: IsDigit(c) ==> lower(c) == c)
    && (forall c :: lower(c) == '/' <==> c == '/')
  }

  function Lower(lower: CaseMap, s: string): (l: string)
    ensures |l| == |s| && forall i :: 0 <= i < |s| ==> l[i] == lower(s[i])
  {
    seq(|s|, i requires 0 <= i < |s| => lower(s[i]))
  }

  lemma LowerJoins(lower: CaseMap, a: string, b: string)
    ensures Lower(lower, a + b) == Lower(lower, a) + Lower(lower, b)
  {
  }

  // ----- Segments -----

  predicate Reserved(name: string) {
    name == "" || name == "." || name == ".."
  }

  /** A separator of any system, or a control character. */
  predicate Harmful(c: char) {
    c == '/' || c == '\\' || c as int < 32 || c as int == 127
  }

  function SafeChar(c: char): char {
    if c == '/' || c == '\\' || c < '\U{20}' || c == '\U{7F}' then '_' else c
  }

  function Sanitize(name: string): (r: Option<string>)
    ensures r.Some? ==> r.value != "" && '/' !in r.value && !Reserved(r.value)
    ensures r.None? <==> Reserved(name) || '\0' in name
    ensures r.Some? ==> |r.value| == |name| && forall i :: 0 <= i < |name| ==> r.value[i] == if Harmful(name[i]) then '_' else name[i]
  {
    if Reserved(name) || '\0' in name then None
    else
      var safe := seq(|name|, i requires 0 <= i < |name| => SafeChar(name[i]));
      assert forall i :: 0 <= i < |safe| ==> safe[i] == SafeChar(name[i]) && safe[i] != '/';
      assert !Reserved(safe) by { SafeKeepsMeaning(name, safe); }
      Some(safe)
  }

  /** Replacing characters by underscores does not turn a name into a reserved one. */
  lemma SafeKeepsMeaning(name: string, safe: string)
    requires |safe| == |name| && forall i :: 0 <= i < |name| ==> safe[i] == SafeChar(name[i])
    requires !Reserved(name)
    ensures !Reserved(safe)
  {
    assert forall i :: 0 <= i < |name| && safe[i] == '.' ==> name[i] == '.';
    assert safe == "." ==> name == ".";
    assert safe == ".." ==> name == "..";
  }

  /** Where the extension starts: at the last dot. */
  function ExtensionAt(name: string): (i: nat)
    ensures i <= |name|
  {
    if name == "" then 0
    else if name[|name| - 1] == '.' then |name| - 1
    else
      var i := ExtensionAt(name[..|name| - 1]);
      if i == |name| - 1 then |name| else i
  }

  /** The last dot, if there is one. */
  lemma {:induction false} ExtensionIsLastDot(name: string)
    ensures var i := ExtensionAt(name);
      (i < |name| ==> name[i] == '.') && forall j :: i < j < |name| ==> name[j] != '.'
    ensures ExtensionAt(name) == |name| ==> '.' !in name
    decreases |name|
  {
    if name != "" && name[|name| - 1] != '.' {
      var shorter := name[..|name| - 1];
      ExtensionIsLastDot(shorter);
      assert name == shorter + [name[|name| - 1]];
    }
  }

  /** `archiveSuffix`: the number goes before the extension of a file, unless the name is all extension. */
  function Suffixed(name: string, n: nat, file: bool): string {
    var i := ExtensionAt(name);
    if file && 0 < i < |name| then name[..i] + (" (" + Decimal(n) + ")") + name[i..]
    else name + (" (" + Decimal(n) + ")")
  }

  /** The `n`-th name tried. */
  function Candidate(name: string, n: nat, file: bool): string
    requires n >= 1
  {
    if n == 1 then name else Suffixed(name, n, file)
  }

  lemma {:induction false} DecimalLower(lower: CaseMap, n: nat)
    requires Cased(lower)
    ensures Lower(lower, Decimal(n)) == Decimal(n)
  {
    DecimalParses(n);
    forall i | 0 <= i < |Decimal(n)|
      ensures Lower(lower, Decimal(n))[i] == Decimal(n)[i]
    {
      assert Decimal(n)[i] in Decimal(n);
    }
  }

  /** The first name tried is the name itself; the others have the number before the extension of a file, else at the end. */
  lemma CandidateIs(stem: string, extension: string, n: nat, file: bool)
    requires n >= 2 && (extension == "" || (extension[0] == '.' && '.' !in extension[1..])) && stem != ""
    requires extension == "" ==> '.' !in stem[1..] || !file
    requires extension != "" ==> file
    ensures Candidate(stem + extension, 1, file) == stem + extension
    ensures Candidate(stem + extension, n, file) == stem + " (" + Decimal(n) + ")" + extension
  {
    var name := stem + extension;
    ExtensionIsLastDot(name);
    var i := ExtensionAt(name);
    if extension != "" {
      assert name[|stem|] == '.' && forall j :: |stem| < j < |name| ==> name[j] == extension[1..][j - |stem| - 1];
      assert i == |stem|;
      assert name[..i] == stem && name[i..] == extension;
    } else {
      assert name == stem;
      assert 0 < i < |name| ==> name[i] == stem[1..][i - 1];
    }
  }

  /** Different numbers give names that differ whatever the case. */
  lemma CandidatesDiffer(lower: CaseMap, name: string, m: nat, n: nat, file: bool)
    requires Cased(lower) && 1 <= m < n
    ensures Lower(lower, Candidate(name, m, file)) != Lower(lower, Candidate(name, n, file))
  {
    if m > 1 && Lower(lower, Candidate(name, m, file)) == Lower(lower, Candidate(name, n, file)) {
      var i := ExtensionAt(name);
      var before := if file && 0 < i < |name| then name[..i] else name;
      var after := if file && 0 < i < |name| then name[i..] else "";
      assert forall k: nat :: k > 1 ==> Candidate(name, k, file) == before + (" (" + Decimal(k) + ")") + after;
      NumbersAgree(lower, before, after, m, n);
    }
  }

  lemma MiddleAgrees(lower: CaseMap, before: string, u: string, v: string, after: string)
    requires |u| == |v| && Lower(lower, before + u + after) == Lower(lower, before + v + after)
    ensures Lower(lower, u) == Lower(lower, v)
  {
    var a, b := before + u + after, before + v + after;
    forall i | 0 <= i < |u|
      ensures Lower(lower, u)[i] == Lower(lower, v)[i]
    {
      assert a[|before| + i] == u[i] && b[|before| + i] == v[i];
      assert Lower(lower, a)[|before| + i] == Lower(lower, b)[|before| + i];
    }
  }

  lemma NumbersAgree(lower: CaseMap, before: string, after: string, m: nat, n: nat)
    requires Cased(lower)
    requires Lower(lower, before + (" (" + Decimal(m) + ")") + after) == Lower(lower, before + (" (" + Decimal(n) + ")") + after)
    ensures m == n
  {
    var a, b := before + (" (" + Decimal(m) + ")") + after, before + (" (" + Decimal(n) + ")") + after;
    assert |Lower(lower, a)| == |a| && |Lower(lower, b)| == |b|;
    assert |Decimal(m)| == |Decimal(n)|;
    assert a == (before + " (") + Decimal(m) + (")" + after);
    assert b == (before + " (") + Decimal(n) + (")" + after);
    MiddleAgrees(lower, before + " (", Decimal(m), Decimal(n), ")" + after);
    DecimalLower(lower, m);
    DecimalLower(lower, n);
    DecimalParses(m);
    DecimalParses(n);
  }

  /** Suffixes bring no slash. */
  lemma CandidateIsSegment(name: string, n: nat, file: bool)
    requires n >= 1 && name != "" && '/' !in name
    ensures Candidate(name, n, file) != "" && '/' !in Candidate(name, n, file)
  {
    DecimalParses(n);
    var c := Candidate(name, n, file);
    forall x | x in c
      ensures x != '/'
    {
      if n > 1 {
        assert x in name || x in Decimal(n) || x in " ()";
      }
    }
  }

  /**
   * `uniqueArchiveSegment`: the first candidate whose lower case is unused. The search ends after at most one
   * more try than there are used names.
   */
  method UniqueSegment(lower: CaseMap, used: set<string>, name: string, file: bool)
    returns (segment: string, ghost tries: nat)
    requires Cased(lower)
    ensures 1 <= tries <= |used| + 1 && segment == Candidate(name, tries, file)
    ensures Lower(lower, segment) !in used
    ensures forall m :: 1 <= m < tries ==> Lower(lower, Candidate(name, m, file)) in used
  {
    var n: nat := 1;
    ghost var tried: set<string> := {};
    while true
      invariant n >= 1 && tried <= used && |tried| == n - 1
      invariant forall m :: 1 <= m < n ==> Lower(lower, Candidate(name, m, file)) in tried
      invariant forall key :: key in tried ==> exists m :: 1 <= m < n && Lower(lower, Candidate(name, m, file)) == key
      decreases |used| - |tried|
    {
      var candidate := Candidate(name, n, file);
      var key := Lower(lower, candidate);
      SubsetSize(tried, used);
      if key !in used {
        return candidate, n;
      }
      if key in tried {
        var m :| 1 <= m < n && Lower(lower, Candidate(name, m, file)) == key;
        CandidatesDiffer(lower, name, m, n, file);
      }
      SubsetSize(tried + {key}, used);
      tried := tried + {key};
      n := n + 1;
    }
  }

  // ----- Paths -----

  function Join(parent: string, segment: string): string {
    if parent == "" then segment else parent + "/" + segment
  }

  predicate IsSegment(s: string) {
    s != "" && '/' !in s
  }

  lemma LowerSegment(lower: CaseMap, s: string)
    requires Cased(lower) && '/' !in s
    ensures '/' !in Lower(lower, s)
  {
    forall i | 0 <= i < |s|
      ensures Lower(lower, s)[i] != '/'
    {
      assert s[i] in s;
    }
  }

  /** A joined path of a non-empty parent contains a slash, even in lower case. */
  lemma JoinHasSlash(lower: CaseMap, parent: string, segment: string)
    requires Cased(lower) && parent != ""
    ensures '/' in Lower(lower, Join(parent, segment))
  {
    assert Join(parent, segment)[|parent|] == '/';
    assert Lower(lower, Join(parent, segment))[|parent|] == '/';
  }

  lemma NoSlashAfter(u: string, v: string, k: nat)
    requires '/' !in v && |u| < k <= |u| + |v|
    ensures (u + "/" + v)[k] != '/'
  {
    assert (u + "/" + v)[k] == v[k - |u| - 1];
    assert v[k - |u| - 1] in v;
  }

  /** A string has one last slash. */
  lemma SplitOnce(u: string, v: string, w: string, z: string)
    requires '/' !in v && '/' !in z && u + "/" + v == w + "/" + z
    ensures u == w && v == z
  {
    var x := u + "/" + v;
    forall k | |u| < k < |x|
      ensures x[k] != '/'
    {
      NoSlashAfter(u, v, k);
    }
    forall k | |w| < k < |x|
      ensures x[k] != '/'
    {
      NoSlashAfter(w, z, k);
    }
    assert x[|u|] == '/' && x[|w|] == '/';
    assert u == x[..|u|] && v == x[|u| + 1..];
    assert w == x[..|w|] && z == x[|w| + 1..];
  }

  lemma LowerJoined(lower: CaseMap, p: string, s: string)
    requires Cased(lower) && p != ""
    ensures Lower(lower, Join(p, s)) == Lower(lower, p) + "/" + Lower(lower, s)
  {
    LowerJoins(lower, p + "/", s);
    LowerJoins(lower, p, "/");
    assert Lower(lower, "/") == "/";
  }

  /** The last slash tells parent and segment apart, whatever the case. */
  lemma JoinInjective(lower: CaseMap, p: string, s: string, q: string, t: string)
    requires Cased(lower) && IsSegment(s) && IsSegment(t)
    ensures Lower(lower, Join(p, s)) == Lower(lower, Join(q, t)) ==>
      Lower(lower, p) == Lower(lower, q) && Lower(lower, s) == Lower(lower, t)
  {
    LowerSegment(lower, s);
    LowerSegment(lower, t);
    if p != "" {
      JoinHasSlash(lower, p, s);
      LowerJoined(lower, p, s);
    }
    if q != "" {
      JoinHasSlash(lower, q, t);
      LowerJoined(lower, q, t);
    }
    if p != "" && q != "" && Lower(lower, Join(p, s)) == Lower(lower, Join(q, t)) {
      SplitOnce(Lower(lower, p), Lower(lower, s), Lower(lower, q), Lower(lower, t));
    }
  }

  // ----- Building the archive -----

  type Paths = map<string, string>
  type Used = map<string, set<string>>

  predicate DistinctIds(nodes: seq<TreeNode>) {
    forall i, j :: 0 <= i < j < |nodes| ==> nodes[i].id != nodes[j].id
  }

  /** A node's path is its parent's extended by one segment whose lower case is marked used there. */
  ghost predicate Extends(lower: CaseMap, paths: Paths, used: Used, node: TreeNode, segment: string) {
    && node.id in paths && node.parentId in paths && IsSegment(segment)
    && paths[node.id] == Join(paths[node.parentId], segment)
    && node.parentId in used && Lower(lower, segment) in used[node.parentId]
    && Sanitize(node.name).Some?
    && Numbered(lower, used[node.parentId], Sanitize(node.name).value, node.kind == File, segment)
  }

  /** The segment is the first of the names tried whose lower case is not taken. */
  ghost predicate Numbered(lower: CaseMap, taken: set<string>, name: string, file: bool, segment: string) {
    exists k :: NumberedAt(lower, taken, name, file, segment, k)
  }

  predicate NumberedAt(lower: CaseMap, taken: set<string>, name: string, file: bool, segment: string, k: int) {
    k >= 1 && segment == Candidate(name, k, file) &&
    forall m :: 1 <= m < k ==> Lower(lower, Candidate(name, m, file)) in taken
  }

  /** The node has a name in the folder with this lower case. */
  ghost predicate Takes(lower: CaseMap, paths: Paths, node: TreeNode, key: string) {
    exists segment :: TakesAs(lower, paths, node, key, segment)
  }

  predicate TakesAs(lower: CaseMap, paths: Paths, node: TreeNode, key: string, segment: string) {
    && node.id in paths && node.parentId in paths && IsSegment(segment)
    && paths[node.id] == Join(paths[node.parentId], segment) && Lower(lower, segment) == key
  }

  /** A name is taken in a folder only by a node of that folder. */
  ghost predicate TakenByNodes(lower: CaseMap, nodes: seq<TreeNode>, paths: Paths, used: Used) {
    forall folder, key :: folder in used && key in used[folder] ==> TakenBy(lower, nodes, paths, folder, key)
  }

  ghost predicate TakenBy(lower: CaseMap, nodes: seq<TreeNode>, paths: Paths, folder: string, key: string) {
    exists i :: 1 <= i < |nodes| && nodes[i].parentId == folder && Takes(lower, paths, nodes[i], key)
  }

  ghost predicate Placed(lower: CaseMap, paths: Paths, used: Used, node: TreeNode) {
    exists segment :: Extends(lower, paths, used, node, segment)
  }

  /** No two known nodes have paths that agree in lower case. */
  ghost predicate PathsDiffer(lower: CaseMap, paths: Paths) {
    forall a, b :: a in paths && b in paths && Lower(lower, paths[a]) == Lower(lower, paths[b]) ==> a == b
  }

  /** The state of the building loop after the given nodes. */
  ghost predicate Laid(lower: CaseMap, base: string, nodes: seq<TreeNode>, paths: Paths, used: Used) {
    && nodes != [] && nodes[0].id in paths && paths[nodes[0].id] == base && (base == "" || IsSegment(base))
    && (forall i :: 1 <= i < |nodes| ==> Placed(lower, paths, used, nodes[i]))
    && (forall a :: a in paths ==> HasId(nodes, a))
    && (forall a :: a in paths && a != nodes[0].id ==> paths[a] != "")
    && PathsDiffer(lower, paths) && TakenByNodes(lower, nodes, paths, used)
  }

  predicate HasId(nodes: seq<TreeNode>, id: string) {
    exists i :: 0 <= i < |nodes| && nodes[i].id == id
  }

  /** A path made for a new node differs from all paths there are. */
  lemma NewPathDiffers(lower: CaseMap, base: string, nodes: seq<TreeNode>, paths: Paths, used: Used,
                       parentId: string, segment: string, a: string)
    requires Cased(lower) && Laid(lower, base, nodes, paths, used) && a in paths && parentId in paths
    requires IsSegment(segment) && (parentId in used ==> Lower(lower, segment) !in used[parentId])
    ensures Lower(lower, paths[a]) != Lower(lower, Join(paths[parentId], segment))
  {
    assert HasId(nodes, a);
    var i :| 0 <= i < |nodes| && nodes[i].id == a;
    if a == nodes[0].id {
      assert parentId == nodes[0].id || paths[parentId] != "";
      RootDiffers(lower, base, paths[parentId], segment);
    } else {
      NestedPathDiffers(lower, nodes[i], paths, used, parentId, segment);
    }
  }

  /** The path of a node below the root differs: it lies in another folder, or under another name. */
  lemma NestedPathDiffers(lower: CaseMap, node: TreeNode, paths: Paths, used: Used, parentId: string, segment: string)
    requires Cased(lower) && PathsDiffer(lower, paths) && Placed(lower, paths, used, node) && parentId in paths
    requires IsSegment(segment) && (parentId in used ==> Lower(lower, segment) !in used[parentId])
    ensures Lower(lower, paths[node.id]) != Lower(lower, Join(paths[parentId], segment))
  {
    var t :| Extends(lower, paths, used, node, t);
    JoinInjective(lower, paths[node.parentId], t, paths[parentId], segment);
    SameFolderSameParent(lower, paths, node.parentId, parentId);
  }

  lemma SameFolderSameParent(lower: CaseMap, paths: Paths, a: string, b: string)
    requires PathsDiffer(lower, paths) && a in paths && b in paths
    ensures Lower(lower, paths[a]) == Lower(lower, paths[b]) ==> a == b
  {
  }

  /** The root's own path is not the path of anything below it. */
  lemma RootDiffers(lower: CaseMap, base: string, parent: string, segment: string)
    requires Cased(lower) && (base == "" || IsSegment(base)) && IsSegment(segment)
    requires base == "" || parent != ""
    ensures Lower(lower, base) != Lower(lower, Join(parent, segment))
  {
    if base == "" {
      assert |Join(parent, segment)| > 0;
    } else {
      JoinHasSlash(lower, parent, segment);
      LowerSegment(lower, base);
    }
  }

  function UsedIn(used: Used, parentId: string): set<string> {
    if parentId in used then used[parentId] else {}
  }

  lemma PathAdded(lower: CaseMap, paths: Paths, id: string, path: string)
    requires PathsDiffer(lower, paths) && id !in paths
    requires forall a :: a in paths ==> Lower(lower, paths[a]) != Lower(lower, path)
    ensures PathsDiffer(lower, paths[id := path])
  {
  }

  lemma PlacedStays(lower: CaseMap, paths: Paths, used: Used, node: TreeNode, id: string, path: string, key: string, names: set<string>)
    requires Placed(lower, paths, used, node) && id !in paths && UsedIn(used, key) <= names
    ensures Placed(lower, paths[id := path], used[key := names], node)
  {
    var t :| Extends(lower, paths, used, node, t);
    var k :| NumberedAt(lower, used[node.parentId], Sanitize(node.name).value, node.kind == File, t, k);
    assert NumberedAt(lower, used[key := names][node.parentId], Sanitize(node.name).value, node.kind == File, t, k);
    assert Extends(lower, paths[id := path], used[key := names], node, t);
  }

  /** The names taken so far stay taken, and the new one by the new node. */
  lemma TakenStays(lower: CaseMap, nodes: seq<TreeNode>, paths: Paths, used: Used, node: TreeNode, path: string, segment: string)
    requires TakenByNodes(lower, nodes, paths, used) && node.id !in paths && nodes != []
    requires TakesAs(lower, paths[node.id := path], node, Lower(lower, segment), segment)
    ensures TakenByNodes(lower, nodes + [node], paths[node.id := path],
                         used[node.parentId := UsedIn(used, node.parentId) + {Lower(lower, segment)}])
  {
    var more, after := nodes + [node], paths[node.id := path];
    assert more[|nodes|] == node && Takes(lower, after, node, Lower(lower, segment));
    forall folder, key | folder in used && key in used[folder]
      ensures TakenBy(lower, more, after, folder, key)
    {
      var i :| 1 <= i < |nodes| && nodes[i].parentId == folder && Takes(lower, paths, nodes[i], key);
      var t :| TakesAs(lower, paths, nodes[i], key, t);
      assert TakesAs(lower, after, nodes[i], key, t) && more[i] == nodes[i];
    }
  }

  lemma IdsGrow(nodes: seq<TreeNode>, node: TreeNode, id: string)
    ensures HasId(nodes + [node], id) <==> HasId(nodes, id) || node.id == id
  {
    var more := nodes + [node];
    if HasId(nodes, id) {
      var i :| 0 <= i < |nodes| && nodes[i].id == id;
      assert more[i].id == id;
    }
    assert more[|nodes|] == node;
  }

  lemma NewIsNumbered(lower: CaseMap, taken: set<string>, names: set<string>, node: TreeNode, segment: string)
    requires Sanitize(node.name).Some? && taken <= names
    requires Numbered(lower, taken, Sanitize(node.name).value, node.kind == File, segment)
    ensures Numbered(lower, names, Sanitize(node.name).value, node.kind == File, segment)
  {
    var k :| NumberedAt(lower, taken, Sanitize(node.name).value, node.kind == File, segment, k);
    assert NumberedAt(lower, names, Sanitize(node.name).value, node.kind == File, segment, k);
  }

  lemma Lay(lower: CaseMap, base: string, nodes: seq<TreeNode>, paths: Paths, used: Used, node: TreeNode, segment: string)
    requires Cased(lower) && Laid(lower, base, nodes, paths, used) && node.parentId in paths
    requires !HasId(nodes, node.id) && IsSegment(segment)
    requires Lower(lower, segment) !in UsedIn(used, node.parentId)
    requires Sanitize(node.name).Some?
    requires Numbered(lower, UsedIn(used, node.parentId), Sanitize(node.name).value, node.kind == File, segment)
    ensures Laid(lower, base, nodes + [node], paths[node.id := Join(paths[node.parentId], segment)],
                 used[node.parentId := UsedIn(used, node.parentId) + {Lower(lower, segment)}])
  {
    var path := Join(paths[node.parentId], segment);
    var names := UsedIn(used, node.parentId) + {Lower(lower, segment)};
    assert node.id !in paths && node.parentId != node.id;
    forall a | a in paths
      ensures Lower(lower, paths[a]) != Lower(lower, path)
    {
      NewPathDiffers(lower, base, nodes, paths, used, node.parentId, segment, a);
    }
    PathAdded(lower, paths, node.id, path);
    NewIsNumbered(lower, UsedIn(used, node.parentId), names, node, segment);
    TakenStays(lower, nodes, paths, used, node, path, segment);
    assert Extends(lower, paths[node.id := path], used[node.parentId := names], node, segment);
    forall i | 1 <= i < |nodes|
      ensures Placed(lower, paths[node.id := path], used[node.parentId := names], nodes[i])
    {
      PlacedStays(lower, paths, used, nodes[i], node.id, path, node.parentId, names);
    }
    forall a | a in paths[node.id := path]
      ensures HasId(nodes + [node], a)
    {
      IdsGrow(nodes, node, a);
    }
  }

  /** What a node must satisfy once its parent has been seen. */
  predicate NodeOk(node: TreeNode) {
    node.kind != Other && (node.kind == File ==> node.size.Some?) && Sanitize(node.name).Some?
  }

  /** The row cannot stand where it does: unknown parent or kind, or a file without a size. */
  predicate Breaks(nodes: seq<TreeNode>, i: nat)
    requires i < |nodes|
  {
    !ParentSeen(nodes, i) || nodes[i].kind == Other || (nodes[i].kind == File && nodes[i].size.None?)
  }

  predicate ParentSeen(nodes: seq<TreeNode>, i: nat)
    requires i < |nodes|
  {
    exists j :: 0 <= j < i && nodes[j].id == nodes[i].parentId
  }

  /** The tree lists as archives: parents first, known kinds, sized files, usable names. */
  predicate Archivable(nodes: seq<TreeNode>) {
    && nodes != [] && (nodes[0].name == "" || Sanitize(nodes[0].name).Some?)
    && RestOk(nodes, |nodes|)
  }

  predicate RestOk(nodes: seq<TreeNode>, n: nat)
    requires n <= |nodes|
  {
    forall i :: 1 <= i < n ==> NodeOk(nodes[i]) && ParentSeen(nodes, i)
  }

  /** The entries are the nodes in order, each under its path; a nameless root has none. */
  predicate Lists(entries: seq<ArchiveEntry>, nodes: seq<TreeNode>, paths: Paths, skip: nat)
    requires skip <= 1 && skip <= |nodes|
  {
    && |entries| == |nodes| - skip
    && (forall i :: skip <= i < |nodes| ==> ListsAt(entries[i - skip], nodes[i], paths))
    && (forall i :: 1 <= i < |nodes| ==> SameContent(entries[i - skip], nodes[i]))
    && (skip == 0 && nodes != [] ==> entries[0].kind == Folder && entries[0].size == 0)
  }

  predicate ListsAt(e: ArchiveEntry, node: TreeNode, paths: Paths) {
    e.id == node.id && node.id in paths && e.path == paths[node.id]
  }

  predicate SameContent(e: ArchiveEntry, node: TreeNode) {
    e.kind == node.kind && e.size == if node.size.Some? then node.size.value else 0
  }

  /** The name of the archive's own folder; a nameless root has none. */
  function RootName(root: TreeNode): (base: Option<string>)
    ensures base.Some? ==> base.value == "" || IsSegment(base.value)
    ensures base.Some? ==> (base.value == "" <==> root.name == "")
  {
    if root.name == "" then Some("") else Sanitize(root.name)
  }

  /** The archive lists the nodes under distinct paths, each named in its folder. */
  ghost predicate IsArchiveOf(archive: Archive, lower: CaseMap, base: string, nodes: seq<TreeNode>, paths: Paths, used: Used)
    requires nodes != []
  {
    && archive.nodeCount == |nodes| && archive.filename == (if base == "" then "files" else base) + ".zip"
    && nodes[0].id in paths && paths[nodes[0].id] == base
    && PathsDiffer(lower, paths) && (forall i :: 1 <= i < |nodes| ==> Placed(lower, paths, used, nodes[i]))
    && TakenByNodes(lower, nodes, paths, used)
    && Lists(archive.entries, nodes, paths, if base == "" then 1 else 0)
  }

  /**
   * `buildArchive` succeeds exactly on archivable trees; then, the ids being distinct, all paths differ whatever
   * the case and each extends its parent's by one slash-free segment: the node's own name, made harmless, with a
   * number only if others in the folder have taken all names tried before.
   */
  method BuildArchive(lower: CaseMap, nodes: seq<TreeNode>) returns (result: Result<Archive, Error>, ghost paths: Paths, ghost used: Used)
    requires Cased(lower) && DistinctIds(nodes)
    ensures result.Success? <==> Archivable(nodes)
    ensures result.Success? ==>
      RootName(nodes[0]).Some? && IsArchiveOf(result.value, lower, RootName(nodes[0]).value, nodes, paths, used)
    ensures result.Failure? ==> result.error != TooLarge
    ensures result == Failure(InvalidPath) ==> exists i :: 0 <= i < |nodes| && Sanitize(nodes[i].name).None?
    ensures result == Failure(BrokenTree) ==> nodes == [] || exists i :: 1 <= i < |nodes| && Breaks(nodes, i)
  {
    paths, used := map[], map[];
    if |nodes| == 0 {
      return Failure(BrokenTree), paths, used;
    }
    var base := RootName(nodes[0]);
    if base.None? {
      return Failure(InvalidPath), paths, used;
    }
    result, paths, used := BuildBelow(lower, base.value, nodes);
  }

  method BuildBelow(lower: CaseMap, base: string, nodes: seq<TreeNode>)
    returns (result: Result<Archive, Error>, ghost paths: Paths, ghost used: Used)
    requires Cased(lower) && DistinctIds(nodes) && nodes != [] && (base == "" || IsSegment(base))
    ensures result.Success? <==> RestOk(nodes, |nodes|)
    ensures result.Success? ==> IsArchiveOf(result.value, lower, base, nodes, paths, used)
    ensures result.Failure? ==> result.error != TooLarge
    ensures result == Failure(InvalidPath) ==> exists i :: 0 <= i < |nodes| && Sanitize(nodes[i].name).None?
    ensures result == Failure(BrokenTree) ==> exists i :: 1 <= i < |nodes| && Breaks(nodes, i)
  {
    var entries := if base == "" then [] else [ArchiveEntry(nodes[0].id, base, Folder, 0)];
    var all;
    all, paths, used := LayAll(lower, base, nodes, entries);
    if all.Failure? {
      return Failure(all.error), paths, used;
    }
    return Success(Archive(if base == "" then "files.zip" else base + ".zip", all.value, |nodes|)), paths, used;
  }

  /** The loop over the nodes below the root. */
  method LayAll(lower: CaseMap, base: string, nodes: seq<TreeNode>, rootEntry: seq<ArchiveEntry>)
    returns (result: Result<seq<ArchiveEntry>, Error>, ghost paths: Paths, ghost used: Used)
    requires Cased(lower) && DistinctIds(nodes) && nodes != [] && (base == "" || IsSegment(base))
    requires Lists(rootEntry, nodes[..1], map[nodes[0].id := base], if base == "" then 1 else 0)
    ensures result.Success? <==> RestOk(nodes, |nodes|)
    ensures result.Failure? ==> result.error != TooLarge
    ensures result == Failure(InvalidPath) ==> exists i :: 0 <= i < |nodes| && Sanitize(nodes[i].name).None?
    ensures result == Failure(BrokenTree) ==> exists i :: 1 <= i < |nodes| && Breaks(nodes, i)
    ensures result.Success? ==> Laid(lower, base, nodes, paths, used)
    ensures result.Success? ==> Lists(result.value, nodes, paths, if base == "" then 1 else 0)
  {
    var p := Progress(map[nodes[0].id := base], map[], rootEntry);
    ghost var done := nodes[..1];
    assert HasId(done, nodes[0].id);
    var n := 1;
    while n < |nodes|
      invariant 1 <= n <= |nodes| && done == nodes[..n] && RestOk(nodes, n)
      invariant Built(lower, base, done, p)
    {
      var next := LayNext(lower, base, nodes, n, done, p);
      if next.Failure? {
        return Failure(next.error), p.known, p.names;
      }
      p := next.value;
      TakeMore(nodes, n);
      RestGrows(nodes, n);
      done := done + [nodes[n]];
      n := n + 1;
    }
    assert done == nodes;
    return Success(p.entries), p.known, p.names;
  }

  /** The maps of the building loop and the entries so far. */
  datatype Progress = Progress(known: Paths, names: Used, entries: seq<ArchiveEntry>)

  ghost predicate Built(lower: CaseMap, base: string, done: seq<TreeNode>, p: Progress) {
    Laid(lower, base, done, p.known, p.names) && Lists(p.entries, done, p.known, if base == "" then 1 else 0)
  }

  method LayNext(lower: CaseMap, base: string, nodes: seq<TreeNode>, n: nat, ghost done: seq<TreeNode>, p: Progress)
    returns (next: Result<Progress, Error>)
    requires Cased(lower) && DistinctIds(nodes) && 1 <= n < |nodes| && done == nodes[..n] && Built(lower, base, done, p)
    ensures next.Success? ==> Built(lower, base, done + [nodes[n]], next.value) && NodeOk(nodes[n]) && ParentSeen(nodes, n)
    ensures next.Failure? ==> next.error != TooLarge && !(NodeOk(nodes[n]) && ParentSeen(nodes, n))
    ensures next == Failure(InvalidPath) ==> Sanitize(nodes[n].name).None?
    ensures next == Failure(BrokenTree) ==> Breaks(nodes, n)
  {
    var node := nodes[n];
    KnownIsSeen(lower, base, nodes, n, done, p.known, p.names);
    var added := AddNode(lower, base, done, node, p.known, p.names);
    if added.Failure? {
      return Failure(added.error);
    }
    var path := Join(p.known[node.parentId], added.value);
    ListsMore(p.entries, done, p.known, node, path, if base == "" then 1 else 0);
    var entry := ArchiveEntry(node.id, path, node.kind, if node.size.Some? then node.size.value else 0);
    next := Success(Progress(
      p.known[node.id := path],
      p.names[node.parentId := UsedIn(p.names, node.parentId) + {Lower(lower, added.value)}],
      p.entries + [entry]));
  }

  /** The checks of one node and its segment in its parent's folder. */
  method AddNode(lower: CaseMap, ghost base: string, ghost nodes: seq<TreeNode>, node: TreeNode, known: Paths, names: Used)
    returns (result: Result<string, Error>)
    requires Cased(lower) && Laid(lower, base, nodes, known, names) && !HasId(nodes, node.id)
    ensures result.Success? <==> node.parentId in known && NodeOk(node)
    ensures result.Failure? ==> result.error != TooLarge
    ensures result == Failure(InvalidPath) ==> Sanitize(node.name).None?
    ensures result == Failure(BrokenTree) ==>
      node.parentId !in known || node.kind == Other || (node.kind == File && node.size.None?)
    ensures result.Success? ==>
      Laid(lower, base, nodes + [node], known[node.id := Join(known[node.parentId], result.value)],
           names[node.parentId := UsedIn(names, node.parentId) + {Lower(lower, result.value)}])
  {
    if node.parentId !in known || node.kind == Other || (node.kind == File && node.size.None?) {
      return Failure(BrokenTree);
    }
    var clean := Sanitize(node.name);
    if clean.None? {
      return Failure(InvalidPath);
    }
    var segment;
    ghost var tries;
    segment, tries := UniqueSegment(lower, UsedIn(names, node.parentId), clean.value, node.kind == File);
    CandidateIsSegment(clean.value, tries, node.kind == File);
    assert NumberedAt(lower, UsedIn(names, node.parentId), clean.value, node.kind == File, segment, tries);
    Lay(lower, base, nodes, known, names, node, segment);
    result := Success(segment);
  }

  lemma KnownIsSeen(lower: CaseMap, base: string, nodes: seq<TreeNode>, n: nat, done: seq<TreeNode>, paths: Paths, used: Used)
    requires 1 <= n < |nodes| && done == nodes[..n] && Laid(lower, base, done, paths, used) && DistinctIds(nodes)
    ensures nodes[n].parentId in paths <==> ParentSeen(nodes, n)
    ensures !HasId(done, nodes[n].id)
  {
    LaidKnows(lower, base, done, paths, used, nodes[n].parentId);
    SeenIsHad(nodes, n);
    NewIsUnknown(nodes, n);
  }

  lemma NewIsUnknown(nodes: seq<TreeNode>, n: nat)
    requires n < |nodes| && DistinctIds(nodes)
    ensures !HasId(nodes[..n], nodes[n].id)
  {
  }

  lemma RestGrows(nodes: seq<TreeNode>, n: nat)
    requires 1 <= n < |nodes| && RestOk(nodes, n) && NodeOk(nodes[n]) && ParentSeen(nodes, n)
    ensures RestOk(nodes, n + 1)
  {
  }

  lemma TakeMore(nodes: seq<TreeNode>, n: nat)
    requires n < |nodes|
    ensures nodes[..n + 1] == nodes[..n] + [nodes[n]]
  {
  }

  lemma SeenIsHad(nodes: seq<TreeNode>, n: nat)
    requires n < |nodes|
    ensures ParentSeen(nodes, n) <==> HasId(nodes[..n], nodes[n].parentId)
  {
    if ParentSeen(nodes, n) {
      var j :| 0 <= j < n && nodes[j].id == nodes[n].parentId;
      assert nodes[..n][j].id == nodes[n].parentId;
    }
  }

  /** Exactly the nodes seen so far have paths. */
  lemma LaidKnows(lower: CaseMap, base: string, nodes: seq<TreeNode>, paths: Paths, used: Used, id: string)
    requires Laid(lower, base, nodes, paths, used)
    ensures id in paths <==> HasId(nodes, id)
  {
    if HasId(nodes, id) {
      var i :| 0 <= i < |nodes| && nodes[i].id == id;
      if i > 0 {
        assert Placed(lower, paths, used, nodes[i]);
      }
    }
  }

  lemma ListsMore(entries: seq<ArchiveEntry>, done: seq<TreeNode>, paths: Paths, node: TreeNode, path: string, skip: nat)
    requires done != [] && skip <= 1 && Lists(entries, done, paths, skip) && !HasId(done, node.id)
    ensures var size := if node.size.Some? then node.size.value else 0;
      Lists(entries + [ArchiveEntry(node.id, path, node.kind, size)], done + [node], paths[node.id := path], skip)
  {
    forall i | skip <= i < |done|
      ensures ListsAt(entries[i - skip], done[i], paths[node.id := path])
    {
      assert ListsAt(entries[i - skip], done[i], paths);
      assert done[i].id == node.id ==> HasId(done, node.id);
    }
  }

  /** Two entries of an archive never have paths that differ only in case. */
  lemma EntriesDiffer(lower: CaseMap, entries: seq<ArchiveEntry>, nodes: seq<TreeNode>, paths: Paths, skip: nat, i: nat, j: nat)
    requires skip <= 1 && skip <= |nodes| && Lists(entries, nodes, paths, skip) && PathsDiffer(lower, paths) && DistinctIds(nodes)
    requires i < j < |entries|
    ensures Lower(lower, entries[i].path) != Lower(lower, entries[j].path)
  {
    assert ListsAt(entries[i + skip - skip], nodes[i + skip], paths) && ListsAt(entries[j + skip - skip], nodes[j + skip], paths);
  }

  // ----- Limits -----

  datatype Limits = Limits(maxEntries: int, maxBytes: int)

  function FileBytes(entries: seq<ArchiveEntry>): int {
    if entries == [] then 0
    else FileBytes(entries[..|entries| - 1]) + if entries[|entries| - 1].kind == File then entries[|entries| - 1].size else 0
  }

  predicate SizesOk(entries: seq<ArchiveEntry>) {
    forall i :: 0 <= i < |entries| && entries[i].kind == File ==> entries[i].size >= 0
  }

  predicate Exceeds(entries: seq<ArchiveEntry>, limits: Limits) {
    SizesOk(entries) && FileBytes(entries) > limits.maxBytes
  }

  lemma {:induction false} BytesGrow(entries: seq<ArchiveEntry>, n: nat)
    requires SizesOk(entries) && n <= |entries|
    ensures 0 <= FileBytes(entries[..n]) <= FileBytes(entries)
    decreases |entries|
  {
    if n < |entries| {
      var shorter := entries[..|entries| - 1];
      assert shorter[..n] == entries[..n];
      BytesGrow(shorter, n);
    } else {
      assert entries[..n] == entries;
      if n > 0 {
        var shorter := entries[..n - 1];
        BytesGrow(shorter, n - 1);
        assert shorter[..n - 1] == shorter;
      }
    }
  }

  /** The running check accepts exactly the archives whose file bytes in total fit. */
  method ValidateLimits(archive: Archive, limits: Limits) returns (error: Option<Error>)
    ensures error.None? <==>
      && limits.maxEntries >= 1 && limits.maxBytes >= 0 && 1 <= archive.nodeCount <= limits.maxEntries
      && SizesOk(archive.entries) && FileBytes(archive.entries) <= limits.maxBytes
    ensures error == Some(TooLarge) ==>
      archive.nodeCount > limits.maxEntries || exists n :: 0 <= n <= |archive.entries| && Exceeds(archive.entries[..n], limits)
    ensures error.Some? && error != Some(TooLarge) ==> error == Some(BrokenTree)
    ensures error == Some(BrokenTree) ==>
      limits.maxEntries < 1 || limits.maxBytes < 0 || archive.nodeCount < 1 || !SizesOk(archive.entries)
  {
    if limits.maxEntries < 1 || limits.maxBytes < 0 || archive.nodeCount < 1 {
      return Some(BrokenTree);
    }
    if archive.nodeCount > limits.maxEntries {
      return Some(TooLarge);
    }
    var entries := archive.entries;
    var total, n := 0, 0;
    while n < |entries|
      invariant 0 <= n <= |entries| && SizesOk(entries[..n])
      invariant total == FileBytes(entries[..n]) && 0 <= total <= limits.maxBytes
    {
      var e := entries[n];
      assert entries[..n + 1][..n] == entries[..n];
      if e.kind == File {
        if e.size < 0 {
          return Some(BrokenTree);
        }
        if e.size > limits.maxBytes - total {
          assert Exceeds(entries[..n + 1], limits);
          if SizesOk(entries) {
            BytesGrow(entries, n + 1);
          }
          return Some(TooLarge);
        }
        total := total + e.size;
      }
      n := n + 1;
    }
    assert entries[..n] == entries;
    error := None;
  }
}
