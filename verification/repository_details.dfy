/**
  The repository page: the directory tree projected from the flat list of
  file paths, the expansion toggle, per-directory file counts, the selection
  of files for test generation and the snapshot handed to the test
  generator.

  A tree node is the object of the page: the root, or a directory with its
  `name`, joined `path` and `expanded` flag. Its directory entries are kept
  in the order they were created and found by name; since sibling names are
  unique, that order matters only for display, where the page sorts the
  entries by name. Its `_files` list holds the file leaves.
*/
module RepositoryDetails {
  import opened Outcome
  import opened Text
  import opened Handoff
  import opened Selection
  import Helpers

  /** A file leaf: the file record with its last path segment as `name`. */
  datatype Leaf = Leaf(file: RepoFile, name: string)

  datatype Node = Node(
    isDirectory: bool, name: string, path: string, expanded: bool, children: seq<Node>, files: seq<Leaf>)

  /** The empty root object. */
  const EmptyTree: Node := Node(false, "", "", false, [], [])

  /** Keys a directory object already uses for itself. */
  const NodeFields: seq<string> := ["_files", "type", "name", "path", "expanded"]

  /** The keys a directory segment at depth `i` must avoid: looking one of
      them up on the node object finds a value that is not a directory entry.
      The root object starts empty, so only `_files` and the inherited keys
      are taken there. */
  function ReservedAt(i: nat): seq<string> {
    (if i == 0 then ["_files"] else NodeFields) + ObjectPrototypeKeys
  }

  /** No directory segment of a path (every segment but the last, which
      becomes a leaf name) is a reserved key at its depth. */
  predicate SafeSegments(parts: seq<string>) {
    forall i :: 0 <= i < |parts| - 1 ==> parts[i] !in ReservedAt(i)
  }

  /** The entry `current[name]`: the first child with that name. */
  function ChildIndex(children: seq<Node>, name: string): (r: Option<nat>)
    ensures r.Some? ==> r.value < |children| && children[r.value].name == name
    ensures r.Some? ==> forall k :: 0 <= k < r.value ==> children[k].name != name
    ensures r.None? ==> forall k :: 0 <= k < |children| ==> children[k].name != name
  {
    if children == [] then None
    else if children[0].name == name then Some(0)
    else
      match ChildIndex(children[1..], name)
      case None => None
      case Some(k) => Some(k + 1)
  }

  /** Lookups by name see only names: children with the same names answer
      every lookup alike. */
  lemma ChildIndexSameNames(a: seq<Node>, b: seq<Node>, name: string)
    requires |a| == |b| && forall k :: 0 <= k < |a| ==> a[k].name == b[k].name
    ensures ChildIndex(a, name) == ChildIndex(b, name)
  {
    var r := ChildIndex(a, name);
    var s := ChildIndex(b, name);
    if r.Some? {
      assert b[r.value].name == name;
    }
    if s.Some? {
      assert a[s.value].name == name;
    }
  }

  lemma ChildIndexUpdate(children: seq<Node>, j: nat, c: Node, name: string)
    requires j < |children| && c.name == children[j].name
    ensures ChildIndex(children[j := c], name) == ChildIndex(children, name)
  {
    ChildIndexSameNames(children[j := c], children, name);
  }

  // ---------------------------------------------------------------------
  // Building the tree
  // ---------------------------------------------------------------------

  /** One file placed below `node`, whose own path segments are
      `parts[..i]`: the last segment is a leaf pushed on `_files`; a missing
      directory is created on the way with its segment as name, the first
      `i + 1` segments joined by `/` as path, and expanded when `i < 2`. The
      node's own fields are never overwritten. */
  function Insert(node: Node, parts: seq<string>, i: nat, file: RepoFile): (r: Node)
    requires i < |parts|
    ensures r.isDirectory == node.isDirectory && r.name == node.name
    ensures r.path == node.path && r.expanded == node.expanded
    ensures Count(r) == Count(node) + 1
    decreases |parts| - i
  {
    if i == |parts| - 1 then node.(files := node.files + [Leaf(file, parts[i])])
    else
      match ChildIndex(node.children, parts[i])
      case Some(j) =>
        var child := Insert(node.children[j], parts, i + 1, file);
        SumCountsUpdate(node.children, j, child);
        node.(children := node.children[j := child])
      case None =>
        var dir := Node(true, parts[i], Join(parts[..i + 1], "/"), i < 2, [], []);
        var child := Insert(dir, parts, i + 1, file);
        assert (node.children + [child])[..|node.children|] == node.children;
        assert SumCounts(node.children + [child]) == SumCounts(node.children) + Count(child);
        node.(children := node.children + [child])
  }

  /** The tree of a list of files, one at a time in list order: every file
      has its leaf in the directory its path names, every leaf comes from a
      listed file whose path leads to it, and the leaves hold exactly the
      listed files, each as often as it is listed. */
  method BuildFileTree(files: seq<RepoFile>) returns (tree: Node)
    requires forall k :: 0 <= k < |files| ==> SafeSegments(Split(files[k].path, "/"))
    ensures Count(tree) == |files|
    ensures LeafFiles(tree) == multiset(files)
    ensures forall k :: 0 <= k < |files| ==> Placed(tree, files[k])
    ensures LeavesFrom(tree, [], files)
    ensures !tree.isDirectory && Shaped(tree, [])
    ensures DefaultExpansion(tree, 0)
  {
    tree := EmptyTree;
    assert LeavesFrom(tree, [], files);
    for k := 0 to |files|
      invariant BuiltUpTo(tree, files, k)
    {
      BuildStep(tree, files, k);
      tree := Insert(tree, Split(files[k].path, "/"), 0, files[k]);
    }
    assert files[..|files|] == files;
  }

  /** What the tree holds once the first `k` files are inserted. */
  ghost predicate BuiltUpTo(tree: Node, files: seq<RepoFile>, k: nat)
    requires k <= |files|
  {
    Count(tree) == k
    && LeafFiles(tree) == multiset(files[..k])
    && (forall m :: 0 <= m < k ==> Placed(tree, files[m]))
    && LeavesFrom(tree, [], files)
    && !tree.isDirectory && Shaped(tree, []) && DefaultExpansion(tree, 0)
  }

  /** Inserting the next file keeps what the tree holds. */
  lemma BuildStep(tree: Node, files: seq<RepoFile>, k: nat)
    requires k < |files| && BuiltUpTo(tree, files, k)
    ensures BuiltUpTo(Insert(tree, Split(files[k].path, "/"), 0, files[k]), files, k + 1)
  {
    var parts := Split(files[k].path, "/");
    InsertShaped(tree, parts, 0, files[k]);
    InsertDefaultExpansion(tree, parts, 0, files[k]);
    InsertFromRoot(tree, files[k], files);
    InsertAddsNextFile(tree, files, k);
    forall m | 0 <= m < k
      ensures Placed(Insert(tree, parts, 0, files[k]), files[m])
    {
      InsertKeepsPlaced(tree, files[k], files[m]);
    }
  }

  lemma InsertAddsNextFile(tree: Node, files: seq<RepoFile>, k: nat)
    requires k < |files| && LeafFiles(tree) == multiset(files[..k])
    ensures LeafFiles(Insert(tree, Split(files[k].path, "/"), 0, files[k])) == multiset(files[..k + 1])
  {
    InsertLeafFiles(tree, Split(files[k].path, "/"), 0, files[k]);
    MultisetOfPrefix(files, k);
  }

  lemma MultisetOfPrefix(files: seq<RepoFile>, k: nat)
    requires k < |files|
    ensures multiset(files[..k + 1]) == multiset(files[..k]) + multiset{files[k]}
  {
    assert files[..k + 1] == files[..k] + [files[k]];
  }

  /** The node reached from `n` by following the entries named by `address`. */
  function NodeAt(n: Node, address: seq<string>): Option<Node>
    decreases |address|
  {
    if address == [] then Some(n)
    else
      match ChildIndex(n.children, address[0])
      case None => None
      case Some(j) => NodeAt(n.children[j], address[1..])
  }

  /** The file's leaf, named by its last segment, is in the `_files` of the
      directory its other segments lead to. */
  ghost predicate Placed(tree: Node, file: RepoFile) {
    var parts := Split(file.path, "/");
    var at := NodeAt(tree, parts[..|parts| - 1]);
    at.Some? && Leaf(file, parts[|parts| - 1]) in at.value.files
  }

  /** A listed file inserted from the root is placed, and every leaf still
      comes from a listed file. */
  lemma InsertFromRoot(tree: Node, file: RepoFile, files: seq<RepoFile>)
    requires file in files && LeavesFrom(tree, [], files)
    ensures Placed(Insert(tree, Split(file.path, "/"), 0, file), file)
    ensures LeavesFrom(Insert(tree, Split(file.path, "/"), 0, file), [], files)
  {
    var parts := Split(file.path, "/");
    InsertPlaces(tree, parts, 0, file);
    assert parts[0..|parts| - 1] == parts[..|parts| - 1];
    assert parts[..0] == [];
    InsertLeavesFrom(tree, parts, 0, file, files);
  }

  /** Inserting a file from the root keeps every placed file placed. */
  lemma InsertKeepsPlaced(tree: Node, file: RepoFile, other: RepoFile)
    requires Placed(tree, other)
    ensures Placed(Insert(tree, Split(file.path, "/"), 0, file), other)
  {
    var ps := Split(other.path, "/");
    InsertKeepsLeaf(tree, Split(file.path, "/"), 0, file, ps[..|ps| - 1], Leaf(other, ps[|ps| - 1]));
  }

  /** Every leaf at or below `n` is a listed file whose path is `prefix`,
      followed by the names of the directories down to the leaf, followed by
      the leaf's name. */
  ghost predicate LeavesFrom(n: Node, prefix: seq<string>, files: seq<RepoFile>)
    decreases n
  {
    (forall l :: l in n.files ==> l.file in files && Split(l.file.path, "/") == prefix + [l.name])
    && forall j :: 0 <= j < |n.children| ==>
      LeavesFrom(n.children[j], prefix + [n.children[j].name], files)
  }

  /** Appending a child leaves every existing lookup where it was, and makes
      a missing name found at the end. */
  lemma {:induction false} ChildIndexAppend(children: seq<Node>, c: Node, name: string)
    ensures ChildIndex(children, name).Some? ==> ChildIndex(children + [c], name) == ChildIndex(children, name)
    ensures ChildIndex(children, name).None? && c.name == name ==> ChildIndex(children + [c], name) == Some(|children|)
  {
    if children != [] && children[0].name != name {
      assert (children + [c])[1..] == children[1..] + [c];
      ChildIndexAppend(children[1..], c, name);
    }
  }

  /** An inserted file's leaf is in the directory its remaining segments lead to. */
  lemma {:induction false} InsertPlaces(n: Node, parts: seq<string>, i: nat, file: RepoFile)
    requires i < |parts|
    ensures var at := NodeAt(Insert(n, parts, i, file), parts[i..|parts| - 1]);
      at.Some? && Leaf(file, parts[|parts| - 1]) in at.value.files
    decreases |parts| - i
  {
    var address := parts[i..|parts| - 1];
    if i < |parts| - 1 {
      assert address[0] == parts[i] && address[1..] == parts[i + 1..|parts| - 1];
      match ChildIndex(n.children, parts[i])
      case Some(j) =>
        var child := Insert(n.children[j], parts, i + 1, file);
        ChildIndexUpdate(n.children, j, child, parts[i]);
        InsertPlaces(n.children[j], parts, i + 1, file);
        assert NodeAt(Insert(n, parts, i, file), address) == NodeAt(child, address[1..]);
      case None =>
        var dir := Node(true, parts[i], Join(parts[..i + 1], "/"), i < 2, [], []);
        var child := Insert(dir, parts, i + 1, file);
        ChildIndexAppend(n.children, child, parts[i]);
        InsertPlaces(dir, parts, i + 1, file);
        assert NodeAt(Insert(n, parts, i, file), address) == NodeAt(child, address[1..]);
    }
  }

  /** Inserting a file keeps every leaf already in the tree where it was. */
  lemma {:induction false} InsertKeepsLeaf(
    n: Node, parts: seq<string>, i: nat, file: RepoFile, address: seq<string>, leaf: Leaf)
    requires i < |parts|
    requires NodeAt(n, address).Some? && leaf in NodeAt(n, address).value.files
    ensures var at := NodeAt(Insert(n, parts, i, file), address);
      at.Some? && leaf in at.value.files
    decreases |parts| - i
  {
    var r := Insert(n, parts, i, file);
    if i == |parts| - 1 {
      assert r.children == n.children;
    } else if address != [] {
      var k := ChildIndex(n.children, address[0]).value;
      match ChildIndex(n.children, parts[i])
      case Some(j) =>
        var child := Insert(n.children[j], parts, i + 1, file);
        ChildIndexUpdate(n.children, j, child, address[0]);
        if k == j {
          InsertKeepsLeaf(n.children[j], parts, i + 1, file, address[1..], leaf);
        }
        assert NodeAt(r, address) == NodeAt(r.children[k], address[1..]);
      case None =>
        var dir := Node(true, parts[i], Join(parts[..i + 1], "/"), i < 2, [], []);
        ChildIndexAppend(n.children, Insert(dir, parts, i + 1, file), address[0]);
        assert NodeAt(r, address) == NodeAt(r.children[k], address[1..]);
    }
  }

  /** Inserting a listed file along its own segments keeps every leaf traced
      to a listed file. */
  lemma {:induction false} InsertLeavesFrom(n: Node, parts: seq<string>, i: nat, file: RepoFile, files: seq<RepoFile>)
    requires i < |parts| && parts == Split(file.path, "/") && file in files
    requires LeavesFrom(n, parts[..i], files)
    ensures LeavesFrom(Insert(n, parts, i, file), parts[..i], files)
    decreases |parts| - i
  {
    if i == |parts| - 1 {
      assert parts[..i] + [parts[i]] == parts;
    } else {
      assert parts[..i] + [parts[i]] == parts[..i + 1];
      match ChildIndex(n.children, parts[i])
      case Some(j) =>
        InsertLeavesFrom(n.children[j], parts, i + 1, file, files);
      case None =>
        var dir := Node(true, parts[i], Join(parts[..i + 1], "/"), i < 2, [], []);
        InsertLeavesFrom(dir, parts, i + 1, file, files);
        var m := Insert(n, parts, i, file);
        assert forall k :: 0 <= k < |n.children| ==> m.children[k] == n.children[k];
    }
  }

  /** The directory structure: every child is a directory named by its
      segment, whose path is the segments from the root joined by `/`, and
      the children of a node have distinct names. */
  ghost predicate Shaped(n: Node, prefix: seq<string>)
    decreases n
  {
    (forall j, k :: 0 <= j < k < |n.children| ==> n.children[j].name != n.children[k].name)
    && forall j :: 0 <= j < |n.children| ==>
      n.children[j].isDirectory
      && n.children[j].path == Join(prefix + [n.children[j].name], "/")
      && Shaped(n.children[j], prefix + [n.children[j].name])
  }

  /** Directories at depth `depth` and below carry the default flag:
      expanded exactly in the first two levels. */
  ghost predicate DefaultExpansion(n: Node, depth: nat)
    decreases n
  {
    forall j :: 0 <= j < |n.children| ==>
      n.children[j].expanded == (depth < 2) && DefaultExpansion(n.children[j], depth + 1)
  }

  lemma {:induction false} InsertShaped(n: Node, parts: seq<string>, i: nat, file: RepoFile)
    requires i < |parts| && Shaped(n, parts[..i])
    ensures Shaped(Insert(n, parts, i, file), parts[..i])
    decreases |parts| - i
  {
    if i < |parts| - 1 {
      assert parts[..i] + [parts[i]] == parts[..i + 1];
      match ChildIndex(n.children, parts[i])
      case Some(j) =>
        InsertShaped(n.children[j], parts, i + 1, file);
        ShapedUpdate(n, parts[..i], j, Insert(n.children[j], parts, i + 1, file));
      case None =>
        var dir := Node(true, parts[i], Join(parts[..i + 1], "/"), i < 2, [], []);
        InsertShaped(dir, parts, i + 1, file);
        ShapedAppend(n, parts[..i], Insert(dir, parts, i + 1, file));
    }
  }

  /** Replacing a child by a shaped one with the same name and path keeps
      the node shaped. */
  lemma ShapedUpdate(n: Node, prefix: seq<string>, j: nat, c: Node)
    requires Shaped(n, prefix) && j < |n.children|
    requires c.isDirectory && c.name == n.children[j].name && c.path == n.children[j].path
    requires Shaped(c, prefix + [c.name])
    ensures Shaped(n.(children := n.children[j := c]), prefix)
  {
    var m := n.(children := n.children[j := c]);
    assert forall k :: 0 <= k < |m.children| ==> m.children[k].name == n.children[k].name;
  }

  /** Appending a shaped directory under a fresh name keeps the node shaped. */
  lemma ShapedAppend(n: Node, prefix: seq<string>, c: Node)
    requires Shaped(n, prefix)
    requires forall k :: 0 <= k < |n.children| ==> n.children[k].name != c.name
    requires c.isDirectory && c.path == Join(prefix + [c.name], "/")
    requires Shaped(c, prefix + [c.name])
    ensures Shaped(n.(children := n.children + [c]), prefix)
  {
    AppendKeepsNamesDistinct(n.children, c);
    AppendKeepsChildrenShaped(n.children, prefix, c);
  }

  lemma AppendKeepsNamesDistinct(children: seq<Node>, c: Node)
    requires forall j, k :: 0 <= j < k < |children| ==> children[j].name != children[k].name
    requires forall k :: 0 <= k < |children| ==> children[k].name != c.name
    ensures forall j, k :: 0 <= j < k < |children + [c]| ==> (children + [c])[j].name != (children + [c])[k].name
  {
    var all := children + [c];
    assert forall k :: 0 <= k < |children| ==> all[k] == children[k];
    assert all[|children|] == c;
  }

  lemma AppendKeepsChildrenShaped(children: seq<Node>, prefix: seq<string>, c: Node)
    requires forall j :: 0 <= j < |children| ==>
      children[j].isDirectory
      && children[j].path == Join(prefix + [children[j].name], "/")
      && Shaped(children[j], prefix + [children[j].name])
    requires c.isDirectory && c.path == Join(prefix + [c.name], "/")
    requires Shaped(c, prefix + [c.name])
    ensures forall j :: 0 <= j < |children + [c]| ==>
      (children + [c])[j].isDirectory
      && (children + [c])[j].path == Join(prefix + [(children + [c])[j].name], "/")
      && Shaped((children + [c])[j], prefix + [(children + [c])[j].name])
  {
    var all := children + [c];
    assert forall k :: 0 <= k < |children| ==> all[k] == children[k];
    assert all[|children|] == c;
  }

  lemma {:induction false} InsertDefaultExpansion(n: Node, parts: seq<string>, i: nat, file: RepoFile)
    requires i < |parts| && DefaultExpansion(n, i)
    ensures DefaultExpansion(Insert(n, parts, i, file), i)
    decreases |parts| - i
  {
    if i < |parts| - 1 {
      match ChildIndex(n.children, parts[i])
      case Some(j) =>
        InsertDefaultExpansion(n.children[j], parts, i + 1, file);
      case None =>
        var dir := Node(true, parts[i], Join(parts[..i + 1], "/"), i < 2, [], []);
        InsertDefaultExpansion(dir, parts, i + 1, file);
    }
  }

  /** A path without `/` becomes a leaf of the node it is inserted into. */
  lemma TopLevelFile(n: Node, file: RepoFile)
    requires '/' !in file.path
    ensures Insert(n, Split(file.path, "/"), 0, file) == n.(files := n.files + [Leaf(file, file.path)])
  {
    ContainsChar(file.path, '/');
    SplitWithoutSeparator(file.path, "/");
  }

  // ---------------------------------------------------------------------
  // Counting files
  // ---------------------------------------------------------------------

  /** The files at and below a node. */
  function Count(n: Node): nat
    decreases n
  {
    |n.files| + SumCounts(n.children)
  }

  function SumCounts(cs: seq<Node>): nat
    decreases cs
  {
    if cs == [] then 0 else SumCounts(cs[..|cs| - 1]) + Count(cs[|cs| - 1])
  }

  lemma {:induction false} SumCountsUpdate(cs: seq<Node>, j: nat, c: Node)
    requires j < |cs|
    ensures SumCounts(cs[j := c]) == SumCounts(cs) - Count(cs[j]) + Count(c)
    decreases |cs|
  {
    var n := |cs| - 1;
    if j < n {
      assert cs[j := c][..n] == cs[..n][j := c];
      SumCountsUpdate(cs[..n], j, c);
    } else {
      assert cs[j := c][..n] == cs[..n];
    }
  }

  /** The files of the leaves at and below a node, with repeats. */
  function LeafFiles(n: Node): multiset<RepoFile>
    decreases n
  {
    FilesOf(n.files) + SumLeafFiles(n.children)
  }

  function FilesOf(leaves: seq<Leaf>): multiset<RepoFile> {
    if leaves == [] then multiset{}
    else FilesOf(leaves[..|leaves| - 1]) + multiset{leaves[|leaves| - 1].file}
  }

  function SumLeafFiles(cs: seq<Node>): multiset<RepoFile>
    decreases cs
  {
    if cs == [] then multiset{} else SumLeafFiles(cs[..|cs| - 1]) + LeafFiles(cs[|cs| - 1])
  }

  lemma {:induction false} SumLeafFilesUpdate(cs: seq<Node>, j: nat, c: Node)
    requires j < |cs|
    ensures SumLeafFiles(cs[j := c]) + LeafFiles(cs[j]) == SumLeafFiles(cs) + LeafFiles(c)
    decreases |cs|
  {
    var n := |cs| - 1;
    var d := cs[j := c];
    if j < n {
      assert d[..n] == cs[..n][j := c] && d[n] == cs[n];
      calc {
        SumLeafFiles(d) + LeafFiles(cs[j]);
        { SumLeafFilesLast(d); }
        (SumLeafFiles(cs[..n][j := c]) + LeafFiles(cs[n])) + LeafFiles(cs[j]);
        { SumLeafFilesUpdate(cs[..n], j, c);
          MultisetShift(SumLeafFiles(cs[..n][j := c]), SumLeafFiles(cs[..n]), LeafFiles(cs[j]), LeafFiles(c),
                        LeafFiles(cs[n])); }
        (SumLeafFiles(cs[..n]) + LeafFiles(cs[n])) + LeafFiles(c);
        { SumLeafFilesLast(cs); }
        SumLeafFiles(cs) + LeafFiles(c);
      }
    } else {
      assert d[..n] == cs[..n] && d[n] == c;
      calc {
        SumLeafFiles(d) + LeafFiles(cs[j]);
        { SumLeafFilesLast(d); }
        (SumLeafFiles(cs[..n]) + LeafFiles(c)) + LeafFiles(cs[n]);
        { MultisetSwap(SumLeafFiles(cs[..n]), LeafFiles(c), LeafFiles(cs[n])); }
        (SumLeafFiles(cs[..n]) + LeafFiles(cs[n])) + LeafFiles(c);
        { SumLeafFilesLast(cs); }
        SumLeafFiles(cs) + LeafFiles(c);
      }
    }
  }

  lemma SumLeafFilesLast(cs: seq<Node>)
    requires cs != []
    ensures SumLeafFiles(cs) == SumLeafFiles(cs[..|cs| - 1]) + LeafFiles(cs[|cs| - 1])
  {
  }

  lemma MultisetShift(a: multiset<RepoFile>, b: multiset<RepoFile>, x: multiset<RepoFile>, y: multiset<RepoFile>,
                      z: multiset<RepoFile>)
    requires a + x == b + y
    ensures (a + z) + x == (b + z) + y
  {
    forall f
      ensures ((a + z) + x)[f] == ((b + z) + y)[f]
    {
      assert (a + x)[f] == (b + y)[f];
    }
  }

  /** Inserting a file adds exactly that file to the leaves below the node. */
  lemma {:induction false} InsertLeafFiles(node: Node, parts: seq<string>, i: nat, file: RepoFile)
    requires i < |parts|
    ensures LeafFiles(Insert(node, parts, i, file)) == LeafFiles(node) + multiset{file}
    decreases |parts| - i
  {
    if i == |parts| - 1 {
      LeafFilesAddLeaf(node, Leaf(file, parts[i]));
    } else {
      match ChildIndex(node.children, parts[i])
      case Some(j) =>
        InsertLeafFiles(node.children[j], parts, i + 1, file);
        LeafFilesUpdateChild(node, j, Insert(node.children[j], parts, i + 1, file), multiset{file});
      case None =>
        var dir := Node(true, parts[i], Join(parts[..i + 1], "/"), i < 2, [], []);
        InsertLeafFiles(dir, parts, i + 1, file);
        assert LeafFiles(dir) == multiset{};
        LeafFilesAddChild(node, Insert(dir, parts, i + 1, file));
    }
  }

  lemma LeafFilesAddLeaf(node: Node, leaf: Leaf)
    ensures LeafFiles(node.(files := node.files + [leaf])) == LeafFiles(node) + multiset{leaf.file}
  {
    var leaves := node.files + [leaf];
    assert leaves[..|leaves| - 1] == node.files;
    MultisetSwap(FilesOf(node.files), multiset{leaf.file}, SumLeafFiles(node.children));
  }

  lemma LeafFilesUpdateChild(node: Node, j: nat, child: Node, e: multiset<RepoFile>)
    requires j < |node.children| && LeafFiles(child) == LeafFiles(node.children[j]) + e
    ensures LeafFiles(node.(children := node.children[j := child])) == LeafFiles(node) + e
  {
    SumLeafFilesUpdate(node.children, j, child);
    MultisetCancel(FilesOf(node.files), SumLeafFiles(node.children), SumLeafFiles(node.children[j := child]),
                   LeafFiles(node.children[j]), e);
  }

  lemma LeafFilesAddChild(node: Node, child: Node)
    ensures LeafFiles(node.(children := node.children + [child])) == LeafFiles(node) + LeafFiles(child)
  {
    var cs := node.children + [child];
    assert cs[..|node.children|] == node.children && cs[|node.children|] == child;
    MultisetCancel(FilesOf(node.files), SumLeafFiles(node.children), SumLeafFiles(cs), multiset{}, LeafFiles(child));
  }

  lemma MultisetSwap(a: multiset<RepoFile>, b: multiset<RepoFile>, c: multiset<RepoFile>)
    ensures (a + b) + c == (a + c) + b
  {
    forall f
      ensures ((a + b) + c)[f] == ((a + c) + b)[f]
    {
    }
  }

  lemma MultisetCancel(f: multiset<RepoFile>, s0: multiset<RepoFile>, s1: multiset<RepoFile>,
                       x: multiset<RepoFile>, e: multiset<RepoFile>)
    requires s1 + x == s0 + (x + e)
    ensures f + s1 == (f + s0) + e
  {
    forall g
      ensures (f + s1)[g] == ((f + s0) + e)[g]
    {
      assert (s1 + x)[g] == (s0 + (x + e))[g];
    }
  }

  /** `getDirectoryFileCount`: the node's own leaves plus, recursively, those
      of every directory entry. */
  method GetDirectoryFileCount(dir: Node) returns (count: nat)
    ensures count == Count(dir)
    decreases dir
  {
    count := |dir.files|;
    for k := 0 to |dir.children|
      invariant count == |dir.files| + SumCounts(dir.children[..k])
    {
      assert dir.children[..k + 1][..k] == dir.children[..k];
      var sub := GetDirectoryFileCount(dir.children[k]);
      count := count + sub;
    }
    assert dir.children[..|dir.children|] == dir.children;
  }

  // ---------------------------------------------------------------------
  // Expanding and collapsing
  // ---------------------------------------------------------------------

  /** The walk of `toggleDirectory` from `node` over the remaining segments:
      a segment with an entry moves down to it, any other segment is
      skipped; where the walk ends a directory has its flag flipped (the
      root has none). */
  function Flip(node: Node, parts: seq<string>): (r: Node)
    ensures r.name == node.name && r.isDirectory == node.isDirectory
    ensures Count(r) == Count(node)
    decreases |parts|
  {
    if parts == [] then
      if node.isDirectory then node.(expanded := !node.expanded) else node
    else
      match ChildIndex(node.children, parts[0])
      case None => Flip(node, parts[1..])
      case Some(j) =>
        var child := Flip(node.children[j], parts[1..]);
        SumCountsUpdate(node.children, j, child);
        node.(children := node.children[j := child])
  }

  /** `toggleDirectory` on the (copied) tree. */
  function ToggleDirectory(tree: Node, path: string): (r: Node)
    ensures Count(r) == Count(tree)
    ensures SameShape(r, tree)
  {
    FlipSameShape(tree, Split(path, "/"));
    Flip(tree, Split(path, "/"))
  }

  /** Two trees that differ at most in their `expanded` flags. */
  ghost predicate SameShape(a: Node, b: Node)
    decreases a
  {
    a.isDirectory == b.isDirectory && a.name == b.name && a.path == b.path && a.files == b.files
    && |a.children| == |b.children|
    && forall j :: 0 <= j < |a.children| ==> SameShape(a.children[j], b.children[j])
  }

  lemma {:induction false} FlipSameShape(n: Node, parts: seq<string>)
    ensures SameShape(Flip(n, parts), n)
    decreases |parts|
  {
    SameShapeRefl(n);
    if parts != [] {
      match ChildIndex(n.children, parts[0])
      case None => FlipSameShape(n, parts[1..]);
      case Some(j) =>
        FlipSameShape(n.children[j], parts[1..]);
        forall k | 0 <= k < |n.children|
          ensures SameShape(Flip(n, parts).children[k], n.children[k])
        {
          if k != j {
            SameShapeRefl(n.children[k]);
          }
        }
    }
  }

  lemma {:induction false} SameShapeRefl(n: Node)
    ensures SameShape(n, n)
    decreases n
  {
    forall j | 0 <= j < |n.children|
      ensures SameShape(n.children[j], n.children[j])
    {
      SameShapeRefl(n.children[j]);
    }
  }

  /** Toggling the same path twice restores the tree. */
  lemma {:induction false} FlipTwice(n: Node, parts: seq<string>)
    ensures Flip(Flip(n, parts), parts) == n
    decreases |parts|
  {
    if parts != [] {
      match ChildIndex(n.children, parts[0])
      case None =>
        var m := Flip(n, parts[1..]);
        FlipSameShape(n, parts[1..]);
        ChildIndexSameNames(m.children, n.children, parts[0]);
        FlipTwice(n, parts[1..]);
      case Some(j) =>
        var child := Flip(n.children[j], parts[1..]);
        ChildIndexUpdate(n.children, j, child, parts[0]);
        FlipTwice(n.children[j], parts[1..]);
        assert n.children[j := child][j := Flip(child, parts[1..])] == n.children;
    }
  }

  /** The segments the walk actually descends through. */
  function Target(n: Node, parts: seq<string>): seq<string>
    decreases |parts|
  {
    if parts == [] then []
    else
      match ChildIndex(n.children, parts[0])
      case None => Target(n, parts[1..])
      case Some(j) => [parts[0]] + Target(n.children[j], parts[1..])
  }

  /** The flag of the directory reached by following exactly the names of
      `address`, if there is one. */
  function ExpandedAt(n: Node, address: seq<string>): Option<bool>
    decreases |address|
  {
    if address == [] then (if n.isDirectory then Some(n.expanded) else None)
    else
      match ChildIndex(n.children, address[0])
      case None => None
      case Some(j) => ExpandedAt(n.children[j], address[1..])
  }

  /** A toggle flips the flag of the one directory where its walk ends and
      no other. */
  lemma {:induction false} FlipIsLocal(n: Node, parts: seq<string>, address: seq<string>)
    ensures ExpandedAt(Flip(n, parts), address) ==
      if address == Target(n, parts) && ExpandedAt(n, address).Some?
      then Some(!ExpandedAt(n, address).value)
      else ExpandedAt(n, address)
    decreases |parts|, 1
  {
    if parts != [] {
      match ChildIndex(n.children, parts[0])
      case None =>
        FlipIsLocal(n, parts[1..], address);
      case Some(j) =>
        FlipIsLocalBelow(n, parts, address, j);
    }
  }

  /** The step of `FlipIsLocal` where the walk moves down to child `j`. */
  lemma {:induction false} FlipIsLocalBelow(n: Node, parts: seq<string>, address: seq<string>, j: nat)
    requires parts != [] && ChildIndex(n.children, parts[0]) == Some(j)
    ensures ExpandedAt(Flip(n, parts), address) ==
      if address == Target(n, parts) && ExpandedAt(n, address).Some?
      then Some(!ExpandedAt(n, address).value)
      else ExpandedAt(n, address)
    decreases |parts|, 0
  {
    var child := Flip(n.children[j], parts[1..]);
    var m := n.(children := n.children[j := child]);
    assert Flip(n, parts) == m;
    assert Target(n, parts) == [parts[0]] + Target(n.children[j], parts[1..]);
    if address != [] {
      ChildIndexUpdate(n.children, j, child, address[0]);
      match ChildIndex(n.children, address[0])
      case None =>
      case Some(k) =>
        assert ExpandedAt(m, address) == ExpandedAt(m.children[k], address[1..]);
        if k == j {
          FlipIsLocal(n.children[j], parts[1..], address[1..]);
        }
    }
  }

  // ---------------------------------------------------------------------
  // Selection and the hand-off
  // ---------------------------------------------------------------------

  /** The fetched files whose path is selected, in fetched order. */
  function FilesIn(files: seq<RepoFile>, selected: seq<string>): (r: seq<RepoFile>)
    ensures |r| <= |files|
    ensures forall f :: f in r <==> f in files && f.path in selected
  {
    if files == [] then []
    else
      var init := files[..|files| - 1];
      assert files == init + [files[|files| - 1]];
      if files[|files| - 1].path in selected then FilesIn(init, selected) + [files[|files| - 1]]
      else FilesIn(init, selected)
  }

  /** The selected files keep the fetched order and repetition: selecting
      from a concatenation is selecting from each part in turn. */
  lemma {:induction false} FilesInAppend(a: seq<RepoFile>, b: seq<RepoFile>, selected: seq<string>)
    ensures FilesIn(a + b, selected) == FilesIn(a, selected) + FilesIn(b, selected)
    decreases |b|
  {
    if b == [] {
      assert a + b == a;
    } else {
      var init := b[..|b| - 1];
      assert (a + b)[..|a + b| - 1] == a + init;
      FilesInAppend(a, init, selected);
    }
  }

  /** A single file is kept exactly when its path is selected. */
  lemma FilesInSingle(file: RepoFile, selected: seq<string>)
    ensures FilesIn([file], selected) == if file.path in selected then [file] else []
  {
    assert [file][..0] == [];
  }

  /** `handleGenerateTests`: with nothing selected the user is alerted and no
      snapshot is written; otherwise the snapshot holds the selected files,
      the selection size and the selection itself. */
  method HandleGenerateTests(
    selected: seq<string>, files: seq<RepoFile>, repository: RepoInfo, storage: SessionStorage)
    returns (alerted: bool)
    modifies storage
    ensures alerted <==> selected == []
    ensures selected == [] ==> storage.repoData == old(storage.repoData)
    ensures selected != [] ==> (storage.repoData ==
      Some(Snapshot(repository.htmlUrl, repository, FilesIn(files, selected), |selected|, Some(selected))))
    ensures selected != [] ==> forall f :: f in storage.repoData.value.files ==> f.path in selected
  {
    if selected == [] {
      return true;
    }
    storage.repoData := Some(Snapshot(repository.htmlUrl, repository, FilesIn(files, selected), |selected|, Some(selected)));
    return false;
  }

  const LanguageMap: map<string, string> := map[
    "js" := "javascript", "jsx" := "jsx", "ts" := "typescript", "tsx" := "tsx", "py" := "python",
    "java" := "java", "go" := "go", "rb" := "ruby", "php" := "php", "cpp" := "cpp", "c" := "c",
    "cs" := "csharp", "html" := "html", "css" := "css", "scss" := "scss", "sass" := "sass",
    "json" := "json", "xml" := "xml", "yaml" := "yaml", "yml" := "yaml", "md" := "markdown",
    "sh" := "bash", "bash" := "bash", "sql" := "sql", "dockerfile" := "dockerfile", "vue" := "vue",
    "svelte" := "svelte", "kt" := "kotlin", "swift" := "swift", "rust" := "rust", "rs" := "rust"
  ]

  /** `getFileLanguage`: the highlighting language of a file name, `text`
      when its extension is not listed. An extension that names a property
      every object inherits (`constructor`, `__proto__`) finds that
      property, a function or the prototype object, instead of a language:
      `None`. */
  function GetFileLanguage(fileName: string): (language: Option<string>)
    ensures var ext := Helpers.FileExtension(fileName);
      ext in LanguageMap ==> language == Some(LanguageMap[ext])
    ensures var ext := Helpers.FileExtension(fileName);
      language == Some("text") <==> ext !in LanguageMap && ext !in ObjectPrototypeKeys
    ensures language.None? <==> Helpers.FileExtension(fileName) in ObjectPrototypeKeys
  {
    var ext := Helpers.FileExtension(fileName);
    NoLanguageIsText(ext);
    if ext in LanguageMap then Some(LanguageMap[ext])
    else if ext in ObjectPrototypeKeys then None
    else Some("text")
  }

  /** `text` is the name of no listed language, and no inherited property
      name is a listed extension. */
  lemma NoLanguageIsText(ext: string)
    ensures ext in LanguageMap ==> LanguageMap[ext] != "text" && ext !in ObjectPrototypeKeys
  {
    if ext in LanguageMap {
      ListedAreShort(ext);
    }
  }

  /** Every listed extension but `dockerfile` is shorter than every
      inherited property name. */
  lemma ListedAreShort(ext: string)
    requires ext in LanguageMap
    ensures |ext| <= 6 || ext == "dockerfile"
  {
  }

  /** Every file with the code icon has a highlighting language. */
  lemma TestableFilesHaveLanguage(fileName: string)
    requires Helpers.IsTestableFile(fileName)
    ensures GetFileLanguage(fileName).Some? && GetFileLanguage(fileName) != Some("text")
  {
  }
}
