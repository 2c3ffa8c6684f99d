/** The second pass over a release archive: a sound archive is written below a
    new directory without ever meeting a path that is in its way
    (control/install_support/archive.rs, `extract`). */
module Extraction {
  import opened Archive
  import opened Common

  datatype Node = Folder(mode: nat) | Document(content: seq<bv8>, mode: nat)

  /** A file system: every path that exists, and what is there. */
  type Tree = map<Path, Node>

  /** The owner's rights in a folder's mode. */
  predicate Searchable(mode: nat) { (mode / 64) % 2 == 1 }

  predicate Writable(mode: nat) { (mode / 128) % 2 == 1 && Searchable(mode) }

  /** The owner can go down to the path: each folder above it is there and may
      be searched. */
  ghost predicate Reachable(tree: Tree, path: Path) {
    forall n :: 0 <= n < |path| ==> path[..n] in tree && tree[path[..n]].Folder? && Searchable(tree[path[..n]].mode)
  }

  function Parent(path: Path): Path
    requires path != []
  {
    path[..|path| - 1]
  }

  /** Whether the owner may add an entry at the path. */
  ghost predicate Vacant(tree: Tree, path: Path) {
    path != [] && path !in tree && Reachable(tree, path) && Writable(tree[Parent(path)].mode)
  }

  /** Every node lies in a folder. */
  ghost predicate Rooted(tree: Tree) {
    forall p :: p in tree && p != [] ==> Parent(p) in tree && tree[Parent(p)].Folder?
  }

  // ----- the operations of the file system ---------------------------------

  class FileSystem {
    var nodes: Tree
    /** The mode of a new folder, which the process's umask decides. */
    const initial: nat

    constructor (tree: Tree, mode: nat)
      ensures nodes == tree && initial == mode
    {
      nodes, initial := tree, mode;
    }

    method CreateDir(path: Path) returns (ok: bool)
      modifies this
      ensures ok <==> Vacant(old(nodes), path)
      ensures nodes == if ok then old(nodes)[path := Folder(initial)] else old(nodes)
    {
      var free := IsVacant(path);
      if !free { return false; }
      nodes := nodes[path := Folder(initial)];
      return true;
    }

    method IsVacant(path: Path) returns (free: bool)
      ensures free <==> Vacant(nodes, path)
    {
      if path == [] || path in nodes { return false; }
      var n := 0;
      while n < |path|
        invariant 0 <= n <= |path|
        invariant forall m :: 0 <= m < n ==> path[..m] in nodes && nodes[path[..m]].Folder? && Searchable(nodes[path[..m]].mode)
      {
        var above := path[..n];
        if above !in nodes || !nodes[above].Folder? || !Searchable(nodes[above].mode) { return false; }
        n := n + 1;
      }
      return Writable(nodes[Parent(path)].mode);
    }

    /** Creates what is missing of a path, from the top. */
    method CreateDirAll(path: Path) returns (ok: bool)
      modifies this
      ensures Openable(old(nodes), path, initial) ==> ok && nodes == WithFolders(old(nodes), path, initial)
      decreases |path|
    {
      if path in nodes && nodes[path].Folder? {
        if Openable(nodes, path, initial) { NothingToAdd(nodes, path, initial); }
        return true;
      }
      if path == [] { return false; }
      if Openable(nodes, path, initial) {
        assert path[..|path|] == path;
        OpenableAbove(nodes, path, initial);
        OneMoreFolder(nodes, path, initial);
      }
      ok := CreateDirAll(Parent(path));
      if !ok { return; }
      ok := CreateDir(path);
    }

    /** Opens a new file, writes it and sets its mode. */
    method CreateNew(path: Path, content: seq<bv8>, mode: nat) returns (ok: bool)
      modifies this
      ensures ok <==> Vacant(old(nodes), path)
      ensures nodes == if ok then old(nodes)[path := Document(content, mode)] else old(nodes)
    {
      var free := IsVacant(path);
      if !free { return false; }
      nodes := nodes[path := Document(content, mode)];
      return true;
    }

    method SetMode(path: Path, mode: nat) returns (ok: bool)
      modifies this
      ensures ok <==> path in old(nodes) && Reachable(old(nodes), path)
      ensures nodes == if ok then WithMode(old(nodes), path, mode) else old(nodes)
    {
      if path !in nodes { return false; }
      var n := 0;
      while n < |path|
        invariant 0 <= n <= |path|
        invariant forall m :: 0 <= m < n ==> path[..m] in nodes && nodes[path[..m]].Folder? && Searchable(nodes[path[..m]].mode)
      {
        var above := path[..n];
        if above !in nodes || !nodes[above].Folder? || !Searchable(nodes[above].mode) { return false; }
        n := n + 1;
      }
      nodes := WithMode(nodes, path, mode);
      return true;
    }
  }

  function WithMode(tree: Tree, path: Path, mode: nat): Tree
    requires path in tree
  {
    tree[path := tree[path].(mode := mode)]
  }

  /** Each folder on the way that exists admits new entries, and nothing else
      is on the way. */
  ghost predicate Openable(tree: Tree, path: Path, initial: nat) {
    && Writable(initial) && [] in tree && Rooted(tree)
    && forall n :: 0 <= n <= |path| && path[..n] in tree ==>
         tree[path[..n]].Folder? && Searchable(tree[path[..n]].mode)
         && (n < |path| && path[..n + 1] !in tree ==> Writable(tree[path[..n]].mode))
  }

  ghost predicate Above(p: Path, path: Path) { |p| <= |path| && p == path[..|p|] }

  /** The tree with the path's missing folders. */
  ghost function WithFolders(tree: Tree, path: Path, initial: nat): Tree {
    tree + map n | 0 <= n <= |path| && path[..n] !in tree :: path[..n] := Folder(initial)
  }

  lemma {:induction false} PathsAreWhole(tree: Tree, path: Path, n: nat)
    requires Rooted(tree) && path in tree && n <= |path|
    ensures path[..n] in tree && (n < |path| ==> tree[path[..n]].Folder?)
    decreases |path|
  {
    if n < |path| {
      PathsAreWhole(tree, Parent(path), n);
      assert Parent(path)[..n] == path[..n];
    } else {
      assert path[..n] == path;
    }
  }

  lemma NothingToAdd(tree: Tree, path: Path, initial: nat)
    requires Rooted(tree) && path in tree
    ensures WithFolders(tree, path, initial) == tree
  {
    forall n | 0 <= n <= |path| ensures path[..n] in tree { PathsAreWhole(tree, path, n); }
  }

  lemma OpenableAbove(tree: Tree, path: Path, initial: nat)
    requires path != [] && Openable(tree, path, initial)
    ensures Openable(tree, Parent(path), initial)
  {
    var above := Parent(path);
    assert forall n :: 0 <= n <= |above| ==> above[..n] == path[..n];
  }

  lemma FoldersAreThere(tree: Tree, path: Path, initial: nat, q: Path)
    ensures q in WithFolders(tree, path, initial) <==> q in tree || Above(q, path)
    ensures q in WithFolders(tree, path, initial) ==>
      WithFolders(tree, path, initial)[q] == if q in tree then tree[q] else Folder(initial)
  {
    if Above(q, path) { assert path[..|q|] == q; }
  }

  lemma OneMoreFolder(tree: Tree, path: Path, initial: nat)
    requires path != [] && path !in tree && Openable(tree, path, initial)
    ensures var above := WithFolders(tree, Parent(path), initial);
      Vacant(above, path) && above[path := Folder(initial)] == WithFolders(tree, path, initial)
  {
    var up := Parent(path);
    var above := WithFolders(tree, up, initial);
    FoldersAreThere(tree, up, initial, path);
    forall n | 0 <= n < |path|
      ensures path[..n] in above && above[path[..n]].Folder? && Searchable(above[path[..n]].mode)
    {
      FoldersAreThere(tree, up, initial, path[..n]);
      assert path[..n] == up[..n];
    }
    FoldersAreThere(tree, up, initial, up);
    assert path[..|path| - 1] == up && path[..|path|] == path;
    forall q ensures q in above[path := Folder(initial)] <==> q in WithFolders(tree, path, initial) {
      FoldersAreThere(tree, up, initial, q);
      FoldersAreThere(tree, path, initial, q);
      AboveParent(q, path);
    }
    forall q | q in above[path := Folder(initial)]
      ensures above[path := Folder(initial)][q] == WithFolders(tree, path, initial)[q]
    {
      FoldersAreThere(tree, up, initial, q);
      FoldersAreThere(tree, path, initial, q);
    }
  }

  lemma AboveParent(q: Path, path: Path)
    requires path != []
    ensures Above(q, path) <==> q == path || Above(q, Parent(path))
  {
    assert path[..|path|] == path;
    if |q| < |path| { assert path[..|q|] == Parent(path)[..|q|]; }
  }
}
