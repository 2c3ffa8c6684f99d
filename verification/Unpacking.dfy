/** `extract` of control/install_support/archive.rs: both passes, and the proof
    that a sound archive never meets a conflict, in any order of its entries. */
module Unpacking {
  import opened Archive
  import opened Extraction
  import opened Common

  const PRIVATE: nat := 448

  /** An accepted entry as the second pass uses it. */
  datatype Item = Item(path: Path, folder: bool, content: seq<bv8>, mode: nat)

  /** The permission bits of a header's mode. */
  function Permissions(mode: nat): nat { mode % 512 }

  function ItemOf(entry: Entry): Item
    requires Name(entry).Ok? && entry.mode.Some?
  {
    Item(PathOf(entry), entry.kind.Directory?, entry.content, Permissions(entry.mode.value))
  }

  /** Paths differ, and no file is above another item. */
  ghost predicate Separate(items: seq<Item>) {
    && (forall i :: 0 <= i < |items| ==> items[i].path != [])
    && (forall i, j :: 0 <= i < j < |items| ==> items[i].path != items[j].path)
    && (forall i, j :: 0 <= i < |items| && 0 <= j < |items| && !items[i].folder ==> !(items[i].path < items[j].path))
  }

  // ----- the tree while items are written ----------------------------------

  /** `q` is below the destination and is one of the first items or above one. */
  ghost predicate Covered(q: Path, destination: Path, items: seq<Item>) {
    exists j :: 0 <= j < |items| && Covers(items[j], q, destination)
  }

  ghost predicate Covers(item: Item, q: Path, destination: Path) {
    destination < q && Above(q, destination + item.path)
  }

  ghost predicate FileAt(q: Path, destination: Path, items: seq<Item>) {
    exists j :: 0 <= j < |items| && !items[j].folder && destination + items[j].path == q
  }

  /** Exactly the items and the folders above them were added to `start`. */
  ghost predicate Shape(tree: Tree, start: Tree, destination: Path, items: seq<Item>, initial: nat) {
    && (forall q :: q in tree <==> q in start || Covered(q, destination, items))
    && (forall q :: q in start ==> q in tree && tree[q] == start[q])
    && (forall j :: 0 <= j < |items| && !items[j].folder ==>
          destination + items[j].path in tree && tree[destination + items[j].path] == Document(items[j].content, items[j].mode))
    && (forall q :: q in tree && q !in start && !FileAt(q, destination, items) ==> tree[q] == Folder(initial))
  }

  /** The new private destination, with nothing below it. */
  ghost predicate Ready(start: Tree, destination: Path, initial: nat) {
    && Rooted(start) && [] in start && Writable(initial)
    && destination in start && start[destination] == Folder(PRIVATE) && Reachable(start, destination)
    && (forall q :: q in start ==> !(destination < q))
  }

  /** What the second pass does with one item. */
  ghost predicate Fits(tree: Tree, item: Item, destination: Path, initial: nat) {
    if item.folder then Openable(tree, destination + item.path, initial)
    else
      var path := destination + item.path;
      path != [] && Openable(tree, Parent(path), initial) && Vacant(WithFolders(tree, Parent(path), initial), path)
  }

  ghost function Written(tree: Tree, item: Item, destination: Path, initial: nat): Tree
    requires item.path != []
  {
    var path := destination + item.path;
    if item.folder then WithFolders(tree, path, initial)
    else WithFolders(tree, Parent(path), initial)[path := Document(item.content, item.mode)]
  }

  // ----- nothing is in the way ---------------------------------------------

  lemma CoveredByMore(q: Path, destination: Path, items: seq<Item>, item: Item)
    ensures Covered(q, destination, items + [item]) <==> Covered(q, destination, items) || Covers(item, q, destination)
    ensures FileAt(q, destination, items + [item]) <==>
      FileAt(q, destination, items) || (!item.folder && destination + item.path == q)
  {
    var more := items + [item];
    assert more[|items|] == item;
    if Covered(q, destination, items) {
      var j :| 0 <= j < |items| && Covers(items[j], q, destination);
      assert Covers(more[j], q, destination);
    }
    if FileAt(q, destination, items) {
      var j :| 0 <= j < |items| && !items[j].folder && destination + items[j].path == q;
      assert !more[j].folder && destination + more[j].path == q;
    }
  }

  lemma PrefixBelow(destination: Path, path: Path, n: nat)
    requires n <= |destination| + |path|
    ensures n <= |destination| ==> (destination + path)[..n] == destination[..n]
    ensures n > |destination| ==> (destination + path)[..n] == destination + path[..n - |destination|]
  {
  }

  /** A node on the way to a new item is a folder, and below the destination
      it admits new entries. */
  lemma OnTheWay(tree: Tree, start: Tree, destination: Path, items: seq<Item>, item: Item, n: nat, initial: nat)
    requires Ready(start, destination, initial) && Shape(tree, start, destination, items, initial)
    requires Separate(items + [item])
    requires n <= |destination| + |item.path| && (n < |destination| + |item.path| || item.folder)
    ensures var q := (destination + item.path)[..n];
      q in tree ==> tree[q].Folder? && Searchable(tree[q].mode) && (n >= |destination| ==> Writable(tree[q].mode))
    ensures n <= |destination| ==> (destination + item.path)[..n] in tree
  {
    hide *;
    PrefixBelow(destination, item.path, n);
    WritableIsSearchable(initial);
    if n <= |destination| {
      DestinationMayBeSearched(start, destination, n, initial);
      InStart(tree, start, destination, items, destination[..n], initial);
    } else if (destination + item.path)[..n] in tree {
      BelowOnTheWay(tree, start, destination, items, item, n - |destination|, initial);
    }
  }

  lemma DestinationMayBeSearched(start: Tree, destination: Path, n: nat, initial: nat)
    requires Ready(start, destination, initial) && n <= |destination|
    ensures destination[..n] in start && start[destination[..n]].Folder? && Searchable(start[destination[..n]].mode)
    ensures n == |destination| ==> Writable(start[destination[..n]].mode)
  {
    assert n == |destination| ==> destination[..n] == destination;
  }

  lemma WritableIsSearchable(mode: nat)
    ensures Writable(mode) ==> Searchable(mode)
  {
  }

  lemma InStart(tree: Tree, start: Tree, destination: Path, items: seq<Item>, q: Path, initial: nat)
    requires Shape(tree, start, destination, items, initial) && q in start
    ensures q in tree && tree[q] == start[q]
  {
    hide Covered;
  }

  lemma BelowOnTheWay(tree: Tree, start: Tree, destination: Path, items: seq<Item>, item: Item, n: nat, initial: nat)
    requires Ready(start, destination, initial) && Shape(tree, start, destination, items, initial)
    requires Separate(items + [item])
    requires 0 < n <= |item.path| && (n < |item.path| || item.folder) && destination + item.path[..n] in tree
    ensures tree[destination + item.path[..n]] == Folder(initial) && Writable(initial)
  {
    var q := destination + item.path[..n];
    assert destination < q;
    NoFileOnTheWay(destination, items + [item], |items|, n);
    CoveredByMore(q, destination, items, item);
  }

  lemma SameBelow(destination: Path, a: Path, b: Path)
    requires destination + a == destination + b
    ensures a == b
  {
    assert (destination + a)[|destination|..] == a && (destination + b)[|destination|..] == b;
  }

  /** No file stands at an item's folder or above an item. */
  lemma NoFileOnTheWay(destination: Path, items: seq<Item>, i: nat, n: nat)
    requires Separate(items) && i < |items| && 0 < n <= |items[i].path| && (n < |items[i].path| || items[i].folder)
    ensures !FileAt(destination + items[i].path[..n], destination, items)
  {
    var short := items[i].path[..n];
    forall j | 0 <= j < |items| && !items[j].folder ensures destination + items[j].path != destination + short {
      assert items[j].path != short by {
        if n == |items[i].path| { assert short == items[i].path; } else { assert short < items[i].path; }
      }
      if destination + items[j].path == destination + short { SameBelow(destination, items[j].path, short); }
    }
  }

  lemma ShapeIsRooted(tree: Tree, start: Tree, destination: Path, items: seq<Item>, initial: nat)
    requires Ready(start, destination, initial) && Shape(tree, start, destination, items, initial)
    requires Separate(items)
    ensures Rooted(tree) && [] in tree
  {
    forall p | p in tree && p != [] ensures Parent(p) in tree && tree[Parent(p)].Folder? {
      if p in start {
        assert Parent(p) in start;
      } else {
        var j :| 0 <= j < |items| && Covers(items[j], p, destination);
        var path := destination + items[j].path;
        assert p == path[..|p|] && Parent(p) == path[..|p| - 1];
        ParentInShape(tree, start, destination, items, j, p, initial);
      }
    }
  }

  lemma FolderAboveItem(shaped: Tree, start: Tree, destination: Path, items: seq<Item>, j: nat, n: nat, initial: nat)
    requires Ready(start, destination, initial) && Shape(shaped, start, destination, items, initial)
    requires Separate(items) && j < |items| && 0 < n < |items[j].path|
    ensures var q := destination + items[j].path[..n]; q in shaped && shaped[q] == Folder(initial)
  {
    hide Separate, FileAt, Rooted, Reachable, Covers, Above;
    NoFileOnTheWay(destination, items, j, n);
    PrefixIsCovered(items[j], n, destination);
  }

  lemma PrefixIsCovered(item: Item, n: nat, destination: Path)
    requires 0 < n <= |item.path|
    ensures Covers(item, destination + item.path[..n], destination)
  {
    PrefixBelow(destination, item.path, |destination| + n);
  }

  lemma ParentInShape(tree: Tree, start: Tree, destination: Path, items: seq<Item>, j: nat, p: Path, initial: nat)
    requires Ready(start, destination, initial) && Shape(tree, start, destination, items, initial)
    requires Separate(items) && j < |items| && Covers(items[j], p, destination)
    ensures p != [] && Parent(p) in tree && tree[Parent(p)].Folder?
  {
    hide *;
    ParentPath(items[j], p, destination);
    if |p| - 1 == |destination| {
      DestinationStays(tree, start, destination, items, initial);
    } else {
      FolderAboveItem(tree, start, destination, items, j, |p| - 1 - |destination|, initial);
    }
  }

  lemma DestinationStays(tree: Tree, start: Tree, destination: Path, items: seq<Item>, initial: nat)
    requires Ready(start, destination, initial) && Shape(tree, start, destination, items, initial)
    ensures destination in tree && tree[destination].Folder?
  {
    hide Covered, FileAt;
  }

  lemma ParentPath(item: Item, p: Path, destination: Path)
    requires Covers(item, p, destination)
    ensures |p| > |destination| && |p| <= |destination| + |item.path|
    ensures Parent(p) == if |p| == |destination| + 1 then destination else destination + item.path[..|p| - 1 - |destination|]
  {
    var path := destination + item.path;
    PrefixBelow(destination, item.path, |p| - 1);
    assert Parent(p) == path[..|p| - 1];
    assert destination[..|destination|] == destination;
  }

  lemma FolderWayIsOpen(tree: Tree, start: Tree, destination: Path, items: seq<Item>, item: Item, path: Path, initial: nat)
    requires Ready(start, destination, initial) && Shape(tree, start, destination, items, initial)
    requires Separate(items + [item]) && Separate(items) && item.path != []
    requires path == if item.folder then destination + item.path else Parent(destination + item.path)
    ensures Openable(tree, path, initial)
  {
    ShapeIsRooted(tree, start, destination, items, initial);
    assert Writable(initial);
    hide Shape, Separate, Rooted, Ready, Searchable, Writable;
    forall n | 0 <= n <= |path| && path[..n] in tree
      ensures tree[path[..n]].Folder? && Searchable(tree[path[..n]].mode)
      ensures n < |path| && path[..n + 1] !in tree ==> Writable(tree[path[..n]].mode)
    {
      StepOnTheWay(tree, start, destination, items, item, path, n, initial);
    }
  }

  lemma StepOnTheWay(tree: Tree, start: Tree, destination: Path, items: seq<Item>, item: Item, path: Path, n: nat, initial: nat)
    requires Ready(start, destination, initial) && Shape(tree, start, destination, items, initial)
    requires Separate(items + [item]) && Separate(items) && item.path != []
    requires path == if item.folder then destination + item.path else Parent(destination + item.path)
    requires n <= |path| && path[..n] in tree
    ensures tree[path[..n]].Folder? && Searchable(tree[path[..n]].mode)
    ensures n < |path| && path[..n + 1] !in tree ==> Writable(tree[path[..n]].mode)
  {
    hide Shape, Separate, Rooted, Ready, Searchable, Writable;
    var whole := destination + item.path;
    assert path[..n] == whole[..n];
    OnTheWay(tree, start, destination, items, item, n, initial);
    if n < |destination| {
      assert path[..n + 1] == whole[..n + 1];
      OnTheWay(tree, start, destination, items, item, n + 1, initial);
    }
  }

  /** The place of a new file is free, in a folder that admits it. */
  lemma FilePlaceIsVacant(tree: Tree, start: Tree, destination: Path, items: seq<Item>, item: Item, initial: nat)
    requires Ready(start, destination, initial) && Shape(tree, start, destination, items, initial)
    requires Separate(items + [item]) && Separate(items) && item.path != [] && !item.folder
    requires Openable(tree, Parent(destination + item.path), initial)
    ensures Vacant(WithFolders(tree, Parent(destination + item.path), initial), destination + item.path)
  {
    var path := destination + item.path;
    var up := Parent(path);
    var above := WithFolders(tree, up, initial);
    forall n | 0 <= n < |path|
      ensures path[..n] in above && above[path[..n]].Folder? && Searchable(above[path[..n]].mode)
      ensures n >= |destination| ==> Writable(above[path[..n]].mode)
    {
      assert path[..n] == up[..n];
      OnTheWay(tree, start, destination, items, item, n, initial);
      FoldersAreThere(tree, up, initial, path[..n]);
    }
    NewFileIsNotThere(tree, start, destination, items, item, initial);
    FoldersAreThere(tree, up, initial, path);
    assert path[..|path| - 1] == up;
  }

  lemma NewFileIsNotThere(tree: Tree, start: Tree, destination: Path, items: seq<Item>, item: Item, initial: nat)
    requires Ready(start, destination, initial) && Shape(tree, start, destination, items, initial)
    requires Separate(items + [item]) && item.path != [] && !item.folder
    ensures destination + item.path !in tree
  {
    var path, all := destination + item.path, items + [item];
    assert destination < path;
    assert all[|items|] == item;
    forall j | 0 <= j < |items| ensures !Covers(items[j], path, destination) {
      assert all[j] == items[j];
      CoversMeansPrefix(items[j], item.path, destination);
    }
  }

  lemma CoversMeansPrefix(item: Item, path: Path, destination: Path)
    requires path != []
    ensures Covers(item, destination + path, destination) ==> path == item.path || path < item.path
  {
    if Covers(item, destination + path, destination) {
      PrefixBelow(destination, item.path, |destination| + |path|);
      SameBelow(destination, path, item.path[..|path|]);
    }
  }

  /** The next item always fits, whatever was written before it. */
  lemma NextItemFits(tree: Tree, start: Tree, destination: Path, items: seq<Item>, item: Item, initial: nat)
    requires Ready(start, destination, initial) && Shape(tree, start, destination, items, initial)
    requires Separate(items + [item]) && Separate(items)
    ensures item.path != [] && Fits(tree, item, destination, initial)
  {
    assert (items + [item])[|items|] == item;
    hide Shape, Ready, Separate, Openable, Vacant, WithFolders;
    var whole := destination + item.path;
    FolderWayIsOpen(tree, start, destination, items, item, if item.folder then whole else Parent(whole), initial);
    if !item.folder { FilePlaceIsVacant(tree, start, destination, items, item, initial); }
  }

  lemma WrittenNodes(tree: Tree, item: Item, destination: Path, initial: nat, q: Path)
    requires item.path != [] && (!item.folder ==> destination + item.path !in tree)
    ensures q in Written(tree, item, destination, initial) <==> q in tree || Above(q, destination + item.path)
    ensures q in Written(tree, item, destination, initial) ==>
      Written(tree, item, destination, initial)[q]
        == if !item.folder && q == destination + item.path then Document(item.content, item.mode)
           else if q in tree then tree[q] else Folder(initial)
  {
    var path := destination + item.path;
    FoldersAreThere(tree, if item.folder then path else Parent(path), initial, q);
    AboveParent(q, path);
  }

  /** Writing an item adds the item and the folders above it. */
  lemma NextItemShapes(tree: Tree, start: Tree, destination: Path, items: seq<Item>, item: Item, initial: nat)
    requires Ready(start, destination, initial) && Shape(tree, start, destination, items, initial)
    requires Separate(items + [item]) && Separate(items) && item.path != []
    ensures Shape(Written(tree, item, destination, initial), start, destination, items + [item], initial)
  {
    var after, more, path := Written(tree, item, destination, initial), items + [item], destination + item.path;
    if !item.folder { NewFileIsNotThere(tree, start, destination, items, item, initial); }
    forall q
      ensures q in after <==> q in start || Covered(q, destination, more)
      ensures q in start ==> after[q] == start[q]
      ensures q in after && q !in start && !FileAt(q, destination, more) ==> after[q] == Folder(initial)
    {
      WrittenNodes(tree, item, destination, initial, q);
      CoveredByMore(q, destination, items, item);
      AboveOrBelow(q, start, destination, item, initial);
    }
    forall j | 0 <= j < |more| && !more[j].folder
      ensures destination + more[j].path in after
      ensures after[destination + more[j].path] == Document(more[j].content, more[j].mode)
    {
      WrittenNodes(tree, item, destination, initial, destination + more[j].path);
    }
  }

  lemma AboveOrBelow(q: Path, start: Tree, destination: Path, item: Item, initial: nat)
    requires Ready(start, destination, initial)
    ensures Above(q, destination + item.path) ==> q in start || Covers(item, q, destination)
  {
    if Above(q, destination + item.path) {
      PrefixBelow(destination, item.path, |q|);
      if |q| <= |destination| { PathsAreWhole(start, destination, |q|); }
    }
  }

  // ----- the modes of the folders ------------------------------------------

  /** A folder whose mode is set at the end. */
  datatype Pending = Pending(path: Path, mode: nat)

  ghost predicate PendingOf(list: seq<Pending>, items: seq<Item>, destination: Path) {
    forall p :: p in list <==>
      exists j :: 0 <= j < |items| && items[j].folder && p == Pending(destination + items[j].path, items[j].mode)
  }

  ghost predicate DeepestFirst(list: seq<Pending>) {
    forall i, j :: 0 <= i < j < |list| ==> |list[i].path| >= |list[j].path|
  }

  method SortByDepth(list: seq<Pending>) returns (sorted: seq<Pending>)
    ensures DeepestFirst(sorted) && multiset(sorted) == multiset(list)
  {
    sorted := [];
    var i := 0;
    while i < |list|
      invariant 0 <= i <= |list|
      invariant DeepestFirst(sorted) && multiset(sorted) == multiset(list[..i])
    {
      assert list[..i + 1] == list[..i] + [list[i]];
      sorted := InsertByDepth(sorted, list[i]);
      i := i + 1;
    }
    assert list[..i] == list;
  }

  method InsertByDepth(list: seq<Pending>, item: Pending) returns (longer: seq<Pending>)
    requires DeepestFirst(list)
    ensures DeepestFirst(longer) && multiset(longer) == multiset(list) + multiset{item}
  {
    var i := 0;
    while i < |list| && |list[i].path| >= |item.path|
      invariant 0 <= i <= |list| && forall k :: 0 <= k < i ==> |list[k].path| >= |item.path|
    {
      i := i + 1;
    }
    longer := list[..i] + [item] + list[i..];
    InsertedDeepestFirst(list, i, item);
  }

  lemma InsertedDeepestFirst(list: seq<Pending>, i: nat, item: Pending)
    requires DeepestFirst(list) && i <= |list|
    requires forall k :: 0 <= k < i ==> |list[k].path| >= |item.path|
    requires i < |list| ==> |list[i].path| <= |item.path|
    ensures DeepestFirst(list[..i] + [item] + list[i..])
    ensures multiset(list[..i] + [item] + list[i..]) == multiset(list) + multiset{item}
  {
    var a, b := list[..i], list[i..];
    LaterAreShallower(list, i, item);
    hide *;
    assert list == a + b && a + ([item] + b) == a + [item] + b;
    OneMoreMember(a, item, b);
    DeepestFirstParts(a, b);
    DeepestFirstOf(item);
    DeepestFirstJoins([item], b);
    DeepestFirstJoins(a, [item] + b);
  }

  lemma LaterAreShallower(list: seq<Pending>, i: nat, item: Pending)
    requires DeepestFirst(list) && i <= |list| && (i < |list| ==> |list[i].path| <= |item.path|)
    ensures forall k :: 0 <= k < |list[i..]| ==> |list[i..][k].path| <= |item.path|
  {
    forall k | 0 <= k < |list[i..]| ensures |list[i..][k].path| <= |item.path| { assert list[i..][k] == list[i + k]; }
  }

  lemma OneMoreMember(a: seq<Pending>, item: Pending, b: seq<Pending>)
    ensures multiset(a + [item] + b) == multiset(a + b) + multiset{item}
  {
  }

  lemma DeepestFirstOf(item: Pending)
    ensures DeepestFirst([item])
  {
  }

  lemma DeepestFirstParts(a: seq<Pending>, b: seq<Pending>)
    requires DeepestFirst(a + b)
    ensures DeepestFirst(a) && DeepestFirst(b)
  {
    var all := a + b;
    assert forall k :: 0 <= k < |a| ==> a[k] == all[k];
    assert forall k :: 0 <= k < |b| ==> b[k] == all[|a| + k];
  }

  lemma DeepestFirstJoins(a: seq<Pending>, b: seq<Pending>)
    requires DeepestFirst(a) && DeepestFirst(b)
    requires forall k, l :: 0 <= k < |a| && 0 <= l < |b| ==> |a[k].path| >= |b[l].path|
    ensures DeepestFirst(a + b)
  {
  }

  /** The modes of the first folders are set, and nothing else has changed. */
  ghost predicate ModesSet(tree: Tree, shaped: Tree, done: seq<Pending>) {
    && tree.Keys == shaped.Keys
    && (forall l :: 0 <= l < |done| ==> done[l].path in tree && tree[done[l].path] == Folder(done[l].mode))
    && (forall q :: q in tree && (forall l :: 0 <= l < |done| ==> done[l].path != q) ==> tree[q] == shaped[q])
  }

  lemma AncestorsMayBeSearched(shaped: Tree, start: Tree, destination: Path, items: seq<Item>, j: nat, n: nat, initial: nat)
    requires Ready(start, destination, initial) && Shape(shaped, start, destination, items, initial)
    requires Separate(items) && j < |items| && n < |destination| + |items[j].path|
    ensures var q := (destination + items[j].path)[..n];
      q in shaped && shaped[q].Folder? && Searchable(shaped[q].mode)
  {
    PrefixBelow(destination, items[j].path, n);
    if n <= |destination| {
      DestinationMayBeSearched(start, destination, n, initial);
      assert forall q :: q in start ==> q in shaped && shaped[q] == start[q];
    } else {
      FolderAboveItem(shaped, start, destination, items, j, n - |destination|, initial);
      assert Writable(initial);
    }
  }

  lemma ItemIsThere(shaped: Tree, start: Tree, destination: Path, items: seq<Item>, j: nat, initial: nat)
    requires Ready(start, destination, initial) && Shape(shaped, start, destination, items, initial)
    requires Separate(items) && j < |items|
    ensures var path := destination + items[j].path;
      && path in shaped && path !in start && Covers(items[j], path, destination)
      && shaped[path] == if items[j].folder then Folder(initial) else Document(items[j].content, items[j].mode)
  {
    var path := destination + items[j].path;
    assert path[..|path|] == path;
    assert Covers(items[j], path, destination);
    if items[j].folder {
      assert items[j].path[..|items[j].path|] == items[j].path;
      NoFileOnTheWay(destination, items, j, |items[j].path|);
    }
  }

  /** A folder's mode is set after those of all folders below it, so that no
      folder above it is closed yet. */
  lemma NextModeFits(tree: Tree, shaped: Tree, start: Tree, destination: Path, items: seq<Item>, sorted: seq<Pending>, k: nat, initial: nat)
    requires Ready(start, destination, initial) && Shape(shaped, start, destination, items, initial) && Separate(items)
    requires PendingOf(sorted, items, destination) && DeepestFirst(sorted)
    requires k < |sorted| && ModesSet(tree, shaped, sorted[..k])
    ensures sorted[k].path in tree && Reachable(tree, sorted[k].path)
    ensures ModesSet(WithMode(tree, sorted[k].path, sorted[k].mode), shaped, sorted[..k + 1])
  {
    assert sorted[k] in sorted;
    var j :| 0 <= j < |items| && items[j].folder && sorted[k] == Pending(destination + items[j].path, items[j].mode);
    var path := sorted[k].path;
    ItemIsThere(shaped, start, destination, items, j, initial);
    forall n | 0 <= n < |path| ensures path[..n] in tree && tree[path[..n]].Folder? && Searchable(tree[path[..n]].mode) {
      AncestorsMayBeSearched(shaped, start, destination, items, j, n, initial);
      forall l | 0 <= l < k ensures sorted[..k][l].path != path[..n] { }
    }
    ModeStep(tree, shaped, start, destination, items, sorted, k, j, initial);
  }

  lemma ModeStep(tree: Tree, shaped: Tree, start: Tree, destination: Path, items: seq<Item>, sorted: seq<Pending>, k: nat, j: nat, initial: nat)
    requires Separate(items) && PendingOf(sorted, items, destination)
    requires k < |sorted| && ModesSet(tree, shaped, sorted[..k]) && j < |items| && items[j].folder
    requires sorted[k] == Pending(destination + items[j].path, items[j].mode)
    requires sorted[k].path in shaped && shaped[sorted[k].path].Folder?
    ensures sorted[k].path in tree
    ensures ModesSet(WithMode(tree, sorted[k].path, sorted[k].mode), shaped, sorted[..k + 1])
  {
    var path, done := sorted[k].path, sorted[..k];
    var more := sorted[..k + 1];
    assert more == done + [sorted[k]];
    forall l | 0 <= l < k && done[l].path == path ensures done[l].mode == sorted[k].mode {
      assert done[l] in sorted;
      var i :| 0 <= i < |items| && items[i].folder && done[l] == Pending(destination + items[i].path, items[i].mode);
      SameBelow(destination, items[i].path, items[j].path);
    }
    assert tree[path].Folder? by {
      if exists l :: 0 <= l < k && done[l].path == path {
        var l :| 0 <= l < k && done[l].path == path;
        assert tree[done[l].path] == Folder(done[l].mode);
      }
    }
    var after := WithMode(tree, path, sorted[k].mode);
    forall q | q in after && (forall l :: 0 <= l < |more| ==> more[l].path != q) ensures after[q] == shaped[q] {
      assert more[k].path != q;
      forall l | 0 <= l < |done| ensures done[l].path != q { assert more[l] == done[l]; }
    }
  }

  // ----- the unpacked archive ----------------------------------------------

  /** The destination holds exactly the items, with their modes, and the
      folders above them; everything else is as it was. */
  ghost predicate Unpacked(tree: Tree, start: Tree, destination: Path, items: seq<Item>, initial: nat) {
    && (forall q :: q in tree <==> q in start || Covered(q, destination, items))
    && (forall q :: q in start ==> q in tree && tree[q] == start[q])
    && (forall j :: 0 <= j < |items| ==>
          destination + items[j].path in tree && tree[destination + items[j].path] == NodeOf(items[j]))
    && (forall q :: q in tree && q !in start && (forall j :: 0 <= j < |items| ==> destination + items[j].path != q) ==>
          tree[q] == Folder(initial))
  }

  function NodeOf(item: Item): Node {
    if item.folder then Folder(item.mode) else Document(item.content, item.mode)
  }

  lemma ModesMakeItUnpacked(tree: Tree, shaped: Tree, start: Tree, destination: Path, items: seq<Item>, sorted: seq<Pending>, initial: nat)
    requires Ready(start, destination, initial) && Shape(shaped, start, destination, items, initial) && Separate(items)
    requires PendingOf(sorted, items, destination) && ModesSet(tree, shaped, sorted)
    ensures Unpacked(tree, start, destination, items, initial)
  {
    hide Ready, Shape, Separate, PendingOf, ModesSet, FileAt, Covered;
    forall q | q in tree && forall j :: 0 <= j < |items| ==> destination + items[j].path != q
      ensures q !in start ==> tree[q] == Folder(initial)
    {
      OtherNodeStays(tree, shaped, start, destination, items, sorted, initial, q);
    }
    forall j | 0 <= j < |items|
      ensures destination + items[j].path in tree && tree[destination + items[j].path] == NodeOf(items[j])
    {
      ItemHasItsMode(tree, shaped, start, destination, items, sorted, initial, j);
    }
    forall q | q in start ensures q in tree && tree[q] == start[q] {
      StartStays(tree, shaped, start, destination, items, sorted, initial, q);
    }
    forall q ensures q in tree <==> q in start || Covered(q, destination, items) {
      ShapedKeys(tree, shaped, start, destination, items, sorted, initial, q);
    }
  }

  lemma ShapedKeys(tree: Tree, shaped: Tree, start: Tree, destination: Path, items: seq<Item>, sorted: seq<Pending>, initial: nat, q: Path)
    requires Shape(shaped, start, destination, items, initial) && ModesSet(tree, shaped, sorted)
    ensures q in tree <==> q in start || Covered(q, destination, items)
  {
    hide Covered, FileAt;
  }

  lemma OtherNodeStays(tree: Tree, shaped: Tree, start: Tree, destination: Path, items: seq<Item>, sorted: seq<Pending>, initial: nat, q: Path)
    requires Shape(shaped, start, destination, items, initial)
    requires PendingOf(sorted, items, destination) && ModesSet(tree, shaped, sorted)
    requires q in tree && forall j :: 0 <= j < |items| ==> destination + items[j].path != q
    ensures tree[q] == shaped[q] && (q !in start ==> tree[q] == Folder(initial))
  {
    hide Covered;
    forall l | 0 <= l < |sorted| ensures sorted[l].path != q { assert sorted[l] in sorted; }
  }

  lemma StartStays(tree: Tree, shaped: Tree, start: Tree, destination: Path, items: seq<Item>, sorted: seq<Pending>, initial: nat, q: Path)
    requires Ready(start, destination, initial) && Shape(shaped, start, destination, items, initial) && Separate(items)
    requires PendingOf(sorted, items, destination) && ModesSet(tree, shaped, sorted) && q in start
    ensures q in tree && tree[q] == start[q]
  {
    InStart(shaped, start, destination, items, q, initial);
    assert q in tree;
    hide Ready, Shape, Separate, PendingOf, ModesSet;
    forall j | 0 <= j < |items| ensures destination + items[j].path != q {
      ItemIsThere(shaped, start, destination, items, j, initial);
    }
    OtherNodeStays(tree, shaped, start, destination, items, sorted, initial, q);
  }

  lemma ItemHasItsMode(tree: Tree, shaped: Tree, start: Tree, destination: Path, items: seq<Item>, sorted: seq<Pending>, initial: nat, j: nat)
    requires Ready(start, destination, initial) && Shape(shaped, start, destination, items, initial) && Separate(items)
    requires PendingOf(sorted, items, destination) && ModesSet(tree, shaped, sorted) && j < |items|
    ensures destination + items[j].path in tree && tree[destination + items[j].path] == NodeOf(items[j])
  {
    hide Shape, Ready;
    var path := destination + items[j].path;
    ItemIsThere(shaped, start, destination, items, j, initial);
    if items[j].folder {
      var p := Pending(path, items[j].mode);
      assert p in sorted;
      var l :| 0 <= l < |sorted| && sorted[l] == p;
      assert tree[sorted[l].path] == Folder(sorted[l].mode);
    } else {
      forall l | 0 <= l < |sorted| ensures sorted[l].path != path {
        assert sorted[l] in sorted;
        var i :| 0 <= i < |items| && items[i].folder && sorted[l] == Pending(destination + items[i].path, items[i].mode);
        if destination + items[i].path == path { SameBelow(destination, items[i].path, items[j].path); }
      }
    }
  }

  // ----- extract -----------------------------------------------------------

  datatype Problem = Refused(why: Refusal) | Taken | Blocked | BadMode

  ghost predicate Listed(items: seq<Item>, entries: seq<Entry>, n: nat)
    requires n <= |entries|
  {
    |items| == n && forall k :: 0 <= k < n ==>
      Name(entries[k]).Ok? && entries[k].mode.Some? && items[k] == ItemOf(entries[k])
  }

  /** All headers hold a mode. */
  ghost predicate Moded(entries: seq<Entry>) { forall k :: 0 <= k < |entries| ==> entries[k].mode.Some? }

  lemma SoundItemsAreSeparate(items: seq<Item>, entries: seq<Entry>, n: nat, root: string)
    requires Sound(entries, root) && n <= |entries| && Listed(items, entries, n)
    ensures Separate(items)
  {
    hide Name;
  }

  lemma WholeAbove(tree: Tree, p: Path, q: Path)
    requires Rooted(tree) && q in tree
    ensures p <= q ==> p in tree
  {
    if p <= q {
      PathsAreWhole(tree, q, |p|);
      assert q[..|p|] == p;
    }
  }

  lemma DestinationIsReady(tree: Tree, destination: Path, initial: nat)
    requires Rooted(tree) && [] in tree && Writable(initial) && Vacant(tree, destination)
    ensures Ready(tree[destination := Folder(PRIVATE)], destination, initial)
    ensures Shape(tree[destination := Folder(PRIVATE)], tree[destination := Folder(PRIVATE)], destination, [], initial)
  {
    var start := tree[destination := Folder(PRIVATE)];
    forall q | q in start ensures !(destination < q) {
      if q in tree { WholeAbove(tree, destination, q); }
    }
    forall n | 0 <= n < |destination| ensures destination[..n] in start && start[destination[..n]] == tree[destination[..n]] {
      assert |destination[..n]| == n;
    }
  }

  lemma PendingOneMore(list: seq<Pending>, items: seq<Item>, item: Item, destination: Path)
    requires PendingOf(list, items, destination)
    ensures PendingOf(if item.folder then list + [Pending(destination + item.path, item.mode)] else list, items + [item], destination)
  {
    var more := items + [item];
    var longer := if item.folder then list + [Pending(destination + item.path, item.mode)] else list;
    assert more[|items|] == item;
    forall p
      ensures p in longer <==>
        exists j :: 0 <= j < |more| && more[j].folder && p == Pending(destination + more[j].path, more[j].mode)
    {
      if p in list {
        var j :| 0 <= j < |items| && items[j].folder && p == Pending(destination + items[j].path, items[j].mode);
        assert more[j].folder && p == Pending(destination + more[j].path, more[j].mode);
      }
    }
  }

  /** Writes one item below the destination. */
  method WriteItem(fs: FileSystem, item: Item, destination: Path) returns (ok: bool)
    requires item.path != []
    modifies fs
    ensures Fits(old(fs.nodes), item, destination, fs.initial) ==>
      ok && fs.nodes == Written(old(fs.nodes), item, destination, fs.initial)
  {
    var path := destination + item.path;
    if item.folder {
      ok := fs.CreateDirAll(path);
    } else {
      ok := fs.CreateDirAll(Parent(path));
      if ok { ok := fs.CreateNew(path, item.content, item.mode); }
    }
  }

  /** The second pass: stops only at a header without a mode. */
  method WriteAll(fs: FileSystem, entries: seq<Entry>, destination: Path, ghost root: string)
    returns (ok: bool, list: seq<Pending>, ghost items: seq<Item>)
    requires Sound(entries, root) && Ready(fs.nodes, destination, fs.initial)
    requires Shape(fs.nodes, fs.nodes, destination, [], fs.initial)
    modifies fs
    ensures ok <==> Moded(entries)
    ensures Shape(fs.nodes, old(fs.nodes), destination, items, fs.initial)
    ensures ok ==> Listed(items, entries, |entries|) && PendingOf(list, items, destination)
  {
    hide Name, Shape, Ready, Fits, Separate, Written, PendingOf;
    ghost var start := fs.nodes;
    list, items := [], [];
    assert PendingOf([], [], destination) by { NothingPending(destination); }
    var i := 0;
    while i < |entries|
      invariant 0 <= i <= |entries| && Listed(items, entries, i)
      invariant Shape(fs.nodes, start, destination, items, fs.initial)
      invariant PendingOf(list, items, destination)
    {
      var entry := entries[i];
      var path := PathOf(entry);
      if entry.mode.None? { return false, [], items; }
      var item := Item(path, entry.kind.Directory?, entry.content, Permissions(entry.mode.value));
      ghost var more := items + [item];
      assert Listed(more, entries, i + 1);
      SoundItemsAreSeparate(items, entries, i, root);
      SoundItemsAreSeparate(more, entries, i + 1, root);
      NextItemFits(fs.nodes, start, destination, items, item, fs.initial);
      NextItemShapes(fs.nodes, start, destination, items, item, fs.initial);
      PendingOneMore(list, items, item, destination);
      ok := WriteItem(fs, item, destination);
      if item.folder { list := list + [Pending(destination + path, item.mode)]; }
      items := more;
      i := i + 1;
    }
    ok := true;
  }

  lemma NothingPending(destination: Path)
    ensures PendingOf([], [], destination)
  {
  }

  lemma SortedIsPending(list: seq<Pending>, sorted: seq<Pending>, items: seq<Item>, destination: Path)
    requires multiset(sorted) == multiset(list) && PendingOf(list, items, destination)
    ensures PendingOf(sorted, items, destination)
  {
    forall p ensures p in sorted <==> p in list { assert p in multiset(sorted) <==> p in multiset(list); }
  }

  /** Applies the modes of the folders, the deepest first. */
  method SetModes(fs: FileSystem, list: seq<Pending>, ghost start: Tree, destination: Path, ghost items: seq<Item>)
    returns (ok: bool)
    requires Ready(start, destination, fs.initial) && Shape(fs.nodes, start, destination, items, fs.initial)
    requires Separate(items) && PendingOf(list, items, destination)
    modifies fs
    ensures ok && Unpacked(fs.nodes, start, destination, items, fs.initial)
  {
    var sorted := SortByDepth(list);
    SortedIsPending(list, sorted, items, destination);
    ghost var shaped := fs.nodes;
    assert ModesSet(fs.nodes, shaped, []) && sorted[..0] == [];
    hide WithMode, Shape, Ready, PendingOf, Separate, ModesSet, Reachable, Unpacked, DeepestFirst;
    var k := 0;
    while k < |sorted|
      invariant 0 <= k <= |sorted| && ModesSet(fs.nodes, shaped, sorted[..k])
    {
      NextModeFits(fs.nodes, shaped, start, destination, items, sorted, k, fs.initial);
      ok := fs.SetMode(sorted[k].path, sorted[k].mode);
      if !ok { return; }
      k := k + 1;
    }
    assert sorted[..k] == sorted;
    ModesMakeItUnpacked(fs.nodes, shaped, start, destination, items, sorted, fs.initial);
    ok := true;
  }

  ghost predicate Extractable(entries: seq<Entry>, intact: bool) { intact && exists root :: Sound(entries, root) }

  /** Everything outside the destination is as it was. */
  ghost predicate OnlyInside(before: Tree, after: Tree, destination: Path) {
    && (forall q :: q in before ==> q in after && after[q] == before[q])
    && (forall q :: q in after && q !in before ==> destination <= q)
  }

  /** `intact` tells whether the archive could be read to its end. */
  method Extract(fs: FileSystem, entries: seq<Entry>, intact: bool, destination: Path)
    returns (result: Result<string, Problem>, ghost items: seq<Item>)
    requires Rooted(fs.nodes) && [] in fs.nodes && Writable(fs.initial)
    modifies fs
    ensures result.Ok? <==> Extractable(entries, intact) && Vacant(old(fs.nodes), destination) && Moded(entries)
    ensures result.Ok? ==> Sound(entries, result.value) && Listed(items, entries, |entries|)
    ensures result.Ok? ==> Unpacked(fs.nodes, old(fs.nodes)[destination := Folder(PRIVATE)], destination, items, fs.initial)
    ensures !Extractable(entries, intact) || !Vacant(old(fs.nodes), destination) ==> fs.nodes == old(fs.nodes)
    ensures OnlyInside(old(fs.nodes), fs.nodes, destination)
  {
    hide Sound, Shape, Ready, Separate, PendingOf, Moded, Listed, Rooted, Reachable, Unpacked;
    items := [];
    var valid := Validate(entries, intact);
    if valid.Err? { return Err(Refused(valid.error)), []; }
    ghost var before := fs.nodes;
    var ok := fs.CreateDir(destination);
    if !ok { return Err(Taken), []; }
    DestinationIsReady(before, destination, fs.initial);
    ok := fs.SetMode(destination, PRIVATE);
    assert ok by { MadeIsReachable(before, destination, fs.initial); }
    ghost var start := fs.nodes;
    assert start == before[destination := Folder(PRIVATE)];
    var list;
    ok, list, items := WriteAll(fs, entries, destination, valid.value);
    ShapeIsInside(before, fs.nodes, destination, items, fs.initial);
    if !ok { return Err(BadMode), items; }
    SoundItemsAreSeparate(items, entries, |entries|, valid.value);
    ok := SetModes(fs, list, start, destination, items);
    UnpackedIsInside(before, fs.nodes, destination, items, fs.initial);
    if !ok { return Err(Blocked), items; }
    return Ok(valid.value), items;
  }

  lemma MadeIsReachable(before: Tree, destination: Path, initial: nat)
    requires Vacant(before, destination)
    ensures Reachable(before[destination := Folder(initial)], destination)
  {
    forall n | 0 <= n < |destination| ensures destination[..n] != destination { assert |destination[..n]| == n; }
  }

  lemma ShapeIsInside(before: Tree, tree: Tree, destination: Path, items: seq<Item>, initial: nat)
    requires destination !in before && Shape(tree, before[destination := Folder(PRIVATE)], destination, items, initial)
    ensures OnlyInside(before, tree, destination)
  {
  }

  lemma UnpackedIsInside(before: Tree, tree: Tree, destination: Path, items: seq<Item>, initial: nat)
    requires destination !in before && Unpacked(tree, before[destination := Folder(PRIVATE)], destination, items, initial)
    ensures OnlyInside(before, tree, destination)
  {
  }

  // ----- what the unpacked archive is --------------------------------------

  /** Everything below the destination is under the archive's one root. */
  lemma UnderOneRoot(entries: seq<Entry>, root: string, tree: Tree, start: Tree, destination: Path, items: seq<Item>, initial: nat, q: Path)
    requires Sound(entries, root) && Listed(items, entries, |entries|)
    requires Unpacked(tree, start, destination, items, initial) && q in tree && q !in start
    ensures destination + [root] <= q
  {
    hide Name;
    var j :| 0 <= j < |items| && Covers(items[j], q, destination);
    assert items[j].path == PathOf(entries[j]) && items[j].path[0] == root;
    CoversFromRoot(items[j], q, destination);
  }

  lemma CoversFromRoot(item: Item, q: Path, destination: Path)
    requires item.path != [] && Covers(item, q, destination)
    ensures destination + [item.path[0]] <= q
  {
    PrefixBelow(destination, item.path, |q|);
    assert q[|destination|] == item.path[0];
  }

  /** The unpacked tree depends only on the set of entries, not on their order. */
  lemma OrderOfEntriesIsInvisible(a: seq<Item>, b: seq<Item>, x: Tree, y: Tree, start: Tree, destination: Path, initial: nat)
    requires forall item :: item in a <==> item in b
    requires Unpacked(x, start, destination, a, initial) && Unpacked(y, start, destination, b, initial)
    ensures x == y
  {
    hide Unpacked;
    forall q ensures q in x <==> q in y { SameCover(a, b, q, destination); SameKeys(a, b, x, y, start, destination, initial, q); }
    forall q | q in x ensures x[q] == y[q] { SameNode(a, b, x, y, start, destination, initial, q); }
  }

  lemma SameKeys(a: seq<Item>, b: seq<Item>, x: Tree, y: Tree, start: Tree, destination: Path, initial: nat, q: Path)
    requires Unpacked(x, start, destination, a, initial) && Unpacked(y, start, destination, b, initial)
    requires Covered(q, destination, a) <==> Covered(q, destination, b)
    ensures q in x <==> q in y
  {
    hide Covered;
  }

  lemma NodeAt(items: seq<Item>, x: Tree, start: Tree, destination: Path, initial: nat, q: Path, item: Item)
    requires Unpacked(x, start, destination, items, initial) && q in x
    ensures q in start ==> x[q] == start[q]
    ensures item in items && destination + item.path == q ==> x[q] == NodeOf(item)
    ensures q !in start && (forall i :: 0 <= i < |items| ==> destination + items[i].path != q) ==> x[q] == Folder(initial)
  {
    hide Covered;
  }

  lemma SameNode(a: seq<Item>, b: seq<Item>, x: Tree, y: Tree, start: Tree, destination: Path, initial: nat, q: Path)
    requires forall item :: item in a <==> item in b
    requires Unpacked(x, start, destination, a, initial) && Unpacked(y, start, destination, b, initial)
    requires q in x && q in y
    ensures x[q] == y[q]
  {
    hide Unpacked;
    SameItems(a, b, q, destination);
    if i :| 0 <= i < |a| && destination + a[i].path == q {
      NodeAt(a, x, start, destination, initial, q, a[i]);
      NodeAt(b, y, start, destination, initial, q, a[i]);
    } else {
      var none := Item([], true, [], 0);
      NodeAt(a, x, start, destination, initial, q, none);
      NodeAt(b, y, start, destination, initial, q, none);
    }
  }

  lemma SameItems(a: seq<Item>, b: seq<Item>, q: Path, destination: Path)
    requires forall item :: item in a <==> item in b
    ensures (exists i :: 0 <= i < |a| && destination + a[i].path == q) <==> (exists k :: 0 <= k < |b| && destination + b[k].path == q)
  {
    if i :| 0 <= i < |a| && destination + a[i].path == q { assert a[i] in b; }
    if k :| 0 <= k < |b| && destination + b[k].path == q { assert b[k] in a; }
  }

  lemma SameCover(a: seq<Item>, b: seq<Item>, q: Path, destination: Path)
    requires forall item :: item in a <==> item in b
    ensures Covered(q, destination, a) <==> Covered(q, destination, b)
  {
    if j :| 0 <= j < |a| && Covers(a[j], q, destination) {
      assert a[j] in b;
    }
    if j :| 0 <= j < |b| && Covers(b[j], q, destination) {
      assert b[j] in a;
    }
  }

  // ----- in terms of the archive's text ------------------------------------

  /** Every entry is where its name says, a folder with its permission bits or
      a file with its content and its permission bits. */
  lemma EntryIsUnpacked(entries: seq<Entry>, tree: Tree, start: Tree, destination: Path, items: seq<Item>, initial: nat, k: nat, path: Path)
    requires Listed(items, entries, |entries|) && Unpacked(tree, start, destination, items, initial)
    requires k < |entries| && entries[k].raw.Some? && Spells(entries[k].raw.value, path, entries[k].kind.Directory?)
    requires !entries[k].kind.Special? && entries[k].mode.Some?
    ensures destination + path in tree
    ensures tree[destination + path] ==
      if entries[k].kind.Directory? then Folder(entries[k].mode.value % 0x200)
      else Document(entries[k].content, entries[k].mode.value % 0x200)
  {
    hide Name, Spells;
    AcceptedNames(entries[k], path);
    assert items[k] == ItemOf(entries[k]) && items[k].path == path;
    hide Covered;
  }

  /** And nothing else is below the destination but folders above entries. */
  lemma NothingElseIsUnpacked(entries: seq<Entry>, tree: Tree, start: Tree, destination: Path, items: seq<Item>, initial: nat, q: Path)
    returns (k: nat, path: Path)
    requires Listed(items, entries, |entries|) && Unpacked(tree, start, destination, items, initial)
    requires q in tree && q !in start
    ensures k < |entries| && entries[k].raw.Some? && Spells(entries[k].raw.value, path, entries[k].kind.Directory?)
    ensures destination < q <= destination + path
    ensures q != destination + path && tree[q] != Folder(initial) ==>
      exists i, p :: 0 <= i < |entries| && entries[i].raw.Some? && Spells(entries[i].raw.value, p, entries[i].kind.Directory?) && q == destination + p
  {
    var j :| 0 <= j < |items| && Covers(items[j], q, destination);
    hide Name, Spells;
    k, path := j, items[j].path;
    AcceptedNames(entries[k], path);
    if i :| 0 <= i < |items| && destination + items[i].path == q {
      AcceptedNames(entries[i], items[i].path);
      assert q == destination + items[i].path;
    }
  }
}
