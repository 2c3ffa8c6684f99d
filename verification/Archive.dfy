/** The first pass over a release archive (control/install_support/archive.rs):
    every name and the whole set of names is checked before anything is
    written. */
module Archive {
  import opened Text
  import opened Common

  datatype Kind = Regular | Directory | Special

  /** An entry of the tar stream. The name is none when it is not UTF-8, the
      mode when the header's field is not a number. */
  datatype Entry = Entry(raw: Option<string>, kind: Kind, mode: Option<nat>, content: seq<bv8>)

  /** A path as its components, below some directory. */
  type Path = seq<string>

  datatype Refusal =
    | UnsafeName
    | NotRegular
    | SeparatorAfterFile
    | Damaged
    | Duplicate
    | SeveralRoots
    | MissingFiles
    | FileAsDirectory

  // ----- one name ----------------------------------------------------------

  function Trimmed(raw: string): string
    decreases |raw|
  {
    if raw != "" && raw[|raw| - 1] == '/' then Trimmed(raw[..|raw| - 1]) else raw
  }

  predicate EndsInSeparator(raw: string) { raw != "" && raw[|raw| - 1] == '/' }

  predicate Component(part: string) { part != "" && part != "." && part != ".." && '/' !in part && '\\' !in part }

  /** The components of an accepted name. */
  function Name(entry: Entry): Result<Path, Refusal> {
    if entry.raw.None? then Err(UnsafeName)
    else if EndsInSeparator(entry.raw.value) && !entry.kind.Directory? then Err(SeparatorAfterFile)
    else
      var path := Trimmed(entry.raw.value);
      var parts := Split(path, '/');
      if path == "" || '\\' in path || exists part :: part in parts && (part == "" || part == "." || part == "..") then
        Err(UnsafeName)
      else if entry.kind.Special? then Err(NotRegular)
      else Ok(parts)
  }

  predicate Proper(path: Path) { path != [] && forall part :: part in path ==> Component(part) }

  lemma {:induction false} CharactersOfParts(text: string, c: char)
    requires c !in text
    ensures forall part :: part in Split(text, '/') ==> c !in part
  {
    if text != "" { CharactersOfParts(text[1..], c); }
  }

  /** An accepted name stays below its directory: its components are never
      empty, `.` or `..`, hold no separator, and are the name's text. */
  lemma AcceptedNamesAreProper(entry: Entry)
    requires Name(entry).Ok?
    ensures Proper(Name(entry).value) && !entry.kind.Special?
    ensures Join(Name(entry).value, '/') == Trimmed(entry.raw.value)
  {
    var path := Trimmed(entry.raw.value);
    PartsHaveNoSeparator(path, '/');
    CharactersOfParts(path, '\\');
    JoinUndoesSplit(path, '/');
  }

  /** Entries have the same components exactly when their names agree up to
      separators at the end. */
  lemma SameComponents(a: Entry, b: Entry)
    requires Name(a).Ok? && Name(b).Ok?
    ensures Name(a).value == Name(b).value <==> Trimmed(a.raw.value) == Trimmed(b.raw.value)
  {
    AcceptedNamesAreProper(a);
    AcceptedNamesAreProper(b);
  }

  // ----- which names are accepted ------------------------------------------

  function Separators(n: nat): string { if n == 0 then "" else Separators(n - 1) + "/" }

  /** A path below the root as an archive may write it: its components between
      separators, and any number of separators behind a directory. */
  ghost predicate Spells(raw: string, path: Path, directory: bool) {
    Proper(path) && exists n: nat :: (n > 0 ==> directory) && raw == Join(path, '/') + Separators(n)
  }

  lemma {:induction false} TrimmedEnd(raw: string)
    returns (n: nat)
    ensures raw == Trimmed(raw) + Separators(n) && !EndsInSeparator(Trimmed(raw))
    ensures n == 0 <==> !EndsInSeparator(raw)
    decreases |raw|
  {
    n := 0;
    if EndsInSeparator(raw) {
      var less := raw[..|raw| - 1];
      n := TrimmedEnd(less);
      assert raw == less + "/";
      assert Trimmed(raw) + (Separators(n) + "/") == (Trimmed(raw) + Separators(n)) + "/";
      n := n + 1;
    }
  }

  lemma {:induction false} TrimSeparators(text: string, n: nat)
    requires !EndsInSeparator(text)
    ensures Trimmed(text + Separators(n)) == text
    ensures EndsInSeparator(text + Separators(n)) <==> n > 0
  {
    if n == 0 {
      assert text + "" == text;
    } else {
      var raw := text + Separators(n);
      assert raw == (text + Separators(n - 1)) + "/";
      assert raw[..|raw| - 1] == text + Separators(n - 1);
      TrimSeparators(text, n - 1);
    }
  }

  lemma {:induction false} JoinedPath(path: Path)
    requires Proper(path)
    ensures var text := Join(path, '/'); text != "" && !EndsInSeparator(text) && '\\' !in text
  {
    assert Component(path[0]) && Component(path[|path| - 1]);
    if |path| > 1 {
      var rest := path[1..];
      assert forall part :: part in rest ==> part in path;
      JoinedPath(rest);
      var text, more := Join(path, '/'), Join(rest, '/');
      assert text == path[0] + ['/'] + more && text[|text| - 1] == more[|more| - 1];
    }
  }

  /** A name is accepted, as a path, exactly when it spells the path; any number
      of separators may follow a directory, none a file. */
  lemma AcceptedNames(entry: Entry, path: Path)
    ensures Name(entry) == Ok(path) <==>
      entry.raw.Some? && !entry.kind.Special? && Spells(entry.raw.value, path, entry.kind.Directory?)
  {
    if entry.raw.Some? {
      if Name(entry) == Ok(path) {
        AcceptedNamesAreProper(entry);
        var n := TrimmedEnd(entry.raw.value);
        assert entry.raw.value == Join(path, '/') + Separators(n);
      }
      if !entry.kind.Special? && Spells(entry.raw.value, path, entry.kind.Directory?) {
        var n: nat :| (n > 0 ==> entry.kind.Directory?) && entry.raw.value == Join(path, '/') + Separators(n);
        JoinedPath(path);
        assert forall part :: part in path ==> Component(part);
        SplitUndoesJoin(path, '/');
        TrimSeparators(Join(path, '/'), n);
        hide Split, Trimmed, Join, Separators;
      }
    }
  }

  // ----- the whole archive -------------------------------------------------

  const EXECUTABLE: Path := ["bin", "hamn"]
  const MANIFEST_URL: Path := ["share", "hamn", "update-manifest-url"]

  predicate Named(entries: seq<Entry>) { forall i :: 0 <= i < |entries| ==> Name(entries[i]).Ok? }

  function PathOf(entry: Entry): Path
    requires Name(entry).Ok?
  {
    Name(entry).value
  }

  ghost predicate Unique(entries: seq<Entry>)
    requires Named(entries)
  {
    forall i, j :: 0 <= i < j < |entries| ==> PathOf(entries[i]) != PathOf(entries[j])
  }

  ghost predicate OneRoot(entries: seq<Entry>, root: string)
    requires Named(entries)
  {
    entries != [] && forall i :: 0 <= i < |entries| ==> PathOf(entries[i]) != [] && PathOf(entries[i])[0] == root
  }

  ghost predicate HoldsFile(entries: seq<Entry>, path: Path)
    requires Named(entries)
  {
    exists i :: 0 <= i < |entries| && PathOf(entries[i]) == path && !entries[i].kind.Directory?
  }

  /** No file is an ancestor of another entry. */
  ghost predicate NoFileInside(entries: seq<Entry>)
    requires Named(entries)
  {
    forall i, j :: 0 <= i < |entries| && 0 <= j < |entries| && !entries[i].kind.Directory? ==>
      !(PathOf(entries[i]) < PathOf(entries[j]))
  }

  ghost predicate Sound(entries: seq<Entry>, root: string) {
    && Named(entries) && Unique(entries) && OneRoot(entries, root) && NoFileInside(entries)
    && HoldsFile(entries, [root] + EXECUTABLE) && HoldsFile(entries, [root] + MANIFEST_URL)
  }

  /** The map that the first pass fills: for each path, whether it is a
      directory. */
  ghost predicate Indexes(index: map<Path, bool>, entries: seq<Entry>)
    requires Named(entries)
  {
    && (forall i :: 0 <= i < |entries| ==> PathOf(entries[i]) in index && index[PathOf(entries[i])] == entries[i].kind.Directory?)
    && (forall p :: p in index ==> exists i :: 0 <= i < |entries| && PathOf(entries[i]) == p)
  }

  method Collect(entries: seq<Entry>) returns (found: Result<(map<Path, bool>, set<string>), Refusal>)
    ensures found.Ok? <==> Named(entries) && Unique(entries)
    ensures found.Ok? ==> Indexes(found.value.0, entries) && forall i :: 0 <= i < |entries| ==> PathOf(entries[i]) != []
    ensures found.Ok? ==> found.value.1 == set i | 0 <= i < |entries| :: Name(entries[i]).value[0]
  {
    hide Name, Unique, Indexes;
    assert Unique([]) && Indexes(map[], []) by { NothingCollected(); }
    assert entries[..0] == [];
    var roots: set<string> := {};
    var index: map<Path, bool> := map[];
    var i := 0;
    while i < |entries|
      invariant 0 <= i <= |entries|
      invariant Named(entries[..i]) && Unique(entries[..i]) && Indexes(index, entries[..i])
      invariant forall k :: 0 <= k < i ==> Name(entries[k]).Ok? && Name(entries[k]).value != []
      invariant roots == set k | 0 <= k < i :: Name(entries[k]).value[0]
    {
      var name := Name(entries[i]);
      if name.Err? { return Err(name.error); }
      AcceptedNamesAreProper(entries[i]);
      roots := roots + {name.value[0]};
      if name.value in index {
        RepeatedName(index, entries, i);
        return Err(Duplicate);
      }
      IndexOneMore(index, entries, i);
      index := index[name.value := entries[i].kind.Directory?];
      i := i + 1;
    }
    assert entries[..i] == entries;
    return Ok((index, roots));
  }

  lemma NothingCollected()
    ensures Unique([]) && Indexes(map[], [])
  {
  }

  lemma RepeatedName(index: map<Path, bool>, entries: seq<Entry>, i: nat)
    requires i < |entries| && Named(entries[..i]) && Indexes(index, entries[..i])
    requires Name(entries[i]).Ok? && PathOf(entries[i]) in index
    ensures Named(entries) ==> !Unique(entries)
  {
    hide Name;
    var k :| 0 <= k < i && PathOf(entries[..i][k]) == PathOf(entries[i]);
    assert entries[..i][k] == entries[k];
  }

  lemma IndexOneMore(index: map<Path, bool>, entries: seq<Entry>, i: nat)
    requires i < |entries| && Named(entries[..i]) && Name(entries[i]).Ok?
    requires Unique(entries[..i]) && Indexes(index, entries[..i]) && PathOf(entries[i]) !in index
    ensures Named(entries[..i + 1]) && Unique(entries[..i + 1])
    ensures Indexes(index[PathOf(entries[i]) := entries[i].kind.Directory?], entries[..i + 1])
  {
    hide Name;
    var before, after := entries[..i], entries[..i + 1];
    assert after == before + [entries[i]];
    var more := index[PathOf(entries[i]) := entries[i].kind.Directory?];
    forall p | p in more ensures exists k :: 0 <= k < |after| && PathOf(after[k]) == p {
      if p == PathOf(entries[i]) {
        assert PathOf(after[i]) == p;
      } else {
        var k :| 0 <= k < |before| && PathOf(before[k]) == p;
        assert PathOf(after[k]) == p;
      }
    }
  }

  /** Walks from each path to its root: no ancestor may be a file. */
  method ParentsAreDirectories(index: map<Path, bool>) returns (ok: bool)
    ensures ok <==> forall p, n :: p in index && 0 <= n < |p| && p[..n] in index ==> index[p[..n]]
  {
    var left := index.Keys;
    while left != {}
      invariant left <= index.Keys
      invariant forall p, n :: p in index && p !in left && 0 <= n < |p| && p[..n] in index ==> index[p[..n]]
      decreases |left|
    {
      var path :| path in left;
      var n := |path|;
      while n > 0
        invariant 0 <= n <= |path|
        invariant forall m :: n <= m < |path| && path[..m] in index ==> index[path[..m]]
      {
        n := n - 1;
        if path[..n] in index && !index[path[..n]] { return false; }
      }
      left := left - {path};
    }
    return true;
  }

  lemma FilesInsideTheIndex(entries: seq<Entry>, index: map<Path, bool>)
    requires Named(entries) && Indexes(index, entries)
    ensures NoFileInside(entries) <==> forall p, n :: p in index && 0 <= n < |p| && p[..n] in index ==> index[p[..n]]
  {
    hide Name;
    if NoFileInside(entries) {
      forall p, n | p in index && 0 <= n < |p| && p[..n] in index ensures index[p[..n]] {
        var j :| 0 <= j < |entries| && PathOf(entries[j]) == p;
        var i :| 0 <= i < |entries| && PathOf(entries[i]) == p[..n];
        assert PathOf(entries[i]) < PathOf(entries[j]);
      }
    } else {
      var i, j :| 0 <= i < |entries| && 0 <= j < |entries| && !entries[i].kind.Directory? && PathOf(entries[i]) < PathOf(entries[j]);
      var p, n := PathOf(entries[j]), |PathOf(entries[i])|;
      assert p[..n] == PathOf(entries[i]);
    }
  }

  lemma FileInIndex(entries: seq<Entry>, index: map<Path, bool>, path: Path)
    requires Named(entries) && Indexes(index, entries)
    ensures HoldsFile(entries, path) <==> path in index && !index[path]
  {
    hide Name;
    if path in index {
      var i :| 0 <= i < |entries| && PathOf(entries[i]) == path;
    }
  }

  /** The first pass accepts an archive exactly when it was read to its end
      and is sound, and names its root. */
  method Validate(entries: seq<Entry>, intact: bool) returns (root: Result<string, Refusal>)
    ensures root.Ok? <==> intact && exists r :: Sound(entries, r)
    ensures root.Ok? ==> Sound(entries, root.value)
  {
    if !intact { return Err(Damaged); }
    hide Name, Unique, OneRoot, HoldsFile, NoFileInside, Indexes;
    var found := Collect(entries);
    if found.Err? { return Err(found.error); }
    var (index, roots) := found.value;
    forall r ensures Sound(entries, r) <==> roots == {r} && Fits(index, r) { SoundByIndex(entries, index, roots, r); }
    hide Sound;
    if |roots| != 1 { return Err(SeveralRoots); }
    var only :| only in roots;
    OnlyRoot(roots, only);
    if [only] + EXECUTABLE !in index || index[[only] + EXECUTABLE] { return Err(MissingFiles); }
    if [only] + MANIFEST_URL !in index || index[[only] + MANIFEST_URL] { return Err(MissingFiles); }
    var parents := ParentsAreDirectories(index);
    if !parents { return Err(FileAsDirectory); }
    return Ok(only);
  }

  lemma OnlyRoot(roots: set<string>, only: string)
    requires |roots| == 1 && only in roots
    ensures roots == {only} && forall r :: roots == {r} ==> r == only
  {
    assert |roots - {only}| == 0;
    assert forall r :: roots == {r} ==> only in {r};
  }

  /** What is checked of the map. */
  ghost predicate Fits(index: map<Path, bool>, root: string) {
    && [root] + EXECUTABLE in index && !index[[root] + EXECUTABLE]
    && [root] + MANIFEST_URL in index && !index[[root] + MANIFEST_URL]
    && forall p, n :: p in index && 0 <= n < |p| && p[..n] in index ==> index[p[..n]]
  }

  lemma SoundByIndex(entries: seq<Entry>, index: map<Path, bool>, roots: set<string>, root: string)
    requires Named(entries) && Unique(entries) && Indexes(index, entries)
    requires forall i :: 0 <= i < |entries| ==> PathOf(entries[i]) != []
    requires roots == set i | 0 <= i < |entries| :: Name(entries[i]).value[0]
    ensures Sound(entries, root) <==> roots == {root} && Fits(index, root)
  {
    hide Name, Unique, OneRoot, HoldsFile, NoFileInside, Indexes;
    RootsOfEntries(entries, roots);
    FileInIndex(entries, index, [root] + EXECUTABLE);
    FileInIndex(entries, index, [root] + MANIFEST_URL);
    FilesInsideTheIndex(entries, index);
  }

  lemma RootsOfEntries(entries: seq<Entry>, roots: set<string>)
    requires Named(entries) && forall i :: 0 <= i < |entries| ==> PathOf(entries[i]) != []
    requires roots == set i | 0 <= i < |entries| :: Name(entries[i]).value[0]
    ensures forall r :: OneRoot(entries, r) <==> roots == {r}
  {
    hide Name;
    forall r ensures OneRoot(entries, r) <==> roots == {r} {
      if roots == {r} {
        forall i | 0 <= i < |entries| ensures PathOf(entries[i])[0] == r {
          assert Name(entries[i]).value[0] in roots;
        }
      }
      if OneRoot(entries, r) {
        assert Name(entries[0]).value[0] in roots;
        assert PathOf(entries[0])[0] == r;
        forall x | x in roots ensures x == r {
          var i :| 0 <= i < |entries| && x == Name(entries[i]).value[0];
          assert PathOf(entries[i])[0] == r;
        }
      }
    }
  }

  // ----- an archive as it is released --------------------------------------

  function FolderEntry(raw: string, mode: nat): Entry { Entry(Some(raw), Directory, Some(mode), []) }

  function FileEntry(raw: string, mode: nat, content: seq<bv8>): Entry { Entry(Some(raw), Regular, Some(mode), content) }

  /** Folders are written with a separator behind them, as tar does. */
  function Release(root: string, program: seq<bv8>, url: seq<bv8>): seq<Entry> {
    [FolderEntry(root + "/", 0x1ED), FolderEntry(root + "/bin/", 0x1ED), FileEntry(root + "/bin/hamn", 0x1ED, program),
     FileEntry(root + "/share/hamn/update-manifest-url", 0x1A4, url)]
  }

  lemma FolderName(raw: string, path: Path, mode: nat)
    requires Proper(path) && raw == Join(path, '/') + "/"
    ensures Name(FolderEntry(raw, mode)) == Ok(path)
  {
    assert Separators(1) == "/" by { assert Separators(0) == ""; }
    AcceptedNames(FolderEntry(raw, mode), path);
  }

  lemma FileName(raw: string, path: Path, mode: nat, content: seq<bv8>)
    requires Proper(path) && raw == Join(path, '/')
    ensures Name(FileEntry(raw, mode, content)) == Ok(path)
  {
    assert Join(path, '/') + Separators(0) == raw;
    AcceptedNames(FileEntry(raw, mode, content), path);
  }

  lemma Under(root: string, rest: Path)
    requires Component(root) && Proper(rest)
    ensures Proper([root] + rest) && Join([root] + rest, '/') == root + "/" + Join(rest, '/')
  {
    assert ([root] + rest)[1..] == rest;
  }

  lemma OneComponent(part: string)
    requires Component(part)
    ensures Proper([part]) && Join([part], '/') == part
  {
  }

  lemma RequiredComponents()
    ensures Component("bin") && Component("hamn") && Component("share") && Component("update-manifest-url")
  {
  }

  lemma RequiredPaths(root: string)
    requires Component(root)
    ensures Proper([root]) && Join([root], '/') == root
    ensures Proper([root, "bin"]) && Join([root, "bin"], '/') == root + "/bin"
    ensures Proper([root] + EXECUTABLE) && Join([root] + EXECUTABLE, '/') == root + "/bin/hamn"
    ensures Proper([root] + MANIFEST_URL) && Join([root] + MANIFEST_URL, '/') == root + "/share/hamn/update-manifest-url"
  {
    assert [root, "bin"] == [root] + ["bin"] && EXECUTABLE == ["bin"] + ["hamn"];
    assert MANIFEST_URL == ["share"] + (["hamn"] + ["update-manifest-url"]);
    RequiredComponents();
    hide *;
    OneComponent(root);
    OneComponent("bin");
    OneComponent("hamn");
    OneComponent("update-manifest-url");
    Under(root, ["bin"]);
    Under("bin", ["hamn"]);
    Under(root, ["bin"] + ["hamn"]);
    Under("hamn", ["update-manifest-url"]);
    Under("share", ["hamn"] + ["update-manifest-url"]);
    Under(root, ["share"] + (["hamn"] + ["update-manifest-url"]));
    assert root + "/" + "bin" == root + "/bin";
    assert root + "/" + ("bin" + "/" + "hamn") == root + "/bin/hamn";
    assert root + "/" + ("share" + "/" + ("hamn" + "/" + "update-manifest-url")) == root + "/share/hamn/update-manifest-url";
  }

  lemma NamesOfRelease(root: string, program: seq<bv8>, url: seq<bv8>)
    requires Component(root)
    ensures var entries := Release(root, program, url);
      && |entries| == 4 && Name(entries[0]) == Ok([root]) && Name(entries[1]) == Ok([root, "bin"])
      && Name(entries[2]) == Ok([root] + EXECUTABLE) && Name(entries[3]) == Ok([root] + MANIFEST_URL)
      && entries[0].kind.Directory? && entries[1].kind.Directory? && !entries[2].kind.Directory? && !entries[3].kind.Directory?
  {
    RequiredPaths(root);
    hide Name, Join, Proper, Component;
    assert root + "/bin/" == root + "/bin" + "/";
    FolderName(root + "/", [root], 0x1ED);
    FolderName(root + "/bin/", [root, "bin"], 0x1ED);
    FileName(root + "/bin/hamn", [root] + EXECUTABLE, 0x1ED, program);
    FileName(root + "/share/hamn/update-manifest-url", [root] + MANIFEST_URL, 0x1A4, url);
  }

  /** A released archive is sound, under any proper root. */
  lemma ReleasesAreSound(root: string, program: seq<bv8>, url: seq<bv8>)
    requires Component(root)
    ensures Sound(Release(root, program, url), root)
  {
    var entries := Release(root, program, url);
    NamesOfRelease(root, program, url);
    hide Name, Release;
    var a, b, c, e := [root], [root, "bin"], [root] + EXECUTABLE, [root] + MANIFEST_URL;
    assert c[1] == "bin" && c[2] == "hamn" && e[1] == "share" && |b| == 2 && |c| == 3 && |e| == 4;
    assert c[1] != e[1];
    assert PathOf(entries[2]) == c && PathOf(entries[3]) == e;
  }
}
