/** An index of a captured file catalog by directory. */
module SourceCatalog {
  import opened Basics

  /** A file of the catalog; a body that is not available has size -1. */
  datatype SourceFile = SourceFile(path: Path, size: int)

  datatype Directory = Directory(directories: seq<Path>, documents: seq<SourceFile>)

  function Parent(p: Path): Path
    requires p != []
  {
    p[..|p| - 1]
  }

  predicate ValidSegment(s: string) {
    s != "" && s != "." && s != ".." && '/' !in s
  }

  /** A path that names a file or directory below the root. */
  predicate ValidPath(p: Path) {
    p != [] && forall s :: s in p ==> ValidSegment(s)
  }

  /** A path cannot be written with slashes and read back, or leaves its directory. */
  ghost predicate Malformed(p: Path) {
    exists k :: 0 <= k < |p| && (p[k] in ["", ".", ".."] || exists i :: 0 <= i < |p[k]| && p[k][i] == '/')
  }

  lemma SegmentsAreValid(p: Path)
    ensures Malformed(p) <==> exists s :: s in p && !ValidSegment(s)
  {
    forall k | 0 <= k < |p|
      ensures !ValidSegment(p[k]) <==> p[k] in ["", ".", ".."] || exists i :: 0 <= i < |p[k]| && p[k][i] == '/'
    {
      assert '/' in p[k] <==> exists i :: 0 <= i < |p[k]| && p[k][i] == '/';
    }
    if s :| s in p && !ValidSegment(s) {
      var k :| 0 <= k < |p| && p[k] == s;
    }
    forall k | 0 <= k < |p| && !ValidSegment(p[k]) ensures exists s :: s in p && !ValidSegment(s) {
      assert p[k] in p;
    }
  }

  /** The directories a list of files needs: the root and every ancestor. */
  ghost predicate Needed(files: seq<SourceFile>, d: Path) {
    d == [] || exists f :: f in files && d < f.path
  }

  /** Each directory lists its immediate children once, except those still pending. */
  ghost predicate Listed(tree: map<Path, Directory>, pending: set<Path>) {
    && [] in tree
    && (forall d :: d in tree && d != [] && d !in pending ==> Parent(d) in tree)
    && (forall d :: d in tree ==> NoRepeat(tree[d].directories))
    && forall d, c :: d in tree ==>
         (c in tree[d].directories <==> c in tree && c != [] && c !in pending && Parent(c) == d)
  }

  /** Each directory holds the files directly in it, as often as the catalog does. */
  ghost predicate Filed(tree: map<Path, Directory>, files: seq<SourceFile>) {
    forall d, f :: d in tree ==>
      multiset(tree[d].documents)[f] == if f.path != [] && Parent(f.path) == d then multiset(files)[f] else 0
  }

  /** What a tree says of the catalog it was made from. */
  ghost predicate Catalogued(tree: map<Path, Directory>, files: seq<SourceFile>) {
    && (forall f :: f in files ==> f.path != [])
    && (forall d :: d in tree <==> Needed(files, d))
    && Listed(tree, {}) && Filed(tree, files)
  }

  lemma AddPending(tree: map<Path, Directory>, pending: set<Path>, name: Path)
    requires Listed(tree, pending) && name !in tree && forall p :: p in pending ==> name < p
    ensures name != [] && Listed(tree[name := Directory([], [])], pending + {name})
  {}

  lemma ListPending(tree: map<Path, Directory>, pending: set<Path>, name: Path)
    requires name != [] && Listed(tree, pending + {name}) && name !in pending && name in tree && Parent(name) in tree
    ensures var d := tree[Parent(name)];
      Listed(tree[Parent(name) := d.(directories := d.directories + [name])], pending)
  {
    assert name !in tree[Parent(name)].directories;
  }

  /** A directory and its ancestors are there, and no documents moved. */
  ghost predicate Grown(before: map<Path, Directory>, after: map<Path, Directory>, name: Path) {
    && (forall d :: d in after <==> d in before || d <= name)
    && (forall d :: d in after ==> after[d].documents == if d in before then before[d].documents else [])
  }

  lemma GrowName(before: map<Path, Directory>, mid: map<Path, Directory>, name: Path)
    requires name != [] && name !in before && Grown(before[name := Directory([], [])], mid, Parent(name))
    ensures name in mid && Parent(name) in mid
    ensures var d := mid[Parent(name)];
      Grown(before, mid[Parent(name) := d.(directories := d.directories + [name])], name)
  {
    forall d ensures d in mid <==> d in before || d <= name {
      if d <= name && d != name {
        assert |d| < |name|;
      }
    }
  }

  class SourceTree {
    var directories: map<Path, Directory>

    constructor ()
      ensures directories == map[[] := Directory([], [])]
    {
      directories := map[[] := Directory([], [])];
    }

    /** The recursive closure `directory`: adds a directory and its missing ancestors. */
    method Ensure(name: Path, ghost pending: set<Path>)
      requires Listed(directories, pending) && forall p :: p in pending ==> name < p
      modifies this
      ensures Listed(directories, pending)
      ensures Grown(old(directories), directories, name)
      decreases |name|
    {
      if name in directories {
        AncestorsListed(directories, pending, name);
        assert Grown(directories, directories, name);
        return;
      }
      hide *;
      hide Listed, Grown;
      ghost var before := directories;
      AddPending(directories, pending, name);
      directories := directories[name := Directory([], [])];
      var parent := name[..|name| - 1];
      Ensure(parent, pending + {name});
      GrowName(before, directories, name);
      ListPending(directories, pending, name);
      var d := directories[parent];
      directories := directories[parent := d.(directories := d.directories + [name])];
    }

    /** `ReadDirectory`. */
    method ReadDirectory(name: Path) returns (d: Option<Directory>)
      ensures d == if name in directories then Some(directories[name]) else None
    {
      if name !in directories {
        return None;
      }
      return Some(directories[name]);
    }
  }

  lemma {:induction false} AncestorsListed(tree: map<Path, Directory>, pending: set<Path>, name: Path)
    requires Listed(tree, pending) && name in tree && forall p :: p in pending ==> name < p
    ensures forall d :: d <= name ==> d in tree
    decreases |name|
  {
    if name != [] {
      assert name !in pending;
      AncestorsListed(tree, pending, Parent(name));
      forall d | d <= name ensures d in tree {
        if d != name {
          assert d <= Parent(name);
        }
      }
    }
  }

  // ---------- Building ----------

  ghost predicate Neat(tree: map<Path, Directory>, files: seq<SourceFile>) {
    && (forall f :: f in files ==> f.path != [])
    && (forall d :: d in tree <==> Needed(files, d))
    && Filed(tree, files)
  }

  /** Adds one file to the directory that holds it, once that is there. */
  lemma NeatNext(before: map<Path, Directory>, mid: map<Path, Directory>, files: seq<SourceFile>, file: SourceFile)
    requires Neat(before, files) && file.path != [] && Grown(before, mid, Parent(file.path))
    requires Listed(mid, {})
    ensures Parent(file.path) in mid
    ensures var d := mid[Parent(file.path)];
      var after := mid[Parent(file.path) := d.(documents := d.documents + [file])];
      Neat(after, files + [file]) && Listed(after, {})
  {
    hide Filed, Listed, Needed;
    var d := mid[Parent(file.path)];
    var after := mid[Parent(file.path) := d.(documents := d.documents + [file])];
    forall d ensures d in after <==> Needed(files + [file], d) {
      NeededNext(files, file, d);
    }
    FiledNext(before, mid, files, file);
    ListedDocuments(mid, Parent(file.path), d.documents + [file]);
  }

  lemma ListedDocuments(tree: map<Path, Directory>, at: Path, documents: seq<SourceFile>)
    requires Listed(tree, {}) && at in tree
    ensures Listed(tree[at := tree[at].(documents := documents)], {})
  {}

  lemma FiledNext(before: map<Path, Directory>, mid: map<Path, Directory>, files: seq<SourceFile>, file: SourceFile)
    requires Neat(before, files) && file.path != [] && Grown(before, mid, Parent(file.path))
    ensures Parent(file.path) in mid
    ensures var d := mid[Parent(file.path)];
      Filed(mid[Parent(file.path) := d.(documents := d.documents + [file])], files + [file])
  {
    hide Neat, Needed;
    var parent := Parent(file.path);
    GrownHolds(before, mid, parent);
    var after := mid[parent := mid[parent].(documents := mid[parent].documents + [file])];
    hide Parent, Grown;
    forall d, f | d in after
      ensures multiset(after[d].documents)[f]
           == if f.path != [] && Parent(f.path) == d then multiset(files + [file])[f] else 0
    {
      FiledBefore(before, mid, files, parent, d, f);
      OneMore(files, file, f);
      OneMore(mid[parent].documents, file, f);
    }
  }

  lemma OneMore(files: seq<SourceFile>, file: SourceFile, f: SourceFile)
    ensures multiset(files + [file])[f] == multiset(files)[f] + if f == file then 1 else 0
  {}

  lemma GrownHolds(before: map<Path, Directory>, mid: map<Path, Directory>, name: Path)
    requires Grown(before, mid, name)
    ensures name in mid
  {}

  /** New directories are as empty as the catalog has them. */
  lemma FiledBefore(before: map<Path, Directory>, mid: map<Path, Directory>, files: seq<SourceFile>, parent: Path,
                    d: Path, f: SourceFile)
    requires Neat(before, files) && Grown(before, mid, parent) && d in mid
    ensures multiset(mid[d].documents)[f] == if f.path != [] && Parent(f.path) == d then multiset(files)[f] else 0
  {
    hide Needed;
    if d !in before {
      NewIsEmpty(before, files, d, f);
    }
  }

  lemma NewIsEmpty(before: map<Path, Directory>, files: seq<SourceFile>, d: Path, f: SourceFile)
    requires Neat(before, files) && d !in before
    ensures f.path != [] && Parent(f.path) == d ==> multiset(files)[f] == 0
  {
    if f in files && Parent(f.path) == d {
      assert d < f.path;
      assert Needed(files, d);
    }
  }

  lemma NeededNext(files: seq<SourceFile>, file: SourceFile, d: Path)
    requires file.path != []
    ensures Needed(files + [file], d) <==> Needed(files, d) || d <= Parent(file.path)
  {
    assert forall f :: f in files + [file] <==> f in files || f == file;
    assert d < file.path <==> d <= Parent(file.path);
  }

  /** `NewSourceTree`: refuses a catalog with an invalid path. */
  method NewSourceTree(files: seq<SourceFile>) returns (tree: Option<SourceTree>)
    ensures tree.None? <==> exists f :: f in files && (f.path == [] || Malformed(f.path))
    ensures tree.Some? ==> fresh(tree.value) && Catalogued(tree.value.directories, files)
  {
    var t := new SourceTree();
    EmptyTree();
    for i := 0 to |files|
      invariant fresh(t) && Neat(t.directories, files[..i]) && Listed(t.directories, {})
      invariant forall f :: f in files[..i] ==> f.path != [] && !Malformed(f.path)
    {
      hide Neat, Listed, Grown, Malformed;
      var file := files[i];
      SegmentsAreValid(file.path);
      assert files[..i + 1] == files[..i] + [file];
      if !ValidPath(file.path) {
        return None;
      }
      var parent := Parent(file.path);
      ghost var before := t.directories;
      t.Ensure(parent, {});
      NeatNext(before, t.directories, files[..i], file);
      var d := t.directories[parent];
      t.directories := t.directories[parent := d.(documents := d.documents + [file])];
    }
    assert files[..|files|] == files;
    return Some(t);
  }

  lemma EmptyTree()
    ensures Neat(map[[] := Directory([], [])], []) && Listed(map[[] := Directory([], [])], {})
  {}
}
