/** vixen/directory.py: a tree of directories and files whose relative paths
    are derived through the parent links. */
module DirectoryModel {
  import opened Wrappers
  import opened PyPath

  /** What `os.path.isdir` / `os.path.isfile` say about one entry of a listing. */
  datatype EntryKind = IsDir | IsFile | Neither

  /** One name returned by `os.listdir`, with what the file system says it is. */
  datatype Entry = Entry(name: string, kind: EntryKind)

  /** The names of the entries of `listing` of kind `k`, in listing order. */
  function NamesOf(listing: seq<Entry>, k: EntryKind): (r: seq<string>)
    ensures |r| <= |listing|
  {
    if listing == [] then []
    else
      var last := listing[|listing| - 1];
      NamesOf(listing[..|listing| - 1], k) + (if last.kind == k then [last.name] else [])
  }

  /** Extending the listing by one entry adds its name to the group of its kind. */
  lemma NamesOfStep(es: seq<Entry>, k: int, kind: EntryKind)
    requires 0 <= k < |es|
    ensures NamesOf(es[..k + 1], kind) == NamesOf(es[..k], kind) + (if es[k].kind == kind then [es[k].name] else [])
  {
    assert es[..k + 1][..k] == es[..k];
  }

  /** A name is kept for kind `k` exactly when the listing has an entry of that
      name and kind, and every entry lands in exactly one of the three groups. */
  lemma {:induction false} NamesOfPartition(listing: seq<Entry>, k: EntryKind, n: string)
    ensures n in NamesOf(listing, k) <==> exists i :: 0 <= i < |listing| && listing[i] == Entry(n, k)
    ensures |NamesOf(listing, IsDir)| + |NamesOf(listing, IsFile)| + |NamesOf(listing, Neither)| == |listing|
  {
    if listing != [] {
      var init := listing[..|listing| - 1];
      var last := listing[|listing| - 1];
      NamesOfPartition(init, k, n);
      if n in NamesOf(listing, k) && n !in NamesOf(init, k) {
        assert listing[|listing| - 1] == Entry(n, k);
      }
      if exists i :: 0 <= i < |listing| && listing[i] == Entry(n, k) {
        var i :| 0 <= i < |listing| && listing[i] == Entry(n, k);
        if i < |listing| - 1 {
          assert init[i] == Entry(n, k);
        }
      }
    }
  }

  class Directory {
    var path: string
    const parent: Directory?
    var directories: seq<Directory>
    var files: seq<File>
    /** Distance from the root, and the strict ancestors; both only for the proofs. */
    ghost const depth: nat
    ghost const ancestors: set<Directory>

    /** The parent links end at a root, and `ancestors` holds every directory on the way. */
    ghost predicate Rooted()
      decreases depth
    {
      (parent == null ==> depth == 0 && ancestors == {}) &&
      (parent != null ==> parent.depth < depth && ancestors == {parent} + parent.ancestors && parent.Rooted())
    }

    /** `Directory(path=p)`: a root, before any listing. */
    constructor Root(p: string)
      ensures path == p && parent == null && directories == [] && files == []
      ensures Rooted()
    {
      path, parent, directories, files := p, null, [], [];
      depth, ancestors := 0, {};
    }

    /** `Directory(parent=par, path=p)`. The listing of the new directory that
        assigning its path would trigger is not part of this model. */
    constructor Child(par: Directory, p: string)
      requires par.Rooted()
      ensures path == p && parent == par && directories == [] && files == []
      ensures Rooted()
    {
      path, parent, directories, files := p, par, [], [];
      depth, ancestors := par.depth + 1, {par} + par.ancestors;
    }

    /** The `name` property. */
    function Name(): (r: string)
      reads this
      ensures '/' !in r
      ensures |r| <= |path| && r == path[|path| - |r|..]
    {
      Basename(path)
    }

    /** The `relpath` property: empty at the root, and `join(parent.relpath, name)` below it. */
    function RelPath(): (r: string)
      requires Rooted()
      reads this, ancestors
      ensures parent == null ==> r == ""
      ensures parent != null ==> Basename(r) == Name()
      decreases depth
    {
      if parent == null then ""
      else
        BasenameOfJoin(parent.RelPath(), Name());
        Join(parent.RelPath(), Name())
    }

    /** `_path_changed(path)` (and so `refresh()`): the entries of the listing of
        `path` become child directories and files, in listing order, each with
        this directory as parent. `listing` is `None` when `os.listdir` raises
        OSError. The handler catches only IOError, so the error passes through:
        `raised` is set and both lists keep their old values. */
    method PathChanged(listing: Option<seq<Entry>>) returns (raised: bool)
      requires Rooted()
      modifies this
      ensures path == old(path)
      ensures raised <==> listing.None?
      ensures listing.None? ==> directories == old(directories) && files == old(files)
      ensures listing.Some? ==> var es := listing.value;
        |directories| == |NamesOf(es, IsDir)| && |files| == |NamesOf(es, IsFile)| &&
        (forall i :: 0 <= i < |directories| ==>
          fresh(directories[i]) && directories[i].parent == this && directories[i].Rooted() &&
          directories[i].path == Join(path, NamesOf(es, IsDir)[i])) &&
        (forall i :: 0 <= i < |files| ==>
          fresh(files[i]) && files[i].parent == this &&
          files[i].path == Join(path, NamesOf(es, IsFile)[i]))
    {
      if listing.None? {
        return true;
      }
      directories, files := Children(listing.value);
      raised := false;
    }

    /** The children the entries `es` of this directory's listing stand for. */
    method Children(es: seq<Entry>) returns (dirs: seq<Directory>, fs: seq<File>)
      requires Rooted()
      ensures |dirs| == |NamesOf(es, IsDir)| && |fs| == |NamesOf(es, IsFile)|
      ensures forall i :: 0 <= i < |dirs| ==>
        fresh(dirs[i]) && dirs[i].parent == this && dirs[i].Rooted() &&
        dirs[i].path == Join(path, NamesOf(es, IsDir)[i])
      ensures forall i :: 0 <= i < |fs| ==>
        fresh(fs[i]) && fs[i].parent == this && fs[i].path == Join(path, NamesOf(es, IsFile)[i])
    {
      dirs, fs := [], [];
      var k := 0;
      while k < |es|
        invariant 0 <= k <= |es|
        invariant |dirs| == |NamesOf(es[..k], IsDir)| && |fs| == |NamesOf(es[..k], IsFile)|
        invariant forall i :: 0 <= i < |dirs| ==>
          fresh(dirs[i]) && dirs[i].parent == this && dirs[i].Rooted() &&
          dirs[i].path == Join(path, NamesOf(es[..k], IsDir)[i])
        invariant forall i :: 0 <= i < |fs| ==>
          fresh(fs[i]) && fs[i].parent == this && fs[i].path == Join(path, NamesOf(es[..k], IsFile)[i])
      {
        NamesOfStep(es, k, IsDir);
        NamesOfStep(es, k, IsFile);
        var fullPath := Join(path, es[k].name);
        if es[k].kind == IsDir {
          var d := new Directory.Child(this, fullPath);
          dirs := dirs + [d];
        } else if es[k].kind == IsFile {
          var f := new File(fullPath, this);
          fs := fs + [f];
        }
        k := k + 1;
      }
      assert es[..k] == es;
    }
  }

  class File {
    var path: string
    const parent: Directory

    /** `File(path=p, parent=par)`. */
    constructor (p: string, par: Directory)
      ensures path == p && parent == par
    {
      path, parent := p, par;
    }

    /** The `name` property: the basename of the path, as for a `Directory`;
        `PyPath.Basename` states what it is. */
    function Name(): string
      reads this
    {
      Basename(path)
    }

    /** The `relpath` property: `join(parent.relpath, name)`. */
    function RelPath(): (r: string)
      requires parent.Rooted()
      reads this, parent, parent.ancestors
      ensures Basename(r) == Name()
      ensures parent.parent == null ==> r == Name()
    {
      BasenameOfJoin(parent.RelPath(), Name());
      Join(parent.RelPath(), Name())
    }
  }

  /** A child created from the listing entry `name` of `d` has relative path
      `join(d.relpath, name)`: the name survives the round trip through the
      full path. */
  lemma {:induction false} ChildRelPath(d: Directory, c: Directory, name: string)
    requires d.Rooted() && c.Rooted() && c.parent == d
    requires '/' !in name && c.path == Join(d.path, name)
    ensures c.Name() == name
    ensures c.RelPath() == Join(d.RelPath(), name)
  {
    BasenameOfJoin(d.path, name);
  }

  /** The same for a file created from the listing entry `name` of `d`. */
  lemma {:induction false} FileRelPath(d: Directory, f: File, name: string)
    requires d.Rooted() && f.parent == d
    requires '/' !in name && f.path == Join(d.path, name)
    ensures f.Name() == name
    ensures f.RelPath() == Join(d.RelPath(), name)
  {
    BasenameOfJoin(d.path, name);
  }

  /** `join("sub", "sub.txt")` is "sub/sub.txt". */
  lemma JoinSubFile()
    ensures Join("sub", "sub.txt") == "sub/sub.txt"
  {
  }

  /** vixen/tests/test_directory.py: the sub-directory "sub" of the root has
      relpath "sub". */
  lemma {:induction false} SubDirRelPath(root: Directory, sub: Directory)
    requires root.Rooted() && root.parent == null
    requires sub.Rooted() && sub.parent == root && sub.path == Join(root.path, "sub")
    ensures root.RelPath() == ""
    ensures sub.RelPath() == "sub"
  {
    ChildRelPath(root, sub, "sub");
  }

  /** vixen/tests/test_directory.py: its file "sub.txt" has relpath "sub/sub.txt". */
  lemma {:induction false} SubFileRelPath(root: Directory, sub: Directory, subFile: File)
    requires root.Rooted() && root.parent == null
    requires sub.Rooted() && sub.parent == root && sub.path == Join(root.path, "sub")
    requires subFile.parent == sub && subFile.path == Join(sub.path, "sub.txt")
    ensures subFile.RelPath() == "sub/sub.txt"
  {
    FileRelPath(sub, subFile, "sub.txt");
    SubDirRelPath(root, sub);
    JoinSubFile();
  }

  /** vixen/tests/test_directory.py: the root's own file "hello.py" has relpath
      "hello.py". */
  lemma {:induction false} RootFileRelPath(root: Directory, rootFile: File)
    requires root.Rooted() && root.parent == null
    requires rootFile.parent == root && rootFile.path == Join(root.path, "hello.py")
    ensures rootFile.RelPath() == "hello.py"
  {
    FileRelPath(root, rootFile, "hello.py");
  }
}
