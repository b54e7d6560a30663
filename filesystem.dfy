/** The part of the POSIX file system the adapter touches: a map from path
    strings, exactly as the program spells them, to directories (with their
    entry names), regular files and symbolic links.  `os.path.isdir`,
    `os.path.exists`, `os.listdir`, `os.mkdir` and `os.symlink` are written
    against it.  Paths are not normalised and links are not followed. */
module FileSystems {
  import opened PyValues
  import opened Paths

  datatype Node =
    | Dir(children: seq<string>)
    | File
    | Link(target: string)

  type Tree = map<string, Node>

  /** `os.path.exists(p)`. */
  predicate Exists(t: Tree, p: string)
  {
    p in t
  }

  /** `os.path.isdir(p)`. */
  predicate IsDir(t: Tree, p: string)
  {
    p in t && t[p].Dir?
  }

  /** `os.listdir(p)` for a directory: the bare entry names. */
  function ListDir(t: Tree, p: string): (names: seq<string>)
    requires IsDir(t, p)
    ensures names == t[p].children
  {
    t[p].children
  }

  /** Creating the entry `path` holding `node`, as `os.mkdir` and
      `os.symlink` do: it fails when the name is taken, when the parent is
      missing or when the parent is not a directory; otherwise the parent
      lists the new name and nothing else changes. */
  function AddEntry(t: Tree, path: string, node: Node): (r: Outcome<Tree>)
    ensures r.Raised? <==> path in t || !IsDir(t, Dirname(path))
    ensures path in t ==> r == Raised(FileExistsError)
    ensures path !in t && Dirname(path) !in t ==> r == Raised(FileNotFoundError)
    ensures path !in t && Dirname(path) in t && !t[Dirname(path)].Dir? ==> r == Raised(NotADirectoryError)
  {
    var parent := Dirname(path);
    if path in t then Raised(FileExistsError)
    else if parent !in t then Raised(FileNotFoundError)
    else if !t[parent].Dir? then Raised(NotADirectoryError)
    else Done(t[parent := Dir(t[parent].children + [Basename(path)])][path := node])
  }

  /** A successful `AddEntry` adds exactly `path`, holding `node`, appends
      its base name to the parent's entries and changes nothing else. */
  lemma AddEntryDone(t: Tree, path: string, node: Node)
    requires AddEntry(t, path, node).Done?
    ensures var u := AddEntry(t, path, node).value;
      && u.Keys == t.Keys + {path} && u[path] == node
      && u[Dirname(path)] == Dir(t[Dirname(path)].children + [Basename(path)])
      && (forall q :: q in t && q != Dirname(path) ==> u[q] == t[q])
  {
  }

  /** A successful `AddEntry` keeps every entry that was there: files and
      links unchanged, directories still directories with the same names
      first. */
  lemma AddEntryKeeps(t: Tree, path: string, node: Node, q: string)
    requires AddEntry(t, path, node).Done? && q in t
    ensures var u := AddEntry(t, path, node).value;
      && q in u
      && (!t[q].Dir? ==> u[q] == t[q])
      && (t[q].Dir? ==> u[q].Dir? && t[q].children <= u[q].children)
  {
    AddEntryDone(t, path, node);
  }

  /** The mutable file system the staging code works on. */
  class FileSystem {
    var tree: Tree

    constructor (t: Tree)
      ensures tree == t
    {
      tree := t;
    }

    /** `os.mkdir(path)`. */
    method Mkdir(path: string) returns (r: Outcome<()>)
      modifies this
      ensures r.Raised? <==> AddEntry(old(tree), path, Dir([])).Raised?
      ensures r.Raised? ==> r.exc == AddEntry(old(tree), path, Dir([])).exc && tree == old(tree)
      ensures r.Done? ==> tree == AddEntry(old(tree), path, Dir([])).value
    {
      var u := AddEntry(tree, path, Dir([]));
      if u.Raised? {
        r := Raised(u.exc);
      } else {
        tree := u.value;
        r := Done(());
      }
    }

    /** `os.symlink(target, path)`: creates the link `path` pointing at
        `target`. */
    method Symlink(target: string, path: string) returns (r: Outcome<()>)
      modifies this
      ensures r.Raised? <==> AddEntry(old(tree), path, Link(target)).Raised?
      ensures r.Raised? ==> r.exc == AddEntry(old(tree), path, Link(target)).exc && tree == old(tree)
      ensures r.Done? ==> tree == AddEntry(old(tree), path, Link(target)).value
    {
      var u := AddEntry(tree, path, Link(target));
      if u.Raised? {
        r := Raised(u.exc);
      } else {
        tree := u.value;
        r := Done(());
      }
    }
  }
}
