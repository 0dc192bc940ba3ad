/**
 * The file-system facts the modelled code reads: which paths exist, which are
 * directories, sizes, modification times, readability, file identity, and the
 * order in which a directory lists its entries. Paths are absolute and given by
 * their components. Nothing here performs I/O: a `Tree` is a snapshot.
 */
module FileSystem {
  import opened Wrappers
  import opened Text

  /** An absolute path, as its components from the root. */
  type Path = seq<string>

  /** What `stat` reports about one entry; `inode` decides `samefile`. */
  datatype Node = Node(inode: nat, isDir: bool, size: nat, mtime: real, readable: bool)

  /** The entries, and for each directory the order `iterdir` yields its entry names in (unspecified in the source). */
  datatype Tree = Tree(nodes: map<Path, Node>, listing: map<Path, seq<string>>)

  /** The errors the modelled file operations raise. */
  datatype OsError = FileNotFoundError | NotADirectoryError | PermissionError | OSError

  predicate Exists(t: Tree, p: Path) {
    p in t.nodes
  }

  predicate IsDir(t: Tree, p: Path) {
    p in t.nodes && t.nodes[p].isDir
  }

  predicate IsFile(t: Tree, p: Path) {
    p in t.nodes && !t.nodes[p].isDir
  }

  /** `path.parent`; the root is its own parent. */
  function Parent(p: Path): Path {
    if p == [] then [] else p[..|p| - 1]
  }

  /** `path.name`; empty for the root. */
  function Name(p: Path): string {
    if p == [] then "" else p[|p| - 1]
  }

  /** `path / name` for a single component. */
  function Child(p: Path, name: string): (c: Path)
    ensures Parent(c) == p && Name(c) == name
  {
    assert (p + [name])[..|p|] == p;
    p + [name]
  }

  /** The modification time of an existing entry, and 0 otherwise. */
  function MTime(t: Tree, p: Path): real {
    if p in t.nodes then t.nodes[p].mtime else 0.0
  }

  /** `os.path.samefile`: both exist and are the same file. */
  predicate SameFile(t: Tree, p: Path, q: Path) {
    p in t.nodes && q in t.nodes && t.nodes[p].inode == t.nodes[q].inode
  }

  /** The entry names of a directory, in `iterdir` order; nothing for anything else. */
  function Names(t: Tree, dir: Path): seq<string> {
    if IsDir(t, dir) && dir in t.listing then t.listing[dir] else []
  }

  /** The entries of a directory, in `iterdir` order. */
  function Entries(t: Tree, dir: Path): (r: seq<Path>)
    ensures |r| == |Names(t, dir)|
    ensures forall i :: 0 <= i < |r| ==> r[i] == Child(dir, Names(t, dir)[i])
  {
    ChildrenOf(dir, Names(t, dir))
  }

  function ChildrenOf(dir: Path, names: seq<string>): (r: seq<Path>)
    ensures |r| == |names|
    ensures forall i :: 0 <= i < |r| ==> r[i] == Child(dir, names[i])
  {
    if names == [] then [] else [Child(dir, names[0])] + ChildrenOf(dir, names[1..])
  }

  lemma {:induction false} ChildrenOfSnoc(dir: Path, names: seq<string>, name: string)
    ensures ChildrenOf(dir, names + [name]) == ChildrenOf(dir, names) + [Child(dir, name)]
  {
    if names == [] {
      assert names + [name] == [name];
      assert ChildrenOf(dir, [name]) == [Child(dir, name)] + ChildrenOf(dir, []);
    } else {
      var head, rest := Child(dir, names[0]), names[1..];
      assert (names + [name])[0] == names[0] && (names + [name])[1..] == rest + [name];
      ChildrenOfSnoc(dir, rest, name);
      assert ChildrenOf(dir, names + [name]) == [head] + (ChildrenOf(dir, rest) + [Child(dir, name)]);
      assert ChildrenOf(dir, names) == [head] + ChildrenOf(dir, rest);
    }
  }

  /** The matches of `dir.glob("*" + ext)`: entries whose name ends with `ext`, in listing order (hidden names included). */
  function Glob(t: Tree, dir: Path, ext: string): (r: seq<Path>)
    ensures forall p :: p in r <==> p in Entries(t, dir) && EndsWith(Name(p), ext)
  {
    FilterByExt(Entries(t, dir), ext)
  }

  function FilterByExt(ps: seq<Path>, ext: string): (r: seq<Path>)
    ensures forall p :: p in r <==> p in ps && EndsWith(Name(p), ext)
  {
    if ps == [] then []
    else (if EndsWith(Name(ps[0]), ext) then [ps[0]] else []) + FilterByExt(ps[1..], ext)
  }

  /** `PurePath.suffix`: from the last dot of the name, unless that dot is its first or last character. */
  function Suffix(name: string): (s: string)
    ensures s == [] || (s[0] == '.' && EndsWith(name, s) && |s| < |name|)
  {
    match LastDot(name)
    case None => ""
    case Some(i) => if 0 < i < |name| - 1 then name[i..] else ""
  }

  /** The index of the last dot. */
  function LastDot(s: string): (r: Option<nat>)
    ensures r.Some? ==> r.value < |s| && s[r.value] == '.' && '.' !in s[r.value + 1..]
    ensures r.None? ==> '.' !in s
  {
    if s == [] then None
    else if s[|s| - 1] == '.' then Some(|s| - 1)
    else
      var r := LastDot(s[..|s| - 1]);
      assert forall k :: 0 <= k < |s| - 1 ==> s[..|s| - 1][k] == s[k];
      match r
      case None =>
        assert forall c :: c in s ==> c in s[..|s| - 1] || c == s[|s| - 1];
        None
      case Some(i) =>
        assert s[i + 1..] == s[..|s| - 1][i + 1..] + [s[|s| - 1]];
        Some(i)
  }

  /** A name has suffix `ext` (a dot followed by dot-free text) exactly when it ends with `ext` and has something before it. */
  lemma SuffixIs(name: string, ext: string)
    requires |ext| >= 2 && ext[0] == '.' && '.' !in ext[1..]
    ensures Suffix(name) == ext <==> EndsWith(name, ext) && |name| > |ext|
  {
    var i := |name| - |ext|;
    if EndsWith(name, ext) && |name| > |ext| {
      assert name[i..] == ext;
      assert name[i] == '.';
      assert name[i + 1..] == ext[1..];
      var d := LastDot(name);
      assert d.Some?;
    }
  }

  /** `shutil.rmtree(p)`: `p` and everything below it disappear, and `p` leaves its parent's listing. */
  function RemoveTree(t: Tree, p: Path): (t': Tree)
    ensures forall q :: q in t'.nodes <==> q in t.nodes && !(p <= q)
    ensures forall q :: q in t'.nodes ==> t'.nodes[q] == t.nodes[q]
  {
    var dir := Parent(p);
    Tree(map q | q in t.nodes && !(p <= q) :: t.nodes[q],
         map q | q in t.listing && !(p <= q) :: if q == dir then Without(t.listing[q], Name(p)) else t.listing[q])
  }

  function Without(names: seq<string>, name: string): (r: seq<string>)
    ensures forall n :: n in r <==> n in names && n != name
  {
    if names == [] then []
    else (if names[0] == name then [] else [names[0]]) + Without(names[1..], name)
  }

  /** Removing one entry of a directory leaves its siblings as they were. */
  lemma RemoveSibling(t: Tree, dir: Path, a: string, b: string)
    requires a != b
    ensures var q := Child(dir, b);
      (q in RemoveTree(t, Child(dir, a)).nodes <==> q in t.nodes)
      && (q in t.nodes ==> RemoveTree(t, Child(dir, a)).nodes[q] == t.nodes[q])
  {
    var p := Child(dir, a);
    var q := Child(dir, b);
    assert p[|dir|] == a && q[|dir|] == b;
    assert !(p <= q);
  }
}
