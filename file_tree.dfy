/**
 * The part of `java.nio.file.Files` the storage services use, over an abstract file tree.
 * A path is its sequence of names; the empty path is the file-system root, which always
 * exists as a directory and is never an entry of the tree.
 */
module FileTree {
  import opened Wrappers
  import opened PictureModel

  type Path = seq<string>

  datatype Node = Dir | File(content: seq<byte>)

  type Tree = map<Path, Node>

  /** `Path.resolve(name)`. */
  function Resolve(p: Path, name: string): (r: Path)
    ensures |r| == |p| + 1 && r[..|p|] == p && r[|p|] == name
  {
    p + [name]
  }

  /** `Files.exists`. */
  predicate Present(t: Tree, p: Path)
  {
    p == [] || p in t
  }

  /** `Files.isDirectory`. */
  predicate IsDirectory(t: Tree, p: Path)
  {
    p == [] || (p in t && t[p].Dir?)
  }

  /** Every entry hangs below the root or below a directory entry. */
  ghost predicate WellFormed(t: Tree)
  {
    && [] !in t
    && forall p :: p in t && |p| > 1 ==> p[..|p| - 1] in t && t[p[..|p| - 1]].Dir?
  }

  /** Some entry of the tree sits directly below `p`. */
  predicate HasChildren(t: Tree, p: Path)
  {
    exists q :: q in t && |q| == |p| + 1 && q[..|p|] == p
  }

  /** The tree after an operation: the new one on success, the old one on failure. */
  function After(t: Tree, r: Result<Tree, IoError>): Tree
  {
    match r
    case Success(t') => t'
    case Failure(_) => t
  }

  /** The `IOException` an operation raised, if any. */
  function Status(r: Result<Tree, IoError>): Outcome<IoError>
  {
    match r
    case Success(_) => Pass
    case Failure(e) => Fail(e)
  }

  /**
   * `Files.createDirectories`: walks the prefixes of `p` from the root, creating each missing
   * one, and fails when a prefix exists as a regular file.
   */
  function CreateDirectoriesIn(t: Tree, p: Path): (r: Result<Tree, IoError>)
    ensures r.Success? ==> IsDirectory(r.value, p)
    ensures r.Success? ==> forall q :: q in t ==> q in r.value && r.value[q] == t[q]
  {
    CreateFrom(t, p, 0)
  }

  function CreateFrom(t: Tree, p: Path, i: nat): (r: Result<Tree, IoError>)
    requires i <= |p|
    requires i == 0 || (p[..i] in t && t[p[..i]].Dir?)
    ensures r.Success? ==> IsDirectory(r.value, p)
    ensures r.Success? ==> forall q :: q in t ==> q in r.value && r.value[q] == t[q]
    decreases |p| - i
  {
    if i == |p| then
      assert p[..i] == p;
      Success(t)
    else
      var q := p[..i + 1];
      if q in t then
        if t[q].Dir? then CreateFrom(t, p, i + 1) else Failure(NotDirectory(q))
      else
        CreateFrom(t[q := Dir], p, i + 1)
  }

  /**
   * The `if (!Files.exists(dir)) Files.createDirectories(dir)` step both file-based services take:
   * any existing entry, even a regular file, is left as it is.
   */
  function EnsureDirectory(t: Tree, dir: Path): Result<Tree, IoError>
  {
    if Present(t, dir) then Success(t) else CreateDirectoriesIn(t, dir)
  }

  /**
   * `Files.write` with the default options: creates or truncates the file at `p`. The parent
   * must exist as a directory and `p` must not be a directory.
   */
  function WriteIn(t: Tree, p: Path, content: seq<byte>): (r: Result<Tree, IoError>)
    requires |p| > 0
    ensures r.Success? <==> IsDirectory(t, p[..|p| - 1]) && !(p in t && t[p].Dir?)
    ensures r.Success? ==> r.value == t[p := File(content)]
  {
    var parent := p[..|p| - 1];
    if !Present(t, parent) then Failure(NoSuchFile(p))
    else if !IsDirectory(t, parent) then Failure(NotDirectory(parent))
    else if p in t && t[p].Dir? then Failure(IsADirectory(p))
    else Success(t[p := File(content)])
  }

  /** `Files.delete`: removes a file or an empty directory; a missing path fails. */
  function DeleteIn(t: Tree, p: Path): (r: Result<Tree, IoError>)
    ensures r.Success? <==> p in t && !(t[p].Dir? && HasChildren(t, p))
    ensures r.Success? ==> r.value == t - {p}
  {
    if p !in t then Failure(NoSuchFile(p))
    else if t[p].Dir? && HasChildren(t, p) then Failure(DirectoryNotEmpty(p))
    else Success(t - {p})
  }

  /** `Files.readAllBytes`, as a reader of a `PathResource` would see it. */
  function ReadIn(t: Tree, p: Path): (r: Option<seq<byte>>)
    ensures r.Some? <==> p in t && t[p].File?
  {
    if p in t && t[p].File? then Some(t[p].content) else None
  }

  /** In a well-formed tree every proper prefix of a directory is a directory too. */
  lemma {:induction false} AncestorsAreDirectories(t: Tree, d: Path, i: nat)
    requires WellFormed(t) && IsDirectory(t, d)
    requires 0 < i <= |d|
    ensures d[..i] in t && t[d[..i]].Dir?
    decreases |d| - i
  {
    if i < |d| {
      AncestorsAreDirectories(t, d, i + 1);
      assert d[..i + 1][..i] == d[..i];
    } else {
      assert d[..i] == d;
    }
  }

  /** Creating one missing directory below an existing directory adds exactly that directory. */
  lemma CreateBelowDirectory(t: Tree, d: Path, name: string)
    requires WellFormed(t) && IsDirectory(t, d) && Resolve(d, name) !in t
    ensures CreateDirectoriesIn(t, Resolve(d, name)) == Success(t[Resolve(d, name) := Dir])
  {
    var p := Resolve(d, name);
    CreateBelowFrom(t, d, name, 0);
  }

  lemma {:induction false} CreateBelowFrom(t: Tree, d: Path, name: string, i: nat)
    requires WellFormed(t) && IsDirectory(t, d) && Resolve(d, name) !in t
    requires i <= |d|
    requires i == 0 || (d[..i] in t && t[d[..i]].Dir?)
    ensures Resolve(d, name)[..i] == d[..i]
    ensures CreateFrom(t, Resolve(d, name), i) == Success(t[Resolve(d, name) := Dir])
    decreases |d| - i
  {
    var p := Resolve(d, name);
    assert p[..i] == d[..i];
    if i < |d| {
      AncestorsAreDirectories(t, d, i + 1);
      assert p[..i + 1] == d[..i + 1];
      CreateBelowFrom(t, d, name, i + 1);
    } else {
      assert p[..i + 1] == p;
    }
  }

  /** `Files.createDirectories` keeps the tree well formed. */
  lemma CreateDirectoriesKeepsWellFormed(t: Tree, p: Path)
    requires WellFormed(t) && CreateDirectoriesIn(t, p).Success?
    ensures WellFormed(CreateDirectoriesIn(t, p).value)
  {
    CreateFromKeepsWellFormed(t, p, 0);
  }

  lemma {:induction false} CreateFromKeepsWellFormed(t: Tree, p: Path, i: nat)
    requires i <= |p|
    requires i == 0 || (p[..i] in t && t[p[..i]].Dir?)
    requires WellFormed(t) && CreateFrom(t, p, i).Success?
    ensures WellFormed(CreateFrom(t, p, i).value)
    decreases |p| - i
  {
    if i < |p| {
      var q := p[..i + 1];
      assert q[..|q| - 1] == p[..i];
      if q !in t {
        var t' := t[q := Dir];
        assert WellFormed(t') by {
          forall r | r in t' && |r| > 1
            ensures r[..|r| - 1] in t' && t'[r[..|r| - 1]].Dir?
          {
            if r == q {
              assert r[..|r| - 1] == p[..i] && p[..i] in t;
            } else {
              assert r in t;
            }
          }
        }
        CreateFromKeepsWellFormed(t', p, i + 1);
      } else {
        CreateFromKeepsWellFormed(t, p, i + 1);
      }
    }
  }

  /** `Files.write` keeps the tree well formed. */
  lemma WriteKeepsWellFormed(t: Tree, p: Path, content: seq<byte>)
    requires |p| > 0 && WellFormed(t) && WriteIn(t, p, content).Success?
    ensures WellFormed(WriteIn(t, p, content).value)
  {
    var t' := t[p := File(content)];
    forall r | r in t' && |r| > 1
      ensures r[..|r| - 1] in t' && t'[r[..|r| - 1]].Dir?
    {
      if r != p {
        assert r in t;
        if r[..|r| - 1] == p {
          assert false;
        }
      }
    }
  }

  /** `Files.delete` keeps the tree well formed. */
  lemma DeleteKeepsWellFormed(t: Tree, p: Path)
    requires WellFormed(t) && DeleteIn(t, p).Success?
    ensures WellFormed(DeleteIn(t, p).value)
  {
    var t' := t - {p};
    forall r | r in t' && |r| > 1
      ensures r[..|r| - 1] in t' && t'[r[..|r| - 1]].Dir?
    {
      assert r in t;
    }
  }

  /** The file system, whose tree the storage services read and change. */
  class FileSystem {
    var tree: Tree

    constructor (initial: Tree)
      ensures tree == initial
    {
      tree := initial;
    }

    /** `Files.exists`. */
    method Exists(p: Path) returns (b: bool)
      ensures b == Present(tree, p)
    {
      b := Present(tree, p);
    }

    /** `Files.createDirectories`. */
    method CreateDirectories(p: Path) returns (r: Outcome<IoError>)
      modifies this
      ensures r == Status(CreateDirectoriesIn(old(tree), p))
      ensures tree == After(old(tree), CreateDirectoriesIn(old(tree), p))
    {
      r := Status(CreateDirectoriesIn(tree, p));
      tree := After(tree, CreateDirectoriesIn(tree, p));
    }

    /** `Files.write`. */
    method Write(p: Path, content: seq<byte>) returns (r: Outcome<IoError>)
      requires |p| > 0
      modifies this
      ensures r == Status(WriteIn(old(tree), p, content))
      ensures tree == After(old(tree), WriteIn(old(tree), p, content))
    {
      r := Status(WriteIn(tree, p, content));
      tree := After(tree, WriteIn(tree, p, content));
    }

    /** `Files.delete`. */
    method Delete(p: Path) returns (r: Outcome<IoError>)
      modifies this
      ensures r == Status(DeleteIn(old(tree), p))
      ensures tree == After(old(tree), DeleteIn(old(tree), p))
    {
      r := Status(DeleteIn(tree, p));
      tree := After(tree, DeleteIn(tree, p));
    }
  }
}
