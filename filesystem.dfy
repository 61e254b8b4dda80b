/**
 * The file system the data-preparation scripts act on: a map from file paths
 * to contents and a set of directory paths. A path is its list of components.
 */
module FileSystem {
  type Path = seq<string>

  /** A path that names an entry, not the root. */
  type EntryPath = p: Path | p != [] witness ["_"]

  /** File contents, compared only for identity. */
  type Blob = nat

  datatype Disk = Disk(files: map<Path, Blob>, dirs: set<Path>)

  /** `path.exists()` */
  predicate Exists(d: Disk, p: Path) {
    p in d.files || p in d.dirs
  }

  /** `q` lies strictly below `dir`. */
  predicate Below(q: Path, dir: Path) {
    |dir| < |q| && q[..|dir|] == dir
  }

  /** The names of the entries directly inside `dir`. */
  function NamesIn(d: Disk, dir: Path): (names: set<string>)
    ensures forall n :: n in names <==> Exists(d, dir + [n])
  {
    var names := set p | p in d.files.Keys + d.dirs && |p| == |dir| + 1 && p[..|dir|] == dir :: p[|dir|];
    assert forall n :: Exists(d, dir + [n]) ==> n in names by {
      forall n | Exists(d, dir + [n]) ensures n in names {
        var p := dir + [n];
        assert p[..|dir|] == dir && p[|dir|] == n;
      }
    }
    assert forall n :: n in names ==> Exists(d, dir + [n]) by {
      forall n | n in names ensures Exists(d, dir + [n]) {
        var p :| p in d.files.Keys + d.dirs && |p| == |dir| + 1 && p[..|dir|] == dir && p[|dir|] == n;
        assert p == dir + [n];
      }
    }
    names
  }

  /** `mkdir` of a directory that may already exist. */
  function MakeDir(d: Disk, p: Path): (r: Disk)
    ensures r.files == d.files && r.dirs == d.dirs + {p}
  {
    Disk(d.files, d.dirs + {p})
  }

  /** `shutil.copy2(src, dst)` to a path that is not a directory; `fails` stands for an I/O error. */
  function Copy(d: Disk, src: Path, dst: Path, fails: bool): (r: Disk)
    ensures src in d.files && !fails ==> r == Disk(d.files[dst := d.files[src]], d.dirs)
    ensures src !in d.files || fails ==> r == d
  {
    if src in d.files && !fails then Disk(d.files[dst := d.files[src]], d.dirs) else d
  }

  /**
   * `shutil.move(src, dst)` for a file: into `dst` when that is a directory
   * (refused when the name is taken there), otherwise renamed onto `dst`,
   * replacing a file already there.
   */
  function Move(d: Disk, src: Path, dst: Path, fails: bool): (r: (Disk, bool))
    requires src != []
    ensures !r.1 ==> r.0 == d
    ensures r.1 <==> src in d.files && !fails && (dst in d.dirs ==> !Exists(d, dst + [src[|src| - 1]]))
    ensures r.1 && dst !in d.dirs ==> r.0 == Disk((d.files - {src})[dst := d.files[src]], d.dirs)
    ensures r.1 && dst in d.dirs ==>
      r.0 == Disk((d.files - {src})[dst + [src[|src| - 1]] := d.files[src]], d.dirs)
  {
    if src !in d.files || fails then (d, false)
    else if dst in d.dirs then
      var inner := dst + [src[|src| - 1]];
      if Exists(d, inner) then (d, false)
      else (Disk((d.files - {src})[inner := d.files[src]], d.dirs), true)
    else (Disk((d.files - {src})[dst := d.files[src]], d.dirs), true)
  }

  /** `path.unlink()`: only files can be unlinked. */
  function Unlink(d: Disk, p: Path, fails: bool): (r: (Disk, bool))
    ensures r.1 <==> p in d.files && !fails
    ensures r.1 ==> r.0 == Disk(d.files - {p}, d.dirs)
    ensures !r.1 ==> r.0 == d
  {
    if p in d.files && !fails then (Disk(d.files - {p}, d.dirs), true) else (d, false)
  }

  /** `p.rmdir()` falling back to `shutil.rmtree(p)`: `p` and everything below it are gone. */
  function RemoveTree(d: Disk, p: Path): (r: Disk)
    ensures forall q | q in r.files :: q in d.files && r.files[q] == d.files[q] && q != p && !Below(q, p)
    ensures forall q | q in d.files && q != p && !Below(q, p) :: q in r.files
    ensures forall q :: q in r.dirs <==> q in d.dirs && q != p && !Below(q, p)
  {
    Disk(map q | q in d.files && q != p && !Below(q, p) :: d.files[q],
         set q | q in d.dirs && q != p && !Below(q, p))
  }

  /** The mutable file system the scripts are run against. */
  class Volume {
    var disk: Disk

    constructor (d: Disk)
      ensures disk == d
    {
      disk := d;
    }

    predicate PathExists(p: Path)
      reads this
    {
      Exists(disk, p)
    }

    method MkDir(p: Path)
      modifies this
      ensures disk == MakeDir(old(disk), p)
    {
      disk := MakeDir(disk, p);
    }

    method Copy2(src: Path, dst: Path, fails: bool)
      modifies this
      ensures disk == Copy(old(disk), src, dst, fails)
    {
      disk := Copy(disk, src, dst, fails);
    }

    method MoveFile(src: Path, dst: Path, fails: bool) returns (ok: bool)
      requires src != []
      modifies this
      ensures (disk, ok) == Move(old(disk), src, dst, fails)
    {
      var r := Move(disk, src, dst, fails);
      disk := r.0;
      ok := r.1;
    }

    method UnlinkFile(p: Path, fails: bool) returns (ok: bool)
      modifies this
      ensures (disk, ok) == Unlink(old(disk), p, fails)
    {
      var r := Unlink(disk, p, fails);
      disk := r.0;
      ok := r.1;
    }

    method RmTree(p: Path)
      modifies this
      ensures disk == RemoveTree(old(disk), p)
    {
      disk := RemoveTree(disk, p);
    }
  }
}
