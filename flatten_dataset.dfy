/**
 * The class-folder cleaner that flattens sub-folders of the raw dataset
 * (backend/ml/organize_dataset.py).
 */
module FlattenDataset {
  import Text
  import opened FileSystem

  /** `IMG_EXTS` */
  const ImageExts: set<string> := {".jpg", ".jpeg", ".png", ".gif"}

  /** `file.suffix.lower() in IMG_EXTS` */
  predicate IsImage(name: string) {
    Text.Lower(Text.Suffix(name)) in ImageExts
  }

  /** The glob `*.*`: names holding a dot. */
  predicate GlobMatch(name: string) {
    '.' in name
  }

  /** `f"{class_dir.name.replace(' ', '_')}_{image_counter:04d}{file.suffix.lower()}"` */
  function ImageName(className: string, counter: nat, name: string): string {
    Text.Replace(className, " ", "_") + "_" + Text.ZeroPadded(counter, 4) + Text.Lower(Text.Suffix(name))
  }

  /** The disk and the image counter while one class folder is cleaned. */
  datatype Progress = Progress(disk: Disk, counter: nat)

  /** One file of a sub-folder: images move to the class root, everything else is unlinked. */
  function FileStep(st: Progress, classDir: EntryPath, file: EntryPath,
                    moveFails: Path -> bool, unlinkFails: Path -> bool): (r: Progress)
    ensures r.counter == st.counter || r.counter == st.counter + 1
    ensures r.disk.dirs == st.disk.dirs
    ensures !GlobMatch(file[|file| - 1]) ==> r == st
    ensures var name := file[|file| - 1];
      var dst := classDir + [ImageName(classDir[|classDir| - 1], st.counter, name)];
      GlobMatch(name) && IsImage(name) ==>
        && (r.counter == st.counter + 1 <==>
              file in st.disk.files && !moveFails(file) && (dst in st.disk.dirs ==> !Exists(st.disk, dst + [name])))
        && (r.counter == st.counter ==> r == st)
        && (r.counter == st.counter + 1 && dst !in st.disk.dirs && dst != file ==>
              dst in r.disk.files && r.disk.files[dst] == st.disk.files[file] && file !in r.disk.files)
    ensures var name := file[|file| - 1];
      GlobMatch(name) && !IsImage(name) ==>
        && r.counter == st.counter
        && (file in r.disk.files <==> file in st.disk.files && unlinkFails(file))
        && (forall q | q in r.disk.files :: q in st.disk.files && r.disk.files[q] == st.disk.files[q])
  {
    var name := file[|file| - 1];
    if !GlobMatch(name) then st
    else if IsImage(name) then
      var dst := classDir + [ImageName(classDir[|classDir| - 1], st.counter, name)];
      var m := Move(st.disk, file, dst, moveFails(file));
      Progress(m.0, if m.1 then st.counter + 1 else st.counter)
    else Progress(Unlink(st.disk, file, unlinkFails(file)).0, st.counter)
  }

  // Specification functions: each pass as the progress or disk it leaves.
  // The methods below are proved equal to them, and the lemmas further down
  // (SubsFlatten, CleanedMeaning, CleanedKeepsImages) state what they mean.

  /** Specification of one sub-folder's pass: `FileStep` over its matches, in order. */
  function Files(st: Progress, classDir: EntryPath, files: seq<EntryPath>,
                 moveFails: Path -> bool, unlinkFails: Path -> bool): (r: Progress)
    ensures r.counter >= st.counter
    ensures r.disk.dirs == st.disk.dirs
  {
    if files == [] then st
    else FileStep(Files(st, classDir, files[..|files| - 1], moveFails, unlinkFails),
                  classDir, files[|files| - 1], moveFails, unlinkFails)
  }

  /** Specification of one entry of the class folder's listing: a sub-folder is emptied, then removed. */
  function SubStep(st: Progress, classDir: EntryPath, sub: Path, rglob: Path -> seq<EntryPath>,
                   moveFails: Path -> bool, unlinkFails: Path -> bool): Progress {
    if sub !in st.disk.dirs then st
    else
      var done := Files(st, classDir, rglob(sub), moveFails, unlinkFails);
      Progress(RemoveTree(done.disk, sub), done.counter)
  }

  /** Specification of the sub-folder pass: `SubStep` over the listing, in order. */
  function Subs(st: Progress, classDir: EntryPath, entries: seq<Path>, rglob: Path -> seq<EntryPath>,
                moveFails: Path -> bool, unlinkFails: Path -> bool): Progress {
    if entries == [] then st
    else SubStep(Subs(st, classDir, entries[..|entries| - 1], rglob, moveFails, unlinkFails),
                 classDir, entries[|entries| - 1], rglob, moveFails, unlinkFails)
  }

  /** Specification helper: the non-image files directly in the class folder. */
  function Strays(d: Disk, classDir: Path): set<Path> {
    set p | p in d.files && |p| == |classDir| + 1 && p[..|classDir|] == classDir && !IsImage(p[|classDir|])
  }

  /** Specification helper: the disk after unlinking the files of `gone` whose unlink does not fail. */
  function Unlinked(d: Disk, gone: set<Path>, unlinkFails: Path -> bool): Disk {
    Disk(map p | p in d.files && !(p in gone && !unlinkFails(p)) :: d.files[p], d.dirs)
  }

  /** The stray-file pass: every non-image file at the class root is removed unless its unlink fails. */
  function StraysRemoved(d: Disk, classDir: Path, unlinkFails: Path -> bool): (r: Disk)
    ensures r.dirs == d.dirs
    ensures forall p | p in r.files :: p in d.files && r.files[p] == d.files[p]
    ensures forall p | p in d.files && p !in Strays(d, classDir) :: p in r.files
    ensures forall p | p in Strays(d, classDir) :: p in r.files <==> unlinkFails(p)
  {
    Unlinked(d, Strays(d, classDir), unlinkFails)
  }

  /**
   * Specification of `clean_class_folder(class_dir)`: `entries` is the
   * folder's listing, taken once at the start.
   */
  function Cleaned(d: Disk, classDir: EntryPath, entries: seq<Path>, rglob: Path -> seq<EntryPath>,
                   moveFails: Path -> bool, unlinkFails: Path -> bool): Disk {
    StraysRemoved(Subs(Progress(d, 0), classDir, entries, rglob, moveFails, unlinkFails).disk, classDir, unlinkFails)
  }

  /** Specification of `main()` over the class folders listed under the dataset root. */
  function DatasetCleaned(d: Disk, root: Path, classes: seq<EntryPath>, listing: Path -> seq<Path>,
                   rglob: Path -> seq<EntryPath>, moveFails: Path -> bool, unlinkFails: Path -> bool): Disk {
    if !Exists(d, root) then d
    else Classes(d, classes, listing, rglob, moveFails, unlinkFails)
  }

  /** Specification of the loop of `main()`: each listed class folder that is a folder is cleaned, in order. */
  function Classes(d: Disk, classes: seq<EntryPath>, listing: Path -> seq<Path>,
                   rglob: Path -> seq<EntryPath>, moveFails: Path -> bool, unlinkFails: Path -> bool): Disk {
    if classes == [] then d
    else
      var before := Classes(d, classes[..|classes| - 1], listing, rglob, moveFails, unlinkFails);
      var c := classes[|classes| - 1];
      if c in before.dirs then Cleaned(before, c, listing(c), rglob, moveFails, unlinkFails) else before
  }

  /** One match of a sub-folder: an image is moved to the class root, any other file unlinked. */
  method FlattenFile(v: Volume, classDir: EntryPath, file: EntryPath, counter0: nat,
                     moveFails: Path -> bool, unlinkFails: Path -> bool)
    returns (counter: nat)
    modifies v
    ensures Progress(v.disk, counter) == FileStep(Progress(old(v.disk), counter0), classDir, file, moveFails, unlinkFails)
  {
    counter := counter0;
    var name := file[|file| - 1];
    if GlobMatch(name) {
      if IsImage(name) {
        var newName := classDir + [ImageName(classDir[|classDir| - 1], counter, name)];
        var ok := v.MoveFile(file, newName, moveFails(file));
        if ok {
          counter := counter + 1;
        }
      } else {
        var _ := v.UnlinkFile(file, unlinkFails(file));
      }
    }
  }

  /** One entry of the class folder's listing. */
  method CleanEntry(v: Volume, classDir: EntryPath, sub: Path, counter0: nat, rglob: Path -> seq<EntryPath>,
                    moveFails: Path -> bool, unlinkFails: Path -> bool)
    returns (counter: nat)
    modifies v
    ensures Progress(v.disk, counter) == SubStep(Progress(old(v.disk), counter0), classDir, sub, rglob, moveFails, unlinkFails)
  {
    counter := counter0;
    if sub in v.disk.dirs {
      counter := FlattenSub(v, classDir, rglob(sub), counter, moveFails, unlinkFails);
      v.RmTree(sub);
    }
  }

  /** One class folder of the dataset root's listing. */
  method CleanClass(v: Volume, c: EntryPath, listing: Path -> seq<Path>, rglob: Path -> seq<EntryPath>,
                    moveFails: Path -> bool, unlinkFails: Path -> bool)
    modifies v
    ensures v.disk == (if c in old(v.disk).dirs then Cleaned(old(v.disk), c, listing(c), rglob, moveFails, unlinkFails) else old(v.disk))
  {
    if c in v.disk.dirs {
      CleanClassFolder(v, c, listing(c), rglob, moveFails, unlinkFails);
    }
  }

  lemma ClassesStep(d: Disk, classes: seq<EntryPath>, i: nat, listing: Path -> seq<Path>,
                    rglob: Path -> seq<EntryPath>, moveFails: Path -> bool, unlinkFails: Path -> bool)
    requires i < |classes|
    ensures var before := Classes(d, classes[..i], listing, rglob, moveFails, unlinkFails);
      var c := classes[i];
      Classes(d, classes[..i + 1], listing, rglob, moveFails, unlinkFails) ==
        if c in before.dirs then Cleaned(before, c, listing(c), rglob, moveFails, unlinkFails) else before
  {
    assert classes[..i + 1][..i] == classes[..i];
  }

  /** The loop over one sub-folder's matches. */
  method FlattenSub(v: Volume, classDir: EntryPath, files: seq<EntryPath>, counter0: nat,
                    moveFails: Path -> bool, unlinkFails: Path -> bool)
    returns (counter: nat)
    modifies v
    ensures Progress(v.disk, counter) == Files(Progress(old(v.disk), counter0), classDir, files, moveFails, unlinkFails)
  {
    ghost var start := Progress(v.disk, counter0);
    counter := counter0;
    var i := 0;
    while i < |files|
      invariant 0 <= i <= |files|
      invariant Progress(v.disk, counter) == Files(start, classDir, files[..i], moveFails, unlinkFails)
    {
      assert files[..i + 1][..i] == files[..i];
      counter := FlattenFile(v, classDir, files[i], counter, moveFails, unlinkFails);
      i := i + 1;
    }
    assert files[..|files|] == files;
  }

  /** The loop over the stray files of the class root. */
  method RemoveStrays(v: Volume, classDir: Path, unlinkFails: Path -> bool)
    modifies v
    ensures v.disk == StraysRemoved(old(v.disk), classDir, unlinkFails)
  {
    ghost var start := v.disk;
    var todo := Strays(v.disk, classDir);
    while todo != {}
      invariant todo <= Strays(start, classDir)
      invariant v.disk == Unlinked(start, Strays(start, classDir) - todo, unlinkFails)
      decreases |todo|
    {
      var p :| p in todo;
      ghost var gone := Strays(start, classDir) - todo;
      UnlinkStray(v, start, gone, p, unlinkFails);
      RemainingShrinks(Strays(start, classDir), todo, p);
      todo := todo - {p};
    }
  }

  /** One stray file of the class root is unlinked. */
  method UnlinkStray(v: Volume, ghost start: Disk, ghost gone: set<Path>, p: Path, unlinkFails: Path -> bool)
    requires v.disk == Unlinked(start, gone, unlinkFails) && p in start.files && p !in gone
    modifies v
    ensures v.disk == Unlinked(start, gone + {p}, unlinkFails)
  {
    var _ := v.UnlinkFile(p, unlinkFails(p));
    UnlinkOne(start, gone, p, unlinkFails);
  }

  lemma RemainingShrinks(all: set<Path>, todo: set<Path>, p: Path)
    requires p in todo && todo <= all
    ensures all - (todo - {p}) == (all - todo) + {p}
  {
  }

  lemma UnlinkOne(d: Disk, gone: set<Path>, p: Path, unlinkFails: Path -> bool)
    requires p in d.files && p !in gone
    ensures Unlink(Unlinked(d, gone, unlinkFails), p, unlinkFails(p)).0 == Unlinked(d, gone + {p}, unlinkFails)
  {
  }

  /** `clean_class_folder(class_dir)` */
  method CleanClassFolder(v: Volume, classDir: EntryPath, entries: seq<Path>, rglob: Path -> seq<EntryPath>,
                          moveFails: Path -> bool, unlinkFails: Path -> bool)
    modifies v
    ensures v.disk == Cleaned(old(v.disk), classDir, entries, rglob, moveFails, unlinkFails)
  {
    ghost var start := Progress(v.disk, 0);
    var counter: nat := 0;
    var i := 0;
    while i < |entries|
      invariant 0 <= i <= |entries|
      invariant Progress(v.disk, counter) == Subs(start, classDir, entries[..i], rglob, moveFails, unlinkFails)
    {
      assert entries[..i + 1][..i] == entries[..i];
      counter := CleanEntry(v, classDir, entries[i], counter, rglob, moveFails, unlinkFails);
      i := i + 1;
    }
    assert entries[..|entries|] == entries;
    RemoveStrays(v, classDir, unlinkFails);
  }

  /** `main()`; `classes` is the root's listing and `listing` gives each class folder's. */
  method CleanDataset(v: Volume, root: Path, classes: seq<EntryPath>, listing: Path -> seq<Path>,
              rglob: Path -> seq<EntryPath>, moveFails: Path -> bool, unlinkFails: Path -> bool)
    modifies v
    ensures v.disk == DatasetCleaned(old(v.disk), root, classes, listing, rglob, moveFails, unlinkFails)
  {
    if !v.PathExists(root) {
      return;
    }
    ghost var start := v.disk;
    var i := 0;
    while i < |classes|
      invariant 0 <= i <= |classes|
      invariant v.disk == Classes(start, classes[..i], listing, rglob, moveFails, unlinkFails)
    {
      ClassesStep(start, classes, i, listing, rglob, moveFails, unlinkFails);
      CleanClass(v, classes[i], listing, rglob, moveFails, unlinkFails);
      i := i + 1;
    }
    assert classes[..|classes|] == classes;
  }

  // Properties of the cleaner.

  /** A run of digits followed by a non-digit is determined by where the non-digit starts. */
  lemma DigitsThenNonDigit(x: string, y: string, e1: string, e2: string)
    requires Text.AllDigits(x) && Text.AllDigits(y)
    requires e1 != [] && !Text.IsDigit(e1[0]) && e2 != [] && !Text.IsDigit(e2[0])
    requires x + e1 == y + e2
    ensures x == y
  {
    var k := if |x| < |y| then |x| else |y|;
    assert (x + e1)[k] == (y + e2)[k];
    assert |x| == |y|;
    assert x == (x + e1)[..|x|];
    assert y == (y + e2)[..|y|];
  }

  /** The extension an image keeps starts with its dot. */
  lemma ImageExtension(name: string)
    requires IsImage(name)
    ensures var e := Text.Lower(Text.Suffix(name)); e != [] && e[0] == '.'
  {
  }

  /**
   * Images moved with different counter values get different names, so no
   * two moves of one run of the cleaner land on the same path.
   */
  lemma ImageNameInjective(className: string, a: nat, b: nat, n1: string, n2: string)
    requires IsImage(n1) && IsImage(n2)
    requires ImageName(className, a, n1) == ImageName(className, b, n2)
    ensures a == b
  {
    var p := Text.Replace(className, " ", "_") + "_";
    var x, y := Text.ZeroPadded(a, 4), Text.ZeroPadded(b, 4);
    var e1, e2 := Text.Lower(Text.Suffix(n1)), Text.Lower(Text.Suffix(n2));
    ImageExtension(n1);
    ImageExtension(n2);
    NameParts(p, x, e1);
    NameParts(p, y, e2);
    DigitsThenNonDigit(x, y, e1, e2);
    Text.ZeroPaddedInjective(a, b, 4);
  }

  lemma NameParts(p: string, x: string, e: string)
    ensures (p + x + e)[|p|..] == x + e
  {
  }

  /** `e` is an entry directly inside `dir`, as a directory listing yields. */
  predicate ChildOf(e: Path, dir: Path) {
    |e| == |dir| + 1 && e[..|dir|] == dir
  }

  /** No directory at or below `e` and no file below it. */
  predicate Flattened(d: Disk, e: Path) {
    e !in d.dirs && (forall q | q in d.dirs :: !Below(q, e)) && (forall q | q in d.files :: !Below(q, e))
  }

  /** Moves land at the class root or inside an existing directory, so a flattened sub-folder stays flat. */
  lemma FileStepKeepsFlat(st: Progress, classDir: EntryPath, file: EntryPath,
                          moveFails: Path -> bool, unlinkFails: Path -> bool, e: Path)
    requires ChildOf(e, classDir) && Flattened(st.disk, e)
    ensures Flattened(FileStep(st, classDir, file, moveFails, unlinkFails).disk, e)
  {
    var d := st.disk;
    var name := file[|file| - 1];
    var r := FileStep(st, classDir, file, moveFails, unlinkFails).disk;
    if GlobMatch(name) && IsImage(name) {
      var dst := classDir + [ImageName(classDir[|classDir| - 1], st.counter, name)];
      var inner := dst + [name];
      var m := Move(d, file, dst, moveFails(file));
      if m.1 {
        var t := if dst in d.dirs then inner else dst;
        assert !Below(dst, e);
        assert inner[..|e|] == dst;
        assert !Below(t, e);
        assert r.files.Keys <= d.files.Keys + {t};
        AddedFileKeepsFlat(d, r, e, t);
      }
    } else if GlobMatch(name) {
      AddedFileKeepsFlat(d, r, e, file);
    }
  }

  lemma AddedFileKeepsFlat(d: Disk, r: Disk, e: Path, t: Path)
    requires Flattened(d, e) && r.dirs == d.dirs && r.files.Keys <= d.files.Keys + {t}
    requires t in r.files ==> t in d.files || !Below(t, e)
    ensures Flattened(r, e)
  {
  }

  lemma {:induction false} FilesKeepFlat(st: Progress, classDir: EntryPath, files: seq<EntryPath>,
                                         moveFails: Path -> bool, unlinkFails: Path -> bool, e: Path)
    requires ChildOf(e, classDir) && Flattened(st.disk, e)
    ensures Flattened(Files(st, classDir, files, moveFails, unlinkFails).disk, e)
    decreases |files|
  {
    if files != [] {
      FilesKeepFlat(st, classDir, files[..|files| - 1], moveFails, unlinkFails, e);
      FileStepKeepsFlat(Files(st, classDir, files[..|files| - 1], moveFails, unlinkFails),
                        classDir, files[|files| - 1], moveFails, unlinkFails, e);
    }
  }

  /**
   * After the sub-folder pass, every listed entry that was a directory is gone
   * together with everything below it, no directory is created, and the only
   * directories removed directly inside the class folder are listed entries.
   */
  lemma {:induction false} SubsFlatten(st: Progress, classDir: EntryPath, entries: seq<Path>,
                                       rglob: Path -> seq<EntryPath>, moveFails: Path -> bool, unlinkFails: Path -> bool)
    requires forall e | e in entries :: ChildOf(e, classDir)
    ensures Subs(st, classDir, entries, rglob, moveFails, unlinkFails).disk.dirs <= st.disk.dirs
    ensures forall q | q in st.disk.dirs && ChildOf(q, classDir) &&
                       q !in Subs(st, classDir, entries, rglob, moveFails, unlinkFails).disk.dirs :: q in entries
    ensures forall e | e in entries && e in st.disk.dirs ::
                       Flattened(Subs(st, classDir, entries, rglob, moveFails, unlinkFails).disk, e)
    decreases |entries|
  {
    if entries != [] {
      var front := entries[..|entries| - 1];
      var sub := entries[|entries| - 1];
      assert forall e | e in front :: e in entries;
      SubsFlatten(st, classDir, front, rglob, moveFails, unlinkFails);
      var prev := Subs(st, classDir, front, rglob, moveFails, unlinkFails);
      var r := Subs(st, classDir, entries, rglob, moveFails, unlinkFails);
      assert entries == front + [sub];
      if sub in prev.disk.dirs {
        var done := Files(prev, classDir, rglob(sub), moveFails, unlinkFails);
        forall e | e in front && e in st.disk.dirs
          ensures Flattened(done.disk, e)
        {
          FilesKeepFlat(prev, classDir, rglob(sub), moveFails, unlinkFails, e);
        }
        assert r.disk == RemoveTree(done.disk, sub);
        forall q | q in st.disk.dirs && ChildOf(q, classDir) && q !in r.disk.dirs
          ensures q in entries
        {
          assert ChildOf(sub, classDir);
          assert !Below(q, sub);
        }
      } else {
        assert r == prev;
        forall e | e in entries && e in st.disk.dirs
          ensures Flattened(r.disk, e)
        {
          if e == sub {
            assert e in front;
          }
        }
      }
    }
  }

  /**
   * `clean_class_folder`: every sub-folder it listed is gone with all it held,
   * no directory is created, and no non-image file is left directly in the
   * class folder except one whose unlink failed.
   */
  lemma CleanedMeaning(d: Disk, classDir: EntryPath, entries: seq<Path>, rglob: Path -> seq<EntryPath>,
                       moveFails: Path -> bool, unlinkFails: Path -> bool)
    requires forall e | e in entries :: ChildOf(e, classDir)
    ensures var r := Cleaned(d, classDir, entries, rglob, moveFails, unlinkFails);
      && r.dirs <= d.dirs
      && (forall e | e in entries && e in d.dirs :: Flattened(r, e))
      && (forall p | p in r.files && ChildOf(p, classDir) :: IsImage(p[|classDir|]) || unlinkFails(p))
  {
    SubsFlatten(Progress(d, 0), classDir, entries, rglob, moveFails, unlinkFails);
    var s := Subs(Progress(d, 0), classDir, entries, rglob, moveFails, unlinkFails).disk;
    var r := Cleaned(d, classDir, entries, rglob, moveFails, unlinkFails);
    forall p | p in r.files && ChildOf(p, classDir) && !IsImage(p[|classDir|])
      ensures unlinkFails(p)
    {
      assert p in Strays(s, classDir);
    }
  }

  /**
   * Names are not checked against files already at the class root: a moved
   * image replaces a root file that carries the generated name.
   */
  lemma RootFileWithGeneratedNameIsReplaced(st: Progress, classDir: EntryPath, file: EntryPath,
                                            moveFails: Path -> bool, unlinkFails: Path -> bool)
    requires GlobMatch(file[|file| - 1]) && IsImage(file[|file| - 1])
    requires file in st.disk.files && !moveFails(file)
    requires var dst := classDir + [ImageName(classDir[|classDir| - 1], st.counter, file[|file| - 1])];
      dst in st.disk.files && dst !in st.disk.dirs && dst != file
    ensures var dst := classDir + [ImageName(classDir[|classDir| - 1], st.counter, file[|file| - 1])];
      var r := FileStep(st, classDir, file, moveFails, unlinkFails);
      && r.counter == st.counter + 1
      && dst in r.disk.files && r.disk.files[dst] == st.disk.files[file]
      && file !in r.disk.files
  {
  }

  /** A generated name keeps the image extension it was built from. */
  lemma GeneratedNameIsImage(className: string, counter: nat, name: string)
    requires IsImage(name)
    ensures IsImage(ImageName(className, counter, name))
  {
    var e := Text.Lower(Text.Suffix(name));
    var p := Text.Replace(className, " ", "_") + "_" + Text.ZeroPadded(counter, 4);
    assert e == ".jpg" || e == ".jpeg" || e == ".png" || e == ".gif";
    Text.SuffixOfExtension(p, e);
    Text.LowerIdempotent(Text.Suffix(name));
  }

  // The images the cleaner places at the class root. The functions and
  // predicates here are specification helpers for CleanedKeepsImages.

  /** An image moved onto its generated name: where it went, the counter value, its original name, its contents. */
  datatype Placement = Placement(path: Path, index: nat, name: string, contents: Blob)

  /** The class-root path generated for a placement's counter value and name. */
  function PlacedAt(classDir: EntryPath, e: Placement): Path {
    classDir + [ImageName(classDir[|classDir| - 1], e.index, e.name)]
  }

  /** The image one step renames onto its generated name, when the move succeeds and that name is no folder. */
  function StepPlaced(st: Progress, classDir: EntryPath, file: EntryPath,
                      moveFails: Path -> bool, unlinkFails: Path -> bool): seq<Placement> {
    var name := file[|file| - 1];
    var dst := classDir + [ImageName(classDir[|classDir| - 1], st.counter, name)];
    if GlobMatch(name) && IsImage(name) && file in st.disk.files && dst !in st.disk.dirs
       && FileStep(st, classDir, file, moveFails, unlinkFails).counter == st.counter + 1
    then [Placement(dst, st.counter, name, st.disk.files[file])]
    else []
  }

  /** The placements of one sub-folder's matches, in processing order. */
  function FilesPlaced(st: Progress, classDir: EntryPath, files: seq<EntryPath>,
                       moveFails: Path -> bool, unlinkFails: Path -> bool): seq<Placement> {
    if files == [] then []
    else
      var front := files[..|files| - 1];
      FilesPlaced(st, classDir, front, moveFails, unlinkFails)
        + StepPlaced(Files(st, classDir, front, moveFails, unlinkFails), classDir, files[|files| - 1], moveFails, unlinkFails)
  }

  /** The placements of one listed entry: none unless it is a folder. */
  function SubPlaced(st: Progress, classDir: EntryPath, sub: Path, rglob: Path -> seq<EntryPath>,
                     moveFails: Path -> bool, unlinkFails: Path -> bool): seq<Placement> {
    if sub !in st.disk.dirs then [] else FilesPlaced(st, classDir, rglob(sub), moveFails, unlinkFails)
  }

  /** The placements of the whole sub-folder pass, in processing order. */
  function SubsPlaced(st: Progress, classDir: EntryPath, entries: seq<Path>, rglob: Path -> seq<EntryPath>,
                      moveFails: Path -> bool, unlinkFails: Path -> bool): seq<Placement> {
    if entries == [] then []
    else
      var front := entries[..|entries| - 1];
      SubsPlaced(st, classDir, front, rglob, moveFails, unlinkFails)
        + SubPlaced(Subs(st, classDir, front, rglob, moveFails, unlinkFails), classDir, entries[|entries| - 1],
                    rglob, moveFails, unlinkFails)
  }

  /** A placement is still a file, at its path, with its contents. */
  predicate Holds(d: Disk, e: Placement) {
    e.path in d.files && e.path !in d.dirs && d.files[e.path] == e.contents
  }

  /**
   * Every placement holds and sits directly in the class folder under the
   * name generated for it; counters were used in increasing order below `counter`.
   */
  predicate Intact(d: Disk, counter: nat, classDir: EntryPath, placed: seq<Placement>) {
    && (forall i | 0 <= i < |placed| ::
          placed[i].index < counter && |placed[i].path| == |classDir| + 1 && Holds(d, placed[i]))
    && (forall i {:trigger PlacedAt(classDir, placed[i])} | 0 <= i < |placed| ::
          placed[i].path == PlacedAt(classDir, placed[i]) && IsImage(placed[i].name))
    && (forall i, j | 0 <= i < j < |placed| :: placed[i].index < placed[j].index)
  }

  /** Appending a placement that holds, made with the current counter, keeps the record intact. */
  lemma IntactSnoc(d: Disk, counter: nat, classDir: EntryPath, placed: seq<Placement>, e: Placement)
    requires Intact(d, counter, classDir, placed)
    requires e.index == counter && Holds(d, e) && e.path == PlacedAt(classDir, e) && IsImage(e.name)
    ensures Intact(d, counter + 1, classDir, placed + [e])
  {
    var all := placed + [e];
    assert forall i | 0 <= i < |placed| :: all[i] == placed[i];
    assert all[|placed|] == e;
  }

  /** A disk that keeps every placed file as it was keeps the record intact. */
  lemma IntactFrame(d: Disk, r: Disk, counter: nat, counter': nat, classDir: EntryPath, placed: seq<Placement>)
    requires Intact(d, counter, classDir, placed) && counter <= counter' && r.dirs <= d.dirs
    requires forall i | 0 <= i < |placed| ::
      placed[i].path in r.files && r.files[placed[i].path] == d.files[placed[i].path]
    ensures Intact(r, counter', classDir, placed)
  {
    forall i | 0 <= i < |placed|
      ensures placed[i].index < counter' && |placed[i].path| == |classDir| + 1 && Holds(r, placed[i])
    {
      assert Holds(d, placed[i]);
    }
  }

  /** A step on a file deeper than the class root leaves earlier placements alone and records its own. */
  lemma StepKeepsPlaced(st: Progress, classDir: EntryPath, file: EntryPath,
                        moveFails: Path -> bool, unlinkFails: Path -> bool, placed: seq<Placement>)
    requires |file| > |classDir| + 1 && Intact(st.disk, st.counter, classDir, placed)
    ensures var r := FileStep(st, classDir, file, moveFails, unlinkFails);
      Intact(r.disk, r.counter, classDir, placed + StepPlaced(st, classDir, file, moveFails, unlinkFails))
  {
    var r := FileStep(st, classDir, file, moveFails, unlinkFails);
    StepFrame(st, classDir, file, moveFails, unlinkFails, placed);
    IntactFrame(st.disk, r.disk, st.counter, r.counter, classDir, placed);
    var added := StepPlaced(st, classDir, file, moveFails, unlinkFails);
    if added == [] {
      assert placed + added == placed;
    } else {
      var name := file[|file| - 1];
      var dst := classDir + [ImageName(classDir[|classDir| - 1], st.counter, name)];
      var e := Placement(dst, st.counter, name, st.disk.files[file]);
      assert added == [e];
      assert dst != file;
      assert dst in r.disk.files && r.disk.files[dst] == st.disk.files[file] && dst !in r.disk.dirs;
      assert Holds(r.disk, e);
      assert e.path == PlacedAt(classDir, e);
      IntactSnoc(r.disk, st.counter, classDir, placed, e);
    }
  }

  /** The step's source lies deeper than the class root and its target carries an unused counter. */
  lemma StepFrame(st: Progress, classDir: EntryPath, file: EntryPath,
                  moveFails: Path -> bool, unlinkFails: Path -> bool, placed: seq<Placement>)
    requires |file| > |classDir| + 1 && Intact(st.disk, st.counter, classDir, placed)
    ensures var r := FileStep(st, classDir, file, moveFails, unlinkFails).disk;
      forall i | 0 <= i < |placed| ::
        placed[i].path in r.files && r.files[placed[i].path] == st.disk.files[placed[i].path]
  {
    var d := st.disk;
    var r := FileStep(st, classDir, file, moveFails, unlinkFails);
    var name := file[|file| - 1];
    var cls := classDir[|classDir| - 1];
    var dst := classDir + [ImageName(cls, st.counter, name)];
    forall i | 0 <= i < |placed|
      ensures placed[i].path in r.disk.files && r.disk.files[placed[i].path] == d.files[placed[i].path]
    {
      var q := placed[i].path;
      assert q != file && q != dst + [name];
      if GlobMatch(name) && IsImage(name) && q == dst {
        assert q == PlacedAt(classDir, placed[i]);
        assert q[|classDir|] == dst[|classDir|];
        ImageNameInjective(cls, placed[i].index, st.counter, placed[i].name, name);
      }
    }
  }

  lemma {:induction false} FilesKeepPlaced(st: Progress, classDir: EntryPath, files: seq<EntryPath>,
                                           moveFails: Path -> bool, unlinkFails: Path -> bool, placed: seq<Placement>)
    requires forall f | f in files :: |f| > |classDir| + 1
    requires Intact(st.disk, st.counter, classDir, placed)
    ensures var r := Files(st, classDir, files, moveFails, unlinkFails);
      Intact(r.disk, r.counter, classDir, placed + FilesPlaced(st, classDir, files, moveFails, unlinkFails))
    decreases |files|
  {
    if files == [] {
      assert placed + [] == placed;
    } else {
      var front := files[..|files| - 1];
      var last := files[|files| - 1];
      var mid := Files(st, classDir, front, moveFails, unlinkFails);
      var earlier := placed + FilesPlaced(st, classDir, front, moveFails, unlinkFails);
      var r := FileStep(mid, classDir, last, moveFails, unlinkFails);
      assert Intact(r.disk, r.counter, classDir, earlier + StepPlaced(mid, classDir, last, moveFails, unlinkFails)) by {
        assert forall f | f in front :: f in files;
        FilesKeepPlaced(st, classDir, front, moveFails, unlinkFails, placed);
        StepKeepsPlaced(mid, classDir, last, moveFails, unlinkFails, earlier);
      }
      FilesLast(st, classDir, files, moveFails, unlinkFails);
      AppendAssoc(placed, FilesPlaced(st, classDir, front, moveFails, unlinkFails),
                  StepPlaced(mid, classDir, last, moveFails, unlinkFails));
    }
  }

  lemma FilesLast(st: Progress, classDir: EntryPath, files: seq<EntryPath>,
                  moveFails: Path -> bool, unlinkFails: Path -> bool)
    requires files != []
    ensures var front := files[..|files| - 1];
      var mid := Files(st, classDir, front, moveFails, unlinkFails);
      && Files(st, classDir, files, moveFails, unlinkFails) == FileStep(mid, classDir, files[|files| - 1], moveFails, unlinkFails)
      && FilesPlaced(st, classDir, files, moveFails, unlinkFails)
           == FilesPlaced(st, classDir, front, moveFails, unlinkFails) + StepPlaced(mid, classDir, files[|files| - 1], moveFails, unlinkFails)
  {
  }

  lemma AppendAssoc(a: seq<Placement>, b: seq<Placement>, c: seq<Placement>)
    ensures a + (b + c) == (a + b) + c
  {
  }

  /** A sub-folder's pass keeps the placements, since they sit at the class root and its removal only reaches below it. */
  lemma SubKeepsPlaced(st: Progress, classDir: EntryPath, sub: Path, rglob: Path -> seq<EntryPath>,
                       moveFails: Path -> bool, unlinkFails: Path -> bool, placed: seq<Placement>)
    requires ChildOf(sub, classDir) && (forall f | f in rglob(sub) :: Below(f, sub))
    requires Intact(st.disk, st.counter, classDir, placed)
    ensures var r := SubStep(st, classDir, sub, rglob, moveFails, unlinkFails);
      Intact(r.disk, r.counter, classDir, placed + SubPlaced(st, classDir, sub, rglob, moveFails, unlinkFails))
  {
    if sub !in st.disk.dirs {
      assert placed + [] == placed;
    } else {
      assert forall f | f in rglob(sub) :: |f| > |classDir| + 1;
      FilesKeepPlaced(st, classDir, rglob(sub), moveFails, unlinkFails, placed);
      var all := placed + FilesPlaced(st, classDir, rglob(sub), moveFails, unlinkFails);
      var done := Files(st, classDir, rglob(sub), moveFails, unlinkFails);
      var r := RemoveTree(done.disk, sub);
      assert sub in done.disk.dirs;
      forall i | 0 <= i < |all|
        ensures all[i].path in r.files && r.files[all[i].path] == done.disk.files[all[i].path]
      {
        assert Holds(done.disk, all[i]);
      }
      IntactFrame(done.disk, r, done.counter, done.counter, classDir, all);
      assert SubStep(st, classDir, sub, rglob, moveFails, unlinkFails) == Progress(r, done.counter);
    }
  }

  lemma {:induction false} SubsKeepPlaced(st: Progress, classDir: EntryPath, entries: seq<Path>,
                                          rglob: Path -> seq<EntryPath>, moveFails: Path -> bool,
                                          unlinkFails: Path -> bool)
    requires forall e | e in entries :: ChildOf(e, classDir) && forall f | f in rglob(e) :: Below(f, e)
    ensures var r := Subs(st, classDir, entries, rglob, moveFails, unlinkFails);
      Intact(r.disk, r.counter, classDir, SubsPlaced(st, classDir, entries, rglob, moveFails, unlinkFails))
    decreases |entries|
  {
    if entries != [] {
      var front := entries[..|entries| - 1];
      var sub := entries[|entries| - 1];
      assert forall e | e in front :: e in entries;
      SubsKeepPlaced(st, classDir, front, rglob, moveFails, unlinkFails);
      var mid := Subs(st, classDir, front, rglob, moveFails, unlinkFails);
      SubKeepsPlaced(mid, classDir, sub, rglob, moveFails, unlinkFails,
                     SubsPlaced(st, classDir, front, rglob, moveFails, unlinkFails));
      SubsLast(st, classDir, entries, rglob, moveFails, unlinkFails);
    }
  }

  lemma SubsLast(st: Progress, classDir: EntryPath, entries: seq<Path>,
                 rglob: Path -> seq<EntryPath>, moveFails: Path -> bool, unlinkFails: Path -> bool)
    requires entries != []
    ensures var front := entries[..|entries| - 1];
      var sub := entries[|entries| - 1];
      var mid := Subs(st, classDir, front, rglob, moveFails, unlinkFails);
      && Subs(st, classDir, entries, rglob, moveFails, unlinkFails) == SubStep(mid, classDir, sub, rglob, moveFails, unlinkFails)
      && SubsPlaced(st, classDir, entries, rglob, moveFails, unlinkFails)
           == SubsPlaced(st, classDir, front, rglob, moveFails, unlinkFails) + SubPlaced(mid, classDir, sub, rglob, moveFails, unlinkFails)
  {
  }

  /**
   * `clean_class_folder` delivers its images: when each sub-folder's listing
   * holds only paths below it, every image moved onto a generated name is
   * still there with its contents after the sub-folders are removed and the
   * stray files are deleted, and no two of them share a name.
   */
  lemma CleanedKeepsImages(d: Disk, classDir: EntryPath, entries: seq<Path>, rglob: Path -> seq<EntryPath>,
                           moveFails: Path -> bool, unlinkFails: Path -> bool)
    requires forall e | e in entries :: ChildOf(e, classDir) && forall f | f in rglob(e) :: Below(f, e)
    ensures var placed := SubsPlaced(Progress(d, 0), classDir, entries, rglob, moveFails, unlinkFails);
      var r := Cleaned(d, classDir, entries, rglob, moveFails, unlinkFails);
      && (forall i | 0 <= i < |placed| ::
            && placed[i].path == PlacedAt(classDir, placed[i])
            && placed[i].path in r.files && r.files[placed[i].path] == placed[i].contents)
      && (forall i, j | 0 <= i < j < |placed| :: placed[i].path != placed[j].path)
  {
    var placed := SubsPlaced(Progress(d, 0), classDir, entries, rglob, moveFails, unlinkFails);
    var s := Subs(Progress(d, 0), classDir, entries, rglob, moveFails, unlinkFails);
    SubsKeepPlaced(Progress(d, 0), classDir, entries, rglob, moveFails, unlinkFails);
    var cls := classDir[|classDir| - 1];
    forall i | 0 <= i < |placed|
      ensures placed[i].path == PlacedAt(classDir, placed[i]) && placed[i].path !in Strays(s.disk, classDir)
    {
      assert placed[i].path == PlacedAt(classDir, placed[i]);
      GeneratedNameIsImage(cls, placed[i].index, placed[i].name);
    }
    forall i, j | 0 <= i < j < |placed|
      ensures placed[i].path != placed[j].path
    {
      if placed[i].path == placed[j].path {
        assert placed[i].path == PlacedAt(classDir, placed[i]) && placed[j].path == PlacedAt(classDir, placed[j]);
        assert placed[i].path[|classDir|] == placed[j].path[|classDir|];
        ImageNameInjective(cls, placed[i].index, placed[j].index, placed[i].name, placed[j].name);
      }
    }
  }
}
