/**
 * The dataset organiser that copies raw category folders into the training
 * layout (scripts/organize_dataset.py).
 */
module OrganizeDataset {
  import opened Wrappers
  import Text
  import opened FileSystem

  /** `category_mapping`, in its literal order. */
  const CategoryMapping: seq<(string, string)> :=
    [("clean water", "clean"), ("oil spill", "oil_spill"), ("plastic", "plastic"), ("sewage", "sewage")]

  const Categories: seq<string> := ["clean", "oil_spill", "plastic", "sewage"]

  /** `category_mapping.get(name)` */
  function TargetCategory(name: string): (c: Option<string>)
    ensures c.Some? <==> name in {"clean water", "oil spill", "plastic", "sewage"}
    ensures c.Some? ==> c.value in Categories
  {
    if name == "clean water" then Some("clean")
    else if name == "oil spill" then Some("oil_spill")
    else if name == "plastic" then Some("plastic")
    else if name == "sewage" then Some("sewage")
    else None
  }

  /** Names whose lower-cased form ends in .ds_store, .ini or .txt are not copied. */
  predicate Ignored(name: string) {
    var l := Text.Lower(name);
    Text.EndsWith(l, ".ds_store") || Text.EndsWith(l, ".ini") || Text.EndsWith(l, ".txt")
  }

  /** The `k`-th name tried for `name`: the name itself, then `{stem}_{k}{suffix}`. */
  function Candidate(name: string, k: nat): (c: string)
    ensures k == 0 ==> c == name
    ensures k > 0 ==> c == Text.Stem(name) + "_" + Text.NatToDecimal(k) + Text.Suffix(name)
  {
    if k == 0 then name else Text.Stem(name) + "_" + Text.NatToDecimal(k) + Text.Suffix(name)
  }

  /** Different attempts try different names. */
  lemma CandidateInjective(name: string, a: nat, b: nat)
    requires Candidate(name, a) == Candidate(name, b)
    ensures a == b
  {
    Text.StemSuffix(name);
    var stem := Text.Stem(name);
    var suffix := Text.Suffix(name);
    if a > 0 && b > 0 {
      var da := Text.NatToDecimal(a);
      var db := Text.NatToDecimal(b);
      var ca := Candidate(name, a);
      assert |da| == |db|;
      assert ca[|stem| + 1..|stem| + 1 + |da|] == da;
      assert Candidate(name, b)[|stem| + 1..|stem| + 1 + |db|] == db;
      Text.DecimalInjective(a, b);
    }
  }

  lemma CandidatesDiffer(name: string, a: nat, b: nat)
    requires a != b
    ensures Candidate(name, a) != Candidate(name, b)
  {
    if Candidate(name, a) == Candidate(name, b) {
      CandidateInjective(name, a, b);
    }
  }

  function Tried(name: string, k: nat): set<string> {
    set j | 0 <= j < k :: Candidate(name, j)
  }

  lemma {:induction false} TriedSize(name: string, k: nat)
    ensures |Tried(name, k)| == k
  {
    if k > 0 {
      TriedSize(name, k - 1);
      var last := Candidate(name, k - 1);
      assert Tried(name, k) == Tried(name, k - 1) + {last};
      forall j | 0 <= j < k - 1
        ensures Candidate(name, j) != last
      {
        CandidatesDiffer(name, j, k - 1);
      }
      assert last !in Tried(name, k - 1);
    }
  }

  /** Having tried `k` taken names bounds `k` by the number of taken names. */
  lemma TakenBound(taken: set<string>, name: string, k: nat)
    requires forall j | 0 <= j < k :: Candidate(name, j) in taken
    ensures k <= |taken|
  {
    TriedSize(name, k);
    SubsetSize(Tried(name, k), taken);
  }

  lemma {:induction false} SubsetSize<T>(a: set<T>, b: set<T>)
    requires a <= b
    ensures |a| <= |b|
    decreases |a|
  {
    if a != {} {
      var x :| x in a;
      SubsetSize(a - {x}, b - {x});
    }
  }

  /** The first candidate from the `k`-th on that is not taken. */
  function FreeFrom(taken: set<string>, name: string, k: nat): (r: string)
    requires forall j | 0 <= j < k :: Candidate(name, j) in taken
    ensures r !in taken
    ensures exists i | k <= i :: r == Candidate(name, i) && forall j | 0 <= j < i :: Candidate(name, j) in taken
    decreases |taken| - k
  {
    TakenBound(taken, name, k);
    if Candidate(name, k) !in taken then Candidate(name, k)
    else
      TakenBound(taken, name, k + 1);
      FreeFrom(taken, name, k + 1)
  }

  /**
   * The target name for `name` in a folder whose entries are `taken`: the
   * name when it is free, else `{stem}_{k}{suffix}` for the smallest free
   * `k >= 1`; every try is built from the original name.
   */
  function FreeName(taken: set<string>, name: string): (r: string)
    ensures r !in taken
    ensures name !in taken ==> r == name
    ensures exists i: nat :: r == Candidate(name, i) && forall j | 0 <= j < i :: Candidate(name, j) in taken
  {
    FreeFrom(taken, name, 0)
  }

  /** The free name is taken by nothing and earlier tries are all taken, so it is the smallest. */
  lemma FreeNameIsSmallest(taken: set<string>, name: string, k: nat)
    requires Candidate(name, k) !in taken
    ensures exists i | 0 <= i <= k :: FreeName(taken, name) == Candidate(name, i)
  {
    var r := FreeName(taken, name);
    var i: nat :| r == Candidate(name, i) && forall j | 0 <= j < i :: Candidate(name, j) in taken;
    assert i <= k || Candidate(name, k) in taken;
  }

  lemma APngParts()
    ensures Text.Stem("a.png") == "a" && Text.Suffix("a.png") == ".png"
  {
    assert Text.LastIndexOf("a.png", '.') == Some(1) by {
      assert "a.png"[..4] == "a.pn" && "a.pn"[..3] == "a.p";
      assert Text.LastIndexOf("a.p", '.') == Some(1);
    }
  }

  /** `counter` never stacks: a second duplicate of `a.png` is `a_2.png`, not `a_1_1.png`. */
  lemma SecondDuplicate()
    ensures FreeName({"a.png", "a_1.png"}, "a.png") == "a_2.png"
  {
    var taken := {"a.png", "a_1.png"};
    APngParts();
    assert Text.NatToDecimal(1) == "1" && Text.NatToDecimal(2) == "2";
    assert Candidate("a.png", 1) == "a_1.png";
    assert Candidate("a.png", 2) == "a_2.png";
    assert "a_2.png" !in taken;
    assert FreeFrom(taken, "a.png", 2) == "a_2.png";
    assert FreeFrom(taken, "a.png", 1) == "a_2.png";
  }

  /** One file of the walk: its directory and its name. */
  datatype WalkEntry = WalkEntry(root: Path, file: string)

  /** Copying one walked file into `catDir`; ignored names are skipped. */
  function CopyStep(d: Disk, catDir: Path, e: WalkEntry, copyFails: (Path, Path) -> bool): Disk {
    if Ignored(e.file) then d
    else
      var target := catDir + [FreeName(NamesIn(d, catDir), e.file)];
      Copy(d, e.root + [e.file], target, copyFails(e.root + [e.file], target))
  }

  function CopyAll(d: Disk, catDir: Path, files: seq<WalkEntry>, copyFails: (Path, Path) -> bool): Disk
  {
    if files == [] then d
    else CopyStep(CopyAll(d, catDir, files[..|files| - 1], copyFails), catDir, files[|files| - 1], copyFails)
  }

  /** Processing one entry of the source folder. */
  function ItemStep(d: Disk, sourceDir: Path, targetDir: Path, name: string,
                    walk: Path -> seq<WalkEntry>, copyFails: (Path, Path) -> bool): Disk {
    var item := sourceDir + [name];
    if item !in d.dirs then d
    else
      match TargetCategory(name)
      case None => d
      case Some(cat) => CopyAll(d, targetDir + [cat], walk(item), copyFails)
  }

  function Items(d: Disk, sourceDir: Path, targetDir: Path, names: seq<string>,
                 walk: Path -> seq<WalkEntry>, copyFails: (Path, Path) -> bool): Disk
  {
    if names == [] then d
    else
      ItemStep(Items(d, sourceDir, targetDir, names[..|names| - 1], walk, copyFails),
               sourceDir, targetDir, names[|names| - 1], walk, copyFails)
  }

  /** The target root and its four category folders, created when missing. */
  function Prepared(d: Disk, targetDir: Path): (r: Disk)
    ensures r.files == d.files && d.dirs <= r.dirs
    ensures forall c | c in Categories :: targetDir + [c] in r.dirs
    ensures Exists(r, targetDir)
  {
    var d1 := if Exists(d, targetDir) then d else MakeDir(d, targetDir);
    MakeDir(MakeDir(MakeDir(MakeDir(d1, targetDir + ["clean"]), targetDir + ["oil_spill"]),
                    targetDir + ["plastic"]), targetDir + ["sewage"])
  }

  /** The whole run: folders first, then each source entry in listing order. */
  function Organized(d: Disk, baseDir: Path, names: seq<string>,
                     walk: Path -> seq<WalkEntry>, copyFails: (Path, Path) -> bool): Disk {
    Items(Prepared(d, baseDir + ["dataset"]), baseDir + ["dataset_raw"], baseDir + ["dataset"], names, walk, copyFails)
  }

  /** A free name for the loop `while target_file_path.exists()`, found as the script does. */
  method FindTarget(v: Volume, catDir: Path, file: string) returns (target: Path)
    ensures target == catDir + [FreeName(NamesIn(v.disk, catDir), file)]
  {
    ghost var taken := NamesIn(v.disk, catDir);
    target := catDir + [file];
    var counter: nat := 1;
    while v.PathExists(target)
      invariant counter >= 1 && target == catDir + [Candidate(file, counter - 1)]
      invariant forall j | 0 <= j < counter - 1 :: Candidate(file, j) in taken
      invariant counter - 1 <= |taken|
      decreases |taken| + 1 - counter
    {
      assert Candidate(file, counter - 1) in taken;
      TakenBound(taken, file, counter);
      target := catDir + [Text.Stem(file) + "_" + Text.NatToDecimal(counter) + Text.Suffix(file)];
      counter := counter + 1;
    }
    FreeNameAt(taken, file, counter - 1);
  }

  /** The free name is the first candidate that is not taken. */
  lemma FreeNameAt(taken: set<string>, name: string, k: nat)
    requires Candidate(name, k) !in taken
    requires forall j | 0 <= j < k :: Candidate(name, j) in taken
    ensures FreeName(taken, name) == Candidate(name, k)
  {
    var r := FreeName(taken, name);
    var i: nat :| r == Candidate(name, i) && forall j | 0 <= j < i :: Candidate(name, j) in taken;
    assert i <= k || Candidate(name, k) in taken;
    assert i >= k || Candidate(name, i) in taken;
  }

  /** `organize_dataset()` run from `baseDir`; `names` is the source folder's listing. */
  method Organize(v: Volume, baseDir: Path, names: seq<string>,
                  walk: Path -> seq<WalkEntry>, copyFails: (Path, Path) -> bool)
    modifies v
    ensures v.disk == Organized(old(v.disk), baseDir, names, walk, copyFails)
  {
    var sourceDir := baseDir + ["dataset_raw"];
    var targetDir := baseDir + ["dataset"];
    if !v.PathExists(targetDir) {
      v.MkDir(targetDir);
    }
    v.MkDir(targetDir + ["clean"]);
    v.MkDir(targetDir + ["oil_spill"]);
    v.MkDir(targetDir + ["plastic"]);
    v.MkDir(targetDir + ["sewage"]);
    ghost var start := v.disk;
    assert start == Prepared(old(v.disk), targetDir);
    var i := 0;
    while i < |names|
      invariant 0 <= i <= |names|
      invariant v.disk == Items(start, sourceDir, targetDir, names[..i], walk, copyFails)
    {
      assert names[..i + 1][..i] == names[..i];
      var item := sourceDir + [names[i]];
      if item in v.disk.dirs {
        var category := TargetCategory(names[i]);
        if category.Some? {
          CopyFolder(v, targetDir + [category.value], walk(item), copyFails);
        }
      }
      i := i + 1;
    }
    assert names[..|names|] == names;
  }

  /** The walk over one mapped source folder. */
  method CopyFolder(v: Volume, catDir: Path, files: seq<WalkEntry>, copyFails: (Path, Path) -> bool)
    modifies v
    ensures v.disk == CopyAll(old(v.disk), catDir, files, copyFails)
  {
    ghost var start := v.disk;
    var j := 0;
    while j < |files|
      invariant 0 <= j <= |files|
      invariant v.disk == CopyAll(start, catDir, files[..j], copyFails)
    {
      assert files[..j + 1][..j] == files[..j];
      var e := files[j];
      if !Ignored(e.file) {
        var target := FindTarget(v, catDir, e.file);
        v.Copy2(e.root + [e.file], target, copyFails(e.root + [e.file], target));
      }
      j := j + 1;
    }
    assert files[..|files|] == files;
  }

  /** No file that existed before the run is overwritten or removed. */
  predicate Keeps(d: Disk, r: Disk) {
    (forall p | p in d.files :: p in r.files && r.files[p] == d.files[p]) && d.dirs <= r.dirs
  }

  /** Every file the run adds sits directly in one of the category folders. */
  predicate AddsOnlyUnder(d: Disk, r: Disk, targetDir: Path) {
    forall p | p in r.files && p !in d.files ::
      |p| == |targetDir| + 2 && p[..|targetDir|] == targetDir && p[|targetDir|] in Categories
  }

  lemma {:induction false} CopyAllKeeps(d: Disk, targetDir: Path, cat: string, files: seq<WalkEntry>,
                                        copyFails: (Path, Path) -> bool)
    requires cat in Categories
    ensures var r := CopyAll(d, targetDir + [cat], files, copyFails);
      Keeps(d, r) && AddsOnlyUnder(d, r, targetDir)
  {
    var catDir := targetDir + [cat];
    if files != [] {
      var mid := CopyAll(d, catDir, files[..|files| - 1], copyFails);
      CopyAllKeeps(d, targetDir, cat, files[..|files| - 1], copyFails);
      CopyStepKeeps(mid, targetDir, cat, files[|files| - 1], copyFails);
      KeepsTrans(d, mid, CopyStep(mid, catDir, files[|files| - 1], copyFails), targetDir);
    }
  }

  /** One copy writes a fresh name directly in the category folder and touches nothing else. */
  lemma CopyStepKeeps(d: Disk, targetDir: Path, cat: string, e: WalkEntry, copyFails: (Path, Path) -> bool)
    requires cat in Categories
    ensures var r := CopyStep(d, targetDir + [cat], e, copyFails);
      Keeps(d, r) && AddsOnlyUnder(d, r, targetDir)
  {
    var catDir := targetDir + [cat];
    if !Ignored(e.file) {
      var target := catDir + [FreeName(NamesIn(d, catDir), e.file)];
      assert target !in d.files;
      assert target[..|targetDir|] == targetDir && target[|targetDir|] == cat;
    }
  }

  lemma KeepsTrans(a: Disk, b: Disk, c: Disk, targetDir: Path)
    requires Keeps(a, b) && AddsOnlyUnder(a, b, targetDir)
    requires Keeps(b, c) && AddsOnlyUnder(b, c, targetDir)
    ensures Keeps(a, c) && AddsOnlyUnder(a, c, targetDir)
  {
  }

  lemma {:induction false} ItemsKeep(d: Disk, sourceDir: Path, targetDir: Path, names: seq<string>,
                                     walk: Path -> seq<WalkEntry>, copyFails: (Path, Path) -> bool)
    ensures var r := Items(d, sourceDir, targetDir, names, walk, copyFails);
      Keeps(d, r) && AddsOnlyUnder(d, r, targetDir)
  {
    if names != [] {
      var mid := Items(d, sourceDir, targetDir, names[..|names| - 1], walk, copyFails);
      ItemsKeep(d, sourceDir, targetDir, names[..|names| - 1], walk, copyFails);
      var name := names[|names| - 1];
      var item := sourceDir + [name];
      if item in mid.dirs && TargetCategory(name).Some? {
        CopyAllKeeps(mid, targetDir, TargetCategory(name).value, walk(item), copyFails);
      }
    }
  }

  /**
   * A walked file that is not ignored and whose copy from disk `d` does not
   * fail is found in `r` at its free name in `catDir`, with its contents.
   */
  predicate Lands(d: Disk, catDir: Path, e: WalkEntry, copyFails: (Path, Path) -> bool, r: Disk) {
    var src := e.root + [e.file];
    var target := catDir + [FreeName(NamesIn(d, catDir), e.file)];
    !Ignored(e.file) && src in d.files && !copyFails(src, target) ==>
      target in r.files && r.files[target] == d.files[src]
  }

  /** Every file of one folder's walk lands, each judged from the disk just before its copy. */
  predicate FolderLands(d: Disk, catDir: Path, files: seq<WalkEntry>, copyFails: (Path, Path) -> bool, r: Disk) {
    forall k | 0 <= k < |files| :: Lands(CopyAll(d, catDir, files[..k], copyFails), catDir, files[k], copyFails, r)
  }

  /** A mapped source folder's files all land in its category folder. */
  predicate ItemLands(d: Disk, sourceDir: Path, targetDir: Path, name: string,
                      walk: Path -> seq<WalkEntry>, copyFails: (Path, Path) -> bool, r: Disk) {
    var item := sourceDir + [name];
    item in d.dirs && TargetCategory(name).Some? ==>
      FolderLands(d, targetDir + [TargetCategory(name).value], walk(item), copyFails, r)
  }

  lemma LandsKept(d: Disk, catDir: Path, e: WalkEntry, copyFails: (Path, Path) -> bool, r: Disk, r': Disk)
    requires Lands(d, catDir, e, copyFails, r) && Keeps(r, r')
    ensures Lands(d, catDir, e, copyFails, r')
  {
  }

  lemma FolderLandsKept(d: Disk, catDir: Path, files: seq<WalkEntry>, copyFails: (Path, Path) -> bool, r: Disk, r': Disk)
    requires FolderLands(d, catDir, files, copyFails, r) && Keeps(r, r')
    ensures FolderLands(d, catDir, files, copyFails, r')
  {
    forall k | 0 <= k < |files|
      ensures Lands(CopyAll(d, catDir, files[..k], copyFails), catDir, files[k], copyFails, r')
    {
      LandsKept(CopyAll(d, catDir, files[..k], copyFails), catDir, files[k], copyFails, r, r');
    }
  }

  /** The copy of one walked file writes it to its free name. */
  lemma CopyStepLands(d: Disk, catDir: Path, e: WalkEntry, copyFails: (Path, Path) -> bool)
    ensures Lands(d, catDir, e, copyFails, CopyStep(d, catDir, e, copyFails))
  {
  }

  lemma {:induction false} CopyAllLands(d: Disk, targetDir: Path, cat: string, files: seq<WalkEntry>,
                                        copyFails: (Path, Path) -> bool)
    requires cat in Categories
    ensures FolderLands(d, targetDir + [cat], files, copyFails, CopyAll(d, targetDir + [cat], files, copyFails))
  {
    var catDir := targetDir + [cat];
    if files != [] {
      var front := files[..|files| - 1];
      var last := files[|files| - 1];
      var mid := CopyAll(d, catDir, front, copyFails);
      var r := CopyStep(mid, catDir, last, copyFails);
      assert CopyAll(d, catDir, files, copyFails) == r;
      assert FolderLands(d, catDir, front, copyFails, r) by {
        CopyAllLands(d, targetDir, cat, front, copyFails);
        CopyStepKeeps(mid, targetDir, cat, last, copyFails);
        FolderLandsKept(d, catDir, front, copyFails, mid, r);
      }
      assert Lands(mid, catDir, last, copyFails, r) by {
        CopyStepLands(mid, catDir, last, copyFails);
      }
      forall k | 0 <= k < |files|
        ensures Lands(CopyAll(d, catDir, files[..k], copyFails), catDir, files[k], copyFails, r)
      {
        if k < |front| {
          assert files[..k] == front[..k] && files[k] == front[k];
        } else {
          assert files[..k] == front;
        }
      }
    }
  }

  /** Each entry of the source listing lands its files, judged from the disk just before that entry. */
  lemma {:induction false} ItemsLand(d: Disk, sourceDir: Path, targetDir: Path, names: seq<string>,
                                     walk: Path -> seq<WalkEntry>, copyFails: (Path, Path) -> bool)
    ensures var r := Items(d, sourceDir, targetDir, names, walk, copyFails);
      forall i | 0 <= i < |names| ::
        ItemLands(Items(d, sourceDir, targetDir, names[..i], walk, copyFails), sourceDir, targetDir, names[i], walk, copyFails, r)
  {
    if names != [] {
      var front := names[..|names| - 1];
      var name := names[|names| - 1];
      var mid := Items(d, sourceDir, targetDir, front, walk, copyFails);
      var r := Items(d, sourceDir, targetDir, names, walk, copyFails);
      assert r == ItemStep(mid, sourceDir, targetDir, name, walk, copyFails);
      var item := sourceDir + [name];
      ItemsLand(d, sourceDir, targetDir, front, walk, copyFails);
      if item in mid.dirs && TargetCategory(name).Some? {
        CopyAllKeeps(mid, targetDir, TargetCategory(name).value, walk(item), copyFails);
        CopyAllLands(mid, targetDir, TargetCategory(name).value, walk(item), copyFails);
      }
      assert Keeps(mid, r);
      forall i | 0 <= i < |names|
        ensures ItemLands(Items(d, sourceDir, targetDir, names[..i], walk, copyFails), sourceDir, targetDir, names[i], walk, copyFails, r)
      {
        if i < |front| {
          assert names[..i] == front[..i] && names[i] == front[i];
          var before := Items(d, sourceDir, targetDir, names[..i], walk, copyFails);
          var it := sourceDir + [names[i]];
          if it in before.dirs && TargetCategory(names[i]).Some? {
            FolderLandsKept(before, targetDir + [TargetCategory(names[i]).value], walk(it), copyFails, mid, r);
          }
        } else {
          assert names[..i] == front;
        }
      }
    }
  }

  /**
   * After a run every category folder exists, no earlier file is overwritten,
   * every new file lies directly in a category folder, and every walked file
   * of a mapped folder that is not ignored and whose copy does not fail is in
   * its category folder under its free name, with its contents.
   */
  lemma OrganizedMeaning(d: Disk, baseDir: Path, names: seq<string>,
                         walk: Path -> seq<WalkEntry>, copyFails: (Path, Path) -> bool)
    ensures var r := Organized(d, baseDir, names, walk, copyFails);
      var sourceDir := baseDir + ["dataset_raw"];
      var targetDir := baseDir + ["dataset"];
      && Keeps(d, r) && AddsOnlyUnder(d, r, targetDir)
      && (forall c | c in Categories :: targetDir + [c] in r.dirs)
      && forall i | 0 <= i < |names| ::
           ItemLands(Items(Prepared(d, targetDir), sourceDir, targetDir, names[..i], walk, copyFails),
                     sourceDir, targetDir, names[i], walk, copyFails, r)
  {
    var targetDir := baseDir + ["dataset"];
    var p := Prepared(d, targetDir);
    ItemsKeep(p, baseDir + ["dataset_raw"], targetDir, names, walk, copyFails);
    ItemsLand(p, baseDir + ["dataset_raw"], targetDir, names, walk, copyFails);
  }

  /** Only folders named in the mapping are processed: a run over other folders copies nothing. */
  lemma {:induction false} UnmappedSkipped(d: Disk, sourceDir: Path, targetDir: Path, names: seq<string>,
                                           walk: Path -> seq<WalkEntry>, copyFails: (Path, Path) -> bool)
    requires forall i | 0 <= i < |names| :: TargetCategory(names[i]).None?
    ensures Items(d, sourceDir, targetDir, names, walk, copyFails) == d
  {
    if names != [] {
      UnmappedSkipped(d, sourceDir, targetDir, names[..|names| - 1], walk, copyFails);
    }
  }

  /** Ignored files and failed copies leave the disk as it was, and the walk goes on. */
  lemma {:induction false} SkippedCopiesChangeNothing(d: Disk, catDir: Path, files: seq<WalkEntry>,
                                                      copyFails: (Path, Path) -> bool)
    requires forall i | 0 <= i < |files| :: Ignored(files[i].file) || copyFails(files[i].root + [files[i].file], catDir + [FreeName(NamesIn(d, catDir), files[i].file)])
    ensures CopyAll(d, catDir, files, copyFails) == d
  {
    if files != [] {
      SkippedCopiesChangeNothing(d, catDir, files[..|files| - 1], copyFails);
    }
  }
}
