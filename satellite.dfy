/**
 * The integer window and grid arithmetic of the Sentinel-2 processor
 * (backend/ml/satellite_processing.py). Raster contents, reflectance and the
 * spectral indices are not modelled: a band is its shape.
 */
module Satellite {
  import opened Wrappers
  import Text

  datatype Shape = Shape(h: nat, w: nat)

  /** The exceptions the processor raises. */
  datatype PyError = FileNotFound(band: string) | ValueError(message: string) | KeyError(key: string)

  /** The glob `*_{band}_{resolution[1:]}.jp2`: the name ends with that text. */
  predicate MatchesBand(name: string, band: string, resolution: string) {
    Text.EndsWith(name, "_" + band + "_" + Text.Drop(resolution, 1) + ".jp2")
  }

  /** The position of the first listed name that matches, if any. */
  function FirstMatch(names: seq<string>, band: string, resolution: string): (i: Option<nat>)
    ensures i.Some? ==> i.value < |names| && MatchesBand(names[i.value], band, resolution)
    ensures i.Some? ==> forall j | 0 <= j < i.value :: !MatchesBand(names[j], band, resolution)
    ensures i.None? <==> forall j | 0 <= j < |names| :: !MatchesBand(names[j], band, resolution)
    decreases |names|
  {
    if names == [] then None
    else if MatchesBand(names[0], band, resolution) then Some(0)
    else
      match FirstMatch(names[1..], band, resolution)
      case None => None
      case Some(k) => Some(k + 1)
  }

  /**
   * `_get_band_path(band, resolution)`: `listing` is the glob's directory
   * listing in the order the file system returns it.
   */
  function BandPath(listing: seq<string>, band: string, resolution: string): (r: Result<string, PyError>)
    ensures r.Ok? ==> r.value in listing && MatchesBand(r.value, band, resolution)
    ensures r.Err? <==> forall j | 0 <= j < |listing| :: !MatchesBand(listing[j], band, resolution)
    ensures r.Err? ==> r.error == FileNotFound(band)
  {
    match FirstMatch(listing, band, resolution)
    case None => Err(FileNotFound(band))
    case Some(i) => Ok(listing[i])
  }

  /** The example name `T43QCE_20250918T053651_B02_10m.jp2` is the 10 m blue band. */
  lemma ExampleBandName()
    ensures MatchesBand("T43QCE_20250918T053651_B02_10m.jp2", "B02", "R10m")
    ensures !MatchesBand("T43QCE_20250918T053651_B02_10m.jp2", "B02", "R20m")
  {
    var name := "T43QCE_20250918T053651_B02_10m.jp2";
    assert name[|name| - 12..] == "_B02_10m.jp2";
    assert "_B02_10m.jp2"[5] != "_B02_20m.jp2"[5];
  }

  /** One axis of a numpy slice `[start:stop]` after Python's index normalisation. */
  datatype Span = Span(lo: nat, hi: nat)

  /** How Python bounds a slice index on an axis of length `n`. */
  function SliceIndex(i: int, n: nat): (k: nat)
    ensures k <= n
    ensures 0 <= i <= n ==> k == i
    ensures -(n as int) <= i < 0 ==> k == i + n
  {
    if i < 0 then (if i + n < 0 then 0 else i + n) else if i > n then n else i
  }

  /** `[start:stop]` on an axis of length `n`: an empty span when the bounds cross. */
  function PySlice(start: int, stop: int, n: nat): (s: Span)
    ensures s.lo <= s.hi <= n
  {
    var lo := SliceIndex(start, n);
    var hi := SliceIndex(stop, n);
    if hi < lo then Span(lo, lo) else Span(lo, hi)
  }

  /** The crop window `[cy - half : cy + half, cx - half : cx + half]` that `crop_image` computes. */
  datatype Window = Window(rows: Span, cols: Span)

  function CentreSpan(n: nat, size: nat): (s: Span)
    ensures s.lo <= s.hi <= n
  {
    PySlice(n / 2 - size / 2, n / 2 + size / 2, n)
  }

  /** A crop that fits is centred: `2 * (size / 2)` rows around `n / 2`, all inside. */
  lemma CentreSpanFits(n: nat, size: nat)
    requires size <= n
    ensures CentreSpan(n, size) == Span(n / 2 - size / 2, n / 2 + size / 2)
    ensures CentreSpan(n, size).hi - CentreSpan(n, size).lo == 2 * (size / 2)
  {
  }

  /**
   * A crop larger than the image does not start at row 0: the negative start
   * wraps around the end, e.g. a 256 crop of a 100-row band keeps rows 22..100.
   */
  lemma OversizedCropWraps()
    ensures CentreSpan(100, 256) == Span(22, 100)
  {
  }

  /** The slices of a band of shape `b` for a crop centred on a band of shape `c`. */
  function BandWindow(c: Shape, b: Shape, size: nat): Window {
    Window(PySlice(c.h / 2 - size / 2, c.h / 2 + size / 2, b.h),
           PySlice(c.w / 2 - size / 2, c.w / 2 + size / 2, b.w))
  }

  /** Bands of B02's shape that fit the crop all get the same centred window. */
  lemma SameShapeSameWindow(c: Shape, b: Shape, size: nat)
    requires b == c && size <= c.h && size <= c.w
    ensures BandWindow(c, b, size) == Window(CentreSpan(c.h, size), CentreSpan(c.w, size))
    ensures BandWindow(c, b, size).rows == Span(c.h / 2 - size / 2, c.h / 2 + size / 2)
    ensures BandWindow(c, b, size).cols == Span(c.w / 2 - size / 2, c.w / 2 + size / 2)
  {
    CentreSpanFits(c.h, size);
    CentreSpanFits(c.w, size);
  }

  class Processor {
    /** The shape of every loaded band, by band name. */
    var bands: map<string, Shape>
    /** Whether `read_bands` has stored a raster profile. */
    var profileLoaded: bool

    constructor ()
      ensures bands == map[] && !profileLoaded
    {
      bands := map[];
      profileLoaded := false;
    }

    /**
     * `crop_image(lat, lon, size)`: the window every band is cut to. The
     * centre comes from B02's shape; each band's slice is bounded by its own.
     */
    function CropImage(centerLat: real, centerLon: real, size: nat): (r: Result<map<string, Window>, PyError>)
      reads this
      ensures !profileLoaded ==> r == Err(ValueError("Bands not read yet."))
      ensures profileLoaded && "B02" !in bands ==> r == Err(KeyError("B02"))
      ensures profileLoaded && "B02" in bands ==> r.Ok? && r.value.Keys == bands.Keys
      ensures r.Ok? ==> forall b | b in bands :: r.value[b] == BandWindow(bands["B02"], bands[b], size)
    {
      if !profileLoaded then Err(ValueError("Bands not read yet."))
      else if "B02" !in bands then Err(KeyError("B02"))
      else
        var c := bands["B02"];
        Ok(map b | b in bands :: BandWindow(c, bands[b], size))
    }

    /**
     * `prepare_patches(output_dir, patch_size, stride)`: the patches it saves,
     * in order, or the exception that stops it at the first valid origin
     * whose composite cannot be built.
     */
    method PreparePatches(patchSize: nat, stride: nat, valid: (nat, nat) -> bool)
      returns (r: Result<seq<Patch>, PyError>)
      ensures "B02" !in bands ==> r == Err(KeyError("B02"))
      ensures "B02" in bands && stride == 0 ==> r.Err? && r.error.ValueError?
      ensures "B02" in bands && stride > 0 ==>
        r == Saved(Kept(Cells(Range(0, bands["B02"].h - patchSize, stride),
                              Range(0, bands["B02"].w - patchSize, stride)), valid),
                   CompositeAt(bands, patchSize))
    {
      if "B02" !in bands {
        r := Err(KeyError("B02"));
      } else if stride == 0 {
        r := Err(ValueError("range() arg 3 must not be zero"));
      } else {
        var h := bands["B02"].h;
        var w := bands["B02"].w;
        r := Patches(CompositeAt(bands, patchSize), h, w, patchSize, stride, valid);
      }
    }
  }

  /** The channel order of `create_composite`. */
  const CompositeOrder: seq<string> := ["B02", "B03", "B04", "B08", "B11", "B12"]

  /** The first band of the channel order that is not loaded, if any: the key the lookups fail on. */
  function MissingBand(bands: map<string, Shape>): Option<string> {
    if "B02" !in bands then Some("B02")
    else if "B03" !in bands then Some("B03")
    else if "B04" !in bands then Some("B04")
    else if "B08" !in bands then Some("B08")
    else if "B11" !in bands then Some("B11")
    else if "B12" !in bands then Some("B12")
    else None
  }

  /** The shape of `data[y:y+size, x:x+size]` for a band of shape `b`. */
  function PatchShape(b: Shape, y: nat, x: nat, size: nat): Shape {
    var rows := PySlice(y, y + size, b.h);
    var cols := PySlice(x, x + size, b.w);
    Shape(rows.hi - rows.lo, cols.hi - cols.lo)
  }

  /** Whether every composite band's slice at `(y, x)` has the shape of B02's slice. */
  predicate SameShapes(bands: map<string, Shape>, y: nat, x: nat, size: nat)
    requires "B02" in bands && forall j | 0 <= j < |CompositeOrder| :: CompositeOrder[j] in bands
  {
    forall j | 0 <= j < |CompositeOrder| ::
      PatchShape(bands[CompositeOrder[j]], y, x, size) == PatchShape(bands["B02"], y, x, size)
  }

  /**
   * What `create_composite` raises for the patch at `(y, x)`: the key of the
   * first band it lacks, or numpy's shape error when the slices differ.
   */
  function CompositeError(bands: map<string, Shape>, y: nat, x: nat, size: nat): Option<PyError> {
    match MissingBand(bands)
    case Some(b) => Some(KeyError(b))
    case None =>
      if SameShapes(bands, y, x, size) then None
      else Some(ValueError("all input arrays must have the same shape"))
  }

  /** A composite fails with the key of the first band of the channel order that is not loaded. */
  lemma CompositeMissingKey(bands: map<string, Shape>, y: nat, x: nat, size: nat, i: nat)
    requires i < |CompositeOrder| && CompositeOrder[i] !in bands
    requires forall j | 0 <= j < i :: CompositeOrder[j] in bands
    ensures CompositeError(bands, y, x, size) == Some(KeyError(CompositeOrder[i]))
  {
    var order := CompositeOrder;
    if i == 0 {
    } else if i == 1 {
      assert order[0] in bands;
    } else if i == 2 {
      assert order[0] in bands && order[1] in bands;
    } else if i == 3 {
      assert order[0] in bands && order[1] in bands && order[2] in bands;
    } else if i == 4 {
      assert order[0] in bands && order[1] in bands && order[2] in bands && order[3] in bands;
    } else {
      assert order[0] in bands && order[1] in bands && order[2] in bands && order[3] in bands;
      assert order[4] in bands;
    }
  }

  /**
   * With all six bands loaded a composite fails exactly when some band's
   * slice differs in shape from B02's, and then with numpy's shape error.
   */
  lemma CompositeShapeError(bands: map<string, Shape>, y: nat, x: nat, size: nat)
    requires "B02" in bands && forall i | 0 <= i < |CompositeOrder| :: CompositeOrder[i] in bands
    ensures CompositeError(bands, y, x, size).None? <==> SameShapes(bands, y, x, size)
    ensures CompositeError(bands, y, x, size).Some? ==>
      CompositeError(bands, y, x, size) == Some(ValueError("all input arrays must have the same shape"))
  {
    assert CompositeOrder[1] in bands && CompositeOrder[2] in bands && CompositeOrder[3] in bands;
    assert CompositeOrder[4] in bands && CompositeOrder[5] in bands;
  }

  /** `create_composite` on the patches of `size` cut from `bands`, by origin. */
  function CompositeAt(bands: map<string, Shape>, size: nat): (nat, nat) -> Option<PyError> {
    (y: nat, x: nat) => CompositeError(bands, y, x, size)
  }

  /** One valid origin more: its patch is appended, unless the run or its composite has failed. */
  function SaveNext(r: Result<seq<Patch>, PyError>, c: (nat, nat), composite: (nat, nat) -> Option<PyError>)
    : Result<seq<Patch>, PyError>
  {
    if r.Err? then r
    else
      match composite(c.0, c.1)
      case Some(e) => Err(e)
      case None => Ok(r.value + [Patch(|r.value|, c.0, c.1)])
  }

  /**
   * The patches saved for the valid origins `kept`, numbered from 0, or the
   * error of the first one whose composite fails.
   */
  function Saved(kept: seq<(nat, nat)>, composite: (nat, nat) -> Option<PyError>): Result<seq<Patch>, PyError>
  {
    if kept == [] then Ok([])
    else SaveNext(Saved(kept[..|kept| - 1], composite), kept[|kept| - 1], composite)
  }

  /** The two loops of `prepare_patches` over the origin grid of an `h` by `w` band. */
  method Patches(composite: (nat, nat) -> Option<PyError>, h: nat, w: nat, patchSize: nat, stride: nat, valid: (nat, nat) -> bool)
    returns (r: Result<seq<Patch>, PyError>)
    requires stride > 0
    ensures r == Saved(Kept(Cells(Range(0, h - patchSize, stride), Range(0, w - patchSize, stride)), valid), composite)
  {
    ghost var ys := Range(0, h - patchSize, stride);
    ghost var xs := Range(0, w - patchSize, stride);
    ghost var doneY: seq<nat> := [];
    var saved := [];
    var y: nat := 0;
    while y < h - patchSize
      invariant ys == doneY + Range(y, h - patchSize, stride)
      invariant Saved(Kept(Cells(doneY, xs), valid), composite) == Ok(saved)
      decreases h - patchSize - y
    {
      r := ScanRow(composite, y, w, patchSize, stride, valid, Cells(doneY, xs), saved);
      RangeAdvance(ys, doneY, y, h - patchSize, stride);
      CellsSnoc(doneY, y, xs);
      doneY := doneY + [y];
      if r.Err? {
        CellsErrSticks(composite, doneY, Range(y + stride, h - patchSize, stride), xs, valid);
        return;
      }
      saved := r.value;
      y := y + stride;
    }
    assert doneY == ys;
    r := Ok(saved);
  }

  /** The inner loop of `prepare_patches` over one row of origins. */
  method ScanRow(composite: (nat, nat) -> Option<PyError>, y: nat, w: nat, patchSize: nat, stride: nat, valid: (nat, nat) -> bool,
                 ghost before: seq<(nat, nat)>, saved0: seq<Patch>)
    returns (r: Result<seq<Patch>, PyError>)
    requires stride > 0 && Saved(Kept(before, valid), composite) == Ok(saved0)
    ensures r == Saved(Kept(before + Row(y, Range(0, w - patchSize, stride)), valid), composite)
  {
    ghost var xs := Range(0, w - patchSize, stride);
    ghost var doneX: seq<nat> := [];
    var saved := saved0;
    var x: nat := 0;
    assert before + Row(y, doneX) == before;
    while x < w - patchSize
      invariant xs == doneX + Range(x, w - patchSize, stride)
      invariant Saved(Kept(before + Row(y, doneX), valid), composite) == Ok(saved)
      decreases w - patchSize - x
    {
      RangeAdvance(xs, doneX, x, w - patchSize, stride);
      r := VisitOrigin(composite, before, y, doneX, x, patchSize, valid, saved);
      doneX := doneX + [x];
      if r.Err? {
        RowErrSticks(composite, before, y, doneX, Range(x + stride, w - patchSize, stride), valid);
        return;
      }
      saved := r.value;
      x := x + stride;
    }
    assert doneX == xs;
    r := Ok(saved);
  }

  /**
   * The body of the inner loop: at a valid origin `(y, x)` the composite is
   * built and saved as the next patch, or its error ends the run.
   */
  method VisitOrigin(composite: (nat, nat) -> Option<PyError>, ghost before: seq<(nat, nat)>, y: nat, ghost doneX: seq<nat>, x: nat,
                     patchSize: nat, valid: (nat, nat) -> bool, saved0: seq<Patch>)
    returns (r: Result<seq<Patch>, PyError>)
    requires Saved(Kept(before + Row(y, doneX), valid), composite) == Ok(saved0)
    ensures r == Saved(Kept(before + Row(y, doneX + [x]), valid), composite)
  {
    OriginStep(composite, before, y, doneX, x, patchSize, valid, saved0);
    r := Ok(saved0);
    if valid(y, x) {
      var e := composite(y, x);
      if e.Some? {
        r := Err(e.value);
      } else {
        r := Ok(saved0 + [Patch(|saved0|, y, x)]);
      }
    }
  }

  /** Visiting origin `(y, x)` after the origins `before` and `(y, doneX)`. */
  lemma OriginStep(composite: (nat, nat) -> Option<PyError>, before: seq<(nat, nat)>, y: nat, doneX: seq<nat>, x: nat,
                   size: nat, valid: (nat, nat) -> bool, saved: seq<Patch>)
    requires Saved(Kept(before + Row(y, doneX), valid), composite) == Ok(saved)
    ensures Saved(Kept(before + Row(y, doneX + [x]), valid), composite)
      == if valid(y, x) then SaveNext(Ok(saved), (y, x), composite) else Ok(saved)
  {
    var cells := before + Row(y, doneX);
    RowSnoc(y, doneX, x);
    assert before + Row(y, doneX + [x]) == cells + [(y, x)];
    KeptSnoc(cells, (y, x), valid);
    if valid(y, x) {
      assert Kept(cells + [(y, x)], valid) == Kept(cells, valid) + [(y, x)];
      SavedSnoc(Kept(cells, valid), (y, x), composite);
    } else {
      assert Kept(cells + [(y, x)], valid) == Kept(cells, valid);
    }
  }

  lemma SavedSnoc(kept: seq<(nat, nat)>, c: (nat, nat), composite: (nat, nat) -> Option<PyError>)
    ensures Saved(kept + [c], composite) == SaveNext(Saved(kept, composite), c, composite)
  {
    assert (kept + [c])[..|kept|] == kept;
  }

  /** Once a prefix of the valid origins has failed, the whole run fails with that error. */
  lemma {:induction false} SavedErrSticks(c: seq<(nat, nat)>, d: seq<(nat, nat)>, composite: (nat, nat) -> Option<PyError>)
    requires c <= d && Saved(c, composite).Err?
    ensures Saved(d, composite) == Saved(c, composite)
    decreases |d|
  {
    if |d| > |c| {
      var front := d[..|d| - 1];
      assert c <= front;
      SavedErrSticks(c, front, composite);
    } else {
      assert c == d;
    }
  }

  /** A failure within a row ends the scan of the row with that failure. */
  lemma RowErrSticks(composite: (nat, nat) -> Option<PyError>, before: seq<(nat, nat)>, y: nat,
                     done: seq<nat>, rest: seq<nat>, valid: (nat, nat) -> bool)
    requires Saved(Kept(before + Row(y, done), valid), composite).Err?
    ensures Saved(Kept(before + Row(y, done + rest), valid), composite) == Saved(Kept(before + Row(y, done), valid), composite)
  {
    var xs := done + rest;
    RowPrefix(y, done, xs);
    KeptPrefix(before + Row(y, done), before + Row(y, xs), valid);
    SavedErrSticks(Kept(before + Row(y, done), valid), Kept(before + Row(y, xs), valid), composite);
  }

  /** A failure within the rows `done` ends the whole grid with that failure. */
  lemma CellsErrSticks(composite: (nat, nat) -> Option<PyError>, done: seq<nat>, rest: seq<nat>, xs: seq<nat>,
                       valid: (nat, nat) -> bool)
    requires Saved(Kept(Cells(done, xs), valid), composite).Err?
    ensures Saved(Kept(Cells(done + rest, xs), valid), composite) == Saved(Kept(Cells(done, xs), valid), composite)
  {
    var ys := done + rest;
    CellsPrefix(done, ys, xs);
    KeptPrefix(Cells(done, xs), Cells(ys, xs), valid);
    SavedErrSticks(Kept(Cells(done, xs), valid), Kept(Cells(ys, xs), valid), composite);
  }

  lemma {:induction false} KeptPrefix(c: seq<(nat, nat)>, d: seq<(nat, nat)>, valid: (nat, nat) -> bool)
    requires c <= d
    ensures Kept(c, valid) <= Kept(d, valid)
    decreases |d|
  {
    if |d| > |c| {
      var front := d[..|d| - 1];
      assert c <= front;
      KeptPrefix(c, front, valid);
    } else {
      assert c == d;
    }
  }

  lemma RowPrefix(y: nat, a: seq<nat>, b: seq<nat>)
    requires a <= b
    ensures Row(y, a) <= Row(y, b)
  {
  }

  lemma {:induction false} CellsPrefix(a: seq<nat>, b: seq<nat>, xs: seq<nat>)
    requires a <= b
    ensures Cells(a, xs) <= Cells(b, xs)
    decreases |b|
  {
    if |b| > |a| {
      var front := b[..|b| - 1];
      assert a <= front;
      CellsPrefix(a, front, xs);
    } else {
      assert a == b;
    }
  }

  /**
   * The run saves every valid origin exactly when no composite fails; it then
   * saves them numbered in order, and otherwise raises the first failure's error.
   */
  lemma {:induction false} SavedMeaning(kept: seq<(nat, nat)>, composite: (nat, nat) -> Option<PyError>)
    ensures Saved(kept, composite).Ok? <==>
      forall i | 0 <= i < |kept| :: composite(kept[i].0, kept[i].1).None?
    ensures Saved(kept, composite).Ok? ==> Saved(kept, composite).value == Number(kept)
    ensures forall i | 0 <= i < |kept| && composite(kept[i].0, kept[i].1).Some?
                && (forall j | 0 <= j < i :: composite(kept[j].0, kept[j].1).None?) ::
              Saved(kept, composite) == Err(composite(kept[i].0, kept[i].1).value)
  {
    if kept != [] {
      var front := kept[..|kept| - 1];
      var c := kept[|kept| - 1];
      SavedMeaning(front, composite);
      assert forall i | 0 <= i < |front| :: front[i] == kept[i];
      if Saved(front, composite).Ok? {
        assert Saved(front, composite).value == Number(front);
      }
    }
  }

  /** With all six bands loaded at B02's shape every composite succeeds. */
  lemma FullBandsSave(kept: seq<(nat, nat)>, bands: map<string, Shape>, size: nat)
    requires "B02" in bands
    requires forall j | 0 <= j < |CompositeOrder| :: CompositeOrder[j] in bands && bands[CompositeOrder[j]] == bands["B02"]
    ensures Saved(kept, CompositeAt(bands, size)) == Ok(Number(kept))
  {
    var composite := CompositeAt(bands, size);
    assert CompositeOrder[1] in bands && CompositeOrder[2] in bands && CompositeOrder[3] in bands;
    assert CompositeOrder[4] in bands && CompositeOrder[5] in bands;
    forall i | 0 <= i < |kept|
      ensures composite(kept[i].0, kept[i].1).None?
    {
      assert MissingBand(bands).None?;
      assert SameShapes(bands, kept[i].0, kept[i].1, size);
    }
    SavedMeaning(kept, composite);
  }

  /** A 300 by 300 B02 with no other band: the one origin raises `KeyError('B03')`. */
  lemma MissingBandRaises(valid: (nat, nat) -> bool)
    requires valid(0, 0)
    ensures var bands := map["B02" := Shape(300, 300)];
      Saved(Kept(Cells(Range(0, 300 - 256, 256), Range(0, 300 - 256, 256)), valid), CompositeAt(bands, 256))
        == Err(KeyError("B03"))
  {
    var bands := map["B02" := Shape(300, 300)];
    assert Range(0, 44, 256) == [0];
    assert Cells([0], [0]) == [(0, 0)] by {
      assert Cells([], [0]) == [];
    }
    assert Kept([(0, 0)], valid) == [(0, 0)] by {
      assert Kept([], valid) == [];
    }
    assert MissingBand(bands) == Some("B03");
    assert Saved([(0, 0)], CompositeAt(bands, 256)) == Err(KeyError("B03")) by {
      assert Saved([], CompositeAt(bands, 256)) == Ok([]);
    }
  }

  /** `range(from, bound, stride)` for a positive stride. */
  function Range(from: nat, bound: int, stride: nat): seq<nat>
    requires stride > 0
    decreases bound - from
  {
    if from >= bound then [] else [from] + Range(from + stride, bound, stride)
  }

  /** The grid in visiting order: row by row, each row left to right. */
  function Row(y: nat, xs: seq<nat>): (r: seq<(nat, nat)>)
    ensures |r| == |xs| && forall j | 0 <= j < |xs| :: r[j] == (y, xs[j])
  {
    seq(|xs|, j requires 0 <= j < |xs| => (y, xs[j]))
  }

  function Cells(ys: seq<nat>, xs: seq<nat>): seq<(nat, nat)>
  {
    if ys == [] then [] else Cells(ys[..|ys| - 1], xs) + Row(ys[|ys| - 1], xs)
  }

  /** The origins that pass the validity test, in visiting order. */
  function Kept(cells: seq<(nat, nat)>, valid: (nat, nat) -> bool): seq<(nat, nat)>
  {
    if cells == [] then []
    else
      var last := cells[|cells| - 1];
      Kept(cells[..|cells| - 1], valid) + (if valid(last.0, last.1) then [last] else [])
  }

  /** A saved patch: `patch_{index}.npy` with its origin. */
  datatype Patch = Patch(index: nat, y: nat, x: nat)

  function FileName(p: Patch): string {
    "patch_" + Text.NatToDecimal(p.index) + ".npy"
  }

  function Number(kept: seq<(nat, nat)>): (ps: seq<Patch>)
    ensures |ps| == |kept|
    ensures forall i | 0 <= i < |kept| :: ps[i] == Patch(i, kept[i].0, kept[i].1)
  {
    seq(|kept|, i requires 0 <= i < |kept| => Patch(i, kept[i].0, kept[i].1))
  }

  /** Moving one origin from the range still to visit to the visited ones. */
  lemma RangeAdvance(all: seq<nat>, done: seq<nat>, from: nat, bound: int, stride: nat)
    requires stride > 0 && from < bound && all == done + Range(from, bound, stride)
    ensures all == (done + [from]) + Range(from + stride, bound, stride)
  {
    RangeStep(from, bound, stride);
    var rest := Range(from + stride, bound, stride);
    assert done + ([from] + rest) == (done + [from]) + rest;
  }

  lemma RangeStep(from: nat, bound: int, stride: nat)
    requires stride > 0 && from < bound
    ensures Range(from, bound, stride) == [from] + Range(from + stride, bound, stride)
  {
  }

  lemma KeptSnoc(cells: seq<(nat, nat)>, c: (nat, nat), valid: (nat, nat) -> bool)
    ensures Kept(cells + [c], valid) == Kept(cells, valid) + (if valid(c.0, c.1) then [c] else [])
  {
    assert (cells + [c])[..|cells|] == cells;
  }

  lemma RowSnoc(y: nat, xs: seq<nat>, x: nat)
    ensures Row(y, xs + [x]) == Row(y, xs) + [(y, x)]
  {
  }

  lemma CellsSnoc(ys: seq<nat>, y: nat, xs: seq<nat>)
    ensures Cells(ys + [y], xs) == Cells(ys, xs) + Row(y, xs)
  {
    assert (ys + [y])[..|ys|] == ys;
  }

  /** The origins of `range(from, bound, stride)` are `from`, `from + stride`, ..., all below the bound. */
  lemma {:induction false} RangeMeaning(from: nat, bound: int, stride: nat)
    requires stride > 0
    ensures forall i | 0 <= i < |Range(from, bound, stride)| ::
      Range(from, bound, stride)[i] == from + i * stride && from + i * stride < bound
    decreases bound - from
  {
    if from < bound {
      var r := Range(from, bound, stride);
      var rest := Range(from + stride, bound, stride);
      assert r == [from] + rest;
      RangeMeaning(from + stride, bound, stride);
      forall i | 1 <= i < |r|
        ensures r[i] == from + i * stride
      {
        assert r[i] == rest[i - 1];
        assert i * stride == (i - 1) * stride + stride;
      }
    }
  }

  /** Every visited cell has a row from `ys` and a column from `xs`. */
  lemma {:induction false} CellsMeaning(ys: seq<nat>, xs: seq<nat>)
    ensures forall c | c in Cells(ys, xs) :: c.0 in ys && c.1 in xs
  {
    if ys != [] {
      CellsMeaning(ys[..|ys| - 1], xs);
    }
  }

  /** Kept cells are visited cells that pass the test. */
  lemma {:induction false} KeptMeaning(cells: seq<(nat, nat)>, valid: (nat, nat) -> bool)
    ensures forall c | c in Kept(cells, valid) :: c in cells && valid(c.0, c.1)
    ensures forall c | c in cells && valid(c.0, c.1) :: c in Kept(cells, valid)
  {
    if cells != [] {
      KeptMeaning(cells[..|cells| - 1], valid);
      assert cells == cells[..|cells| - 1] + [cells[|cells| - 1]];
    }
  }

  /** Every origin lies in `[from, bound)`. */
  lemma {:induction false} RangeBelow(from: nat, bound: int, stride: nat)
    requires stride > 0
    ensures forall v | v in Range(from, bound, stride) :: from <= v < bound
    decreases bound - from
  {
    if from < bound {
      RangeBelow(from + stride, bound, stride);
      assert Range(from, bound, stride) == [from] + Range(from + stride, bound, stride);
    }
  }

  /**
   * Every saved patch passes the test, sits on the stride grid and lies
   * wholly inside the band; the origin `h - patchSize` is never used.
   */
  lemma PatchesInside(h: nat, w: nat, patchSize: nat, stride: nat, valid: (nat, nat) -> bool)
    requires stride > 0
    ensures var ys := Range(0, h - patchSize, stride);
      var xs := Range(0, w - patchSize, stride);
      var ps := Number(Kept(Cells(ys, xs), valid));
      forall i | 0 <= i < |ps| ::
        ps[i].index == i && valid(ps[i].y, ps[i].x) && ps[i].y in ys && ps[i].x in xs
        && ps[i].y + patchSize < h && ps[i].x + patchSize < w
  {
    var ys := Range(0, h - patchSize, stride);
    var xs := Range(0, w - patchSize, stride);
    KeptInside(h, w, patchSize, stride, valid);
    var kept := Kept(Cells(ys, xs), valid);
    assert forall i | 0 <= i < |kept| :: kept[i] in kept;
  }

  /** Every kept origin passes the test, lies on the grid and leaves room for a whole patch. */
  lemma KeptInside(h: nat, w: nat, patchSize: nat, stride: nat, valid: (nat, nat) -> bool)
    requires stride > 0
    ensures var ys := Range(0, h - patchSize, stride);
      var xs := Range(0, w - patchSize, stride);
      forall c | c in Kept(Cells(ys, xs), valid) ::
        valid(c.0, c.1) && c.0 in ys && c.1 in xs && c.0 + patchSize < h && c.1 + patchSize < w
  {
    var ys := Range(0, h - patchSize, stride);
    var xs := Range(0, w - patchSize, stride);
    var cells := Cells(ys, xs);
    RangeBelow(0, h - patchSize, stride);
    RangeBelow(0, w - patchSize, stride);
    CellsMeaning(ys, xs);
    KeptMeaning(cells, valid);
    forall c | c in Kept(cells, valid)
      ensures valid(c.0, c.1) && c.0 in ys && c.1 in xs && c.0 + patchSize < h && c.1 + patchSize < w
    {
      assert c in cells;
      assert c.0 < h - patchSize && c.1 < w - patchSize;
    }
  }

  /** Distinct indices give distinct file names, so no saved patch overwrites another. */
  lemma PatchNamesDistinct(p: Patch, q: Patch)
    requires p.index != q.index
    ensures FileName(p) != FileName(q)
  {
    var a := Text.NatToDecimal(p.index);
    var b := Text.NatToDecimal(q.index);
    if FileName(p) == FileName(q) {
      assert |a| == |b|;
      assert FileName(p)[6..6 + |a|] == a;
      assert FileName(q)[6..6 + |b|] == b;
      Text.DecimalInjective(p.index, q.index);
    }
  }
}
