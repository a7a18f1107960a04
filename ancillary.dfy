/** The ancillary-data selection rules of wagl/ancillary.py: the level
    indices of a 4-D dataset stored as 3-D, the rule that sample points
    fall on distinct pixels, the default sample grid, the guards of
    `collect_ancillary`, and the tiered choice of aerosol, ozone, water
    vapour and elevation values. File reads, the geometry library and the
    clock are parameters: a read's outcome is given as a `PixelRead`. */
module Ancillary {
  import opened Wrappers
  import opened Numeric
  import opened Text
  import opened TrackBisection

  /** The exceptions the selection rules raise. */
  datatype Failure =
    | KeyError(key: string)
    | AncillaryError(message: string)
    | RuntimeError
    | IndexError
    | ValueError

  /** The outcome of reading one pixel from a dataset (`get_pixel`). */
  datatype PixelRead = Pixel(value: real) | PixelIndexError | PixelValueError

  // ---------------------------------------------------------------------
  // get_4d_idx

  /** The 37 pressure-level indices of day `day` in a dataset that stores
      [day, level] as one axis, starting at index 1. */
  function Get4dIdx(day: int): (r: seq<int>)
    ensures |r| == 37
    ensures r[0] == 1 + 37 * (day - 1)
    ensures forall k :: 0 <= k < 36 ==> r[k + 1] == r[k] + 1
  {
    seq(37, k requires 0 <= k < 37 => 1 + 37 * (day - 1) + k)
  }

  /** Every index from 1 on belongs to exactly one day, and the days are
      laid out back to back. */
  lemma Get4dIdxPartition(day: int, n: int)
    requires n >= 1
    ensures n in Get4dIdx(day) <==> day == (n - 1) / 37 + 1
    ensures Get4dIdx(day)[36] + 1 == Get4dIdx(day + 1)[0]
  {
    var r := Get4dIdx(day);
    if n in r {
      var k :| 0 <= k < 37 && r[k] == n;
      assert n - 1 == 37 * (day - 1) + k;
    }
    if day == (n - 1) / 37 + 1 {
      var k := (n - 1) % 37;
      assert r[k] == n;
    }
  }

  // ---------------------------------------------------------------------
  // check_interpolation_sample_geometry

  /** The elements of a sequence, as a Python set comprehension builds them. */
  function Elements<T(==)>(s: seq<T>): set<T>
  {
    set i | 0 <= i < |s| :: s[i]
  }

  predicate Distinct<T(==)>(s: seq<T>)
  {
    forall i, j :: 0 <= i < j < |s| ==> s[i] != s[j]
  }

  /** A sequence has as many distinct elements as entries exactly when no
      two entries are equal. */
  lemma {:induction false} ElementsCard<T>(s: seq<T>)
    ensures |Elements(s)| <= |s|
    ensures |Elements(s)| == |s| <==> Distinct(s)
  {
    if |s| > 0 {
      var t := s[..|s| - 1];
      var x := s[|s| - 1];
      ElementsCard(t);
      assert Elements(s) == Elements(t) + {x};
      if x in Elements(t) {
        var i :| 0 <= i < |t| && t[i] == x;
        assert s[i] == s[|s| - 1];
      } else {
        assert Distinct(t) ==> Distinct(s);
      }
    }
  }

  /** The pixel of a coordinator record in a group's raster: the inverse
      geotransform of its map coordinates, cast to int (truncation). */
  function SamplePixel(inverse: Affine, c: Coordinator): Location
  {
    var x := c.mapX as real;
    var y := c.mapY as real;
    (Trunc(inverse.d * x + inverse.e * y + inverse.f), Trunc(inverse.a * x + inverse.b * y + inverse.c))
  }

  function SamplePixels(inverse: Affine, coordinator: seq<Coordinator>): (r: seq<Location>)
    ensures |r| == |coordinator|
  {
    seq(|coordinator|, i requires 0 <= i < |coordinator| => SamplePixel(inverse, coordinator[i]))
  }

  /** `check_interpolation_sample_geometry`: the coordinator has as many
      records as distinct pixels. */
  function CheckSampleGeometry(inverse: Affine, coordinator: seq<Coordinator>): (r: bool)
    ensures r <==> Distinct(SamplePixels(inverse, coordinator))
  {
    ElementsCard(SamplePixels(inverse, coordinator));
    |coordinator| == |Elements(SamplePixels(inverse, coordinator))|
  }

  // ---------------------------------------------------------------------
  // default_interpolation_grid

  /** Every grid row can index the boxline (Python indexing). */
  predicate RowsIndexable(boxline: seq<BoxLine>, gridRows: seq<int>)
  {
    forall i :: 0 <= i < |gridRows| ==> PyIndexable(gridRows[i], |boxline|)
  }

  /** The raster rows sampled by the default grid: an int32 linspace from
      0 to `rows - 1`. */
  function DefaultGridRows(rows: nat, v0: nat): seq<int>
  {
    Linspace(0, rows - 1, v0, true)
  }

  /** The grid line of one boxline record: `v1` columns spread evenly over
      its swathe, stored as int64. */
  function DefaultLine(b: BoxLine, v1: nat): seq<int>
  {
    Linspace(b.startIndex, b.endIndex, v1, true)
  }

  /** The locations of one grid row on raster row `ir`. */
  function DefaultRow(boxline: seq<BoxLine>, v1: nat, ir: int): (r: seq<Location>)
    requires PyIndexable(ir, |boxline|)
    ensures |r| == v1
  {
    var line := DefaultLine(boxline[PyIndex(ir, |boxline|)], v1);
    seq(v1, j requires 0 <= j < v1 => (ir, line[j]))
  }

  /** The default sample grid in row-major order. */
  function DefaultSamples(boxline: seq<BoxLine>, v1: nat, gridRows: seq<int>): (r: seq<Location>)
    requires RowsIndexable(boxline, gridRows)
    ensures |r| == |gridRows| * v1
    decreases |gridRows|
  {
    if |gridRows| == 0 then []
    else
      var n := |gridRows| - 1;
      assert RowsIndexable(boxline, gridRows[..n]);
      DefaultSamples(boxline, v1, gridRows[..n]) + DefaultRow(boxline, v1, gridRows[n])
  }

  /** What `default_interpolation_grid` returns: the coordinator of the
      default grid, or the IndexError of a grid row outside the boxline. */
  function DefaultGrid(rows: nat, boxline: seq<BoxLine>, v0: nat, v1: nat,
                       transform: Affine, project: (int, int) -> (real, real))
    : Result<seq<Coordinator>, Failure>
  {
    var gridRows := DefaultGridRows(rows, v0);
    if RowsIndexable(boxline, gridRows)
    then Ok(ToCoordinators(transform, project, DefaultSamples(boxline, v1, gridRows)))
    else Err(IndexError)
  }

  /** `default_interpolation_grid`: writes the grid row by row. */
  method DefaultInterpolationGrid(rows: nat, boxline: seq<BoxLine>, v0: nat, v1: nat,
                                  transform: Affine, project: (int, int) -> (real, real))
    returns (r: Result<seq<Coordinator>, Failure>)
    ensures r == DefaultGrid(rows, boxline, v0, v1, transform, project)
  {
    var gridRows := Linspace(0, rows - 1, v0, true);
    var locations: seq<Location> := [];
    for ig := 0 to |gridRows|
      invariant RowsIndexable(boxline, gridRows[..ig])
      invariant locations == DefaultSamples(boxline, v1, gridRows[..ig])
    {
      var ir := gridRows[ig];
      if !PyIndexable(ir, |boxline|) {
        return Err(IndexError);
      }
      assert gridRows[..ig + 1][..ig] == gridRows[..ig];
      locations := locations + DefaultRow(boxline, v1, ir);
    }
    assert gridRows[..|gridRows|] == gridRows;
    r := Ok(ToCoordinators(transform, project, locations));
  }

  lemma MulStep(a: nat, b: nat, v: nat)
    requires a < b
    ensures a * v + v <= b * v
  {
    var d := b - a;
    assert b * v == a * v + d * v;
    assert d * v == v + (d - 1) * v;
  }

  /** Entry `ig * v1 + j` of the default samples is column j of grid row ig. */
  lemma {:induction false} DefaultSamplesAt(boxline: seq<BoxLine>, v1: nat, gridRows: seq<int>, ig: nat, j: nat)
    requires RowsIndexable(boxline, gridRows)
    requires ig < |gridRows| && j < v1
    ensures ig * v1 + j < |DefaultSamples(boxline, v1, gridRows)|
    ensures DefaultSamples(boxline, v1, gridRows)[ig * v1 + j]
         == (gridRows[ig], DefaultLine(boxline[PyIndex(gridRows[ig], |boxline|)], v1)[j])
    decreases |gridRows|
  {
    var n := |gridRows| - 1;
    var prefix := gridRows[..n];
    assert RowsIndexable(boxline, prefix);
    MulStep(ig, n + 1, v1);
    if ig < n {
      DefaultSamplesAt(boxline, v1, prefix, ig, j);
      MulStep(ig, n, v1);
    }
  }

  /** The default grid cannot fail on a boxline with one record per raster
      row, and fails on an empty raster. */
  lemma DefaultGridSucceeds(rows: nat, boxline: seq<BoxLine>, v0: nat, v1: nat,
                            transform: Affine, project: (int, int) -> (real, real))
    ensures 1 <= rows == |boxline| ==> DefaultGrid(rows, boxline, v0, v1, transform, project).Ok?
    ensures rows == 0 == |boxline| && 1 <= v0 ==> DefaultGrid(rows, boxline, v0, v1, transform, project).Err?
  {
    if 1 <= rows {
      LinspaceBounds(0, rows - 1, v0, true);
    }
    if rows == 0 && 1 <= v0 && |boxline| == 0 {
      assert !PyIndexable(DefaultGridRows(rows, v0)[0], |boxline|);
    }
  }

  /** A default grid has `v0 * v1` records in row-major order; its rows run
      from 0 to `rows - 1` without decreasing, and each row's columns run
      from the swathe start to the swathe end. */
  lemma DefaultGridLayout(rows: nat, boxline: seq<BoxLine>, v0: nat, v1: nat,
                          transform: Affine, project: (int, int) -> (real, real), ig: nat, j: nat)
    requires 1 <= rows == |boxline|
    requires ig < v0 && j < v1
    ensures DefaultGrid(rows, boxline, v0, v1, transform, project).Ok?
    ensures |DefaultGrid(rows, boxline, v0, v1, transform, project).value| == v0 * v1
    ensures ig * v1 + j < v0 * v1
    ensures var ir := DefaultGridRows(rows, v0)[ig];
      var c := DefaultGrid(rows, boxline, v0, v1, transform, project).value[ig * v1 + j];
      0 <= ir < rows && c.rowIndex == ir && c.colIndex == DefaultLine(boxline[ir], v1)[j]
    ensures DefaultGridRows(rows, v0)[0] == 0
    ensures 2 <= v0 ==> DefaultGridRows(rows, v0)[v0 - 1] == rows - 1
    ensures forall a, b :: 0 <= a <= b < v0 ==> DefaultGridRows(rows, v0)[a] <= DefaultGridRows(rows, v0)[b]
    ensures var b := boxline[DefaultGridRows(rows, v0)[ig]];
      0 <= b.startIndex <= b.endIndex ==> b.startIndex <= DefaultLine(b, v1)[j] <= b.endIndex
  {
    DefaultGridSucceeds(rows, boxline, v0, v1, transform, project);
    LinspaceBounds(0, rows - 1, v0, true);
    var gridRows := DefaultGridRows(rows, v0);
    DefaultSamplesAt(boxline, v1, gridRows, ig, j);
    var b := boxline[gridRows[ig]];
    if 0 <= b.startIndex <= b.endIndex {
      LinspaceBounds(b.startIndex, b.endIndex, v1, true);
    }
  }

  // ---------------------------------------------------------------------
  // collect_ancillary guards

  /** The coordinator `collect_ancillary` stores: it refuses a container of
      several granules, keeps the track-based `vertices` when their samples
      fall on distinct pixels in every supported group (given by the
      inverse geotransform of the group's first acquisition), and otherwise
      overwrites them with the default grid. */
  method CollectCoordinator(granules: nat, vertices: seq<Coordinator>, inverses: seq<Affine>,
                            rows: nat, boxline: seq<BoxLine>, v0: nat, v1: nat,
                            transform: Affine, project: (int, int) -> (real, real))
    returns (r: Result<seq<Coordinator>, Failure>)
    ensures granules > 1 ==> r == Err(RuntimeError)
    ensures granules <= 1 && (forall g :: 0 <= g < |inverses| ==> Distinct(SamplePixels(inverses[g], vertices)))
      ==> r == Ok(vertices)
    ensures granules <= 1 && (exists g :: 0 <= g < |inverses| && !Distinct(SamplePixels(inverses[g], vertices)))
      ==> r == DefaultGrid(rows, boxline, v0, v1, transform, project)
  {
    if granules > 1 {
      return Err(RuntimeError);
    }
    r := Ok(vertices);
    var allUnique := true;
    for g := 0 to |inverses|
      invariant allUnique <==> forall h :: 0 <= h < g ==> Distinct(SamplePixels(inverses[h], vertices))
    {
      allUnique := allUnique && CheckSampleGeometry(inverses[g], vertices);
    }
    if !allUnique {
      r := DefaultInterpolationGrid(rows, boxline, v0, v1, transform, project);
    }
  }

  // ---------------------------------------------------------------------
  // get_aerosol_data

  /** Aerosol tiers; a higher value takes precedence. */
  datatype AerosolTier = AerosolFallbackDefault | AatsrCmpMonth | AatsrCmpYearMonth | AatsrPix | AerosolUser

  function AerosolTierValue(t: AerosolTier): nat
  {
    match t
    case AerosolFallbackDefault => 0
    case AatsrCmpMonth => 1
    case AatsrCmpYearMonth => 2
    case AatsrPix => 3
    case AerosolUser => 4
  }

  /** The default aerosol value used when every source fails. */
  const DefaultAerosol: real := 0.06

  /** The keys of the aerosol dictionary: the HDF5 file and a user value. */
  datatype AerosolDict = AerosolDict(pathname: Option<string>, user: Option<real>)

  /** One record of an aerosol table: its time offset from the acquisition
      in days, its aerosol value, and whether its point lies inside the
      intersection of the table's extents with the scene. */
  datatype AerosolRecord = AerosolRecord(offsetDays: real, aerosol: real, within: bool)

  /** The three aerosol tables of the file for the acquisition date; None
      when the table is absent or its extents miss the scene. */
  datatype AerosolFile = AerosolFile(pix: Option<seq<AerosolRecord>>,
                                     cmpYearMonth: Option<seq<AerosolRecord>>,
                                     cmpMonth: Option<seq<AerosolRecord>>)

  /** The sources in the order they are tried. */
  function AerosolSources(file: AerosolFile): (r: seq<(AerosolTier, Option<seq<AerosolRecord>>)>)
    ensures |r| == 3
  {
    [(AatsrPix, file.pix), (AatsrCmpYearMonth, file.cmpYearMonth), (AatsrCmpMonth, file.cmpMonth)]
  }

  /** The records within half a day of the acquisition. */
  function Recent(records: seq<AerosolRecord>): (r: seq<AerosolRecord>)
    ensures forall x :: x in r <==> x in records && -0.5 < x.offsetDays < 0.5
  {
    if |records| == 0 then []
    else
      var rest := Recent(records[1..]);
      assert forall x :: x in records <==> x == records[0] || x in records[1..];
      if -0.5 < records[0].offsetDays < 0.5 then [records[0]] + rest else rest
  }

  /** The aerosol values of the records inside the scene. */
  function WithinValues(records: seq<AerosolRecord>): (r: seq<real>)
    ensures |r| <= |records|
    ensures forall v :: v in r <==> exists x :: x in records && x.within && x.aerosol == v
  {
    if |records| == 0 then []
    else
      var rest := WithinValues(records[1..]);
      assert forall x :: x in records <==> x == records[0] || x in records[1..];
      if records[0].within then [records[0].aerosol] + rest else rest
  }

  function Sum(values: seq<real>): real
  {
    if |values| == 0 then 0.0 else values[0] + Sum(values[1..])
  }

  /** The arithmetic mean of a non-empty sequence (pandas `mean`). */
  function Mean(values: seq<real>): real
    requires |values| > 0
  {
    Sum(values) / |values| as real
  }

  lemma {:induction false} SumBounds(values: seq<real>, lo: real, hi: real)
    requires forall k :: 0 <= k < |values| ==> lo <= values[k] <= hi
    ensures |values| as real * lo <= Sum(values) <= |values| as real * hi
  {
    if |values| > 0 {
      SumBounds(values[1..], lo, hi);
    }
  }

  /** The mean lies between any bounds of the values. */
  lemma MeanBounds(values: seq<real>, lo: real, hi: real)
    requires |values| > 0
    requires forall k :: 0 <= k < |values| ==> lo <= values[k] <= hi
    ensures lo <= Mean(values) <= hi
  {
    SumBounds(values, lo, hi);
    var n := |values| as real;
    assert n * lo / n == lo && n * hi / n == hi;
    DivMonotone(n * lo, Sum(values), n);
    DivMonotone(Sum(values), n * hi, n);
  }

  /** The finite mean one source yields, if any: the PIX table is first
      narrowed to records within half a day; an empty table, or one whose
      records all lie outside the scene (a NaN mean), yields nothing. */
  function SourceMean(tier: AerosolTier, table: Option<seq<AerosolRecord>>): Option<real>
  {
    if table.None? then None
    else
      var df := if tier == AatsrPix then Recent(table.value) else table.value;
      var values := WithinValues(df);
      if |df| == 0 || |values| == 0 then None else Some(Mean(values))
  }

  /** `(value, tier)` is the first source, in order, with a finite mean, or
      the default when none has one. */
  predicate AerosolChosen(file: AerosolFile, value: real, tier: AerosolTier)
  {
    var sources := AerosolSources(file);
    (tier == AerosolFallbackDefault && value == DefaultAerosol &&
     forall k :: 0 <= k < 3 ==> SourceMean(sources[k].0, sources[k].1).None?) ||
    (exists k :: 0 <= k < 3 && sources[k].0 == tier && SourceMean(sources[k].0, sources[k].1) == Some(value) &&
      forall i :: 0 <= i < k ==> SourceMean(sources[i].0, sources[i].1).None?)
  }

  /** `get_aerosol_data`. The file name is looked up before the user value,
      so a dictionary without `pathname` raises KeyError even when it holds
      a user value. */
  method GetAerosolData(dict: AerosolDict, file: AerosolFile) returns (r: Result<(real, AerosolTier), Failure>)
    ensures dict.pathname.None? ==> r == Err(KeyError("pathname"))
    ensures dict.pathname.Some? && dict.user.Some? ==> r == Ok((dict.user.value, AerosolUser))
    ensures dict.pathname.Some? && dict.user.None? ==> r.Ok? && AerosolChosen(file, r.value.0, r.value.1)
  {
    if dict.pathname.None? {
      return Err(KeyError("pathname"));
    }
    if dict.user.Some? {
      return Ok((dict.user.value, AerosolUser));
    }
    var sources := AerosolSources(file);
    for k := 0 to 3
      invariant forall i :: 0 <= i < k ==> SourceMean(sources[i].0, sources[i].1).None?
    {
      var mean := SourceMean(sources[k].0, sources[k].1);
      if mean.Some? {
        return Ok((mean.value, sources[k].0));
      }
    }
    return Ok((DefaultAerosol, AerosolFallbackDefault));
  }

  /** The chosen tier outranks every other source with a finite mean, so
      the default is never chosen while some source has one. */
  lemma AerosolPrecedence(file: AerosolFile, value: real, tier: AerosolTier, k: nat)
    requires AerosolChosen(file, value, tier)
    requires k < 3 && SourceMean(AerosolSources(file)[k].0, AerosolSources(file)[k].1).Some?
    ensures AerosolTierValue(AerosolSources(file)[k].0) <= AerosolTierValue(tier)
    ensures tier != AerosolFallbackDefault
  {
  }

  // ---------------------------------------------------------------------
  // get_ozone_data

  datatype OzoneTier = OzoneDefinitive | OzoneUser

  /** The ozone value used inside the fallback area (atm-cm). */
  const FallbackOzone: real := 0.275

  /** The corners of the ozone fallback area, as (longitude, latitude). */
  const OzoneArea: seq<(real, real)> := [(70.3, -56.7), (170.0, -56.7), (170.0, -7.8), (70.3, -7.8)]

  /** Twice the signed area of the triangle (a, b, p): positive when p lies
      to the left of the directed edge a -> b. */
  function Cross(a: (real, real), b: (real, real), p: (real, real)): real
  {
    (b.0 - a.0) * (p.1 - a.1) - (b.1 - a.1) * (p.0 - a.0)
  }

  /** A point in the interior of a convex polygon listed anticlockwise:
      strictly left of every edge (shapely's `contains`). */
  predicate InsideConvex(polygon: seq<(real, real)>, p: (real, real))
  {
    forall k :: 0 <= k < |polygon| ==> 0.0 < Cross(polygon[k], polygon[if k + 1 == |polygon| then 0 else k + 1], p)
  }

  /** The fallback area is the open rectangle of longitudes 70.3 to 170 and
      latitudes -56.7 to -7.8: its boundary is excluded. */
  lemma OzoneAreaIsRectangle(lon: real, lat: real)
    ensures InsideConvex(OzoneArea, (lon, lat)) <==> 70.3 < lon < 170.0 && -56.7 < lat < -7.8
  {
    var p := (lon, lat);
    assert Cross(OzoneArea[0], OzoneArea[1], p) == 99.7 * (lat + 56.7);
    assert Cross(OzoneArea[1], OzoneArea[2], p) == -48.9 * (lon - 170.0);
    assert Cross(OzoneArea[2], OzoneArea[3], p) == -99.7 * (lat + 7.8);
    assert Cross(OzoneArea[3], OzoneArea[0], p) == 48.9 * (lon - 70.3);
  }

  const MonthAbbrevs: seq<string> := ["jan", "feb", "mar", "apr", "may", "jun",
                                      "jul", "aug", "sep", "oct", "nov", "dec"]

  /** `get_ozone_data`: reads the month's dataset (`strftime("%b").lower()`)
      at the scene centre; a read beyond the dataset (IndexError) falls
      back to 0.275 inside the fallback area and fails outside it. */
  function GetOzoneData(read: string -> PixelRead, month: nat, lon: real, lat: real)
    : (r: Result<(real, OzoneTier), Failure>)
    requires 1 <= month <= 12
    ensures read(MonthAbbrevs[month - 1]).Pixel? <==> r.Ok? && r.value.1 == OzoneDefinitive
    ensures r.Ok? && r.value.1 == OzoneDefinitive ==> r.value.0 == read(MonthAbbrevs[month - 1]).value
    ensures r.Ok? && r.value.1 == OzoneUser <==>
      read(MonthAbbrevs[month - 1]).PixelIndexError? && 70.3 < lon < 170.0 && -56.7 < lat < -7.8
    ensures r.Ok? && r.value.1 == OzoneUser ==> r.value.0 == FallbackOzone
    ensures r == Err(AncillaryError("No Ozone data")) <==>
      read(MonthAbbrevs[month - 1]).PixelIndexError? && !(70.3 < lon < 170.0 && -56.7 < lat < -7.8)
  {
    OzoneAreaIsRectangle(lon, lat);
    match read(MonthAbbrevs[month - 1])
    case Pixel(v) => Ok((v, OzoneDefinitive))
    case PixelIndexError =>
      if InsideConvex(OzoneArea, (lon, lat)) then Ok((FallbackOzone, OzoneUser))
      else Err(AncillaryError("No Ozone data"))
    case PixelValueError => Err(ValueError)
  }

  // ---------------------------------------------------------------------
  // get_elevation_data

  const ElevationScale: real := 0.001

  /** `get_elevation_data`: onshore, the path names a file and a dataset
      separated by ':'; offshore, it names a raster. Any ValueError (a path
      that does not split into exactly two parts, or a read outside the
      dataset) becomes AncillaryError; values are scaled from metres to
      kilometres. */
  function GetElevationData(pathname: string, offshore: bool,
                            readDataset: (string, string) -> PixelRead, readRaster: string -> PixelRead)
    : (r: Result<real, Failure>)
    ensures r.Err? ==> r.error == IndexError || r.error == AncillaryError("No Elevation data")
  {
    var read :=
      if offshore then readRaster(pathname)
      else
        var parts := Split(pathname, ":");
        if |parts| != 2 then PixelValueError else readDataset(parts[0], parts[1]);
    match read
    case Pixel(v) => Ok(v * ElevationScale)
    case PixelValueError => Err(AncillaryError("No Elevation data"))
    case PixelIndexError => Err(IndexError)
  }

  /** Onshore, a path without exactly one ':' always fails with
      AncillaryError; with exactly one, the file and dataset read are the
      parts on either side of it. */
  lemma ElevationPath(pathname: string, readDataset: (string, string) -> PixelRead, readRaster: string -> PixelRead)
    ensures Count(pathname, ':') != 1 ==>
      GetElevationData(pathname, false, readDataset, readRaster) == Err(AncillaryError("No Elevation data"))
    ensures Count(pathname, ':') == 1 ==>
      exists f, d :: (pathname == f + ":" + d && !Contains(f, ":") &&
        match readDataset(f, d)
        case Pixel(v) => GetElevationData(pathname, false, readDataset, readRaster) == Ok(v * ElevationScale)
        case PixelValueError => GetElevationData(pathname, false, readDataset, readRaster) == Err(AncillaryError("No Elevation data"))
        case PixelIndexError => GetElevationData(pathname, false, readDataset, readRaster) == Err(IndexError))
  {
    SplitCount(pathname, ':');
    JoinSplit(pathname, ":");
    if Count(pathname, ':') == 1 {
      var parts := Split(pathname, ":");
      assert Join(parts, ":") == parts[0] + ":" + parts[1];
      assert !Contains(parts[0], ":");
    }
  }

  // ---------------------------------------------------------------------
  // get_water_vapour

  /** Water vapour tiers; a higher value takes precedence. */
  datatype WaterVapourTier = WaterVapourFallbackDefault | WaterVapourFallbackDataset
                           | WaterVapourDefinitive | WaterVapourUser

  /** The keys of the water vapour dictionary. */
  datatype WaterVapourDict = WaterVapourDict(pathname: Option<string>, user: Option<real>,
                                             fallbackDataset: Option<string>)

  /** One record of a definitive file's INDEX table: its timestamp minus
      the acquisition time, in days, and its dataset name. */
  datatype IndexRecord = IndexRecord(deltaDays: real, datasetName: string)

  /** Water vapour values are stored in kg/m^2 and returned in g/cm^2. */
  const WaterVapourScale: real := 0.1

  /** The hours of the fallback observations. */
  const Observations: seq<int> := [0, 6, 12, 18]

  function Abs(x: int): nat
  {
    if x < 0 then -x else x
  }

  /** `numpy.argmin(abs(hour - obs))` over `obs[..n]`: the first index of
      least distance. */
  function Nearest(obs: seq<int>, hour: int, n: nat): (r: nat)
    requires 1 <= n <= |obs|
    ensures r < n
    ensures forall k :: 0 <= k < n ==> Abs(hour - obs[r]) <= Abs(hour - obs[k])
    ensures forall k :: 0 <= k < r ==> Abs(hour - obs[r]) < Abs(hour - obs[k])
  {
    if n == 1 then 0
    else
      var p := Nearest(obs, hour, n - 1);
      if Abs(hour - obs[n - 1]) < Abs(hour - obs[p]) then n - 1 else p
  }

  /** The observation hour a fallback read uses. */
  function ObservationHour(hour: int): (r: int)
    ensures r in Observations
    ensures forall o :: o in Observations ==> Abs(hour - r) <= Abs(hour - o)
  {
    Observations[Nearest(Observations, hour, 4)]
  }

  /** Each hour reads the observation of its band of the day: up to 3 the
      midnight one, up to 9 the 6 o'clock one, up to 15 the noon one, and
      18 after that; a tie goes to the earlier observation. */
  lemma ObservationHourBands(hour: int)
    ensures ObservationHour(hour) == if hour <= 3 then 0 else if hour <= 9 then 6 else if hour <= 15 then 12 else 18
  {
    assert Nearest(Observations, hour, 2) == if hour <= 3 then 0 else 1;
    assert Nearest(Observations, hour, 3) == if hour <= 3 then 0 else if hour <= 9 then 1 else 2;
    assert Nearest(Observations, hour, 4) == if hour <= 3 then 0 else if hour <= 9 then 1 else if hour <= 15 then 2 else 3;
  }

  /** Hours between two observations take the nearer one and ties take
      the earlier one: 17 gives 18, 15 gives 12 and 3 gives 0; the late
      evening takes 18. */
  lemma ObservationHourExamples()
    ensures ObservationHour(17) == 18
    ensures ObservationHour(15) == 12
    ensures ObservationHour(3) == 0
    ensures ObservationHour(23) == 18
  {
    ObservationHourBands(17);
    ObservationHourBands(15);
    ObservationHourBands(3);
    ObservationHourBands(23);
  }

  const MonthNames: seq<string> := ["January", "February", "March", "April", "May", "June", "July",
                                    "August", "September", "October", "November", "December"]

  /** `AVERAGE/<MONTH-DD>/<hh>00`: the fallback dataset for a date and hour. */
  function FallbackDatasetName(month: nat, day: nat, hour: int): string
    requires 1 <= month <= 12
  {
    "AVERAGE/" + Upper(MonthNames[month - 1] + "-" + Padded(day, 2)) + "/" + Padded(ObservationHour(hour) as nat, 2) + "00"
  }

  lemma FallbackDatasetNameExample()
    ensures FallbackDatasetName(1, 5, 17) == "AVERAGE/JANUARY-05/1800"
  {
    PaddedExamples();
    UpperExample();
    assert ObservationHour(17) == 18;
  }

  lemma PaddedExamples()
    ensures Padded(5, 2) == "05" && Padded(18, 2) == "18"
  {
    assert NatToString(5) == "5";
    assert NatToString(18) == NatToString(1) + "8";
  }

  lemma UpperExample()
    ensures Upper("January-05") == "JANUARY-05"
  {
  }

  /** A record within the search window: in the past, by less than a day. */
  predicate InWindow(r: IndexRecord)
  {
    -1.0 < r.deltaDays < 0.0
  }

  /** `idxmax` of the time deltas in the window, among the first n records:
      the first record of the latest previous observation. */
  function LatestPrevious(index: seq<IndexRecord>, n: nat): (r: Option<nat>)
    requires n <= |index|
    ensures r.None? <==> forall k :: 0 <= k < n ==> !InWindow(index[k])
    ensures r.Some? ==> r.value < n && InWindow(index[r.value])
    ensures r.Some? ==> forall k :: 0 <= k < n && InWindow(index[k]) ==> index[k].deltaDays <= index[r.value].deltaDays
    ensures r.Some? ==> forall k :: 0 <= k < r.value && InWindow(index[k]) ==> index[k].deltaDays < index[r.value].deltaDays
  {
    if n == 0 then None
    else
      var p := LatestPrevious(index, n - 1);
      if !InWindow(index[n - 1]) then p
      else if p.None? || index[p.value].deltaDays < index[n - 1].deltaDays then Some(n - 1)
      else p
  }

  /** `find_water_vapour_definitive_path`. */
  function DefinitivePath(pathname: string, year: nat): string
  {
    PathJoin(pathname, "pr_wtr.eatm." + NatToString(year) + ".h5")
  }

  /** `get_water_vapour` for an acquisition at `year-month-day hour`:
      `isFile` and `readIndex` stand for the file system and the INDEX
      table, `read` for `get_pixel` at the scene centre. */
  function GetWaterVapour(dict: WaterVapourDict, year: nat, month: nat, day: nat, hour: int,
                          isFile: string -> bool, readIndex: string -> seq<IndexRecord>,
                          read: (string, string) -> PixelRead)
    : (r: Result<(real, WaterVapourTier), Failure>)
    requires 1 <= month <= 12
    ensures dict.pathname.None? ==> r == Err(KeyError("pathname"))
    ensures dict.pathname.Some? && dict.user.Some? ==> r == Ok((dict.user.value, WaterVapourUser))
    ensures r.Ok? ==> r.value.1 != WaterVapourFallbackDefault
    ensures dict.pathname.Some? && dict.user.None? ==>
      var datafile := DefinitivePath(dict.pathname.value, year);
      var found := isFile(datafile) && LatestPrevious(readIndex(datafile), |readIndex(datafile)|).Some?;
      (!found && dict.fallbackDataset.None? ==> r == Err(AncillaryError("No actual or fallback water vapour data."))) &&
      (r.Ok? ==> r.value.1 == (if found then WaterVapourDefinitive else WaterVapourFallbackDataset)) &&
      (!found && dict.fallbackDataset.Some? ==>
        match read(dict.fallbackDataset.value, FallbackDatasetName(month, day, hour))
        case Pixel(v) => r == Ok((v * WaterVapourScale, WaterVapourFallbackDataset))
        case PixelValueError => r == Err(AncillaryError("No Water Vapour data"))
        case PixelIndexError => r == Err(IndexError))
  {
    if dict.pathname.None? then Err(KeyError("pathname"))
    else
      var datafile := DefinitivePath(dict.pathname.value, year);
      if dict.user.Some? then Ok((dict.user.value, WaterVapourUser))
      else
        var index := if isFile(datafile) then readIndex(datafile) else [];
        var latest := LatestPrevious(index, |index|);
        if !isFile(datafile) || latest.None? then
          if dict.fallbackDataset.None? then Err(AncillaryError("No actual or fallback water vapour data."))
          else ReadWaterVapour(read(dict.fallbackDataset.value, FallbackDatasetName(month, day, hour)),
                               WaterVapourFallbackDataset)
        else ReadWaterVapour(read(datafile, index[latest.value].datasetName), WaterVapourDefinitive)
  }

  /** The scaled value of a water vapour read, or its error. */
  function ReadWaterVapour(read: PixelRead, tier: WaterVapourTier): (r: Result<(real, WaterVapourTier), Failure>)
    ensures r.Ok? <==> read.Pixel?
    ensures r.Ok? ==> r.value.1 == tier
    ensures read.PixelValueError? ==> r == Err(AncillaryError("No Water Vapour data"))
  {
    match read
    case Pixel(v) => Ok((v * WaterVapourScale, tier))
    case PixelValueError => Err(AncillaryError("No Water Vapour data"))
    case PixelIndexError => Err(IndexError)
  }

  /** A definitive read uses the latest observation less than a day before
      the acquisition. */
  lemma DefinitiveReadsLatest(dict: WaterVapourDict, year: nat, month: nat, day: nat, hour: int,
                              isFile: string -> bool, readIndex: string -> seq<IndexRecord>,
                              read: (string, string) -> PixelRead)
    requires 1 <= month <= 12
    requires dict.pathname.Some? && dict.user.None?
    requires isFile(DefinitivePath(dict.pathname.value, year))
    requires exists k :: (0 <= k < |readIndex(DefinitivePath(dict.pathname.value, year))| &&
      InWindow(readIndex(DefinitivePath(dict.pathname.value, year))[k]))
    ensures var datafile := DefinitivePath(dict.pathname.value, year);
      var index := readIndex(datafile);
      exists k :: (0 <= k < |index| && InWindow(index[k]) &&
        (forall i :: 0 <= i < |index| && InWindow(index[i]) ==> index[i].deltaDays <= index[k].deltaDays) &&
        GetWaterVapour(dict, year, month, day, hour, isFile, readIndex, read)
          == ReadWaterVapour(read(datafile, index[k].datasetName), WaterVapourDefinitive))
  {
    var index := readIndex(DefinitivePath(dict.pathname.value, year));
    var latest := LatestPrevious(index, |index|);
    assert latest.Some?;
  }
}
