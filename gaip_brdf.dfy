/** BRDF selection and extraction of the older `gaip` package: the nearest
    pre-MODIS day-of-year directory, the nearest MODIS mosaic, the choice
    between the two archives, `find_file`, the loader of one BRDF file
    (`BRDFLoader`) with its mean over the region of interest, and
    `get_brdf_data`, which puts them together. Directory listings, walks
    and file contents are parameters. */
module GaipBrdf {
  import opened Wrappers
  import opened Text
  import opened Dates
  import opened Numeric

  /** The exceptions the selection and the loader raise. */
  datatype BrdfFailure =
    | BrdfLookupError
    | BrdfLoaderError
    | ValueError
    | TypeError
    | IndexError
    | OverflowError

  function Abs(x: int): nat
  {
    if x < 0 then -x else x
  }

  // ---------------------------------------------------------------------
  // `{key(x): x for x in dirs}` followed by `d[sorted(d)[0]]`

  /** The position a dictionary keyed by score picks: later entries
      overwrite earlier ones under the same key, so the pick is the LAST
      position holding the smallest key. */
  function LastMinIndex(keys: seq<int>): (r: nat)
    requires |keys| > 0
    ensures r < |keys|
    ensures forall k :: 0 <= k < |keys| ==> keys[r] <= keys[k]
    ensures forall k :: r < k < |keys| ==> keys[r] < keys[k]
  {
    if |keys| == 1 then 0
    else
      var prev := LastMinIndex(keys[..|keys| - 1]);
      if keys[|keys| - 1] <= keys[prev] then |keys| - 1 else prev
  }

  /** Over a sorted listing the pick is the greatest name among those of
      smallest key. */
  lemma SortedLastMin(dirs: seq<string>, keys: seq<int>)
    requires SortedBy(dirs, Identity) && |keys| == |dirs| > 0
    ensures forall k :: 0 <= k < |dirs| && keys[k] == keys[LastMinIndex(keys)] ==>
      !LexLess(dirs[LastMinIndex(keys)], dirs[k])
  {
    var r := LastMinIndex(keys);
    forall k | 0 <= k < |dirs| && keys[k] == keys[r]
      ensures !LexLess(dirs[r], dirs[k])
    {
      if k == r {
        LexIrreflexive(dirs[r]);
      } else {
        assert Identity(dirs[r]) == dirs[r] && Identity(dirs[k]) == dirs[k];
      }
    }
  }

  // ---------------------------------------------------------------------
  // Pre-MODIS directories: `get_brdf_dirs_pre_modis`

  /** The half-width of the 16-day composites, in days. */
  const HalfWidth := 8

  /** `max(range(1, 365, 8))`: the first day of the last 8-day composite. */
  const DbDoyMax := 361

  /** `int(date.strftime("%j"))`. */
  function DayOfYear(d: Date): (r: int)
    requires ValidDate(d)
    ensures 1 <= r <= DaysInYear(d.year)
  {
    OrdinalRange(d);
    DaysBeforeMonthMonotone(d.year, d.month + 1, 13);
    MonthTotals(d.year);
    DaysBeforeMonth(d.year, d.month) + d.day
  }

  /** A name `int()` accepts. */
  predicate IsIntName(s: string)
  {
    |s| > 0 && AllDigits(s)
  }

  /** The distance of composite x's midpoint from day `doy`, folded around
      the end of the year: `min(|x+8-doy|, |361 - |x+8-doy||)`. */
  function Score(x: int, doy: int): (r: nat)
    ensures r <= Abs(x + HalfWidth - doy) && r <= Abs(DbDoyMax - Abs(x + HalfWidth - doy))
    ensures r == Abs(x + HalfWidth - doy) || r == Abs(DbDoyMax - Abs(x + HalfWidth - doy))
  {
    var near := Abs(x + HalfWidth - doy);
    var wrapped := Abs(DbDoyMax - near);
    if near <= wrapped then near else wrapped
  }

  function NameScore(name: string, doy: int): nat
    requires IsIntName(name)
  {
    Score(ParseNat(name), doy)
  }

  function PreModisScores(dirs: seq<string>, doy: int): (r: seq<int>)
    requires forall i :: 0 <= i < |dirs| ==> IsIntName(dirs[i])
    ensures |r| == |dirs|
    ensures forall i :: 0 <= i < |dirs| ==> r[i] == NameScore(dirs[i], doy)
  {
    seq(|dirs|, i requires 0 <= i < |dirs| => NameScore(dirs[i], doy))
  }

  /** `get_brdf_dirs_pre_modis`: every entry of the sorted listing is read
      as a day of year (a name `int()` refuses is a `ValueError`), and the
      entry of smallest score wins, the later entry in sorted order on a
      tie; an empty listing leaves nothing to index (`IndexError`). */
  function GetBrdfDirsPreModis(listing: seq<string>, scene: Date): (r: Result<string, BrdfFailure>)
    requires ValidDate(scene)
    ensures r == Err(ValueError) <==> exists y :: y in listing && !IsIntName(y)
    ensures r == Err(IndexError) <==> listing == []
    ensures r.Err? ==> r.error == ValueError || r.error == IndexError
    ensures r.Ok? ==> r.value in listing && IsIntName(r.value)
    ensures r.Ok? ==> forall y :: y in listing ==>
      IsIntName(y) && NameScore(r.value, DayOfYear(scene)) <= NameScore(y, DayOfYear(scene))
    ensures r.Ok? ==> forall y :: y in listing && NameScore(y, DayOfYear(scene)) == NameScore(r.value, DayOfYear(scene)) ==>
      !LexLess(r.value, y)
  {
    var dirs := Sorted(listing);
    assert forall y :: y in dirs <==> y in listing by {
      assert forall y :: y in dirs <==> y in multiset(dirs);
    }
    if exists y :: y in dirs && !IsIntName(y) then Err(ValueError)
    else if |dirs| == 0 then Err(IndexError)
    else
      var scores := PreModisScores(dirs, DayOfYear(scene));
      SortedLastMin(dirs, scores);
      PreModisPick(dirs, scores, DayOfYear(scene));
      Ok(dirs[LastMinIndex(scores)])
  }

  /** The pick over the sorted listing, stated name by name. */
  lemma PreModisPick(dirs: seq<string>, scores: seq<int>, doy: int)
    requires |dirs| > 0 && forall i :: 0 <= i < |dirs| ==> IsIntName(dirs[i])
    requires scores == PreModisScores(dirs, doy)
    requires forall k :: 0 <= k < |dirs| && scores[k] == scores[LastMinIndex(scores)] ==>
      !LexLess(dirs[LastMinIndex(scores)], dirs[k])
    ensures forall y :: y in dirs ==> NameScore(dirs[LastMinIndex(scores)], doy) <= NameScore(y, doy)
    ensures forall y :: y in dirs && NameScore(y, doy) == NameScore(dirs[LastMinIndex(scores)], doy) ==>
      !LexLess(dirs[LastMinIndex(scores)], y)
  {
    var r := LastMinIndex(scores);
    forall y | y in dirs
      ensures NameScore(dirs[r], doy) <= NameScore(y, doy)
      ensures NameScore(y, doy) == NameScore(dirs[r], doy) ==> !LexLess(dirs[r], y)
    {
      var k :| 0 <= k < |dirs| && dirs[k] == y;
      assert scores[k] == NameScore(y, doy);
    }
  }

  /** Near the turn of the year the fold matters: on the first of January
      the composite starting on day 353 is preferred to that of day 1. */
  lemma PreModisWrapsYear()
    ensures GetBrdfDirsPreModis(["001", "353"], Date(2001, 1, 1)) == Ok("353")
  {
    var doy := DayOfYear(Date(2001, 1, 1));
    assert doy == 1;
    DayNames();
    assert NameScore("353", doy) == 1;
    assert NameScore("001", doy) == 8;
    BetterScoreWins("001", "353", Date(2001, 1, 1));
  }

  lemma DayNames()
    ensures IsIntName("001") && ParseNat("001") == 1
    ensures IsIntName("353") && ParseNat("353") == 353
  {
    assert "001"[..2] == "00" && "00"[..1] == "0";
    assert "353"[..2] == "35" && "35"[..1] == "3";
  }

  /** Of two day-of-year names, the one of smaller score is picked. */
  lemma BetterScoreWins(a: string, b: string, scene: Date)
    requires ValidDate(scene) && IsIntName(a) && IsIntName(b)
    requires NameScore(b, DayOfYear(scene)) < NameScore(a, DayOfYear(scene))
    ensures GetBrdfDirsPreModis([a, b], scene) == Ok(b)
  {
    var r := GetBrdfDirsPreModis([a, b], scene);
    assert forall y :: y in [a, b] ==> IsIntName(y);
    assert r.Ok?;
    assert b in [a, b];
  }

  // ---------------------------------------------------------------------
  // MODIS directories: `get_brdf_dirs_modis`

  /** `date.max.toordinal()`, the ordinal of 9999-12-31. */
  const MaxOrdinal := 3652059

  lemma MaxOrdinalIsLastDate(d: Date)
    requires ValidDate(d)
    ensures Ordinal(Date(9999, 12, 31)) == MaxOrdinal
    ensures Ordinal(d) <= MaxOrdinal
  {
    MonthTotals(9999);
    assert DaysBeforeMonth(9999, 12) == 334;
    OrdinalMonotone(d, Date(9999, 12, 31));
  }

  /** `re.match(r"\d{4}.\d{2}.\d{2}$", name)` for ten characters: digits
      around two separators, each any character but a newline. */
  predicate ModisPattern(s: string)
  {
    |s| == 10
    && IsDigit(s[0]) && IsDigit(s[1]) && IsDigit(s[2]) && IsDigit(s[3]) && s[4] != '\n'
    && IsDigit(s[5]) && IsDigit(s[6]) && s[7] != '\n' && IsDigit(s[8]) && IsDigit(s[9])
  }

  /** The listing entries the pattern keeps, in listing order. */
  function ModisNames(listing: seq<string>): (r: seq<string>)
    ensures forall y :: y in r <==> y in listing && ModisPattern(y)
  {
    if |listing| == 0 then []
    else (if ModisPattern(listing[0]) then [listing[0]] else []) + ModisNames(listing[1..])
  }

  /** `datetime.date(*[int(x) for x in name.split(".")])` with Python's
      exceptions: the wrong number of pieces is a `TypeError`, a piece
      that is not a number or a bad date a `ValueError`. */
  function DirDate(name: string): (r: Result<Date, BrdfFailure>)
    ensures r.Ok? <==> DateFromDottedInts(name).Ok?
    ensures r.Ok? ==> r.value == DateFromDottedInts(name).value
    ensures r.Err? ==> (r.error == TypeError <==> DateFromDottedInts(name) == Err(NotThreeFields))
    ensures r.Err? ==> r.error == TypeError || r.error == ValueError
  {
    match DateFromDottedInts(name)
    case Ok(d) => Ok(d)
    case Err(NotThreeFields) => Err(TypeError)
    case Err(_) => Err(ValueError)
  }

  /** `parsedate(name)`: the ordinal of the date the name spells plus the
      half-width, or the exception; `date + timedelta` past 9999-12-31 is
      an `OverflowError`. */
  function Midpoint(name: string): (r: Result<int, BrdfFailure>)
    ensures r.Ok? <==> DirDate(name).Ok? && Ordinal(DirDate(name).value) + HalfWidth <= MaxOrdinal
    ensures r.Ok? ==> r.value - HalfWidth == Ordinal(DirDate(name).value)
    ensures r.Err? ==> r.error == TypeError || r.error == ValueError || r.error == OverflowError
    ensures DirDate(name).Err? ==> r == Err(DirDate(name).error)
  {
    match DirDate(name)
    case Err(e) => Err(e)
    case Ok(d) =>
      if Ordinal(d) + HalfWidth <= MaxOrdinal then Ok(Ordinal(d) + HalfWidth) else Err(OverflowError)
  }

  /** `|parsedate(name) - scene|` in days. */
  function MidpointDistance(name: string, scene: Date): nat
    requires Midpoint(name).Ok? && ValidDate(scene)
  {
    Abs(Midpoint(name).value - Ordinal(scene))
  }

  /** The keys of `delta_map`, built in listing order: the first name
      whose `parsedate` fails stops the comprehension with its exception. */
  function Distances(dirs: seq<string>, scene: Date): (r: Result<seq<int>, BrdfFailure>)
    requires ValidDate(scene)
    ensures r.Ok? <==> forall i :: 0 <= i < |dirs| ==> Midpoint(dirs[i]).Ok?
    ensures r.Ok? ==> (|r.value| == |dirs| &&
      forall i :: 0 <= i < |dirs| ==> r.value[i] == MidpointDistance(dirs[i], scene))
    ensures r.Err? ==> exists i :: (0 <= i < |dirs| && Midpoint(dirs[i]) == Err(r.error) &&
      forall j :: 0 <= j < i ==> Midpoint(dirs[j]).Ok?)
  {
    if |dirs| == 0 then Ok([])
    else
      match Midpoint(dirs[0])
      case Err(e) => Err(e)
      case Ok(_) =>
        match Distances(dirs[1..], scene)
        case Err(e) =>
          assert exists i :: (0 <= i < |dirs| && Midpoint(dirs[i]) == Err(e) &&
            forall j :: 0 <= j < i ==> Midpoint(dirs[j]).Ok?) by {
            var i :| 0 <= i < |dirs| - 1 && Midpoint(dirs[1..][i]) == Err(e) &&
              forall j :: 0 <= j < i ==> Midpoint(dirs[1..][j]).Ok?;
            forall j | 0 <= j < i + 1
              ensures Midpoint(dirs[j]).Ok?
            {
              if j > 0 {
                assert dirs[j] == dirs[1..][j - 1];
              }
            }
            assert dirs[i + 1] == dirs[1..][i];
          }
          Err(e)
        case Ok(rest) =>
          assert forall i :: 0 < i < |dirs| ==> dirs[i] == dirs[1..][i - 1];
          Ok([MidpointDistance(dirs[0], scene)] + rest)
  }

  /** `sorted(d for d in listing if pattern.match(d))`. */
  function ModisDirs(listing: seq<string>): (r: seq<string>)
    ensures forall y :: y in r <==> y in listing && ModisPattern(y)
    ensures |r| == 0 <==> forall y :: y in listing ==> !ModisPattern(y)
    ensures SortedBy(r, Identity)
  {
    var dirs := Sorted(ModisNames(listing));
    assert forall y :: y in dirs <==> y in multiset(dirs);
    if |dirs| > 0 then assert dirs[0] in dirs; dirs else dirs
  }

  /** Every kept name reads as a date with a representable midpoint. */
  predicate AllMidpoints(dirs: seq<string>)
  {
    forall y :: y in dirs ==> Midpoint(y).Ok?
  }

  /** `name`'s midpoint is nearest the scene among the kept names, and on
      a tie no kept name sorts after it. */
  predicate NearestMidpoint(dirs: seq<string>, scene: Date, name: string)
    requires ValidDate(scene)
  {
    Midpoint(name).Ok? &&
    (forall y :: y in dirs ==> Midpoint(y).Ok? && MidpointDistance(name, scene) <= MidpointDistance(y, scene)) &&
    (forall y :: (y in dirs && Midpoint(y).Ok? &&
      MidpointDistance(y, scene) == MidpointDistance(name, scene)) ==> !LexLess(name, y))
  }

  /** The scene precedes the date of the first kept name. */
  predicate BeforeFirst(dirs: seq<string>, scene: Date)
  {
    |dirs| > 0 && DirDate(dirs[0]).Ok? && Before(scene, DirDate(dirs[0]).value)
  }

  /** `get_brdf_dirs_modis`: the matching names in sorted order are each
      read as a date (the first failure propagates); then an empty
      selection is an `IndexError`, a scene before the first name's date a
      `BRDFLookupError`, and otherwise the name whose midpoint is nearest
      the scene wins, the later name in sorted order on a tie. */
  function GetBrdfDirsModis(listing: seq<string>, scene: Date): (r: Result<string, BrdfFailure>)
    requires ValidDate(scene)
    ensures (r.Err? && r.error != IndexError && r.error != BrdfLookupError) <==> !AllMidpoints(ModisDirs(listing))
    ensures (r.Err? && r.error != IndexError && r.error != BrdfLookupError) ==>
      exists y :: y in ModisDirs(listing) && Midpoint(y) == Err(r.error)
    ensures r == Err(IndexError) <==> forall y :: y in listing ==> !ModisPattern(y)
    ensures r == Err(BrdfLookupError) <==> AllMidpoints(ModisDirs(listing)) && BeforeFirst(ModisDirs(listing), scene)
    ensures r.Ok? ==> r.value in ModisDirs(listing) && NearestMidpoint(ModisDirs(listing), scene, r.value)
  {
    var dirs := ModisDirs(listing);
    match Distances(dirs, scene)
    case Err(e) => Err(e)
    case Ok(distances) =>
      if |dirs| == 0 then Err(IndexError)
      else if Before(scene, DirDate(dirs[0]).value) then Err(BrdfLookupError)
      else
        SortedLastMin(dirs, distances);
        ModisPick(dirs, distances, scene);
        Ok(dirs[LastMinIndex(distances)])
  }

  /** The pick over the sorted selection, stated name by name. */
  lemma ModisPick(dirs: seq<string>, distances: seq<int>, scene: Date)
    requires ValidDate(scene) && |dirs| > 0 && |distances| == |dirs|
    requires forall i :: 0 <= i < |dirs| ==> Midpoint(dirs[i]).Ok? && distances[i] == MidpointDistance(dirs[i], scene)
    requires forall k :: 0 <= k < |dirs| && distances[k] == distances[LastMinIndex(distances)] ==>
      !LexLess(dirs[LastMinIndex(distances)], dirs[k])
    ensures NearestMidpoint(dirs, scene, dirs[LastMinIndex(distances)])
  {
    var r := LastMinIndex(distances);
    forall y | y in dirs
      ensures Midpoint(y).Ok? && MidpointDistance(dirs[r], scene) <= MidpointDistance(y, scene)
      ensures MidpointDistance(y, scene) == MidpointDistance(dirs[r], scene) ==> !LexLess(dirs[r], y)
    {
      var k :| 0 <= k < |dirs| && dirs[k] == y;
      assert distances[k] == MidpointDistance(y, scene);
    }
  }

  // ---------------------------------------------------------------------
  // Choosing the archive and the files

  /** Whether `get_brdf_data` falls back to the Jupp-Li archive: when the
      primary listing is empty (the `IndexError` it catches), or when the
      scene lies before the date of its first sorted entry or after that
      of its last. Those two names must read as dates; their exceptions
      are not caught. */
  function UseJuppLi(primaryListing: seq<string>, scene: Date): (r: Result<bool, BrdfFailure>)
    ensures primaryListing == [] ==> r == Ok(true)
    ensures primaryListing != [] ==>
      var dirs := Sorted(primaryListing);
      var first := DirDate(dirs[0]);
      var last := DirDate(dirs[|dirs| - 1]);
      (r.Ok? <==> first.Ok? && last.Ok?) &&
      (first.Err? ==> r == Err(first.error)) &&
      (first.Ok? && last.Err? ==> r == Err(last.error)) &&
      (r.Ok? ==> (r.value <==> Before(scene, first.value) || Before(last.value, scene)))
  {
    var dirs := Sorted(primaryListing);
    if |dirs| == 0 then Ok(true)
    else
      match DirDate(dirs[0])
      case Err(e) => Err(e)
      case Ok(first) =>
        match DirDate(dirs[|dirs| - 1])
        case Err(e) => Err(e)
        case Ok(last) => Ok(Before(scene, first) || Before(last, scene))
  }

  /** A scene between the first and the last primary directory stays with
      the primary archive. */
  lemma PrimaryCoversRange(primaryListing: seq<string>, scene: Date, first: Date, last: Date)
    requires primaryListing != []
    requires DirDate(Sorted(primaryListing)[0]) == Ok(first)
    requires DirDate(Sorted(primaryListing)[|primaryListing| - 1]) == Ok(last)
    requires ValidDate(scene) && ValidDate(first) && ValidDate(last)
    requires Ordinal(first) <= Ordinal(scene) <= Ordinal(last)
    ensures UseJuppLi(primaryListing, scene) == Ok(false)
  {
    OrdinalMonotone(scene, first);
    OrdinalMonotone(last, scene);
  }

  /** The three BRDF model parameters, in the enumeration's order. */
  datatype BrdfParameter = Iso | Vol | Geo

  const Parameters: seq<BrdfParameter> := [Iso, Vol, Geo]

  /** The parameter's `name`, searched for in the file names. */
  function ParameterName(p: BrdfParameter): string
  {
    match p
    case Iso => "iso"
    case Vol => "vol"
    case Geo => "geo"
  }

  predicate NamesBoth(f: string, wavelength: string, param: string)
  {
    Contains(f, wavelength) && Contains(f, param)
  }

  /** `find_file`: the first file name containing both the wavelength and
      the parameter name, None when there is none. */
  function FindFile(files: seq<string>, wavelength: string, param: string): (r: Option<string>)
    ensures r.Some? ==> exists i :: (0 <= i < |files| && files[i] == r.value &&
      forall j :: 0 <= j < i ==> !NamesBoth(files[j], wavelength, param))
    ensures r.Some? ==> NamesBoth(r.value, wavelength, param)
    ensures r.None? <==> forall f :: f in files ==> !NamesBoth(f, wavelength, param)
  {
    if |files| == 0 then None
    else if NamesBoth(files[0], wavelength, param) then Some(files[0])
    else
      var rest := FindFile(files[1..], wavelength, param);
      assert forall f :: f in files <==> f == files[0] || f in files[1..];
      if rest.Some? then
        var i :| 0 <= i < |files[1..]| && files[1..][i] == rest.value &&
          forall j :: 0 <= j < i ==> !NamesBoth(files[1..][j], wavelength, param);
        assert files[i + 1] == rest.value;
        assert forall j :: 0 < j < i + 1 ==> files[j] == files[1..][j - 1];
        rest
      else rest
  }

  /** A walk of a directory tree: each visited folder with its file names. */
  type Walk = seq<(string, seq<string>)>

  predicate IsHdf(f: string)
  {
    EndsWith(f, ".hdf.gz") || EndsWith(f, ".hdf")
  }

  /** The HDF names of the given files, in order. */
  function HdfOf(files: seq<string>): (r: seq<string>)
    ensures forall f :: f in r <==> f in files && IsHdf(f)
  {
    if |files| == 0 then []
    else HdfOf(files[..|files| - 1]) + (if IsHdf(files[|files| - 1]) then [files[|files| - 1]] else [])
  }

  /** The HDF names of every visited folder, folder by folder. */
  function HdfFiles(walk: Walk): (r: seq<string>)
    ensures forall f :: f in r <==> IsHdf(f) && exists k :: 0 <= k < |walk| && f in walk[k].1
  {
    if |walk| == 0 then []
    else
      var r := HdfFiles(walk[..|walk| - 1]) + HdfOf(walk[|walk| - 1].1);
      assert forall k :: 0 <= k < |walk| - 1 ==> walk[..|walk| - 1][k] == walk[k];
      r
  }

  /** `hdfhome` after the walk: the last folder visited, None when the walk
      visits nothing. */
  function LastFolder(walk: Walk): Option<string>
  {
    if |walk| == 0 then None else Some(walk[|walk| - 1].0)
  }

  // ---------------------------------------------------------------------
  // One BRDF file: `BRDFLoader`

  datatype Point = Point(lon: real, lat: real)

  /** The bounds of a box, as shapely's `bounds`. */
  datatype Box = Box(minX: real, minY: real, maxX: real, maxY: real)

  predicate Inside(p: Point, b: Box)
  {
    b.minX <= p.lon <= b.maxX && b.minY <= p.lat <= b.maxY
  }

  function Min(a: real, b: real): real
  {
    if a <= b then a else b
  }

  function Max(a: real, b: real): real
  {
    if a <= b then b else a
  }

  /** The bounds of the polygon `[a, (b.lon, a.lat), b, (a.lon, b.lat)]`:
      the smallest box holding both corners. */
  function Corners(a: Point, b: Point): (r: Box)
    ensures Inside(a, r) && Inside(b, r)
    ensures (r.minX == a.lon || r.minX == b.lon) && (r.maxX == a.lon || r.maxX == b.lon)
    ensures (r.minY == a.lat || r.minY == b.lat) && (r.maxY == a.lat || r.maxY == b.lat)
  {
    Box(Min(a.lon, b.lon), Min(a.lat, b.lat), Max(a.lon, b.lon), Max(a.lat, b.lat))
  }

  /** `a.intersection(b).bounds` for two boxes: the common part, None when
      they share no point (shapely's empty bounds). Boxes that only touch
      share their edge. */
  function Intersection(a: Box, b: Box): (r: Option<Box>)
    ensures r.Some? ==> forall p :: Inside(p, r.value) <==> Inside(p, a) && Inside(p, b)
    ensures r.Some? ==> Inside(Point(r.value.minX, r.value.minY), r.value)
    ensures r.None? ==> forall p :: !(Inside(p, a) && Inside(p, b))
  {
    var lo := Point(Max(a.minX, b.minX), Max(a.minY, b.minY));
    var hi := Point(Min(a.maxX, b.maxX), Min(a.maxY, b.maxY));
    if lo.lon <= hi.lon && lo.lat <= hi.lat then Some(Box(lo.lon, lo.lat, hi.lon, hi.lat))
    else None
  }

  /** Fill value, scale factor and offset of the data subdataset. */
  datatype Metadata = Metadata(fillValue: int, scaleFactor: real, addOffset: real)

  /** `DEFAULTS`, those of the first pre-MODIS database. */
  const Defaults := Metadata(-32768, 0.001, 0.0)

  /** A two-dimensional array: rows of equal length. */
  type Raster = cells: seq<seq<int>> | forall j :: 0 <= j < |cells| ==> |cells[j]| == |cells[0]|

  /** What the loader reads of a BRDF file's three subdatasets: the data
      (0), the first row of the latitudes (1) and of the longitudes (2),
      and the data subdataset's metadata when it has some. */
  datatype BrdfFile = BrdfFile(data: Raster, lat: seq<real>, lon: seq<real>, metadata: Option<Metadata>)

  /** A loaded file with its clipped region of interest. */
  datatype Loaded = Loaded(roiUL: Point, roiLR: Point, data: Raster, lat: seq<real>, lon: seq<real>, meta: Metadata)

  /** Enough cells for the grid steps and the corners to be read. */
  predicate WellFormed(s: Loaded)
  {
    |s.data| > 0 && |s.data[0]| > 0 && |s.lat| >= 2 && |s.lon| >= 2
  }

  /** `delta_lon` and `delta_lat`: the grid step between the first two
      centres. */
  function Step(centres: seq<real>): real
    requires |centres| >= 2
  {
    centres[1] - centres[0]
  }

  /** `ul`: the outer corner of the first cell. */
  function DataUL(lat: seq<real>, lon: seq<real>): Point
    requires |lat| >= 2 && |lon| >= 2
  {
    Point(lon[0] - Step(lon) / 2.0, lat[0] - Step(lat) / 2.0)
  }

  /** `lr`: the outer corner of the last cell. */
  function DataLR(lat: seq<real>, lon: seq<real>): Point
    requires |lat| >= 2 && |lon| >= 2
  {
    Point(lon[|lon| - 1] + Step(lon) / 2.0, lat[|lat| - 1] + Step(lat) / 2.0)
  }

  /** `BRDFLoader(filename, ul, lr)` as a value: a missing corner or a file
      that does not open is a `BRDFLoaderError`, a subdataset too small to
      index an `IndexError`, and a region of interest that shares no point
      with the data a `BRDFLoaderError`; otherwise the region is clipped to
      the data, its upper-left corner taking the least longitude and the
      greatest latitude. */
  function OpenFile(ul: Option<Point>, lr: Option<Point>, file: Option<BrdfFile>): (r: Result<Loaded, BrdfFailure>)
    ensures ul.None? || lr.None? || file.None? ==> r == Err(BrdfLoaderError)
    ensures r == Err(IndexError) <==> (ul.Some? && lr.Some? && file.Some? &&
      (|file.value.data| == 0 || |file.value.data[0]| == 0 || |file.value.lat| < 2 || |file.value.lon| < 2))
    ensures r.Err? ==> r.error == BrdfLoaderError || r.error == IndexError
    ensures r.Ok? ==> (WellFormed(r.value) && file.Some? && r.value.data == file.value.data &&
      r.value.lat == file.value.lat && r.value.lon == file.value.lon &&
      r.value.meta == (if file.value.metadata.Some? then file.value.metadata.value else Defaults))
    ensures r.Ok? ==> r.value.roiUL.lon <= r.value.roiLR.lon && r.value.roiLR.lat <= r.value.roiUL.lat
    ensures r.Ok? ==> forall p :: Inside(p, Corners(r.value.roiUL, r.value.roiLR)) <==>
      Inside(p, Corners(ul.value, lr.value)) && Inside(p, Corners(DataUL(r.value.lat, r.value.lon), DataLR(r.value.lat, r.value.lon)))
  {
    if ul.None? || lr.None? || file.None? then Err(BrdfLoaderError)
    else
      var f := file.value;
      if |f.data| == 0 || |f.data[0]| == 0 || |f.lat| < 2 || |f.lon| < 2 then Err(IndexError)
      else
        match Intersection(Corners(DataUL(f.lat, f.lon), DataLR(f.lat, f.lon)), Corners(ul.value, lr.value))
        case None => Err(BrdfLoaderError)
        case Some(b) =>
          var meta := if f.metadata.Some? then f.metadata.value else Defaults;
          var s := Loaded(Point(b.minX, b.maxY), Point(b.maxX, b.minY), f.data, f.lat, f.lon, meta);
          assert Corners(s.roiUL, s.roiLR) == b;
          Ok(s)
  }

  /** `int(math.ceil(num / den))` where the division is NumPy's: a zero
      denominator gives NaN (for 0/0) or an infinity, which `math.ceil`
      refuses with `ValueError` and `OverflowError`. */
  function CeilIndex(num: real, den: real): (r: Result<int, BrdfFailure>)
    ensures den != 0.0 ==> r.Ok? && r.value as real - 1.0 < num / den <= r.value as real
    ensures den == 0.0 ==> r.Err? && (r.error == ValueError <==> num == 0.0)
    ensures r.Err? ==> r.error == ValueError || r.error == OverflowError
  {
    if den != 0.0 then Ok(Ceil(num / den))
    else if num == 0.0 then Err(ValueError)
    else Err(OverflowError)
  }

  predicate InRange(k: int, r: (nat, nat))
  {
    r.0 <= k < r.1
  }

  /** The indices Python's `a[start:stop]` keeps on an axis of length n,
      for a start that is not negative: a negative stop counts from the
      end. */
  function Slice(n: nat, start: nat, stop: int): (r: (nat, nat))
    ensures r.0 <= r.1 <= n
    ensures 0 <= stop ==> forall k :: InRange(k, r) <==> 0 <= k < n && start <= k < stop
    ensures stop < 0 ==> forall k :: InRange(k, r) <==> 0 <= k < n && start <= k < n + stop
  {
    var s := if start <= n then start else n;
    var e := if stop < 0 then (if stop + n < 0 then 0 else stop + n) else if stop <= n then stop else n;
    (s, if e < s then s else e)
  }

  function MaxInt(a: int, b: int): int
  {
    if a <= b then b else a
  }

  function MinInt(a: int, b: int): int
  {
    if a <= b then a else b
  }

  /** The rows and the columns `mean_data_value` reads: the region's
      corners measured in grid steps from the data's corner, rounded up,
      clamped to the array, and sliced up to and including the upper
      index. A zero grid step fails the rounding. */
  function Window(s: Loaded): (r: Result<((nat, nat), (nat, nat)), BrdfFailure>)
    requires WellFormed(s)
    ensures r.Err? <==> Step(s.lon) == 0.0 || Step(s.lat) == 0.0
    ensures r.Err? ==> r.error == ValueError || r.error == OverflowError
    ensures r.Ok? ==> r.value.0.1 <= |s.data| && r.value.1.1 <= |s.data[0]|
  {
    var corner := DataUL(s.lat, s.lon);
    var height, width := |s.data|, |s.data[0]|;
    match CeilIndex(s.roiUL.lon - corner.lon, Step(s.lon))
    case Err(e) => Err(e)
    case Ok(xmin) =>
      match CeilIndex(s.roiLR.lon - corner.lon, Step(s.lon))
      case Err(e) => Err(e)
      case Ok(xmax) =>
        match CeilIndex(s.roiUL.lat - corner.lat, Step(s.lat))
        case Err(e) => Err(e)
        case Ok(ymin) =>
          match CeilIndex(s.roiLR.lat - corner.lat, Step(s.lat))
          case Err(e) => Err(e)
          case Ok(ymax) =>
            var imin, imax := MaxInt(0, xmin), MinInt(width, xmax);
            var jmin, jmax := MaxInt(0, ymin), MinInt(height, ymax);
            Ok((Slice(height, jmin, jmax + 1), Slice(width, imin, imax + 1)))
  }

  /** The values of a row that are not the fill value, in order. */
  function Keep(row: seq<int>, fill: int): (r: seq<int>)
    ensures forall x :: x in r <==> x in row && x != fill
  {
    if |row| == 0 then []
    else Keep(row[..|row| - 1], fill) + (if row[|row| - 1] != fill then [row[|row| - 1]] else [])
  }

  /** `np.ma.masked_values(data[rows, cols], fill).compressed()`: the
      values of the window that are not the fill value, row by row. */
  function Selected(data: Raster, rows: (nat, nat), cols: (nat, nat), fill: int): (r: seq<int>)
    requires rows.0 <= rows.1 <= |data| && cols.0 <= cols.1 && (|data| > 0 ==> cols.1 <= |data[0]|)
    ensures forall x :: x in r <==> (x != fill &&
      exists j, i :: InRange(j, rows) && InRange(i, cols) && data[j][i] == x)
    decreases rows.1 - rows.0
  {
    if rows.0 == rows.1 then []
    else
      var row := data[rows.0][cols.0..cols.1];
      var rest := Selected(data, (rows.0 + 1, rows.1), cols, fill);
      assert forall x :: x in row <==> exists i :: InRange(i, cols) && data[rows.0][i] == x by {
        forall x | x in row
          ensures exists i :: InRange(i, cols) && data[rows.0][i] == x
        {
          var k :| 0 <= k < |row| && row[k] == x;
          assert InRange(cols.0 + k, cols) && data[rows.0][cols.0 + k] == x;
        }
        forall x, i | InRange(i, cols) && data[rows.0][i] == x
          ensures x in row
        {
          assert row[i - cols.0] == x;
        }
      }
      Keep(row, fill) + rest
  }

  function Sum(v: seq<int>): int
  {
    if |v| == 0 then 0 else Sum(v[..|v| - 1]) + v[|v| - 1]
  }

  /** `float(np.sum(v)) / v.size`, the `ZeroDivisionError` of an empty
      selection being caught as 0.0. */
  function MeanOf(v: seq<int>): real
  {
    if |v| == 0 then 0.0 else Sum(v) as real / |v| as real
  }

  lemma {:induction false} SumBounds(v: seq<int>, lo: int, hi: int)
    requires forall x :: x in v ==> lo <= x <= hi
    ensures |v| * lo <= Sum(v) <= |v| * hi
  {
    if |v| > 0 {
      var prefix := v[..|v| - 1];
      assert forall x :: x in prefix ==> x in v;
      SumBounds(prefix, lo, hi);
      assert v[|v| - 1] in v;
    }
  }

  lemma QuotientBounds(a: real, n: real, lo: real, hi: real)
    requires n > 0.0 && n * lo <= a <= n * hi
    ensures lo <= a / n <= hi
  {
    var q := a / n;
    assert (q - lo) * n == a - n * lo;
    assert (hi - q) * n == n * hi - a;
  }

  /** A mean lies between the least and the greatest value averaged. */
  lemma MeanBetween(v: seq<int>, lo: int, hi: int)
    requires |v| > 0 && forall x :: x in v ==> lo <= x <= hi
    ensures lo as real <= MeanOf(v) <= hi as real
  {
    SumBounds(v, lo, hi);
    var n := |v| as real;
    assert (|v| * lo) as real == n * lo as real && (|v| * hi) as real == n * hi as real;
    QuotientBounds(Sum(v) as real, n, lo as real, hi as real);
  }

  /** The values `mean_data_value` averages. */
  function WindowValues(s: Loaded): (r: seq<int>)
    requires WellFormed(s) && Window(s).Ok?
    ensures var w := Window(s).value;
      forall x :: x in r <==> (x != s.meta.fillValue &&
        exists j, i :: InRange(j, w.0) && InRange(i, w.1) && s.data[j][i] == x)
  {
    var w := Window(s).value;
    Selected(s.data, w.0, w.1, s.meta.fillValue)
  }

  /** `mean_data_value` on a loaded file: the mean of the window's values
      that are not the fill value, scaled and offset; a window without
      such values counts as mean 0, so the result is the scaled offset. */
  function WindowMean(s: Loaded): (r: Result<real, BrdfFailure>)
    requires WellFormed(s)
    ensures r.Err? <==> Step(s.lon) == 0.0 || Step(s.lat) == 0.0
    ensures r.Ok? <==> Window(s).Ok?
    ensures r.Ok? ==> r.value == s.meta.scaleFactor * (MeanOf(WindowValues(s)) - s.meta.addOffset)
    ensures r.Ok? && WindowValues(s) == [] ==> r.value == s.meta.scaleFactor * (0.0 - s.meta.addOffset)
  {
    match Window(s)
    case Err(e) => Err(e)
    case Ok(w) => Ok(s.meta.scaleFactor * (MeanOf(WindowValues(s)) - s.meta.addOffset))
  }

  /** With a scale that is not negative, the result lies between the
      scaled bounds of the averaged values. */
  lemma WindowMeanBetween(s: Loaded, lo: int, hi: int)
    requires WellFormed(s) && Window(s).Ok? && s.meta.scaleFactor >= 0.0
    requires WindowValues(s) != [] && forall x :: x in WindowValues(s) ==> lo <= x <= hi
    ensures s.meta.scaleFactor * (lo as real - s.meta.addOffset) <= WindowMean(s).value
    ensures WindowMean(s).value <= s.meta.scaleFactor * (hi as real - s.meta.addOffset)
  {
    MeanBetween(WindowValues(s), lo, hi);
    var m := MeanOf(WindowValues(s));
    var k := s.meta.scaleFactor;
    assert k * (m - s.meta.addOffset) - k * (lo as real - s.meta.addOffset) == k * (m - lo as real);
    assert k * (hi as real - s.meta.addOffset) - k * (m - s.meta.addOffset) == k * (hi as real - m);
  }

  /** A raster holding one value other than the fill value, read through a
      non-empty window, gives that value scaled and offset. */
  lemma WindowMeanUniform(s: Loaded, v: int)
    requires WellFormed(s) && Window(s).Ok? && v != s.meta.fillValue
    requires forall j, i :: 0 <= j < |s.data| && 0 <= i < |s.data[j]| ==> s.data[j][i] == v
    requires var w := Window(s).value; w.0.0 < w.0.1 && w.1.0 < w.1.1
    ensures WindowMean(s).Ok? && WindowMean(s).value == s.meta.scaleFactor * (v as real - s.meta.addOffset)
  {
    var vals := WindowValues(s);
    UniformValues(s, v);
    MeanBetween(vals, v, v);
    assert WindowMean(s).value == s.meta.scaleFactor * (MeanOf(vals) - s.meta.addOffset);
  }

  /** The window of a uniform raster holds only its value, at least once. */
  lemma UniformValues(s: Loaded, v: int)
    requires WellFormed(s) && Window(s).Ok? && v != s.meta.fillValue
    requires forall j, i :: 0 <= j < |s.data| && 0 <= i < |s.data[j]| ==> s.data[j][i] == v
    requires var w := Window(s).value; w.0.0 < w.0.1 && w.1.0 < w.1.1
    ensures WindowValues(s) != [] && forall x :: x in WindowValues(s) ==> x == v
  {
    var w := Window(s).value;
    var vals := WindowValues(s);
    assert InRange(w.0.0, w.0) && InRange(w.1.0, w.1) && s.data[w.0.0][w.1.0] == v;
    assert v in vals;
    forall x | x in vals
      ensures x == v
    {
      var j, i :| InRange(j, w.0) && InRange(i, w.1) && s.data[j][i] == x;
    }
  }

  /** `get_mean(array)`: the mean of the values other than the fill value,
      scaled and offset; NumPy's mean of nothing is NaN, which is replaced
      by 0.0 before any scaling. */
  function GetMeanOf(values: seq<int>, meta: Metadata): (r: real)
    ensures (forall x :: x in values ==> x == meta.fillValue) ==> r == 0.0
    ensures (exists x :: x in values && x != meta.fillValue) ==>
      r == meta.scaleFactor * (MeanOf(Keep(values, meta.fillValue)) - meta.addOffset)
  {
    var kept := Keep(values, meta.fillValue);
    if |kept| == 0 then 0.0
    else
      assert kept[0] in kept;
      meta.scaleFactor * (MeanOf(kept) - meta.addOffset)
  }

  lemma {:induction false} KeepNothing(v: seq<int>, fill: int)
    requires forall x :: x in v ==> x != fill
    ensures Keep(v, fill) == v
  {
    if |v| > 0 {
      var prefix := v[..|v| - 1];
      assert forall x :: x in prefix ==> x in v;
      KeepNothing(prefix, fill);
      assert v[|v| - 1] in v;
      assert v == prefix + [v[|v| - 1]];
    }
  }

  /** `get_mean`, meant to replace `mean_data_value`, agrees with it on the
      same window when the window holds a value, and differs from it on an
      empty window unless the scaled offset is zero: `mean_data_value`
      then gives the scaled offset, `get_mean` 0.0. */
  lemma GetMeanVersusMeanDataValue(s: Loaded)
    requires WellFormed(s) && Window(s).Ok?
    ensures WindowValues(s) != [] ==>
      GetMeanOf(WindowValues(s), s.meta) == WindowMean(s).value
    ensures WindowValues(s) == [] ==>
      GetMeanOf(WindowValues(s), s.meta) == 0.0 &&
      WindowMean(s).value == -(s.meta.scaleFactor * s.meta.addOffset)
  {
    var vals := WindowValues(s);
    WindowValuesKept(s);
    MeansAgree(vals, s.meta, WindowMean(s).value);
  }

  /** The averaged values never include the fill value. */
  lemma WindowValuesKept(s: Loaded)
    requires WellFormed(s) && Window(s).Ok?
    ensures forall x :: x in WindowValues(s) ==> x != s.meta.fillValue
  {
  }

  /** `get_mean` against a result scaled from the mean of values without
      the fill value. */
  lemma MeansAgree(vals: seq<int>, meta: Metadata, mean: real)
    requires forall x :: x in vals ==> x != meta.fillValue
    requires mean == meta.scaleFactor * (MeanOf(vals) - meta.addOffset)
    ensures vals != [] ==> GetMeanOf(vals, meta) == mean
    ensures vals == [] ==> GetMeanOf(vals, meta) == 0.0 && mean == -(meta.scaleFactor * meta.addOffset)
  {
    if vals != [] {
      GetMeanOfKept(vals, meta);
    } else {
      ScaledOffset(meta.scaleFactor, meta.addOffset);
    }
  }

  /** Values without the fill value are averaged as they are. */
  lemma GetMeanOfKept(values: seq<int>, meta: Metadata)
    requires values != [] && forall x :: x in values ==> x != meta.fillValue
    ensures GetMeanOf(values, meta) == meta.scaleFactor * (MeanOf(values) - meta.addOffset)
  {
    KeepNothing(values, meta.fillValue);
    assert values[0] in values;
  }

  lemma ScaledOffset(k: real, off: real)
    ensures k * (0.0 - off) == -(k * off)
  {
  }

  /** The loader of one BRDF file. Its fields are set step by step: the
      file name and requested region first, then the arrays and metadata
      (`load`), then the clipped region (`intersects`, `roi`). */
  class BrdfLoader {
    var filename: string
    var roiUL: Point
    var roiLR: Point
    var intersects: bool
    var data: Raster
    var lat: seq<real>
    var lon: seq<real>
    var meta: Metadata

    /** The state `mean_data_value` reads. */
    function State(): Loaded
      reads this
    {
      Loaded(roiUL, roiLR, data, lat, lon, meta)
    }

    /** The file name, the requested corners and the default metadata;
        nothing loaded yet. */
    constructor (filename: string, ul: Point, lr: Point)
      ensures this.filename == filename && roiUL == ul && roiLR == lr && !intersects
      ensures data == [] && lat == [] && lon == [] && meta == Defaults
    {
      this.filename := filename;
      roiUL := ul;
      roiLR := lr;
      intersects := false;
      data := [];
      lat := [];
      lon := [];
      meta := Defaults;
    }

    /** `load`: the three subdatasets and, when the file carries some, the
        data subdataset's metadata. A file that does not open is a
        `BRDFLoaderError`; reading the first element of an empty
        subdataset an `IndexError`. */
    method Load(file: Option<BrdfFile>) returns (r: Result<(), BrdfFailure>)
      modifies this
      ensures file.None? ==> r == Err(BrdfLoaderError)
      ensures file.Some? ==> (r.Ok? <==>
        |file.value.data| > 0 && |file.value.data[0]| > 0 && |file.value.lat| > 0 && |file.value.lon| > 0)
      ensures file.Some? && r.Err? ==> r.error == IndexError
      ensures r.Ok? ==> data == file.value.data && lat == file.value.lat && lon == file.value.lon
      ensures r.Ok? ==> meta == if file.value.metadata.Some? then file.value.metadata.value else old(meta)
      ensures filename == old(filename) && roiUL == old(roiUL) && roiLR == old(roiLR) && intersects == old(intersects)
    {
      if file.None? {
        return Err(BrdfLoaderError);
      }
      var f := file.value;
      data := f.data;
      if |data| == 0 || |data[0]| == 0 {
        return Err(IndexError);
      }
      if f.metadata.Some? {
        meta := f.metadata.value;
      }
      lat := f.lat;
      if |lat| == 0 {
        return Err(IndexError);
      }
      lon := f.lon;
      if |lon| == 0 {
        return Err(IndexError);
      }
      return Ok(());
    }

    /** The end of the constructor: the data's corners need two centres on
        each axis (`IndexError` otherwise); a region of interest sharing no
        point with the data is a `BRDFLoaderError`, and otherwise the region
        becomes the common part. */
    method Clip() returns (r: Result<(), BrdfFailure>)
      modifies this
      ensures |old(lat)| < 2 || |old(lon)| < 2 ==> r == Err(IndexError)
      ensures |old(lat)| >= 2 && |old(lon)| >= 2 ==>
        var common := Intersection(Corners(DataUL(old(lat), old(lon)), DataLR(old(lat), old(lon))), Corners(old(roiUL), old(roiLR)));
        (r.Ok? <==> common.Some?) && (r.Err? ==> r.error == BrdfLoaderError && !intersects) &&
        (r.Ok? ==> (intersects && roiUL == Point(common.value.minX, common.value.maxY) &&
          roiLR == Point(common.value.maxX, common.value.minY)))
      ensures data == old(data) && lat == old(lat) && lon == old(lon) && meta == old(meta) && filename == old(filename)
    {
      if |lat| < 2 || |lon| < 2 {
        return Err(IndexError);
      }
      var common := Intersection(Corners(DataUL(lat, lon), DataLR(lat, lon)), Corners(roiUL, roiLR));
      if common.None? {
        intersects := false;
        return Err(BrdfLoaderError);
      }
      intersects := true;
      roiUL := Point(common.value.minX, common.value.maxY);
      roiLR := Point(common.value.maxX, common.value.minY);
      return Ok(());
    }

    /** `BRDFLoader(filename, ul, lr)`: a missing corner is refused before
        anything is read; then the file is loaded and the region clipped.
        The loader it returns is the one `OpenFile` describes. */
    static method Open(filename: string, ul: Option<Point>, lr: Option<Point>, file: Option<BrdfFile>)
      returns (r: Result<BrdfLoader, BrdfFailure>)
      ensures r.Ok? <==> OpenFile(ul, lr, file).Ok?
      ensures r.Err? ==> r.error == OpenFile(ul, lr, file).error
      ensures r.Ok? ==> fresh(r.value) && r.value.intersects && r.value.filename == filename
      ensures r.Ok? ==> r.value.State() == OpenFile(ul, lr, file).value
    {
      if ul.None? || lr.None? {
        return Err(BrdfLoaderError);
      }
      var loader := new BrdfLoader(filename, ul.value, lr.value);
      var loaded := loader.Load(file);
      if loaded.Err? {
        return Err(loaded.error);
      }
      var clipped := loader.Clip();
      if clipped.Err? {
        return Err(clipped.error);
      }
      return Ok(loader);
    }

    /** `mean_data_value`. */
    function MeanDataValue(): (r: Result<real, BrdfFailure>)
      reads this
      requires WellFormed(State())
      ensures r.Err? <==> Step(lon) == 0.0 || Step(lat) == 0.0
      ensures r.Ok? ==> r.value == meta.scaleFactor * (MeanOf(WindowValues(State())) - meta.addOffset)
    {
      var s := State();
      assert s.lon == lon && s.lat == lat && s.meta == meta;
      WindowMean(s)
    }

    /** `get_mean(array)` with this file's metadata. */
    function GetMean(values: seq<int>): (r: real)
      reads this
      ensures (forall x :: x in values ==> x == meta.fillValue) ==> r == 0.0
    {
      GetMeanOf(values, meta)
    }
  }

  // ---------------------------------------------------------------------
  // `get_brdf_data`

  /** The directory the acquisition's BRDF comes from: a pre-MODIS
      day-of-year directory of the secondary archive when `UseJuppLi`
      says so, the nearest MODIS mosaic of the primary archive otherwise,
      joined to its archive's path. */
  function SelectDir(primaryPath: string, primaryListing: seq<string>, secondaryPath: string,
                     secondaryListing: seq<string>, scene: Date): (r: Result<string, BrdfFailure>)
    requires ValidDate(scene)
    ensures UseJuppLi(primaryListing, scene).Err? ==> r == Err(UseJuppLi(primaryListing, scene).error)
    ensures UseJuppLi(primaryListing, scene) == Ok(true) ==>
      (r.Ok? <==> GetBrdfDirsPreModis(secondaryListing, scene).Ok?) &&
      (r.Ok? ==> r.value == PathJoin(secondaryPath, GetBrdfDirsPreModis(secondaryListing, scene).value)) &&
      (r.Err? ==> r.error == GetBrdfDirsPreModis(secondaryListing, scene).error)
    ensures UseJuppLi(primaryListing, scene) == Ok(false) ==>
      (r.Ok? <==> GetBrdfDirsModis(primaryListing, scene).Ok?) &&
      (r.Ok? ==> r.value == PathJoin(primaryPath, GetBrdfDirsModis(primaryListing, scene).value)) &&
      (r.Err? ==> r.error == GetBrdfDirsModis(primaryListing, scene).error)
  {
    match UseJuppLi(primaryListing, scene)
    case Err(e) => Err(e)
    case Ok(true) =>
      (match GetBrdfDirsPreModis(secondaryListing, scene)
       case Err(e) => Err(e)
       case Ok(d) => Ok(PathJoin(secondaryPath, d)))
    case Ok(false) =>
      (match GetBrdfDirsModis(primaryListing, scene)
       case Err(e) => Err(e)
       case Ok(d) => Ok(PathJoin(primaryPath, d)))
  }

  /** One entry of the result: the parameter's name, the file it was read
      from (none for the isotropic replacement) and the mean value. */
  datatype BrdfResult = BrdfResult(parameter: string, dataFile: Option<string>, value: real)

  /** The entries used when every parameter's mean is zero: a purely
      isotropic BRDF, without file. */
  const Isotropic: map<BrdfParameter, BrdfResult> := map[
    Iso := BrdfResult("iso", None, 1.0),
    Vol := BrdfResult("vol", None, 0.0),
    Geo := BrdfResult("geo", None, 0.0)]

  /** What the parameter loop works from: the HDF names found by the walk,
      the last folder it visited, the acquisition's BRDF wavelength, the
      contents of each file by path, and the acquisition's corners. */
  datatype Source = Source(hdfs: seq<string>, home: Option<string>, wavelength: string,
                           contents: string -> Option<BrdfFile>, ul: Point, lr: Point)

  /** A BRDF file opened over the acquisition's corners and averaged. */
  function ReadMean(src: Source, path: string): (r: Result<real, BrdfFailure>)
    ensures r.Ok? ==> OpenFile(Some(src.ul), Some(src.lr), src.contents(path)).Ok?
    ensures src.contents(path).None? ==> r == Err(BrdfLoaderError)
  {
    match OpenFile(Some(src.ul), Some(src.lr), src.contents(path))
    case Err(e) => Err(e)
    case Ok(loaded) => WindowMean(loaded)
  }

  /** One pass of the parameter loop: the file naming the wavelength and
      the parameter, joined to the last folder (joining a missing name or
      folder is a `TypeError`), opened and averaged over the acquisition. */
  function ParameterMean(src: Source, p: BrdfParameter): (r: Result<BrdfResult, BrdfFailure>)
    ensures FindFile(src.hdfs, src.wavelength, ParameterName(p)).None? || src.home.None? ==> r == Err(TypeError)
    ensures r.Ok? ==> (
      var f := FindFile(src.hdfs, src.wavelength, ParameterName(p));
      var path := PathJoin(src.home.value, f.value);
      f.Some? && r.value.dataFile == Some(path) && r.value.parameter == ParameterName(p) &&
      ReadMean(src, path).Ok? && ReadMean(src, path).value == r.value.value)
  {
    match FindFile(src.hdfs, src.wavelength, ParameterName(p))
    case None => Err(TypeError)
    case Some(f) =>
      if src.home.None? then Err(TypeError)
      else
        var path := PathJoin(src.home.value, f);
        match ReadMean(src, path)
        case Err(e) => Err(e)
        case Ok(v) => Ok(BrdfResult(ParameterName(p), Some(path), v))
  }

  /** The parameter loop over `ps`, in order: the first failure ends it;
      otherwise each parameter maps to its entry. */
  function Collect(src: Source, ps: seq<BrdfParameter>): (r: Result<map<BrdfParameter, BrdfResult>, BrdfFailure>)
    ensures r.Ok? ==> forall p :: p in r.value <==> p in ps
    ensures r.Ok? ==> forall p :: p in r.value ==> ParameterMean(src, p) == Ok(r.value[p])
    ensures r.Err? ==> exists i :: (0 <= i < |ps| && ParameterMean(src, ps[i]) == Err(r.error) &&
      forall j :: 0 <= j < i ==> ParameterMean(src, ps[j]).Ok?)
  {
    if |ps| == 0 then Ok(map[])
    else
      var front := ps[..|ps| - 1];
      var last := ps[|ps| - 1];
      assert forall p :: p in ps <==> p in front || p == last;
      assert forall j :: 0 <= j < |front| ==> front[j] == ps[j];
      match Collect(src, front)
      case Err(e) => Err(e)
      case Ok(m) =>
        match ParameterMean(src, last)
        case Err(e) =>
          assert forall j :: 0 <= j < |ps| - 1 ==> ParameterMean(src, ps[j]).Ok? by {
            forall j | 0 <= j < |ps| - 1
              ensures ParameterMean(src, ps[j]).Ok?
            {
              assert front[j] in m;
            }
          }
          Err(e)
        case Ok(v) => Ok(m[last := v])
  }

  /** A complete parameter loop has an entry for each parameter. */
  lemma CollectAll(src: Source)
    ensures Collect(src, Parameters).Ok? ==> Collect(src, Parameters).value.Keys == {Iso, Vol, Geo}
  {
    assert forall p :: p in Parameters <==> p in {Iso, Vol, Geo};
    CollectKeys(src, Parameters, {Iso, Vol, Geo});
  }

  lemma CollectKeys(src: Source, ps: seq<BrdfParameter>, keys: set<BrdfParameter>)
    requires forall p :: p in ps <==> p in keys
    ensures Collect(src, ps).Ok? ==> Collect(src, ps).value.Keys == keys
  {
  }

  /** Whether every entry's value is zero. */
  predicate AllZero(results: map<BrdfParameter, BrdfResult>)
  {
    forall p :: p in results ==> results[p].value == 0.0
  }

  /** The completed parameter loop. */
  function Entries(src: Source): (r: Result<map<BrdfParameter, BrdfResult>, BrdfFailure>)
    ensures r.Ok? ==> r.value.Keys == {Iso, Vol, Geo}
  {
    CollectAll(src);
    Collect(src, Parameters)
  }

  /** The replacement of an all-zero result by the isotropic one. */
  function NoBrdfOverride(m: map<BrdfParameter, BrdfResult>): (r: map<BrdfParameter, BrdfResult>)
    requires m.Keys == {Iso, Vol, Geo}
    ensures r.Keys == {Iso, Vol, Geo}
    ensures exists p :: p in r && r[p].value != 0.0
    ensures AllZero(m) ==> r == Isotropic
    ensures !AllZero(m) ==> r == m
  {
    if AllZero(m) then
      assert Isotropic[Iso].value != 0.0;
      Isotropic
    else m
  }

  /** The acquisition's scene date, corners and BRDF wavelength, and the two
      archives with their listings. */
  datatype Request = Request(scene: Date, ul: Point, lr: Point, wavelength: string,
                             primaryPath: string, primaryListing: seq<string>,
                             secondaryPath: string, secondaryListing: seq<string>)

  /** The source the walk of the chosen directory yields. */
  function WalkSource(req: Request, w: Walk, contents: string -> Option<BrdfFile>): Source
  {
    Source(HdfFiles(w), LastFolder(w), req.wavelength, contents, req.ul, req.lr)
  }

  /** The parameter loop and the all-zero replacement on a walked
      directory. */
  function FromSource(src: Source): (r: Result<map<BrdfParameter, BrdfResult>, BrdfFailure>)
    ensures r.Ok? ==> r.value.Keys == {Iso, Vol, Geo}
    ensures r.Ok? ==> exists p :: p in r.value && r.value[p].value != 0.0
  {
    match Entries(src)
    case Err(e) => Err(e)
    case Ok(m) => Ok(NoBrdfOverride(m))
  }

  /** `get_brdf_data`: the chosen directory is walked, each parameter's file
      averaged, and an all-zero result replaced by the isotropic one. */
  function BrdfData(req: Request, walk: string -> Walk, contents: string -> Option<BrdfFile>)
    : (r: Result<map<BrdfParameter, BrdfResult>, BrdfFailure>)
    requires ValidDate(req.scene)
    ensures r.Ok? ==> r.value.Keys == {Iso, Vol, Geo}
    ensures r.Ok? ==> exists p :: p in r.value && r.value[p].value != 0.0
    ensures SelectDir(req.primaryPath, req.primaryListing, req.secondaryPath, req.secondaryListing, req.scene).Err? ==>
      r.Err? && r.error == SelectDir(req.primaryPath, req.primaryListing, req.secondaryPath, req.secondaryListing, req.scene).error
  {
    match SelectDir(req.primaryPath, req.primaryListing, req.secondaryPath, req.secondaryListing, req.scene)
    case Err(e) => Err(e)
    case Ok(dir) => FromSource(WalkSource(req, walk(dir), contents))
  }

  /** Once the loop has failed, the remaining parameters do not change the
      outcome. */
  lemma {:induction false} CollectStops(src: Source, ps: seq<BrdfParameter>, n: nat)
    requires n <= |ps| && Collect(src, ps[..n]).Err?
    ensures Collect(src, ps) == Collect(src, ps[..n])
    decreases |ps|
  {
    if n < |ps| {
      var front := ps[..|ps| - 1];
      assert front[..n] == ps[..n];
      CollectStops(src, front, n);
    } else {
      assert ps[..n] == ps;
    }
  }

  /** One more successful pass extends the loop's map. */
  lemma CollectStep(src: Source, ps: seq<BrdfParameter>, n: nat, m: map<BrdfParameter, BrdfResult>, v: BrdfResult)
    requires n < |ps| && Collect(src, ps[..n]) == Ok(m) && ParameterMean(src, ps[n]) == Ok(v)
    ensures Collect(src, ps[..n + 1]) == Ok(m[ps[n] := v])
  {
    assert ps[..n + 1][..n] == ps[..n];
  }

  /** A failing pass is the loop's outcome. */
  lemma CollectFails(src: Source, ps: seq<BrdfParameter>, n: nat)
    requires n < |ps| && Collect(src, ps[..n]).Ok? && ParameterMean(src, ps[n]).Err?
    ensures Collect(src, ps) == Err(ParameterMean(src, ps[n]).error)
  {
    var q := ps[..n + 1];
    assert q[..|q| - 1] == ps[..n] && q[|q| - 1] == ps[n];
    assert Collect(src, q) == Err(ParameterMean(src, ps[n]).error);
    CollectStops(src, ps, n + 1);
  }

  /** Every parameter's mean is zero. */
  predicate NoBrdf(src: Source)
  {
    ParameterMean(src, Iso).Ok? && ParameterMean(src, Vol).Ok? && ParameterMean(src, Geo).Ok? &&
    ParameterMean(src, Iso).value.value == 0.0 && ParameterMean(src, Vol).value.value == 0.0 &&
    ParameterMean(src, Geo).value.value == 0.0
  }

  /** A successful result holds, for each parameter, the mean of the file
      naming it, unless all three means are zero, in which case it is the
      isotropic replacement; every parameter was read without error. */
  lemma MeansOrIsotropic(src: Source)
    requires FromSource(src).Ok?
    ensures ParameterMean(src, Iso).Ok? && ParameterMean(src, Vol).Ok? && ParameterMean(src, Geo).Ok?
    ensures NoBrdf(src) ==> FromSource(src).value == Isotropic
    ensures !NoBrdf(src) ==> forall p :: p in FromSource(src).value ==> FromSource(src).value[p] == ParameterMean(src, p).value
  {
    var m := Entries(src).value;
    assert FromSource(src).value == NoBrdfOverride(m);
    assert Iso in m && Vol in m && Geo in m;
    assert ParameterMean(src, Iso) == Ok(m[Iso]) && ParameterMean(src, Vol) == Ok(m[Vol]) &&
      ParameterMean(src, Geo) == Ok(m[Geo]);
    if NoBrdf(src) {
      forall p | p in m
        ensures m[p].value == 0.0
      {
        assert p == Iso || p == Vol || p == Geo;
      }
      assert AllZero(m);
    }
  }

  /** The walk: every HDF name of every visited folder, and the last
      folder. */
  method WalkHdfs(w: Walk) returns (hdfs: seq<string>, home: Option<string>)
    ensures hdfs == HdfFiles(w) && home == LastFolder(w)
  {
    hdfs := [];
    home := None;
    for k := 0 to |w|
      invariant hdfs == HdfFiles(w[..k]) && home == LastFolder(w[..k])
    {
      home := Some(w[k].0);
      var files := w[k].1;
      for j := 0 to |files|
        invariant hdfs == HdfFiles(w[..k]) + HdfOf(files[..j])
      {
        assert files[..j + 1][..j] == files[..j];
        if IsHdf(files[j]) {
          hdfs := hdfs + [files[j]];
        }
      }
      assert files[..|files|] == files;
      assert w[..k + 1][..k] == w[..k];
    }
    assert w[..|w|] == w;
  }

  /** The parameter loop: each parameter's file opened with a `BrdfLoader`
      and averaged, the first failure ending the call; then the all-zero
      replacement. */
  method ReadParameters(src: Source) returns (r: Result<map<BrdfParameter, BrdfResult>, BrdfFailure>)
    ensures r == FromSource(src)
  {
    var results: map<BrdfParameter, BrdfResult> := map[];
    for n := 0 to |Parameters|
      invariant Collect(src, Parameters[..n]) == Ok(results)
    {
      var p := Parameters[n];
      var f := FindFile(src.hdfs, src.wavelength, ParameterName(p));
      if f.None? || src.home.None? {
        CollectFails(src, Parameters, n);
        return Err(TypeError);
      }
      var path := PathJoin(src.home.value, f.value);
      var loader := BrdfLoader.Open(path, Some(src.ul), Some(src.lr), src.contents(path));
      if loader.Err? {
        assert ReadMean(src, path) == Err(loader.error);
        CollectFails(src, Parameters, n);
        return Err(loader.error);
      }
      // the constructor has already refused a region outside the data
      assert loader.value.intersects;
      var mean := loader.value.MeanDataValue();
      assert ReadMean(src, path) == mean;
      if mean.Err? {
        CollectFails(src, Parameters, n);
        return Err(mean.error);
      }
      CollectStep(src, Parameters, n, results, BrdfResult(ParameterName(p), Some(path), mean.value));
      results := results[p := BrdfResult(ParameterName(p), Some(path), mean.value)];
    }
    assert Parameters[..|Parameters|] == Parameters;
    assert Entries(src) == Ok(results);
    return Ok(NoBrdfOverride(results));
  }

  /** `get_brdf_data` step by step. */
  method GetBrdfData(req: Request, walk: string -> Walk, contents: string -> Option<BrdfFile>)
    returns (r: Result<map<BrdfParameter, BrdfResult>, BrdfFailure>)
    requires ValidDate(req.scene)
    ensures r == BrdfData(req, walk, contents)
  {
    var sel := SelectDir(req.primaryPath, req.primaryListing, req.secondaryPath, req.secondaryListing, req.scene);
    if sel.Err? {
      return Err(sel.error);
    }
    var hdfs, home := WalkHdfs(walk(sel.value));
    r := ReadParameters(Source(hdfs, home, req.wavelength, contents, req.ul, req.lr));
  }
}
