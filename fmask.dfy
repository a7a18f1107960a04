/** The Fmask driver of the pixel-quality step: finding band files, reading
    the Landsat header, preparing the band stack, and layering the final
    cloud, shadow, snow and water classes. Images are flattened: every
    operation here works pixel by pixel. */
module Fmask {
  import opened Wrappers
  import opened Text

  // ---------------------------------------------------------------------
  // `match_file`

  /** Names starting with `.` (work files of a copy in progress) are
      ignored. */
  predicate Visible(name: string)
  {
    !StartsWith(name, ".")
  }

  /** The visible names of a listing, in listing order. */
  function VisibleNames(listing: seq<string>): (r: seq<string>)
    ensures forall f :: f in r <==> f in listing && Visible(f)
  {
    if |listing| == 0 then []
    else
      var last := listing[|listing| - 1];
      var front := VisibleNames(listing[..|listing| - 1]);
      assert forall f :: f in listing <==> f in listing[..|listing| - 1] || f == last;
      if Visible(last) then front + [last] else front
  }

  /** The position of the first name that matches. */
  function FirstIndex(names: seq<string>, matches: string -> bool): (r: Option<nat>)
    ensures r.None? <==> forall j :: 0 <= j < |names| ==> !matches(names[j])
    ensures r.Some? ==> (r.value < |names| && matches(names[r.value]) &&
      forall j :: 0 <= j < r.value ==> !matches(names[j]))
  {
    if |names| == 0 then None
    else if matches(names[0]) then Some(0)
    else
      var r := FirstIndex(names[1..], matches);
      assert forall j :: 1 <= j < |names| ==> names[j] == names[1..][j - 1];
      if r.Some? then Some(r.value + 1) else None
  }

  /** `match_file`: the first visible name, in sorted order, that the
      pattern matches, joined to the directory; `None` when none does. */
  function MatchFile(dir: string, listing: seq<string>, matches: string -> bool): Option<string>
  {
    var names := Sorted(VisibleNames(listing));
    match FirstIndex(names, matches)
    case None => None
    case Some(i) => Some(PathJoin(dir, names[i]))
  }

  /** A file is found exactly when some visible name matches, and it is the
      least such name in string order. */
  lemma MatchFileMeaning(dir: string, listing: seq<string>, matches: string -> bool)
    ensures MatchFile(dir, listing, matches).None? <==>
      forall f :: f in listing && Visible(f) ==> !matches(f)
    ensures MatchFile(dir, listing, matches).Some? ==> exists f :: (f in listing && Visible(f) && matches(f) &&
      MatchFile(dir, listing, matches).value == PathJoin(dir, f) &&
      forall g :: g in listing && Visible(g) && matches(g) ==> !LexLess(g, f))
  {
    var names := Sorted(VisibleNames(listing));
    SortedVisible(listing);
    var first := FirstIndex(names, matches);
    if first.Some? {
      FirstIsLeast(names, matches, first.value);
    }
  }

  /** Sorting the visible names keeps exactly the visible names. */
  lemma SortedVisible(listing: seq<string>)
    ensures forall f :: f in Sorted(VisibleNames(listing)) <==> f in listing && Visible(f)
  {
    var visible := VisibleNames(listing);
    var names := Sorted(visible);
    forall f
      ensures f in names <==> f in visible
    {
      assert f in names <==> f in multiset(names);
      assert f in visible <==> f in multiset(visible);
    }
  }

  /** In sorted names, the first that matches is no greater than any other
      that matches. */
  lemma FirstIsLeast(names: seq<string>, matches: string -> bool, i: nat)
    requires SortedBy(names, Identity)
    requires i < |names| && forall j :: 0 <= j < i ==> !matches(names[j])
    ensures forall g :: g in names && matches(g) ==> !LexLess(g, names[i])
  {
    forall g | g in names && matches(g)
      ensures !LexLess(g, names[i])
    {
      var k :| 0 <= k < |names| && names[k] == g;
      if k == i {
        LexIrreflexive(g);
      } else {
        assert Identity(names[k]) == g && Identity(names[i]) == names[i];
      }
    }
  }

  /** `match_file`'s loop over the sorted visible names. */
  method FindFile(dir: string, listing: seq<string>, matches: string -> bool) returns (r: Option<string>)
    ensures r == MatchFile(dir, listing, matches)
  {
    var names := Sorted(VisibleNames(listing));
    for i := 0 to |names|
      invariant forall j :: 0 <= j < i ==> !matches(names[j])
    {
      if matches(names[i]) {
        return Some(PathJoin(dir, names[i]));
      }
    }
    return None;
  }

  /** The patterns `.*TOKEN.*` of the band files match a name exactly when
      it contains the token. */
  function BandPattern(token: string): string -> bool
  {
    name => Contains(name, token)
  }

  // ---------------------------------------------------------------------
  // `lndhdrread`: the header's `KEY = VALUE` lines

  const Separator := " = "

  /** One header line: split on `" = "`; a line that does not split into
      exactly two parts is ignored; the key is stripped of whitespace, the
      value of whitespace and then of double quotes. */
  function ParseLine(line: string): Option<(string, string)>
  {
    var parts := Split(line, Separator);
    if |parts| != 2 then None
    else Some((Strip(parts[0]), StripChars(Strip(parts[1]), {'"'})))
  }

  /** A line gives an entry exactly when it holds one `" = "`, and the entry
      is its two sides, stripped; the value has no surrounding quote. */
  lemma ParseLineMeaning(line: string)
    ensures ParseLine(line).Some? <==> |Split(line, Separator)| == 2
    ensures ParseLine(line).Some? ==> exists a, b :: (line == a + Separator + b &&
      !Contains(a, Separator) && !Contains(b, Separator) &&
      ParseLine(line).value == (Strip(a), StripChars(Strip(b), {'"'})))
    ensures ParseLine(line).Some? ==> var v := ParseLine(line).value.1;
      |v| > 0 ==> v[0] != '"' && v[|v| - 1] != '"'
  {
    var parts := Split(line, Separator);
    JoinSplit(line, Separator);
    if |parts| == 2 {
      assert Join(parts, Separator) == parts[0] + Separator + parts[1];
      assert line == parts[0] + Separator + parts[1];
    }
  }

  /** The header's entries: a later line with the same key overwrites an
      earlier one. */
  function Header(lines: seq<string>): map<string, string>
  {
    if |lines| == 0 then map[]
    else
      var data := Header(lines[..|lines| - 1]);
      match ParseLine(lines[|lines| - 1])
      case None => data
      case Some((key, value)) => data[key := value]
  }

  /** The line gives an entry for `key`. */
  predicate Gives(line: string, key: string)
  {
    ParseLine(line).Some? && ParseLine(line).value.0 == key
  }

  /** A key is in the header exactly when some line gives it. */
  lemma {:induction false} HeaderKeys(lines: seq<string>, key: string)
    ensures key in Header(lines) <==> exists i :: 0 <= i < |lines| && Gives(lines[i], key)
  {
    if |lines| > 0 {
      var front := lines[..|lines| - 1];
      HeaderKeys(front, key);
      assert forall i :: 0 <= i < |front| ==> front[i] == lines[i];
    }
  }

  /** The value of a key is the one given by the last line giving it. */
  lemma {:induction false} HeaderLastWins(lines: seq<string>, key: string, i: nat)
    requires i < |lines| && Gives(lines[i], key)
    requires forall j :: i < j < |lines| ==> !Gives(lines[j], key)
    ensures key in Header(lines) && Header(lines)[key] == ParseLine(lines[i]).value.1
    decreases |lines|
  {
    var front := lines[..|lines| - 1];
    if i < |lines| - 1 {
      assert forall j :: i < j < |front| ==> front[j] == lines[j];
      assert front[i] == lines[i];
      HeaderLastWins(front, key, i);
    }
  }

  /** `lndhdrread`'s loop over the header lines. */
  method ReadHeader(lines: seq<string>) returns (data: map<string, string>)
    ensures data == Header(lines)
  {
    data := map[];
    for i := 0 to |lines|
      invariant data == Header(lines[..i])
    {
      assert lines[..i + 1][..i] == lines[..i];
      var entry := ParseLine(lines[i]);
      if entry.None? {
        continue;
      }
      data := data[entry.value.0 := entry.value.1];
    }
    assert lines[..|lines|] == lines;
  }

  // ---------------------------------------------------------------------
  // `lndhdrread`: the scene values

  /** The exceptions of reading the header. */
  datatype HeaderError = KeyError(key: string) | ValueError | IndexError

  /** `data[key]`. */
  function Lookup(data: map<string, string>, key: string): (r: Result<string, HeaderError>)
    ensures r.Ok? <==> key in data
    ensures r.Ok? ==> r.value == data[key]
    ensures r.Err? ==> r.error == KeyError(key)
  {
    if key in data then Ok(data[key]) else Err(KeyError(key))
  }

  /** `np.float32(data[key])`, with the conversion of a text to a number
      given as `float`. */
  function FloatField(data: map<string, string>, key: string, float: string -> Option<real>): Result<real, HeaderError>
  {
    var text :- Lookup(data, key);
    match float(text)
    case None => Err(ValueError)
    case Some(x) => Ok(x)
  }

  /** `int(text)` for a text of decimal digits. */
  function IntValue(text: string): (r: Result<nat, HeaderError>)
    ensures r.Ok? <==> |text| > 0 && forall k :: 0 <= k < |text| ==> IsDigit(text[k])
    ensures r.Err? ==> r.error == ValueError
  {
    if |text| > 0 && forall k :: 0 <= k < |text| ==> IsDigit(text[k]) then Ok(ParseNat(text)) else Err(ValueError)
  }

  /** `int(data[key])`. */
  function IntField(data: map<string, string>, key: string): Result<nat, HeaderError>
  {
    var text :- Lookup(data, key);
    IntValue(text)
  }

  /** `Lnum`: the Landsat number, the last character of the spacecraft id
      read as a digit. */
  function LandsatNumber(spacecraft: string): (r: Result<nat, HeaderError>)
    ensures r.Ok? <==> |spacecraft| > 0 && IsDigit(spacecraft[|spacecraft| - 1])
    ensures r.Ok? ==> r.value < 10 && r.value == DigitValue(spacecraft[|spacecraft| - 1])
    ensures |spacecraft| == 0 ==> r == Err(IndexError)
  {
    if |spacecraft| == 0 then Err(IndexError)
    else
      var c := spacecraft[|spacecraft| - 1];
      assert IsDigit(c) ==> ParseNat([c]) == DigitValue(c) by {
        assert [c][..0] == [];
      }
      IntValue([c])
  }

  /** The thermal band is read as `BAND61` on Landsat 7 and as `BAND6`
      otherwise. */
  function ThermalBand(lnum: nat): string
  {
    if lnum == 7 then "61" else "6"
  }

  /** The band suffixes of the seven calibrated bands. */
  function BandSuffixes(lnum: nat): seq<string>
  {
    ["1", "2", "3", "4", "5", ThermalBand(lnum), "7"]
  }

  /** The keys `PREFIX_BAND1` ... `PREFIX_BAND7` of one calibration value. */
  function BandKeys(prefix: string, lnum: nat): (r: seq<string>)
    ensures |r| == 7
    ensures forall b :: 0 <= b < 7 ==> r[b] == prefix + "_BAND" + BandSuffixes(lnum)[b]
    ensures r[5] == prefix + (if lnum == 7 then "_BAND61" else "_BAND6")
  {
    assert "_BAND" + "61" == "_BAND61" && "_BAND" + "6" == "_BAND6";
    seq(7, b requires 0 <= b < 7 => prefix + "_BAND" + BandSuffixes(lnum)[b])
  }

  function FloatStep(data: map<string, string>, float: string -> Option<real>): string -> Result<real, HeaderError>
  {
    key => FloatField(data, key, float)
  }

  /** One calibration value of each of the seven bands, read in order. */
  function BandValues(data: map<string, string>, prefix: string, lnum: nat, float: string -> Option<real>)
    : (r: Result<seq<real>, HeaderError>)
    ensures r.Ok? ==> |r.value| == 7 && forall b :: 0 <= b < 7 ==>
      var key := BandKeys(prefix, lnum)[b]; key in data && float(data[key]) == Some(r.value[b])
  {
    MapAllMeaning(BandKeys(prefix, lnum), FloatStep(data, float));
    MapAll(BandKeys(prefix, lnum), FloatStep(data, float))
  }

  /** The day of year: characters 2 to 4 of `DATEHOUR_CONTACT_PERIOD` as
      an integer, rejected unless it is between 1 and 365. */
  function DayOfYear(period: string): (r: Result<nat, HeaderError>)
    ensures r.Ok? ==> 1 <= r.value <= 365
    ensures r.Err? ==> r.error == ValueError
  {
    var from := if |period| < 2 then |period| else 2;
    var to := if |period| < 5 then |period| else 5;
    var doy :- IntValue(period[from..to]);
    if doy < 1 || doy > 365 then Err(ValueError) else Ok(doy)
  }

  /** Day 366 of a leap year is rejected, so the last entry of the
      Earth-Sun distance table is never used. */
  lemma LeapDayRejected()
    ensures DayOfYear("12366") == Err(ValueError)
    ensures DayOfYear("1236600") == Err(ValueError)
  {
    assert "12366"[2..5] == "366";
    assert "1236600"[2..5] == "366";
    assert ParseNat("366") == 366 by {
      assert "366"[..2] == "36" && "36"[..1] == "3";
    }
  }

  /** The radiance limits and calibrated-number limits of the seven bands. */
  datatype Calibration = Calibration(lmax: seq<real>, lmin: seq<real>, qcalmax: seq<real>, qcalmin: seq<real>)

  /** The four calibration values of each band, read in the order of
      `lndhdrread`. */
  function ReadCalibration(data: map<string, string>, lnum: nat, float: string -> Option<real>)
    : (r: Result<Calibration, HeaderError>)
    ensures r.Ok? ==> |r.value.lmax| == 7 && |r.value.lmin| == 7 && |r.value.qcalmax| == 7 && |r.value.qcalmin| == 7
    ensures r.Ok? ==> var key := if lnum == 7 then "LMAX_BAND61" else "LMAX_BAND6";
      key in data && float(data[key]) == Some(r.value.lmax[5])
  {
    var lmax :- BandValues(data, "LMAX", lnum, float);
    var lmin :- BandValues(data, "LMIN", lnum, float);
    var qcalmax :- BandValues(data, "QCALMAX", lnum, float);
    var qcalmin :- BandValues(data, "QCALMIN", lnum, float);
    assert BandKeys("LMAX", lnum)[5] == if lnum == 7 then "LMAX_BAND61" else "LMAX_BAND6";
    Ok(Calibration(lmax, lmin, qcalmax, qcalmin))
  }

  /** The image grid: (lines, samples) of the reflective and thermal
      bands, their cell sizes and the UTM zone. */
  datatype Grid = Grid(refDims: (nat, nat), thmDims: (nat, nat), resoRef: real, resoThm: real, zone: real)

  function ReadGrid(data: map<string, string>, float: string -> Option<real>): Result<Grid, HeaderError>
  {
    var samplesRef :- IntField(data, "PRODUCT_SAMPLES_REF");
    var linesRef :- IntField(data, "PRODUCT_LINES_REF");
    var samplesThm :- IntField(data, "PRODUCT_SAMPLES_THM");
    var linesThm :- IntField(data, "PRODUCT_LINES_THM");
    var resoRef :- FloatField(data, "GRID_CELL_SIZE_REF", float);
    var resoThm :- FloatField(data, "GRID_CELL_SIZE_THM", float);
    var zone :- FloatField(data, "ZONE_NUMBER", float);
    Ok(Grid((linesRef, samplesRef), (linesThm, samplesThm), resoRef, resoThm, zone))
  }

  /** The sun and the corner: solar zenith and azimuth, and the upper-left
      corner. */
  datatype View = View(zenith: real, azimuth: real, ul: (real, real))

  /** The solar zenith is 90 degrees less the sun's elevation. */
  function ReadView(data: map<string, string>, float: string -> Option<real>): (r: Result<View, HeaderError>)
    ensures r.Ok? ==> "SUN_ELEVATION" in data && float(data["SUN_ELEVATION"]) == Some(90.0 - r.value.zenith)
    ensures r.Ok? ==> "SUN_AZIMUTH" in data && float(data["SUN_AZIMUTH"]) == Some(r.value.azimuth)
  {
    var azimuth :- FloatField(data, "SUN_AZIMUTH", float);
    var elevation :- FloatField(data, "SUN_ELEVATION", float);
    var ulx :- FloatField(data, "PRODUCT_UL_CORNER_MAPX", float);
    var uly :- FloatField(data, "PRODUCT_UL_CORNER_MAPY", float);
    Ok(View(90.0 - elevation, azimuth, (ulx, uly)))
  }

  /** What `lndhdrread` returns. */
  datatype Scene = Scene(calibration: Calibration, grid: Grid, view: View, lnum: nat, doy: nat)

  /** The scene values of a header, read in the order of `lndhdrread`; the
      first key that is missing or unreadable is the error. */
  function ReadScene(data: map<string, string>, float: string -> Option<real>): (r: Result<Scene, HeaderError>)
    ensures r.Ok? ==> 1 <= r.value.doy <= 365
    ensures r.Ok? ==> "SPACECRAFT_ID" in data && LandsatNumber(data["SPACECRAFT_ID"]) == Ok(r.value.lnum)
    ensures r.Ok? ==> ReadCalibration(data, r.value.lnum, float) == Ok(r.value.calibration)
    ensures r.Ok? ==> ReadView(data, float) == Ok(r.value.view)
    ensures "SPACECRAFT_ID" !in data ==> r == Err(KeyError("SPACECRAFT_ID"))
  {
    var spacecraft :- Lookup(data, "SPACECRAFT_ID");
    var lnum :- LandsatNumber(spacecraft);
    var calibration :- ReadCalibration(data, lnum, float);
    var grid :- ReadGrid(data, float);
    var view :- ReadView(data, float);
    var period :- Lookup(data, "DATEHOUR_CONTACT_PERIOD");
    var doy :- DayOfYear(period);
    Ok(Scene(calibration, grid, view, lnum, doy))
  }

  /** `lndhdrread` on the lines of a header file. */
  method LndHdrRead(lines: seq<string>, float: string -> Option<real>) returns (r: Result<Scene, HeaderError>)
    ensures r == ReadScene(Header(lines), float)
  {
    var data := ReadHeader(lines);
    r := ReadScene(data, float);
  }

  // ---------------------------------------------------------------------
  // `nd2toar`

  /** The LPGS upper-left corner: moved half a 30 m pixel west and north,
      from a pixel centre to its outer corner. */
  function CornerOfCentre(ul: (real, real)): (r: (real, real))
  {
    (ul.0 - 15.0, ul.1 + 15.0)
  }

  /** The corner shift is undone by moving back half a pixel each way, and
      keeps the corner's distance to any point on the grid's diagonal. */
  lemma CornerShiftInverse(ul: (real, real))
    ensures var c := CornerOfCentre(ul); (c.0 + 15.0, c.1 - 15.0) == ul
    ensures var c := CornerOfCentre(ul); ul.0 - c.0 == c.1 - ul.1 == 30.0 / 2.0
  {
  }

  /** The thermal band file: `B61` on Landsat 7, `B6` otherwise. */
  function ThermalToken(lnum: nat): (r: string)
    ensures r == "B" + ThermalBand(lnum)
  {
    if lnum == 7 then "B61" else "B6"
  }

  /** The brightness-temperature constants of a Landsat number; any number
      other than 4, 5 or 7 leaves them unbound. */
  function ThermalConstants(lnum: nat): (r: Option<(real, real)>)
    ensures r.Some? <==> lnum in {4, 5, 7}
    ensures r.Some? ==> 0.0 < r.value.0 < r.value.1
  {
    if lnum == 7 then Some((666.09, 1282.71))
    else if lnum == 5 then Some((607.76, 1260.56))
    else if lnum == 4 then Some((671.62, 1284.30))
    else None
  }

  /** A digital number to radiance: the straight line through
      (`qcalmin`, `lmin`) and (`qcalmax`, `lmax`); a zero range has no
      finite result. */
  function Radiance(dn: real, lmax: real, lmin: real, qcalmax: real, qcalmin: real): (r: Option<real>)
    ensures r.None? <==> qcalmax == qcalmin
  {
    if qcalmax == qcalmin then None
    else Some(((lmax - lmin) / (qcalmax - qcalmin)) * (dn - qcalmin) + lmin)
  }

  /** The calibration's end points map to the radiance limits, and a
      brighter pixel never gets less radiance when the limits increase. */
  lemma RadianceCalibration(lmax: real, lmin: real, qcalmax: real, qcalmin: real, a: real, b: real)
    requires qcalmax != qcalmin
    ensures Radiance(qcalmin, lmax, lmin, qcalmax, qcalmin) == Some(lmin)
    ensures Radiance(qcalmax, lmax, lmin, qcalmax, qcalmin) == Some(lmax)
    ensures lmax >= lmin && qcalmax > qcalmin && a <= b ==>
      Radiance(a, lmax, lmin, qcalmax, qcalmin).value <= Radiance(b, lmax, lmin, qcalmax, qcalmin).value
  {
    var slope := (lmax - lmin) / (qcalmax - qcalmin);
    assert slope * (qcalmax - qcalmin) == lmax - lmin;
    if lmax >= lmin && qcalmax > qcalmin && a <= b {
      assert slope >= 0.0;
      assert slope * (a - qcalmin) <= slope * (b - qcalmin);
    }
  }

  /** The fill value of a missing pixel. */
  const Fill: real := -9999.0

  /** `id_missing`: a pixel is missing when any of the seven bands is zero
      there. */
  function Missing(raw: seq<seq<real>>, n: nat): (r: seq<bool>)
    requires forall b :: 0 <= b < |raw| ==> |raw[b]| == n
    ensures |r| == n
    ensures forall p :: 0 <= p < n ==> (r[p] <==> exists b :: 0 <= b < |raw| && raw[b][p] == 0.0)
  {
    seq(n, p requires 0 <= p < n => exists b :: 0 <= b < |raw| && raw[b][p] == 0.0)
  }

  /** A band with its missing pixels set to the fill value. */
  function Masked(values: seq<real>, missing: seq<bool>): (r: seq<real>)
    requires |values| == |missing|
    ensures |r| == |values|
  {
    seq(|values|, p requires 0 <= p < |values| => if missing[p] then Fill else values[p])
  }

  /** Masking keeps every present pixel, fills every missing one, and
      masking again changes nothing. */
  lemma MaskedMeaning(values: seq<real>, missing: seq<bool>)
    requires |values| == |missing|
    ensures forall p :: 0 <= p < |values| ==> (Masked(values, missing)[p] == Fill <==> missing[p] || values[p] == Fill)
    ensures forall p :: 0 <= p < |values| && !missing[p] ==> Masked(values, missing)[p] == values[p]
    ensures Masked(Masked(values, missing), missing) == Masked(values, missing)
  {
  }

  /** `im_B[id_missing] = -9999` on one band, in place. */
  method MaskBand(band: array<real>, missing: seq<bool>)
    requires band.Length == |missing|
    modifies band
    ensures band[..] == Masked(old(band[..]), missing)
  {
    for p := 0 to band.Length
      invariant forall q :: 0 <= q < p ==> band[q] == if missing[q] then Fill else old(band[q])
      invariant forall q :: p <= q < band.Length ==> band[q] == old(band[q])
    {
      if missing[p] {
        band[p] := Fill;
      }
    }
  }

  /** The seven `im_B[id_missing] = -9999` statements, band by band. */
  method MaskBands(bands: seq<array<real>>, missing: seq<bool>)
    requires forall b :: 0 <= b < |bands| ==> bands[b].Length == |missing|
    requires forall b, c :: 0 <= b < c < |bands| ==> bands[b] != bands[c]
    modifies set b | b in bands
    ensures forall b :: 0 <= b < |bands| ==> bands[b][..] == Masked(old(bands[b][..]), missing)
  {
    for k := 0 to |bands|
      invariant forall b :: 0 <= b < k ==> bands[b][..] == Masked(old(bands[b][..]), missing)
      invariant forall b :: k <= b < |bands| ==> bands[b][..] == old(bands[b][..])
    {
      MaskBand(bands[k], missing);
    }
  }

  // ---------------------------------------------------------------------
  // `fcssm_1_6sav`: the final class mask

  /** The classes of the final mask. */
  const Clear := 0
  const Water := 1
  const Snow := 2
  const Shadow := 3
  const Cloud := 4
  const Outside := 255

  /** The class of one pixel: outside the boundary above all, then cloud,
      shadow, snow and water, in that order. */
  function PixelClass(inside: bool, cloud: bool, shadow: bool, snow: bool, water: bool): (c: int)
    ensures c in {Clear, Water, Snow, Shadow, Cloud, Outside}
    ensures c == Outside <==> !inside
    ensures c == Cloud <==> inside && cloud
    ensures c == Shadow <==> inside && !cloud && shadow
    ensures c == Snow <==> inside && !cloud && !shadow && snow
    ensures c == Water <==> inside && !cloud && !shadow && !snow && water
    ensures c == Clear <==> inside && !cloud && !shadow && !snow && !water
  {
    if !inside then Outside
    else if cloud then Cloud
    else if shadow then Shadow
    else if snow then Snow
    else if water then Water
    else Clear
  }

  predicate IsSet(x: int)
  {
    x == 1
  }

  predicate IsUnset(x: int)
  {
    x == 0
  }

  predicate InsideBoundary(x: int)
  {
    x < 255
  }

  /** `a[cond(layer)] = v`. */
  function Assigned(a: seq<int>, layer: seq<int>, cond: int -> bool, v: int): (r: seq<int>)
    requires |a| == |layer|
    ensures |r| == |a|
    ensures forall p :: 0 <= p < |a| ==> r[p] == if cond(layer[p]) then v else a[p]
  {
    seq(|a|, p requires 0 <= p < |a| => if cond(layer[p]) then v else a[p])
  }

  /** A layer of zeros. */
  function Blank(n: nat): (r: seq<int>)
    ensures |r| == n && forall p :: 0 <= p < n ==> r[p] == 0
  {
    seq(n, _ => 0)
  }

  /** `a[cond(layer)] = v`, in place. */
  method MaskedAssign(a: array<int>, layer: array<int>, cond: int -> bool, v: int)
    requires a.Length == layer.Length && a != layer
    modifies a
    ensures a[..] == Assigned(old(a[..]), layer[..], cond, v)
  {
    for p := 0 to a.Length
      invariant forall q :: 0 <= q < p ==> a[q] == if cond(layer[q]) then v else old(a[q])
      invariant forall q :: p <= q < a.Length ==> a[q] == old(a[q])
    {
      if cond(layer[p]) {
        a[p] := v;
      }
    }
  }

  /** A 0/1 layer: 1 where `cond` holds of `layer`. */
  function Indicator(layer: seq<int>, cond: int -> bool): (r: seq<int>)
    ensures |r| == |layer|
    ensures forall p :: 0 <= p < |layer| ==> (r[p] == 1 <==> cond(layer[p])) && (r[p] == 0 <==> !cond(layer[p]))
  {
    seq(|layer|, p requires 0 <= p < |layer| => if cond(layer[p]) then 1 else 0)
  }

  /** The final mask of the layers, each written in turn over the last:
      water 1, snow 2, shadow 3, cloud 4, then 255 outside the boundary. */
  function Layered(boundary: seq<int>, cloud: seq<int>, shadow: seq<int>, snow: seq<int>, water: seq<int>): (r: seq<int>)
    requires |cloud| == |shadow| == |snow| == |water| == |boundary|
    ensures |r| == |boundary|
  {
    var zeros := Blank(|boundary|);
    Assigned(Assigned(Assigned(Assigned(Assigned(zeros, water, IsSet, Water), snow, IsSet, Snow),
      shadow, IsSet, Shadow), cloud, IsSet, Cloud), boundary, IsUnset, Outside)
  }

  /** Writing the layers in order is the same as choosing, pixel by pixel,
      the class of highest priority. */
  lemma LayeredIsPriority(boundary: seq<int>, cloud: seq<int>, shadow: seq<int>, snow: seq<int>, water: seq<int>)
    requires |cloud| == |shadow| == |snow| == |water| == |boundary|
    ensures forall p :: 0 <= p < |boundary| ==> (Layered(boundary, cloud, shadow, snow, water)[p] ==
      PixelClass(boundary[p] != 0, cloud[p] == 1, shadow[p] == 1, snow[p] == 1, water[p] == 1))
  {
    var zeros := Blank(|boundary|);
    var a1 := Assigned(zeros, water, IsSet, Water);
    var a2 := Assigned(a1, snow, IsSet, Snow);
    var a3 := Assigned(a2, shadow, IsSet, Shadow);
    var a4 := Assigned(a3, cloud, IsSet, Cloud);
    var a5 := Assigned(a4, boundary, IsUnset, Outside);
    forall p | 0 <= p < |boundary|
      ensures a5[p] == PixelClass(boundary[p] != 0, cloud[p] == 1, shadow[p] == 1, snow[p] == 1, water[p] == 1)
    {
      assert a1[p] == if water[p] == 1 then Water else 0;
      assert a2[p] == if snow[p] == 1 then Snow else a1[p];
      assert a3[p] == if shadow[p] == 1 then Shadow else a2[p];
      assert a4[p] == if cloud[p] == 1 then Cloud else a3[p];
    }
  }

  /** The sum of a layer. */
  function Total(s: seq<int>): int
  {
    if |s| == 0 then 0 else Total(s[..|s| - 1]) + s[|s| - 1]
  }

  /** A 0/1 layer's sum counts its pixels, and a layer set only where
      another is set sums to no more. */
  lemma {:induction false} TotalBounds(small: seq<int>, large: seq<int>)
    requires |small| == |large|
    requires forall p :: 0 <= p < |small| ==> small[p] in {0, 1} && large[p] in {0, 1}
    requires forall p :: 0 <= p < |small| && small[p] == 1 ==> large[p] == 1
    ensures 0 <= Total(small) <= Total(large) <= |large|
  {
    if |small| > 0 {
      TotalBounds(small[..|small| - 1], large[..|large| - 1]);
    }
  }

  /** `revised_ptm >= 0.90`: the share of in-boundary pixels that are
      potential cloud. With no pixel in the boundary there is no cloud
      either, and the quotient 0/0 is NaN, which compares false. */
  predicate MostlyCloud(cloudCount: int, boundaryCount: int)
  {
    if boundaryCount == 0 then cloudCount > 0
    else cloudCount as real / boundaryCount as real >= 0.9
  }

  /** Shadow matching is skipped when there were almost no clear pixels
      (`ptm <= 0.1`) or potential cloud covers 90% of the scene. */
  predicate SkipMatch(ptm: real, plcim: seq<int>)
  {
    ptm <= 0.1 || MostlyCloud(Total(Indicator(plcim, IsSet)), Total(Indicator(plcim, InsideBoundary)))
  }

  /** Potential cloud lies inside the boundary, so the cloud share is a
      fraction, and a scene whose every pixel is potential cloud skips the
      match. */
  lemma CloudShare(ptm: real, plcim: seq<int>)
    ensures 0 <= Total(Indicator(plcim, IsSet)) <= Total(Indicator(plcim, InsideBoundary)) <= |plcim|
    ensures |plcim| > 0 && (forall p :: 0 <= p < |plcim| ==> plcim[p] == 1) ==> SkipMatch(ptm, plcim)
  {
    var cloud, boundary := Indicator(plcim, IsSet), Indicator(plcim, InsideBoundary);
    TotalBounds(cloud, boundary);
    if |plcim| > 0 && forall p :: 0 <= p < |plcim| ==> plcim[p] == 1 {
      assert cloud == boundary;
      TotalBounds(boundary, boundary);
      AllSetTotal(boundary);
    }
  }

  lemma {:induction false} AllSetTotal(s: seq<int>)
    requires forall p :: 0 <= p < |s| ==> s[p] == 1
    ensures Total(s) == |s|
  {
    if |s| > 0 {
      AllSetTotal(s[..|s| - 1]);
    }
  }

  /** The cloud and shadow layers of a scene without shadow matching: the
      potential cloud is cloud and the rest is shadow. */
  function SkipLayers(cloudTest: seq<int>): (r: (seq<int>, seq<int>))
    ensures |r.0| == |r.1| == |cloudTest|
  {
    (Indicator(cloudTest, IsSet), Indicator(cloudTest, IsUnset))
  }

  /** The layers without shadow matching as written: `cloud_test is True`
      compares the array object with `True`, which is always false, and
      indexing with a scalar `False` selects no pixel, so both layers stay
      zero. */
  function SkipLayersAsWritten(cloudTest: seq<int>): (r: (seq<int>, seq<int>))
    ensures |r.0| == |r.1| == |cloudTest|
  {
    (Blank(|cloudTest|), Blank(|cloudTest|))
  }

  /** The final mask of `fcssm_1_6sav`, with the matched cloud and shadow
      layers of the shadow-matching step as inputs. */
  function Classes(ptm: real, water: seq<int>, snow: seq<int>, plcim: seq<int>,
                   matchedCloud: seq<int>, matchedShadow: seq<int>): (r: seq<int>)
    requires |water| == |snow| == |plcim| == |matchedCloud| == |matchedShadow|
    ensures |r| == |plcim|
  {
    var cloudTest := Indicator(plcim, IsSet);
    var boundary := Indicator(plcim, InsideBoundary);
    var layers := if SkipMatch(ptm, plcim) then SkipLayers(cloudTest) else (matchedCloud, matchedShadow);
    Layered(boundary, layers.0, layers.1, snow, water)
  }

  /** The final mask as written, whose skipped match leaves no cloud and
      no shadow. */
  function ClassesAsWritten(ptm: real, water: seq<int>, snow: seq<int>, plcim: seq<int>,
                            matchedCloud: seq<int>, matchedShadow: seq<int>): (r: seq<int>)
    requires |water| == |snow| == |plcim| == |matchedCloud| == |matchedShadow|
    ensures |r| == |plcim|
  {
    var cloudTest := Indicator(plcim, IsSet);
    var boundary := Indicator(plcim, InsideBoundary);
    var layers := if SkipMatch(ptm, plcim) then SkipLayersAsWritten(cloudTest) else (matchedCloud, matchedShadow);
    Layered(boundary, layers.0, layers.1, snow, water)
  }

  /** Without shadow matching, every pixel inside the boundary is cloud
      where Fmask saw potential cloud and shadow everywhere else. */
  lemma SkippedIsCloudOrShadow(ptm: real, water: seq<int>, snow: seq<int>, plcim: seq<int>,
                               matchedCloud: seq<int>, matchedShadow: seq<int>)
    requires |water| == |snow| == |plcim| == |matchedCloud| == |matchedShadow|
    requires SkipMatch(ptm, plcim)
    ensures forall p :: 0 <= p < |plcim| ==>
      Classes(ptm, water, snow, plcim, matchedCloud, matchedShadow)[p] ==
        (if plcim[p] >= 255 then Outside else if plcim[p] == 1 then Cloud else Shadow)
  {
    var cloudTest := Indicator(plcim, IsSet);
    var boundary := Indicator(plcim, InsideBoundary);
    var layers := SkipLayers(cloudTest);
    assert Classes(ptm, water, snow, plcim, matchedCloud, matchedShadow) == Layered(boundary, layers.0, layers.1, snow, water);
    LayeredIsPriority(boundary, layers.0, layers.1, snow, water);
    forall p | 0 <= p < |plcim|
      ensures (layers.0[p] == 1 <==> plcim[p] == 1) && (layers.1[p] == 1 <==> plcim[p] != 1)
    {
      assert cloudTest[p] == 1 <==> plcim[p] == 1;
    }
  }

  /** As written, a scene without shadow matching has no cloud and no
      shadow pixel at all. */
  lemma SkippedAsWrittenHasNoCloud(ptm: real, water: seq<int>, snow: seq<int>, plcim: seq<int>,
                                   matchedCloud: seq<int>, matchedShadow: seq<int>)
    requires |water| == |snow| == |plcim| == |matchedCloud| == |matchedShadow|
    requires SkipMatch(ptm, plcim)
    ensures forall p :: 0 <= p < |plcim| ==>
      ClassesAsWritten(ptm, water, snow, plcim, matchedCloud, matchedShadow)[p] !in {Cloud, Shadow}
  {
    var layers := SkipLayersAsWritten(Indicator(plcim, IsSet));
    LayeredIsPriority(Indicator(plcim, InsideBoundary), layers.0, layers.1, snow, water);
  }

  /** A one-pixel scene that is all cloud: as written it comes out clear,
      while the intended mask marks it cloud. */
  lemma OvercastPixel()
    ensures ClassesAsWritten(0.0, [0], [0], [1], [0], [0]) == [Clear]
    ensures Classes(0.0, [0], [0], [1], [0], [0]) == [Cloud]
  {
    SkippedAsWrittenHasNoCloud(0.0, [0], [0], [1], [0], [0]);
    SkippedIsCloudOrShadow(0.0, [0], [0], [1], [0], [0]);
    var layers := SkipLayersAsWritten(Indicator([1], IsSet));
    LayeredIsPriority(Indicator([1], InsideBoundary), layers.0, layers.1, [0], [0]);
  }

  /** A fresh layer of zeros, `np.zeros(ijDim, "uint8")`. */
  method Zeros(n: nat) returns (a: array<int>)
    ensures fresh(a) && a.Length == n
    ensures forall p :: 0 <= p < n ==> a[p] == 0
  {
    a := new int[n](_ => 0);
  }

  /** The potential layers: the boundary (`plcim < 255`) and the potential
      cloud (`plcim == 1`). */
  method PotentialLayers(plcim: array<int>) returns (boundaryTest: array<int>, cloudTest: array<int>)
    ensures fresh(boundaryTest) && fresh(cloudTest)
    ensures boundaryTest[..] == Indicator(plcim[..], InsideBoundary)
    ensures cloudTest[..] == Indicator(plcim[..], IsSet)
  {
    var n := plcim.Length;
    boundaryTest := Zeros(n);
    cloudTest := Zeros(n);
    assert boundaryTest[..] == cloudTest[..] == Blank(n);
    MaskedAssign(boundaryTest, plcim, InsideBoundary, 1);
    assert boundaryTest[..] == Indicator(plcim[..], InsideBoundary);
    MaskedAssign(cloudTest, plcim, IsSet, 1);
    assert cloudTest[..] == Indicator(plcim[..], IsSet);
  }

  /** The cloud and shadow layers without shadow matching. */
  method SkippedLayers(cloudTest: array<int>) returns (cloudCal: array<int>, shadowCal: array<int>)
    ensures fresh(cloudCal) && fresh(shadowCal)
    ensures (cloudCal[..], shadowCal[..]) == SkipLayers(cloudTest[..])
  {
    cloudCal := Zeros(cloudTest.Length);
    shadowCal := Zeros(cloudTest.Length);
    assert cloudCal[..] == shadowCal[..] == Blank(cloudTest.Length);
    MaskedAssign(cloudCal, cloudTest, IsSet, 1);
    assert cloudCal[..] == Indicator(cloudTest[..], IsSet);
    MaskedAssign(shadowCal, cloudTest, IsUnset, 1);
    assert shadowCal[..] == Indicator(cloudTest[..], IsUnset);
  }

  /** `cs_final`, written layer over layer. */
  method FinalMask(boundaryTest: array<int>, cloudCal: array<int>, shadowCal: array<int>, snow: array<int>, water: array<int>)
    returns (csFinal: array<int>)
    requires cloudCal.Length == shadowCal.Length == snow.Length == water.Length == boundaryTest.Length
    ensures fresh(csFinal)
    ensures csFinal[..] == Layered(boundaryTest[..], cloudCal[..], shadowCal[..], snow[..], water[..])
  {
    csFinal := Zeros(boundaryTest.Length);
    assert csFinal[..] == Blank(boundaryTest.Length);
    MaskedAssign(csFinal, water, IsSet, Water);
    MaskedAssign(csFinal, snow, IsSet, Snow);
    MaskedAssign(csFinal, shadowCal, IsSet, Shadow);
    MaskedAssign(csFinal, cloudCal, IsSet, Cloud);
    MaskedAssign(csFinal, boundaryTest, IsUnset, Outside);
  }

  /** `fcssm_1_6sav`'s layer building and final mask, step by step; the
      shadow-matching step's result layers are inputs. */
  method CloudShadowSnow(ptm: real, water: array<int>, snow: array<int>, plcim: array<int>,
                         matchedCloud: array<int>, matchedShadow: array<int>)
    returns (skipped: bool, csFinal: array<int>)
    requires water.Length == snow.Length == plcim.Length == matchedCloud.Length == matchedShadow.Length
    ensures fresh(csFinal)
    ensures skipped == SkipMatch(ptm, plcim[..])
    ensures csFinal[..] == Classes(ptm, water[..], snow[..], plcim[..], matchedCloud[..], matchedShadow[..])
  {
    var boundaryTest, cloudTest := PotentialLayers(plcim);
    skipped := ptm <= 0.1 || MostlyCloud(Total(cloudTest[..]), Total(boundaryTest[..]));
    var cloudCal, shadowCal;
    if skipped {
      cloudCal, shadowCal := SkippedLayers(cloudTest);
    } else {
      cloudCal, shadowCal := matchedCloud, matchedShadow;
    }
    csFinal := FinalMask(boundaryTest, cloudCal, shadowCal, snow, water);
  }
}
