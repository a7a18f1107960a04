/** How `wagl.acquisition` names things: the platform name rewriting of
    `fixname`, the choice of loader in `acquisitions`, and the band ids and
    band names that the MTL, Sentinel-2 directory and SAFE loaders derive
    from their metadata. Files, XML documents and `sensors.json` are
    parameters. */
module Acquisition {
  import opened Wrappers
  import opened Text

  // ---------------------------------------------------------------------
  // `fixname`

  predicate IsLetter(c: char)
  {
    'a' <= c <= 'z' || 'A' <= c <= 'Z'
  }

  predicate IsSep(c: char)
  {
    c == '_' || c == '-'
  }

  /** The length of the run of ASCII letters that starts `s`. */
  function Run(s: string): (r: nat)
    ensures r <= |s|
    ensures forall k :: 0 <= k < r ==> IsLetter(s[k])
    ensures r < |s| ==> !IsLetter(s[r])
  {
    if |s| == 0 || !IsLetter(s[0]) then 0 else 1 + Run(s[1..])
  }

  /** After a run of letters ending at `j`, where the pattern's digit ends:
      just after a digit at `j`, or after a `_` or `-` at `j` followed by a
      digit; None when neither follows. */
  function DigitEnd(s: string, j: nat): (r: Option<nat>)
    requires j <= |s|
    ensures r.Some? ==> j < r.value <= |s| && IsDigit(s[r.value - 1])
  {
    if j < |s| && IsDigit(s[j]) then Some(j + 1)
    else if j + 1 < |s| && IsSep(s[j]) && IsDigit(s[j + 1]) then Some(j + 2)
    else None
  }

  /** What `fixname` puts in place of a match: the letters upper-cased,
      `_` and the digit. */
  function Replacement(letters: string, d: char): string
  {
    Upper(letters) + "_" + [d]
  }

  /** `fixname`: `re.sub(r"([a-zA-Z]+)[_-]?(\d)", …)`, which rewrites each
      run of letters followed, maybe after one `_` or `-`, by a digit as
      the upper-cased letters, `_` and the digit. A run of letters that is
      not followed so is copied as it stands: the search, resumed at each
      of its later letters, ends the run at the same place and fails the
      same way. */
  function FixName(s: string): (r: string)
    decreases |s|
  {
    if |s| == 0 then []
    else if !IsLetter(s[0]) then [s[0]] + FixName(s[1..])
    else
      var j := Run(s);
      match DigitEnd(s, j)
      case Some(k) => Replacement(s[..j], s[k - 1]) + FixName(s[k..])
      case None => s[..j] + FixName(s[j..])
  }

  /** A word of letters and a digit, maybe with a separator between, is
      rewritten, and what follows it is rewritten on its own. */
  lemma FixNameWord(letters: string, sep: string, d: char, tail: string)
    requires |letters| > 0 && forall k :: 0 <= k < |letters| ==> IsLetter(letters[k])
    requires sep == [] || (|sep| == 1 && IsSep(sep[0]))
    requires IsDigit(d)
    ensures FixName(letters + sep + [d] + tail) == Upper(letters) + "_" + [d] + FixName(tail)
  {
    var s := letters + sep + [d] + tail;
    RunOf(letters, sep + [d] + tail);
    assert s == letters + (sep + [d] + tail);
    var j := |letters|;
    var k := j + |sep| + 1;
    assert s[..j] == letters;
    assert DigitEnd(s, j) == Some(k);
    assert s[k - 1] == d;
    assert s[k..] == tail;
  }

  /** A word of letters and a digit on its own. */
  lemma FixNameExample(letters: string, sep: string, d: char, s: string, upper: string)
    requires |letters| > 0 && forall k :: 0 <= k < |letters| ==> IsLetter(letters[k])
    requires sep == [] || (|sep| == 1 && IsSep(sep[0]))
    requires IsDigit(d) && s == letters + sep + [d] && upper == Upper(letters)
    ensures FixName(s) == upper + "_" + [d]
  {
    FixNameWord(letters, sep, d, "");
    assert letters + sep + [d] + "" == s;
  }

  /** The platform word of the examples. */
  lemma Landsat()
    ensures Upper("Landsat") == "LANDSAT" && Upper("LANDSAT") == "LANDSAT"
    ensures forall k :: 0 <= k < 7 ==> IsLetter("Landsat"[k]) && IsLetter("LANDSAT"[k])
    ensures FixName("") == ""
  {
    assert Upper("Landsat") == "LANDSAT";
    assert Upper("LANDSAT") == "LANDSAT";
  }

  /** The first example of the docstring. */
  lemma FixNameLandsat7()
    ensures FixName("Landsat7") == "LANDSAT_7"
  {
    Landsat();
    FixNameExample("Landsat", "", '7', "Landsat7", "LANDSAT");
  }

  /** The second example of the docstring. */
  lemma FixNameLandsat8()
    ensures FixName("LANDSAT8") == "LANDSAT_8"
  {
    Landsat();
    FixNameExample("LANDSAT", "", '8', "LANDSAT8", "LANDSAT");
  }

  /** The third example of the docstring. */
  lemma FixNameLandsatDash5()
    ensures FixName("Landsat-5") == "LANDSAT_5"
  {
    Landsat();
    FixNameExample("Landsat", "-", '5', "Landsat-5", "LANDSAT");
  }

  lemma UpperLetters(s: string)
    requires forall k :: 0 <= k < |s| ==> IsLetter(s[k])
    ensures forall k :: 0 <= k < |Upper(s)| ==> IsLetter(Upper(s)[k])
    ensures Upper(Upper(s)) == Upper(s)
  {
  }

  /** The run of a string that starts with `|letters|` letters followed by
      a character that is not one. */
  lemma {:induction false} RunOf(letters: string, rest: string)
    requires forall k :: 0 <= k < |letters| ==> IsLetter(letters[k])
    requires |rest| == 0 || !IsLetter(rest[0])
    ensures Run(letters + rest) == |letters|
    decreases |letters|
  {
    var s := letters + rest;
    if |letters| > 0 {
      assert s[0] == letters[0];
      assert s[1..] == letters[1..] + rest;
      RunOf(letters[1..], rest);
      assert Run(s) == 1 + Run(s[1..]);
    } else {
      assert s == rest;
    }
  }

  /** The first character of the result is a digit exactly when the first
      character of the input is. */
  lemma FixNameFirst(s: string)
    requires |s| > 0
    ensures |FixName(s)| > 0 && (IsDigit(FixName(s)[0]) <==> IsDigit(s[0]))
  {
    if IsLetter(s[0]) {
      var j := Run(s);
      match DigitEnd(s, j)
      case Some(k) =>
        UpperLetters(s[..j]);
        assert FixName(s)[0] == Upper(s[..j])[0];
      case None =>
        assert FixName(s)[0] == s[0];
    }
  }

  /** A non-letter is copied and the rest rewritten on its own. */
  lemma FixNameCons(c: char, t: string)
    requires !IsLetter(c)
    ensures FixName([c] + t) == [c] + FixName(t)
  {
    assert ([c] + t)[1..] == t;
  }

  /** A rewritten word followed by a string that rewrites to itself
      rewrites to itself. */
  lemma IdempotentMatched(s: string, k: nat)
    requires |s| > 0 && IsLetter(s[0]) && DigitEnd(s, Run(s)) == Some(k)
    requires FixName(FixName(s[k..])) == FixName(s[k..])
    ensures FixName(FixName(s)) == FixName(s)
  {
    FixNameMatched(s, k);
    var letters := s[..Run(s)];
    MatchedWord(s, k);
    RewrittenWord(letters, s[k - 1], FixName(s[k..]));
  }

  /** The word a match starts with is a non-empty run of letters, and the
      match ends with a digit. */
  lemma MatchedWord(s: string, k: nat)
    requires |s| > 0 && IsLetter(s[0]) && DigitEnd(s, Run(s)) == Some(k)
    ensures var letters := s[..Run(s)];
      |letters| > 0 && (forall i :: 0 <= i < |letters| ==> IsLetter(letters[i])) && IsDigit(s[k - 1])
  {
  }

  lemma FixNameMatched(s: string, k: nat)
    requires |s| > 0 && IsLetter(s[0]) && DigitEnd(s, Run(s)) == Some(k)
    ensures FixName(s) == Replacement(s[..Run(s)], s[k - 1]) + FixName(s[k..])
  {
    var j := Run(s);
    SplitAround(s, j, k);
    FixNameWord(s[..j], s[j..k - 1], s[k - 1], s[k..]);
  }

  /** A string is its part before `j`, its part from `j` to the character
      before `k`, that character and its part from `k`. */
  lemma SplitAround(s: string, j: nat, k: nat)
    requires j < k <= |s|
    ensures s == s[..j] + s[j..k - 1] + [s[k - 1]] + s[k..]
  {
    assert s[..k - 1] == s[..j] + s[j..k - 1];
    assert s[k - 1..] == [s[k - 1]] + s[k..];
    assert s == s[..k - 1] + s[k - 1..];
  }

  /** The replacement of a word, followed by a string that rewrites to
      itself, rewrites to itself. */
  lemma RewrittenWord(letters: string, d: char, y: string)
    requires |letters| > 0 && forall k :: 0 <= k < |letters| ==> IsLetter(letters[k])
    requires IsDigit(d) && FixName(y) == y
    ensures FixName(Replacement(letters, d) + y) == Replacement(letters, d) + y
  {
    UpperLetters(letters);
    FixNameWord(Upper(letters), "_", d, y);
  }

  /** A run of letters copied as it stands is copied again. */
  lemma IdempotentCopied(s: string)
    requires |s| > 0 && IsLetter(s[0]) && DigitEnd(s, Run(s)).None?
    requires Run(s) < |s| ==> FixName(FixName(s[Run(s) + 1..])) == FixName(s[Run(s) + 1..])
    ensures FixName(FixName(s)) == FixName(s)
  {
    var j := Run(s);
    var letters := s[..j];
    var y := FixName(s[j..]);
    assert FixName(s) == letters + y;
    if j == |s| {
      assert y == [];
      RunOf(letters, []);
      assert letters + y == letters;
      assert DigitEnd(letters, j).None?;
      assert letters[j..] == [];
    } else {
      var c := s[j];
      var z := FixName(s[j + 1..]);
      assert s[j..] == [c] + s[j + 1..];
      FixNameCons(c, s[j + 1..]);
      assert y == [c] + z;
      var o := letters + ([c] + z);
      RunOf(letters, [c] + z);
      if j + 1 < |s| {
        FixNameFirst(s[j + 1..]);
      }
      assert DigitEnd(o, j).None?;
      assert o[..j] == letters && o[j..] == [c] + z;
      FixNameCons(c, z);
      assert FixName(o) == letters + FixName([c] + z);
    }
  }

  /** `fixname` is idempotent: a rewritten name is left alone, so names
      already in the `LANDSAT_7` form pass through unchanged. */
  lemma {:induction false} FixNameIdempotent(s: string)
    ensures FixName(FixName(s)) == FixName(s)
    decreases |s|
  {
    if |s| == 0 {
    } else if !IsLetter(s[0]) {
      FixNameIdempotent(s[1..]);
      FixNameCons(s[0], FixName(s[1..]));
    } else {
      var j := Run(s);
      match DigitEnd(s, j)
      case Some(k) =>
        FixNameIdempotent(s[k..]);
        IdempotentMatched(s, k);
      case None =>
        if j < |s| {
          FixNameIdempotent(s[j + 1..]);
        }
        IdempotentCopied(s);
    }
  }

  // ---------------------------------------------------------------------
  // `acquisitions`: the choice of loader

  /** `s.rfind(c)`: the last index holding `c`, -1 when there is none. */
  function LastIndexOf(s: string, c: char): (r: int)
    ensures -1 <= r < |s|
    ensures r >= 0 ==> s[r] == c
    ensures forall k :: r < k < |s| ==> s[k] != c
  {
    if |s| == 0 then -1
    else if s[|s| - 1] == c then |s| - 1
    else LastIndexOf(s[..|s| - 1], c)
  }

  /** `os.path.splitext` on a POSIX path: the extension runs from the last
      `.` of the last component, unless everything before that dot in the
      component is dots too; otherwise it is empty. */
  function SplitExt(p: string): (r: (string, string))
    ensures r.0 + r.1 == p
    ensures r.1 == "" || (r.1[0] == '.' && forall k :: 0 < k < |r.1| ==> r.1[k] != '.' && r.1[k] != '/')
  {
    var slash := LastIndexOf(p, '/');
    var dot := LastIndexOf(p, '.');
    if dot > slash && exists k :: slash + 1 <= k < dot && p[k] != '.' then
      assert p[..dot] + p[dot..] == p;
      (p[..dot], p[dot..])
    else (p, "")
  }

  lemma {:induction false} LastIndexAt(s: string, c: char, i: nat)
    requires i < |s| && s[i] == c && forall k :: i < k < |s| ==> s[k] != c
    ensures LastIndexOf(s, c) == i
    decreases |s|
  {
    if i < |s| - 1 {
      LastIndexAt(s[..|s| - 1], c, i);
    }
  }

  /** A zip archive is recognised by its extension; a hidden file named
      `.zip` has none. */
  lemma SplitExtExamples()
    ensures SplitExt("/data/S2A_MSIL1C.zip").1 == ".zip"
    ensures SplitExt("/data/.zip").1 == ""
  {
    var a := "/data/S2A_MSIL1C.zip";
    LastIndexAt(a, '.', 16);
    LastIndexAt(a, '/', 5);
    assert a[6] != '.';
    assert a[16..] == ".zip";
    var b := "/data/.zip";
    LastIndexAt(b, '.', 6);
    LastIndexAt(b, '/', 5);
  }

  /** The errors the loaders raise. */
  datatype LoadError = OSError(message: string) | OtherError(kind: string)

  /** `acquisitions(path, hint)`: the Sentinel-2 directory loader for the
      hint `"s2_directory"`, the SAFE loader for a `.zip` extension, and
      otherwise the MTL loader, whose `OSError` is raised again naming the
      path. The loaders themselves are parameters. */
  function Acquisitions<C>(path: string, hint: Option<string>, viaS2Directory: string -> Result<C, LoadError>,
                           viaSafe: string -> Result<C, LoadError>, viaMtl: string -> Result<C, LoadError>)
    : (r: Result<C, LoadError>)
    ensures hint == Some("s2_directory") ==> r == viaS2Directory(path)
    ensures hint != Some("s2_directory") && SplitExt(path).1 == ".zip" ==> r == viaSafe(path)
    ensures hint != Some("s2_directory") && SplitExt(path).1 != ".zip" ==>
      (viaMtl(path).Ok? ==> r == viaMtl(path)) &&
      (viaMtl(path).Err? && !viaMtl(path).error.OSError? ==> r == viaMtl(path)) &&
      (viaMtl(path).Err? && viaMtl(path).error.OSError? ==> r == Err(OSError("No acquisitions found in: " + path)))
  {
    if hint == Some("s2_directory") then viaS2Directory(path)
    else if SplitExt(path).1 == ".zip" then viaSafe(path)
    else
      match viaMtl(path)
      case Err(OSError(_)) => Err(OSError("No acquisitions found in: " + path))
      case other => other
  }

  // ---------------------------------------------------------------------
  // Band configurations

  /** A value of `sensors.json`. */
  datatype Value = Flag(b: bool) | Str(s: string) | Number(x: real)

  /** Python's truth value of a JSON value. */
  predicate Truthy(v: Value)
  {
    match v
    case Flag(b) => b
    case Str(s) => s != ""
    case Number(x) => x != 0.0
  }

  /** A dictionary in insertion order. */
  type Dict<V> = seq<(string, V)>

  /** `d.get(key)`: the value last stored under `key`. */
  function Get<V>(d: Dict<V>, key: string): Option<V>
  {
    if |d| == 0 then None
    else if d[|d| - 1].0 == key then Some(d[|d| - 1].1)
    else Get(d[..|d| - 1], key)
  }

  /** A key is found exactly when some entry has it, and the value found is
      the last one stored under it. */
  lemma {:induction false} GetFound<V>(d: Dict<V>, key: string)
    ensures Get(d, key).Some? <==> exists i :: 0 <= i < |d| && d[i].0 == key
    ensures Get(d, key).Some? ==> exists i :: (0 <= i < |d| && d[i] == (key, Get(d, key).value) &&
      forall j :: i < j < |d| ==> d[j].0 != key)
  {
    if |d| > 0 && d[|d| - 1].0 != key {
      var front := d[..|d| - 1];
      GetFound(front, key);
      assert forall i :: 0 <= i < |front| ==> front[i] == d[i];
    }
  }

  /** A band's attributes. */
  type Attrs = Dict<Value>

  /** `attrs.get("supported_band")` is true. */
  predicate Supported(attrs: Attrs)
  {
    Get(attrs, "supported_band").Some? && Truthy(Get(attrs, "supported_band").value)
  }

  /** The exceptions of the band derivation. */
  datatype AcqError = KeyError | ValueError | AttributeError

  /** The name and id an acquisition is built with. */
  datatype Band = Band(name: Value, id: string)

  /** The band name: a supported band's `band_name` attribute, popped (a
      `KeyError` when it has none); any other band keeps `fallback`. */
  function BandName(attrs: Attrs, fallback: string): (r: Result<Value, AcqError>)
    ensures !Supported(attrs) ==> r == Ok(Str(fallback))
    ensures Supported(attrs) ==> (r.Ok? <==> Get(attrs, "band_name").Some?)
    ensures Supported(attrs) && r.Ok? ==> r.value == Get(attrs, "band_name").value
    ensures r.Err? ==> r.error == KeyError
  {
    if Supported(attrs) then
      match Get(attrs, "band_name")
      case None => Err(KeyError)
      case Some(v) => Ok(v)
    else Ok(Str(fallback))
  }

  // ---------------------------------------------------------------------
  // `acquisitions_via_mtl`

  /** The PRODUCT_METADATA keys naming a band file, in order. */
  function BandFiles(keys: seq<string>): (r: seq<string>)
    ensures |r| <= |keys|
    ensures forall k :: k in r <==> k in keys && Contains(k, "band") && Contains(k, "file_name")
  {
    if |keys| == 0 then []
    else
      var last := keys[|keys| - 1];
      var front := BandFiles(keys[..|keys| - 1]);
      assert forall k :: k in keys <==> k in keys[..|keys| - 1] || k == last;
      if Contains(last, "band") && Contains(last, "file_name") then front + [last] else front
  }

  /** The band a file key names: `"file_name"` removed, then `_` stripped. */
  function BandOf(key: string): string
  {
    StripChars(Remove(key, "file_name"), {'_'})
  }

  /** The band id: `"_vcid_"` (when the band has `vcid`) and `"band"`
      removed, then `_` stripped. */
  function BandId(band: string): (r: string)
    ensures |r| > 0 ==> r[0] != '_' && r[|r| - 1] != '_'
  {
    if Contains(band, "vcid") then StripChars(Remove(Remove(band, "_vcid_"), "band"), {'_'})
    else StripChars(Remove(band, "band"), {'_'})
  }

  /** The band of the quality file, which the loader ignores. */
  const Ignored := "band_quality"

  /** `bands_`: the band of each band file key, in order. */
  function Bands(keys: seq<string>): (r: seq<string>)
    ensures |r| == |BandFiles(keys)|
    ensures forall i :: 0 <= i < |r| ==> r[i] == BandOf(BandFiles(keys)[i])
  {
    var files := BandFiles(keys);
    seq(|files|, i requires 0 <= i < |files| => BandOf(files[i]))
  }

  /** The bands the loop keeps, in order. */
  function Kept(bands: seq<string>): seq<string>
  {
    if |bands| == 0 then []
    else
      var last := bands[|bands| - 1];
      Kept(bands[..|bands| - 1]) + (if last == Ignored then [] else [last])
  }

  /** The kept bands are the bands other than the quality band. */
  lemma {:induction false} KeptMembers(bands: seq<string>)
    ensures forall b :: b in Kept(bands) <==> b in bands && b != Ignored
  {
    if |bands| > 0 {
      var last := bands[|bands| - 1];
      KeptMembers(bands[..|bands| - 1]);
      assert forall b :: b in bands <==> b in bands[..|bands| - 1] || b == last;
    }
  }

  /** The keys of the `MIN_MAX_RADIANCE` and `MIN_MAX_PIXEL_VALUE` groups;
      their values are not modelled. */
  datatype MtlGroups = MtlGroups(radiance: set<string>, quantize: set<string>)

  /** `d.get(preferred, d[fallback])` as Python runs it: the default is
      evaluated before the call, so the lookup succeeds exactly when
      `fallback` is present, whether or not `preferred` is. */
  predicate EagerGet(d: set<string>, preferred: string, fallback: string)
  {
    fallback in d
  }

  /** The lookup the code evidently means: `preferred`, or else `fallback`. */
  predicate LazyGet(d: set<string>, preferred: string, fallback: string)
  {
    preferred in d || fallback in d
  }

  /** The acquisition date and the scene centre time can be read, in either
      the old spelling or the new one, with the lookup `get`. */
  predicate DatesRead(product: set<string>, get: (set<string>, string, string) -> bool)
  {
    get(product, "acquisition_date", "date_acquired") &&
    get(product, "scene_center_scan_time", "scene_center_time")
  }

  /** A band's file name, its radiance range and its quantisation range can
      be read with the lookup `get`. */
  predicate BandRead(band: string, product: set<string>, groups: MtlGroups,
                     get: (set<string>, string, string) -> bool)
  {
    get(product, band + "_file_name", "file_name_" + band) &&
    get(groups.radiance, "lmin_" + band, "radiance_minimum_" + band) &&
    get(groups.radiance, "lmax_" + band, "radiance_maximum_" + band) &&
    get(groups.quantize, "qcalmin_" + band, "quantize_cal_min_" + band) &&
    get(groups.quantize, "qcalmax_" + band, "quantize_cal_max_" + band)
  }

  /** One kept band: a `KeyError` when its metadata cannot be read, else its
      id and its name from the sensor's configuration of that id (no
      configuration counts as unsupported). */
  function MtlBand(band: string, configs: Dict<Attrs>, product: set<string>, groups: MtlGroups,
                   get: (set<string>, string, string) -> bool): (r: Result<Band, AcqError>)
    ensures !BandRead(band, product, groups, get) ==> r == Err(KeyError)
    ensures r.Ok? ==> BandRead(band, product, groups, get) && r.value.id == BandId(band)
  {
    if !BandRead(band, product, groups, get) then Err(KeyError)
    else
      var id := BandId(band);
      var attrs := if Get(configs, id).Some? then Get(configs, id).value else [];
      match BandName(attrs, id)
      case Err(e) => Err(e)
      case Ok(name) => Ok(Band(name, id))
  }

  /** The step of the band loop. */
  function MtlStep(configs: Dict<Attrs>, product: set<string>, groups: MtlGroups,
                   get: (set<string>, string, string) -> bool): string -> Result<Band, AcqError>
  {
    band => MtlBand(band, configs, product, groups, get)
  }

  lemma KeptSplit(a: seq<string>, b: seq<string>)
    ensures Kept(a + b) == Kept(a) + Kept(b)
    decreases |b|
  {
    if |b| == 0 {
      assert a + b == a;
    } else {
      var ab := a + b;
      assert ab[..|ab| - 1] == a + b[..|b| - 1];
      KeptSplit(a, b[..|b| - 1]);
    }
  }

  lemma KeptStep(bands: seq<string>, i: nat)
    requires i < |bands|
    ensures Kept(bands[..i + 1]) == Kept(bands[..i]) + (if bands[i] == Ignored then [] else [bands[i]])
  {
    assert bands[..i + 1][..i] == bands[..i];
  }

  lemma MtlBandsFail(bands: seq<string>, n: nat, step: string -> Result<Band, AcqError>)
    requires n <= |bands| && MapAll(Kept(bands[..n]), step).Err?
    ensures MapAll(Kept(bands), step) == MapAll(Kept(bands[..n]), step)
  {
    KeptSplit(bands[..n], bands[n..]);
    assert bands[..n] + bands[n..] == bands;
    MapAllStops(Kept(bands[..n]), Kept(bands[n..]), step);
  }

  /** The sensor id `"ETM"` is spelled `"ETM+"`. */
  function SensorName(sensor: string): (r: string)
    ensures r != "ETM"
    ensures r == "ETM+" <==> sensor == "ETM" || sensor == "ETM+"
  {
    if sensor == "ETM" then "ETM+" else sensor
  }

  /** The acquisition class: the one registered for `PLATFORM_SENSOR`, or
      the generic Landsat one. */
  datatype AcqType = Registered(key: string) | LandsatDefault

  function AcqTypeOf(platform: string, sensor: string, registered: set<string>): (r: AcqType)
    ensures r.Registered? <==> platform + "_" + sensor in registered
    ensures r.Registered? ==> r.key == platform + "_" + sensor
  {
    var key := platform + "_" + sensor;
    if key in registered then Registered(key) else LandsatDefault
  }

  /** What `acquisitions_via_mtl` builds its acquisitions from. */
  datatype Product = Product(platform: string, sensor: string, acqType: AcqType, bands: seq<Band>)

  /** The band configurations of `SENSORS[platform][sensor]["band_ids"]`;
      a missing platform or sensor is a `KeyError`. */
  function SensorConfigs(sensors: Dict<Dict<Dict<Attrs>>>, platform: string, sensor: string)
    : (r: Result<Dict<Attrs>, AcqError>)
    ensures r.Err? <==> Get(sensors, platform).None? || Get(Get(sensors, platform).value, sensor).None?
  {
    match Get(sensors, platform)
    case None => Err(KeyError)
    case Some(bySensor) =>
      match Get(bySensor, sensor)
      case None => Err(KeyError)
      case Some(configs) => Ok(configs)
  }

  /** The PRODUCT_METADATA keys as a set. */
  function KeySet(keys: seq<string>): (r: set<string>)
    ensures forall k :: k in r <==> k in keys
  {
    set k | k in keys
  }

  /** `acquisitions_via_mtl` on the keys of the metadata groups, the
      spacecraft and sensor ids, with the dictionary lookup `get`: the
      dates are read first, then the platform and sensor names, the
      acquisition class, the sensor's band configurations and the band of
      each band file other than the quality band. */
  function ViaMtl(keys: seq<string>, groups: MtlGroups, spacecraft: string, sensorId: string, registered: set<string>,
                  sensors: Dict<Dict<Dict<Attrs>>>, get: (set<string>, string, string) -> bool)
    : (r: Result<Product, AcqError>)
    ensures !DatesRead(KeySet(keys), get) ==> r == Err(KeyError)
    ensures r.Ok? ==> r.value.platform == FixName(spacecraft) && r.value.sensor == SensorName(sensorId)
    ensures r.Ok? ==> |r.value.bands| == |Kept(Bands(keys))|
    ensures r.Ok? ==> forall k :: 0 <= k < |r.value.bands| ==>
      r.value.bands[k].id == BandId(Kept(Bands(keys))[k]) &&
      BandRead(Kept(Bands(keys))[k], KeySet(keys), groups, get)
  {
    var product := KeySet(keys);
    if !DatesRead(product, get) then Err(KeyError)
    else
      var platform := FixName(spacecraft);
      var sensor := SensorName(sensorId);
      match SensorConfigs(sensors, platform, sensor)
      case Err(e) => Err(e)
      case Ok(configs) =>
        var step := MtlStep(configs, product, groups, get);
        MapAllMeaning(Kept(Bands(keys)), step);
        match MapAll(Kept(Bands(keys)), step)
        case Err(e) => Err(e)
        case Ok(bs) => Ok(Product(platform, sensor, AcqTypeOf(platform, sensor, registered), bs))
  }

  /** `acquisitions_via_mtl`'s band loop, band by band, with Python's
      eager lookups. */
  method AcquisitionsViaMtl(keys: seq<string>, groups: MtlGroups, spacecraft: string, sensorId: string,
                            registered: set<string>, sensors: Dict<Dict<Dict<Attrs>>>)
    returns (r: Result<Product, AcqError>)
    ensures r == ViaMtl(keys, groups, spacecraft, sensorId, registered, sensors, EagerGet)
  {
    var product := KeySet(keys);
    if !DatesRead(product, EagerGet) {
      return Err(KeyError);
    }
    var platform := FixName(spacecraft);
    var sensor := SensorName(sensorId);
    var acqType := AcqTypeOf(platform, sensor, registered);
    var found := SensorConfigs(sensors, platform, sensor);
    if found.Err? {
      return Err(found.error);
    }
    var configs := found.value;
    var step := MtlStep(configs, product, groups, EagerGet);
    var bands := Bands(keys);
    var acqs: seq<Band> := [];
    for i := 0 to |bands|
      invariant MapAll(Kept(bands[..i]), step) == Ok(acqs)
    {
      var band := bands[i];
      KeptStep(bands, i);
      if band == Ignored {
        assert Kept(bands[..i + 1]) == Kept(bands[..i]);
        continue;
      }
      assert Kept(bands[..i + 1]) == Kept(bands[..i]) + [band];
      var b := MtlBand(band, configs, product, groups, EagerGet);
      MapAllStep(Kept(bands[..i]), band, step);
      if b.Err? {
        MtlBandsFail(bands, i + 1, step);
        return Err(b.error);
      }
      acqs := acqs + [b.value];
      assert MapAll(Kept(bands[..i + 1]), step) == Ok(acqs);
    }
    assert bands[..|bands|] == bands;
    return Ok(Product(platform, sensor, acqType, acqs));
  }

  /** As written, metadata that spells the acquisition date only the old
      way, `acquisition_date`, raises `KeyError`: the new spelling is looked
      up first as the default. Read lazily, the dates are found. */
  lemma OldStyleDatesRaise(keys: seq<string>, groups: MtlGroups, spacecraft: string, sensorId: string,
                           registered: set<string>, sensors: Dict<Dict<Dict<Attrs>>>)
    requires "acquisition_date" in keys && "scene_center_scan_time" in keys && "date_acquired" !in keys
    ensures ViaMtl(keys, groups, spacecraft, sensorId, registered, sensors, EagerGet) == Err(KeyError)
    ensures DatesRead(KeySet(keys), LazyGet)
  {
  }

  /** As written, a band whose metadata uses only the old spellings (`bandN_file_name`,
      `lmin_bandN`, `qcalmin_bandN` and so on) raises `KeyError`; read lazily
      its metadata is found. */
  lemma OldStyleBandRaises(band: string, configs: Dict<Attrs>, product: set<string>, groups: MtlGroups)
    requires band + "_file_name" in product && "file_name_" + band !in product
    requires "lmin_" + band in groups.radiance && "lmax_" + band in groups.radiance
    requires "qcalmin_" + band in groups.quantize && "qcalmax_" + band in groups.quantize
    ensures MtlBand(band, configs, product, groups, EagerGet) == Err(KeyError)
    ensures BandRead(band, product, groups, LazyGet)
  {
  }

  /** The lazy lookups accept all the eager ones accept, and then build the
      same product: the corrected reader only adds the old spellings. */
  lemma LazyExtendsEager(keys: seq<string>, groups: MtlGroups, spacecraft: string, sensorId: string,
                         registered: set<string>, sensors: Dict<Dict<Dict<Attrs>>>)
    requires ViaMtl(keys, groups, spacecraft, sensorId, registered, sensors, EagerGet).Ok?
    ensures ViaMtl(keys, groups, spacecraft, sensorId, registered, sensors, LazyGet)
         == ViaMtl(keys, groups, spacecraft, sensorId, registered, sensors, EagerGet)
  {
    var product := KeySet(keys);
    var configs := SensorConfigs(sensors, FixName(spacecraft), SensorName(sensorId)).value;
    var eager, lazy := MtlStep(configs, product, groups, EagerGet), MtlStep(configs, product, groups, LazyGet);
    forall b | eager(b).Ok?
      ensures lazy(b) == eager(b)
    {
    }
    MapAllAgree(Kept(Bands(keys)), eager, lazy);
  }

  /** Old-style metadata read lazily: with both dates in the old spelling
      and every kept band's metadata in the old spelling, the corrected
      reader gets past every lookup and fails, if at all, only on the
      sensor's configuration. */
  lemma OldStyleReadLazily(keys: seq<string>, groups: MtlGroups)
    requires "acquisition_date" in keys && "scene_center_scan_time" in keys
    requires forall b :: b in Kept(Bands(keys)) ==>
      b + "_file_name" in keys && "lmin_" + b in groups.radiance && "lmax_" + b in groups.radiance &&
      "qcalmin_" + b in groups.quantize && "qcalmax_" + b in groups.quantize
    ensures DatesRead(KeySet(keys), LazyGet)
    ensures forall b :: b in Kept(Bands(keys)) ==> BandRead(b, KeySet(keys), groups, LazyGet)
  {
  }

  /** A band without a configuration, or whose configuration does not mark
      it supported, is named by its id; a supported band takes its
      configured name, and one configured without a name is a `KeyError`. */
  lemma MtlBandNaming(band: string, configs: Dict<Attrs>, product: set<string>, groups: MtlGroups,
                      get: (set<string>, string, string) -> bool)
    ensures !BandRead(band, product, groups, get) ==> MtlBand(band, configs, product, groups, get) == Err(KeyError)
    ensures MtlBand(band, configs, product, groups, get).Ok? ==>
      MtlBand(band, configs, product, groups, get).value.id == BandId(band)
    ensures var c := Get(configs, BandId(band));
      BandRead(band, product, groups, get) && (c.None? || !Supported(c.value)) ==>
        MtlBand(band, configs, product, groups, get) == Ok(Band(Str(BandId(band)), BandId(band)))
    ensures var c := Get(configs, BandId(band));
      BandRead(band, product, groups, get) && c.Some? && Supported(c.value) ==> (
        (Get(c.value, "band_name").Some? ==>
          MtlBand(band, configs, product, groups, get) == Ok(Band(Get(c.value, "band_name").value, BandId(band)))) &&
        (Get(c.value, "band_name").None? ==> MtlBand(band, configs, product, groups, get) == Err(KeyError)))
  {
    var c := Get(configs, BandId(band));
    if c.None? {
      assert !Supported([]);
    }
  }


  // ---------------------------------------------------------------------
  // Resolution groups, shared by the two Sentinel-2 loaders

  /** The resolution groups an acquisition lands in. */
  const Resolutions: set<string> := {"R10m", "R20m", "R60m"}

  /** Where a band went: skipped, or appended to a resolution group. */
  datatype Placed = Skipped | Placed(group: string, band: Band)

  /** The bands placed in group `g`, in the order they were placed. */
  function InGroup(placed: seq<Placed>, g: string): (r: seq<Band>)
    ensures |r| <= |placed|
  {
    if |placed| == 0 then []
    else
      var last := placed[|placed| - 1];
      InGroup(placed[..|placed| - 1], g) + (if last.Placed? && last.group == g then [last.band] else [])
  }

  /** A band is in group `g` exactly when it was placed there. */
  lemma {:induction false} InGroupMembers(placed: seq<Placed>, g: string)
    ensures forall b :: b in InGroup(placed, g) <==> Placed(g, b) in placed
  {
    if |placed| > 0 {
      var front := placed[..|placed| - 1];
      InGroupMembers(front, g);
      assert forall x :: x in placed <==> x in front || x == placed[|placed| - 1];
    }
  }

  /** `res_groups` after the loop: each resolution's bands in order. */
  function Distribute(placed: seq<Placed>): (r: map<string, seq<Band>>)
    ensures r.Keys == Resolutions
  {
    map g | g in Resolutions :: InGroup(placed, g)
  }

  lemma InGroupStep(placed: seq<Placed>, x: Placed, g: string)
    ensures InGroup(placed + [x], g) == InGroup(placed, g) + (if x.Placed? && x.group == g then [x.band] else [])
  {
    var p := placed + [x];
    assert p[..|p| - 1] == placed;
  }

  /** Appending to `res_groups[group]` is placing one more band. */
  lemma DistributeStep(placed: seq<Placed>, x: Placed)
    ensures x.Skipped? ==> Distribute(placed + [x]) == Distribute(placed)
    ensures x.Placed? && x.group in Resolutions ==>
      Distribute(placed + [x]) == Distribute(placed)[x.group := Distribute(placed)[x.group] + [x.band]]
  {
    var p := placed + [x];
    var before, after := Distribute(placed), Distribute(p);
    forall g | g in Resolutions
      ensures after[g] == before[g] + (if x.Placed? && x.group == g then [x.band] else [])
    {
      InGroupStep(placed, x, g);
    }
    if x.Skipped? {
      assert forall g | g in Resolutions :: after[g] == before[g];
    } else if x.group in Resolutions {
      var d := before[x.group := before[x.group] + [x.band]];
      assert forall g | g in Resolutions :: after[g] == d[g];
    }
  }

  /** The group a band name belongs to: the first group listing it. */
  function GroupOf(name: string, groups: Dict<seq<string>>): (r: Option<string>)
    ensures r.None? <==> forall i :: 0 <= i < |groups| ==> name !in groups[i].1
    ensures r.Some? ==> exists i :: (0 <= i < |groups| && groups[i].0 == r.value && name in groups[i].1 &&
      forall j :: 0 <= j < i ==> name !in groups[j].1)
  {
    if |groups| == 0 then None
    else if name in groups[0].1 then Some(groups[0].0)
    else
      var r := GroupOf(name, groups[1..]);
      if r.Some? then
        var i :| 0 <= i < |groups[1..]| && groups[1..][i].0 == r.value && name in groups[1..][i].1 &&
          forall j :: 0 <= j < i ==> name !in groups[1..][j].1;
        assert groups[i + 1] == groups[1..][i];
        r
      else r
  }

  /** `for group, bands in band_groups.items(): if band_name in bands: break`,
      with its `else` branch as `None`. */
  method FindGroup(name: string, groups: Dict<seq<string>>) returns (r: Option<string>)
    ensures r == GroupOf(name, groups)
  {
    for i := 0 to |groups|
      invariant GroupOf(name, groups) == GroupOf(name, groups[i..])
    {
      assert groups[i..][1..] == groups[i + 1..];
      if name in groups[i].1 {
        return Some(groups[i].0);
      }
    }
    return None;
  }

  // ---------------------------------------------------------------------
  // `acquisitions_s2_directory`

  /** The band groups of a granule directory. */
  const S2DirectoryGroups: Dict<seq<string>> := [
    ("R10m", ["B02", "B03", "B04", "B08"]),
    ("R20m", ["B05", "B06", "B07", "B11", "B12", "B8A"]),
    ("R60m", ["B01", "B09", "B10"])
  ]

  /** The image name of a band id: an id starting with a digit is
      zero-filled to two characters behind a `B`. */
  function S2Name(id: string): (r: string)
    ensures |r| >= |id|
  {
    if |id| > 0 && IsDigit(id[0]) then "B" + ZFill(id, 2) else id
  }

  /** Band `1` is image `B01`, band `8A` image `B8A`; a name such as `TCI`
      is kept. */
  lemma S2NameExamples()
    ensures S2Name("1") == "B01" && S2Name("8A") == "B8A" && S2Name("TCI") == "TCI"
  {
    assert ZFill("1", 2) == "01";
    assert ZFill("8A", 2) == "8A";
    assert !IsDigit('T');
  }

  /** One band configuration of a granule directory, with the dict copy
      written as `.items()`: skipped when its image file is missing or its
      image name is in no group; otherwise placed in that group under its
      configured name when supported, or under its image name. */
  function S2Band(pathname: string, isFile: string -> bool, id: string, attrs: Attrs): Result<Placed, AcqError>
  {
    var name := S2Name(id);
    if !isFile(pathname + "/" + name + ".jp2") then Ok(Skipped)
    else
      match GroupOf(name, S2DirectoryGroups)
      case None => Ok(Skipped)
      case Some(g) =>
        match BandName(attrs, name)
        case Err(e) => Err(e)
        case Ok(n) => Ok(Placed(g, Band(n, id)))
  }

  /** A configured band is placed exactly when its image exists and is
      listed in a group, in the first such group; a supported band is
      named by its configuration. */
  lemma S2BandMeaning(pathname: string, isFile: string -> bool, id: string, attrs: Attrs)
    ensures var r := S2Band(pathname, isFile, id, attrs);
      (r.Ok? && r.value.Placed?) <==>
        isFile(pathname + "/" + S2Name(id) + ".jp2") && GroupOf(S2Name(id), S2DirectoryGroups).Some? &&
        (!Supported(attrs) || Get(attrs, "band_name").Some?)
    ensures var r := S2Band(pathname, isFile, id, attrs);
      r.Ok? && r.value.Placed? ==> (r.value.group in Resolutions && r.value.band.id == id &&
        r.value.band.name == (if Supported(attrs) then Get(attrs, "band_name").value else Str(S2Name(id))))
  {
    var g := GroupOf(S2Name(id), S2DirectoryGroups);
    if g.Some? {
      var i :| 0 <= i < |S2DirectoryGroups| && S2DirectoryGroups[i].0 == g.value;
    }
  }

  /** `{k: v for k, v in d}` over a dict, as the granule-directory loader
      writes it: iterating a dict gives its keys, and each key is unpacked
      into a pair, which only a two-character key survives. */
  function UnpackKeys(attrs: Attrs): (r: Result<Attrs, AcqError>)
    ensures r.Ok? <==> forall i :: 0 <= i < |attrs| ==> |attrs[i].0| == 2
    ensures r.Err? ==> r.error == ValueError
    ensures r.Ok? ==> |r.value| == |attrs| && forall i :: 0 <= i < |attrs| ==> |r.value[i].0| == 1
  {
    if |attrs| == 0 then Ok([])
    else if |attrs[0].0| != 2 then Err(ValueError)
    else
      match UnpackKeys(attrs[1..])
      case Err(e) => Err(e)
      case Ok(rest) =>
        assert forall i :: 1 <= i < |attrs| ==> attrs[i] == attrs[1..][i - 1];
        Ok([([attrs[0].0[0]], Str([attrs[0].0[1]]))] + rest)
  }

  /** One band configuration of a granule directory as written: the
      attributes pass through `UnpackKeys` before the supported check. */
  function S2BandAsWritten(pathname: string, isFile: string -> bool, id: string, attrs: Attrs): Result<Placed, AcqError>
  {
    var name := S2Name(id);
    if !isFile(pathname + "/" + name + ".jp2") then Ok(Skipped)
    else
      match GroupOf(name, S2DirectoryGroups)
      case None => Ok(Skipped)
      case Some(g) =>
        match UnpackKeys(attrs)
        case Err(e) => Err(e)
        case Ok(copied) =>
          match BandName(copied, name)
          case Err(e) => Err(e)
          case Ok(n) => Ok(Placed(g, Band(n, id)))
  }

  /** No attribute copied by `UnpackKeys` is named `supported_band`. */
  lemma ShortKeysUnsupported(attrs: Attrs)
    requires forall i :: 0 <= i < |attrs| ==> |attrs[i].0| == 1
    ensures !Supported(attrs)
  {
    GetFound(attrs, "supported_band");
  }

  /** As written, a placed band never takes its configured name, and a
      band whose configuration has any attribute key other than a
      two-character one (`band_name`, `supported_band`) fails with a
      `ValueError` instead of being placed. */
  lemma {:induction false} S2AsWrittenIgnoresConfig(pathname: string, isFile: string -> bool, id: string, attrs: Attrs)
    ensures var r := S2BandAsWritten(pathname, isFile, id, attrs);
      r.Ok? && r.value.Placed? ==> r.value.band.name == Str(S2Name(id))
    ensures (isFile(pathname + "/" + S2Name(id) + ".jp2") && GroupOf(S2Name(id), S2DirectoryGroups).Some? &&
             exists i :: 0 <= i < |attrs| && |attrs[i].0| != 2) ==>
      S2BandAsWritten(pathname, isFile, id, attrs) == Err(ValueError)
  {
    var u := UnpackKeys(attrs);
    if u.Ok? {
      ShortKeysUnsupported(u.value);
    }
  }

  /** The configuration of a supported blue band whose image exists: as
      written it is a `ValueError`; with `.items()` it is placed in the
      10 m group under its configured name. */
  lemma S2DictIterationExample()
    ensures var attrs: Attrs := [("band_name", Str("BAND-2")), ("supported_band", Flag(true))];
      S2BandAsWritten("granule", _ => true, "2", attrs) == Err(ValueError) &&
      S2Band("granule", _ => true, "2", attrs) == Ok(Placed("R10m", Band(Str("BAND-2"), "2")))
  {
    var attrs: Attrs := [("band_name", Str("BAND-2")), ("supported_band", Flag(true))];
    S2NameB02();
    assert "B02" in S2DirectoryGroups[0].1;
    assert GroupOf("B02", S2DirectoryGroups) == Some("R10m");
    assert |attrs[0].0| != 2;
    assert Get(attrs, "supported_band") == Some(Flag(true));
    assert Get(attrs, "band_name") == Some(Str("BAND-2"));
  }

  lemma S2NameB02()
    ensures S2Name("2") == "B02"
  {
    assert ZFill("2", 2) == "02";
  }

  /** The step of the granule-directory band loop. */
  function S2Step(pathname: string, isFile: string -> bool): ((string, Attrs)) -> Result<Placed, AcqError>
  {
    (entry: (string, Attrs)) => S2Band(pathname, isFile, entry.0, entry.1)
  }

  /** `acquisitions_s2_directory` on the sensor's band configurations: the
      resolution groups of the granule, or the first band's error. */
  function S2Directory(pathname: string, isFile: string -> bool, configs: Dict<Attrs>)
    : (r: Result<map<string, seq<Band>>, AcqError>)
    ensures r.Ok? ==> r.value.Keys == Resolutions
  {
    match MapAll(configs, S2Step(pathname, isFile))
    case Err(e) => Err(e)
    case Ok(placed) => Ok(Distribute(placed))
  }

  /** Each band of a resolution group comes from a configuration placed
      there, and each configuration placed there is in it; an error is the
      error of the first configuration that fails. */
  lemma S2DirectoryMeaning(pathname: string, isFile: string -> bool, configs: Dict<Attrs>)
    ensures var r := S2Directory(pathname, isFile, configs);
      r.Ok? ==> (forall g, b :: g in Resolutions ==>
        (b in r.value[g] <==> exists i :: (0 <= i < |configs| &&
           S2Band(pathname, isFile, configs[i].0, configs[i].1) == Ok(Placed(g, b)))))
    ensures var r := S2Directory(pathname, isFile, configs);
      r.Err? ==> exists i :: (0 <= i < |configs| &&
        S2Band(pathname, isFile, configs[i].0, configs[i].1) == Err(r.error) &&
        forall j :: 0 <= j < i ==> S2Band(pathname, isFile, configs[j].0, configs[j].1).Ok?)
  {
    var step := S2Step(pathname, isFile);
    MapAllMeaning(configs, step);
    var m := MapAll(configs, step);
    if m.Ok? {
      forall g, b | g in Resolutions
        ensures b in Distribute(m.value)[g] <==> exists i :: (0 <= i < |configs| &&
          S2Band(pathname, isFile, configs[i].0, configs[i].1) == Ok(Placed(g, b)))
      {
        InGroupMembers(m.value, g);
        if Placed(g, b) in m.value {
          var k :| 0 <= k < |m.value| && m.value[k] == Placed(g, b);
          assert step(configs[k]) == Ok(m.value[k]);
        }
        if exists i :: 0 <= i < |configs| && S2Band(pathname, isFile, configs[i].0, configs[i].1) == Ok(Placed(g, b)) {
          var i :| 0 <= i < |configs| && S2Band(pathname, isFile, configs[i].0, configs[i].1) == Ok(Placed(g, b));
          assert step(configs[i]) == Ok(m.value[i]);
        }
      }
    } else {
      var k :| 0 <= k < |configs| && step(configs[k]) == Err(m.error) &&
        forall j :: 0 <= j < k ==> step(configs[j]).Ok?;
      assert forall j :: 0 <= j < k ==> step(configs[j]) == S2Band(pathname, isFile, configs[j].0, configs[j].1);
    }
  }

  /** The body of `acquisitions_s2_directory`'s band loop for one band
      configuration. */
  method S2Entry(pathname: string, isFile: string -> bool, id: string, attrs: Attrs)
    returns (r: Result<Placed, AcqError>)
    ensures r == S2Band(pathname, isFile, id, attrs)
  {
    var name := S2Name(id);
    if !isFile(pathname + "/" + name + ".jp2") {
      return Ok(Skipped);
    }
    var group := FindGroup(name, S2DirectoryGroups);
    if group.None? {
      return Ok(Skipped);
    }
    var bandName := BandName(attrs, name);
    if bandName.Err? {
      return Err(bandName.error);
    }
    return Ok(Placed(group.value, Band(bandName.value, id)));
  }

  /** `acquisitions_s2_directory`'s band loop, configuration by
      configuration. */
  method AcquisitionsS2Directory(pathname: string, isFile: string -> bool, configs: Dict<Attrs>)
    returns (r: Result<map<string, seq<Band>>, AcqError>)
    ensures r == S2Directory(pathname, isFile, configs)
  {
    var resGroups: map<string, seq<Band>> := map["R10m" := [], "R20m" := [], "R60m" := []];
    ghost var placed: seq<Placed> := [];
    ghost var step := S2Step(pathname, isFile);
    assert Distribute([]) == resGroups;
    for i := 0 to |configs|
      invariant MapAll(configs[..i], step) == Ok(placed)
      invariant resGroups == Distribute(placed)
    {
      var x := S2Entry(pathname, isFile, configs[i].0, configs[i].1);
      assert step(configs[i]) == x;
      MapAllPrefix(configs, i, step);
      if x.Err? {
        return Err(x.error);
      }
      DistributeStep(placed, x.value);
      if x.value.Placed? {
        S2BandMeaning(pathname, isFile, configs[i].0, configs[i].1);
        resGroups := resGroups[x.value.group := resGroups[x.value.group] + [x.value.band]];
      }
      placed := placed + [x.value];
    }
    assert configs[..|configs|] == configs;
    return Ok(resGroups);
  }

  // ---------------------------------------------------------------------
  // `acquisitions_via_safe`

  /** The band groups of a SAFE archive; the true-colour image `TCI` is in
      the 10 m group. */
  const SafeGroups: Dict<seq<string>> := [
    ("R10m", ["B02", "B03", "B04", "B08", "TCI"]),
    ("R20m", ["B05", "B06", "B07", "B11", "B12", "B8A"]),
    ("R60m", ["B01", "B09", "B10"])
  ]

  /** `re.sub("B[0]?", "", item)`: every `B` removed, with the `0` that
      follows it. */
  function StripB(s: string): (r: string)
    ensures 'B' !in r
    ensures |r| <= |s|
    ensures 'B' !in s ==> r == s
  {
    if |s| == 0 then ""
    else if s[0] == 'B' then
      if |s| > 1 && s[1] == '0' then StripB(s[2..]) else StripB(s[1..])
    else [s[0]] + StripB(s[1..])
  }

  /** Image `B01` is band `1`, `B10` band `10`, `B8A` band `8A`. */
  lemma StripBExamples()
    ensures StripB("B01") == "1" && StripB("B10") == "10" && StripB("B8A") == "8A" && StripB("TCI") == "TCI"
  {
    assert StripB("1") == "1";
    assert StripB("10") == "10" by {
      assert "10"[1..] == "0";
    }
    assert StripB("8A") == "8A" by {
      assert "8A"[1..] == "A";
    }
  }

  /** The first of `items` that `fname` contains. */
  function FirstIn(fname: string, items: seq<string>): (r: Option<string>)
    ensures r.None? <==> forall j :: 0 <= j < |items| ==> !Contains(fname, items[j])
    ensures r.Some? ==> exists j :: (0 <= j < |items| && items[j] == r.value && Contains(fname, r.value) &&
      forall k :: 0 <= k < j ==> !Contains(fname, items[k]))
  {
    if |items| == 0 then None
    else if Contains(fname, items[0]) then Some(items[0])
    else
      var r := FirstIn(fname, items[1..]);
      if r.Some? then
        var j :| 0 <= j < |items[1..]| && items[1..][j] == r.value && Contains(fname, r.value) &&
          forall k :: 0 <= k < j ==> !Contains(fname, items[1..][k]);
        assert items[j + 1] == items[1..][j];
        r
      else r
  }

  /** The first group item, in group order and then item order, that
      `fname` contains, with its group. */
  function FirstItem(fname: string, groups: Dict<seq<string>>): (r: Option<(string, string)>)
    ensures r.None? <==> forall i :: 0 <= i < |groups| ==> FirstIn(fname, groups[i].1).None?
    ensures r.Some? ==> exists i :: (0 <= i < |groups| && groups[i].0 == r.value.0 &&
      FirstIn(fname, groups[i].1) == Some(r.value.1) &&
      forall k :: 0 <= k < i ==> FirstIn(fname, groups[k].1).None?)
  {
    if |groups| == 0 then None
    else match FirstIn(fname, groups[0].1)
      case Some(item) => Some((groups[0].0, item))
      case None =>
        var r := FirstItem(fname, groups[1..]);
        FirstItemSkip(fname, groups, r);
        r
  }

  /** Skipping a first group in which `fname` contains no item keeps
      `FirstItem`'s contract. */
  lemma FirstItemSkip(fname: string, groups: Dict<seq<string>>, r: Option<(string, string)>)
    requires |groups| > 0 && FirstIn(fname, groups[0].1).None?
    requires r.None? <==> forall i :: 0 <= i < |groups[1..]| ==> FirstIn(fname, groups[1..][i].1).None?
    requires r.Some? ==> exists i :: (0 <= i < |groups[1..]| && groups[1..][i].0 == r.value.0 &&
      FirstIn(fname, groups[1..][i].1) == Some(r.value.1) &&
      forall k :: 0 <= k < i ==> FirstIn(fname, groups[1..][k].1).None?)
    ensures r.None? <==> forall i :: 0 <= i < |groups| ==> FirstIn(fname, groups[i].1).None?
    ensures r.Some? ==> exists i :: (0 <= i < |groups| && groups[i].0 == r.value.0 &&
      FirstIn(fname, groups[i].1) == Some(r.value.1) &&
      forall k :: 0 <= k < i ==> FirstIn(fname, groups[k].1).None?)
  {
    NoneInRest(fname, groups);
    if r.Some? {
      var i :| 0 <= i < |groups[1..]| && groups[1..][i].0 == r.value.0 &&
        FirstIn(fname, groups[1..][i].1) == Some(r.value.1) &&
        forall k :: 0 <= k < i ==> FirstIn(fname, groups[1..][k].1).None?;
      FoundInRest(fname, groups, i);
    }
  }

  /** With nothing found in the first group, nothing is found at all
      exactly when nothing is found in the rest. */
  lemma NoneInRest(fname: string, groups: Dict<seq<string>>)
    requires |groups| > 0 && FirstIn(fname, groups[0].1).None?
    ensures (forall i :: 0 <= i < |groups[1..]| ==> FirstIn(fname, groups[1..][i].1).None?)
        <==> (forall i :: 0 <= i < |groups| ==> FirstIn(fname, groups[i].1).None?)
  {
    assert forall i :: 1 <= i < |groups| ==> groups[i] == groups[1..][i - 1];
  }

  /** A group of the rest that is the first to hold an item is, one
      place further on, the first in the whole list. */
  lemma FoundInRest(fname: string, groups: Dict<seq<string>>, i: nat)
    requires |groups| > 0 && FirstIn(fname, groups[0].1).None? && i < |groups| - 1
    requires forall k :: 0 <= k < i ==> FirstIn(fname, groups[1..][k].1).None?
    ensures groups[i + 1] == groups[1..][i]
    ensures forall k :: 0 <= k < i + 1 ==> FirstIn(fname, groups[k].1).None?
  {
    assert forall k :: 1 <= k < i + 1 ==> groups[k] == groups[1..][k - 1];
  }

  /** `group_helper`: the group of the first item in `fname`, and that
      item without its `B` prefix as the band id; both `None` when no item
      is in `fname`. */
  function GroupHelper(fname: string, groups: Dict<seq<string>>): (r: (Option<string>, Option<string>))
  {
    match FirstItem(fname, groups)
    case None => (None, None)
    case Some((key, item)) => (Some(key), Some(StripB(item)))
  }

  /** `group_helper` finds a group exactly when some item is in `fname`,
      and then gives the band id of an item of that group that `fname`
      contains. */
  lemma GroupHelperMeaning(fname: string, groups: Dict<seq<string>>)
    ensures var r := GroupHelper(fname, groups);
      (r.0.Some? <==> r.1.Some?) &&
      (r.0.None? <==> forall i, j :: 0 <= i < |groups| && 0 <= j < |groups[i].1| ==> !Contains(fname, groups[i].1[j]))
    ensures var r := GroupHelper(fname, groups);
      r.1.Some? ==> 'B' !in r.1.value && exists i, j :: (0 <= i < |groups| && 0 <= j < |groups[i].1| &&
        groups[i].0 == r.0.value && Contains(fname, groups[i].1[j]) && r.1.value == StripB(groups[i].1[j]))
  {
    var f := FirstItem(fname, groups);
    if f.Some? {
      var i :| 0 <= i < |groups| && groups[i].0 == f.value.0 && FirstIn(fname, groups[i].1) == Some(f.value.1);
      var j :| 0 <= j < |groups[i].1| && groups[i].1[j] == f.value.1 && Contains(fname, f.value.1);
    } else {
      forall i, j | 0 <= i < |groups| && 0 <= j < |groups[i].1|
        ensures !Contains(fname, groups[i].1[j])
      {
        assert FirstIn(fname, groups[i].1).None?;
      }
    }
  }

  /** `group_helper`'s nested loops, returning at the first item found. */
  method FindGroupItem(fname: string, groups: Dict<seq<string>>) returns (r: (Option<string>, Option<string>))
    ensures r == GroupHelper(fname, groups)
  {
    for i := 0 to |groups|
      invariant FirstItem(fname, groups) == FirstItem(fname, groups[i..])
    {
      FirstItemStep(fname, groups, i);
      var items := groups[i].1;
      for j := 0 to |items|
        invariant FirstIn(fname, items) == FirstIn(fname, items[j..])
      {
        FirstInStep(fname, items, j);
        if Contains(fname, items[j]) {
          return (Some(groups[i].0), Some(StripB(items[j])));
        }
      }
      assert items[|items|..] == [];
    }
    assert groups[|groups|..] == [];
    return (None, None);
  }

  /** One item of `FirstIn`'s search. */
  lemma FirstInStep(fname: string, items: seq<string>, j: nat)
    requires j < |items|
    ensures FirstIn(fname, items[j..]) ==
      if Contains(fname, items[j]) then Some(items[j]) else FirstIn(fname, items[j + 1..])
  {
    assert items[j..][1..] == items[j + 1..];
  }

  /** One group of `FirstItem`'s search. */
  lemma FirstItemStep(fname: string, groups: Dict<seq<string>>, i: nat)
    requires i < |groups|
    ensures FirstItem(fname, groups[i..]) ==
      match FirstIn(fname, groups[i].1)
      case Some(item) => Some((groups[i].0, item))
      case None => FirstItem(fname, groups[i + 1..])
  {
    assert groups[i..][1..] == groups[i + 1..];
  }

  /** One image of a SAFE granule: the group and band id of its file name,
      and the band's name. A file name with no group item, or a band id
      with no configuration, gets `None` and fails on `.items()` with an
      `AttributeError`; a supported band without a solar irradiance is a
      `KeyError`. */
  function SafeImage(fname: string, configs: Dict<Attrs>, irradiance: set<string>): (r: Result<Placed, AcqError>)
  {
    var (group, id) := GroupHelper(fname, SafeGroups);
    if id.None? || group.None? then Err(AttributeError)
    else
      match Get(configs, id.value)
      case None => Err(AttributeError)
      case Some(attrs) =>
        if Supported(attrs) && id.value !in irradiance then Err(KeyError)
        else
          match BandName(attrs, id.value)
          case Err(e) => Err(e)
          case Ok(n) => Ok(Placed(group.value, Band(n, id.value)))
  }

  /** On the SAFE groups, `group_helper` finds a resolution group and a
      band id together, and neither when no item is in the file name. */
  lemma SafeGroupHelper(fname: string)
    ensures var h := GroupHelper(fname, SafeGroups);
      (h.0.Some? <==> h.1.Some?) && (h.0.Some? ==> h.0.value in Resolutions && 'B' !in h.1.value)
    ensures (forall i, j :: 0 <= i < |SafeGroups| && 0 <= j < |SafeGroups[i].1| ==> !Contains(fname, SafeGroups[i].1[j])) ==>
      GroupHelper(fname, SafeGroups).0.None?
  {
    GroupHelperMeaning(fname, SafeGroups);
    var h := GroupHelper(fname, SafeGroups);
    if h.0.Some? {
      var i, j :| 0 <= i < |SafeGroups| && 0 <= j < |SafeGroups[i].1| && SafeGroups[i].0 == h.0.value;
      SafeGroupName(i);
    }
  }

  /** Every SAFE group is named after a resolution. */
  lemma SafeGroupName(i: nat)
    requires i < |SafeGroups|
    ensures SafeGroups[i].0 in Resolutions
  {
  }

  /** An image is placed in the group of the first group item its file name
      contains, under a band id with no `B`: a supported band by its
      configured name, any other band by its id. An image whose name holds
      no group item is an `AttributeError`. */
  lemma SafeImageMeaning(fname: string, configs: Dict<Attrs>, irradiance: set<string>)
    ensures var r := SafeImage(fname, configs, irradiance);
      r.Ok? ==> (r.value.Placed? && r.value.group in Resolutions && 'B' !in r.value.band.id &&
        Get(configs, r.value.band.id).Some? &&
        (Supported(Get(configs, r.value.band.id).value) ==>
           r.value.band.id in irradiance && Some(r.value.band.name) == Get(Get(configs, r.value.band.id).value, "band_name")) &&
        (!Supported(Get(configs, r.value.band.id).value) ==> r.value.band.name == Str(r.value.band.id)))
    ensures (forall i, j :: 0 <= i < |SafeGroups| && 0 <= j < |SafeGroups[i].1| ==> !Contains(fname, SafeGroups[i].1[j])) ==>
      SafeImage(fname, configs, irradiance) == Err(AttributeError)
  {
    SafeGroupHelper(fname);
  }

  /** The path of an image of a granule: the image name under the
      granule's image directory, with `.jp2` appended. */
  function ImageFile(imgDataPath: string, image: string): string
  {
    PathJoin(imgDataPath, image) + ".jp2"
  }

  /** The paths of a granule's images, in order. */
  function ImageFiles(imgDataPath: string, images: seq<string>): (r: seq<string>)
    ensures |r| == |images|
  {
    seq(|images|, i requires 0 <= i < |images| => ImageFile(imgDataPath, images[i]))
  }

  /** The step of a SAFE granule's image loop. */
  function SafeStep(configs: Dict<Attrs>, irradiance: set<string>): string -> Result<Placed, AcqError>
  {
    fname => SafeImage(fname, configs, irradiance)
  }

  /** The resolution groups of one SAFE granule from its image files, or
      the first image's error. */
  function SafeGranule(fnames: seq<string>, configs: Dict<Attrs>, irradiance: set<string>)
    : (r: Result<map<string, seq<Band>>, AcqError>)
    ensures r.Ok? ==> r.value.Keys == Resolutions
  {
    match MapAll(fnames, SafeStep(configs, irradiance))
    case Err(e) => Err(e)
    case Ok(placed) => Ok(Distribute(placed))
  }

  /** Every image of a granule that loads is in its group and nowhere
      else, so the groups together hold every image; an error is that of
      the first image that fails. */
  lemma SafeGranuleMeaning(fnames: seq<string>, configs: Dict<Attrs>, irradiance: set<string>)
    ensures var r := SafeGranule(fnames, configs, irradiance);
      r.Ok? ==> (forall g, b :: g in Resolutions ==>
        (b in r.value[g] <==> exists i :: 0 <= i < |fnames| && SafeImage(fnames[i], configs, irradiance) == Ok(Placed(g, b))))
    ensures var r := SafeGranule(fnames, configs, irradiance);
      r.Ok? ==> |fnames| == |r.value["R10m"]| + |r.value["R20m"]| + |r.value["R60m"]|
    ensures var r := SafeGranule(fnames, configs, irradiance);
      r.Err? ==> exists i :: (0 <= i < |fnames| && SafeImage(fnames[i], configs, irradiance) == Err(r.error) &&
        forall j :: 0 <= j < i ==> SafeImage(fnames[j], configs, irradiance).Ok?)
  {
    var step := SafeStep(configs, irradiance);
    MapAllMeaning(fnames, step);
    var m := MapAll(fnames, step);
    if m.Ok? {
      forall g, b | g in Resolutions
        ensures b in Distribute(m.value)[g] <==>
          exists i :: 0 <= i < |fnames| && SafeImage(fnames[i], configs, irradiance) == Ok(Placed(g, b))
      {
        InGroupMembers(m.value, g);
      }
      forall k | 0 <= k < |m.value|
        ensures m.value[k].Placed? && m.value[k].group in Resolutions
      {
        assert step(fnames[k]) == Ok(m.value[k]);
        SafeImageMeaning(fnames[k], configs, irradiance);
      }
      PlacedCount(m.value);
    }
  }

  /** When every band is placed in a resolution group, the groups together
      hold as many bands as were placed. */
  lemma {:induction false} PlacedCount(placed: seq<Placed>)
    requires forall k :: 0 <= k < |placed| ==> placed[k].Placed? && placed[k].group in Resolutions
    ensures |placed| == |InGroup(placed, "R10m")| + |InGroup(placed, "R20m")| + |InGroup(placed, "R60m")|
  {
    if |placed| > 0 {
      var front := placed[..|placed| - 1];
      PlacedCount(front);
    }
  }

  /** The image loop of one SAFE granule, image by image. */
  method AcquisitionsSafeGranule(imgDataPath: string, images: seq<string>, configs: Dict<Attrs>, irradiance: set<string>)
    returns (r: Result<map<string, seq<Band>>, AcqError>)
    ensures r == SafeGranule(ImageFiles(imgDataPath, images), configs, irradiance)
  {
    var resGroups: map<string, seq<Band>> := map["R10m" := [], "R20m" := [], "R60m" := []];
    ghost var placed: seq<Placed> := [];
    ghost var step := SafeStep(configs, irradiance);
    var fnames := ImageFiles(imgDataPath, images);
    assert Distribute([]) == resGroups;
    for i := 0 to |images|
      invariant MapAll(fnames[..i], step) == Ok(placed)
      invariant resGroups == Distribute(placed)
    {
      var fname := fnames[i];
      var x := SafeEntry(fname, configs, irradiance);
      assert step(fnames[i]) == x;
      MapAllPrefix(fnames, i, step);
      if x.Err? {
        return Err(x.error);
      }
      SafeImageMeaning(fname, configs, irradiance);
      DistributeStep(placed, x.value);
      resGroups := resGroups[x.value.group := resGroups[x.value.group] + [x.value.band]];
      placed := placed + [x.value];
    }
    assert fnames[..|images|] == fnames;
    return Ok(resGroups);
  }

  /** The body of a SAFE granule's image loop for one image file. */
  method SafeEntry(fname: string, configs: Dict<Attrs>, irradiance: set<string>) returns (r: Result<Placed, AcqError>)
    ensures r == SafeImage(fname, configs, irradiance)
  {
    var gid := FindGroupItem(fname, SafeGroups);
    var (group, id) := gid;
    if id.None? || group.None? {
      return Err(AttributeError);
    }
    var info := Get(configs, id.value);
    if info.None? {
      return Err(AttributeError);
    }
    var attrs := info.value;
    if Supported(attrs) && id.value !in irradiance {
      return Err(KeyError);
    }
    var bandName := BandName(attrs, id.value);
    if bandName.Err? {
      return Err(bandName.error);
    }
    return Ok(Placed(group.value, Band(bandName.value, id.value)));
  }

  /** The acquisition class of a SAFE archive: Sentinel-2A when the
      archive's file name starts with `S2A`, otherwise Sentinel-2B. */
  function SafeSatellite(fileName: string): (r: string)
    ensures r == "S2A" <==> StartsWith(fileName, "S2A")
    ensures r in {"S2A", "S2B"}
  {
    if |fileName| >= 3 && fileName[..3] == "S2A" then "S2A" else "S2B"
  }
}
