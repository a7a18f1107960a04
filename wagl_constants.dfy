// The name tables of wagl's constants: the atmospheric coefficients,
// albedos and products each workflow uses, and the satellite/sensor
// helpers that pick the thermal bands.

module WaglConstants {
  import opened Workflows
  import opened Text

  /** `POINT_FMT`, `ALBEDO_FMT` and the joined `POINT_ALBEDO_FMT`. */
  const PointFmt := "POINT-{p}"
  const AlbedoFmt := "ALBEDO-{a}"
  const PointAlbedoFmt := PointFmt + "-" + AlbedoFmt

  datatype AtmosphericCoefficient =
    | FS | FV | A | B | S | DIR | DIF | TS
    | PathUp | PathDown | TransmittanceUp | Esun
  {
    function Value(): string
    {
      match this
      case FS => "FS"
      case FV => "FV"
      case A => "A"
      case B => "B"
      case S => "S"
      case DIR => "DIR"
      case DIF => "DIF"
      case TS => "TS"
      case PathUp => "PATH-UP"
      case PathDown => "PATH-DOWN"
      case TransmittanceUp => "TRANSMITTANCE-UP"
      case Esun => "ESUN"
    }
  }

  /** `list(AtmosphericCoefficients)`: the members in declaration order. */
  const AllCoefficients: seq<AtmosphericCoefficient> :=
    [FS, FV, A, B, S, DIR, DIF, TS, PathUp, PathDown, TransmittanceUp, Esun]

  datatype Albedo = Albedo0 | AlbedoTh
  {
    function Value(): string
    {
      match this
      case Albedo0 => "0"
      case AlbedoTh => "TH"
    }
  }

  const AllAlbedos: seq<Albedo> := [Albedo0, AlbedoTh]

  datatype ArdProduct = NBAR | NBART | LAMBERTIAN | SBT
  {
    function Value(): string
    {
      match this
      case NBAR => "NBAR"
      case NBART => "NBART"
      case LAMBERTIAN => "LAMBERTIAN"
      case SBT => "SBT"
    }
  }

  const AllProducts: seq<ArdProduct> := [NBAR, NBART, LAMBERTIAN, SBT]

  /** `Workflow.atmos_coefficients`. */
  function AtmosCoefficients(w: Workflow): (r: seq<AtmosphericCoefficient>)
    ensures forall c :: c in r ==> c in AllCoefficients
  {
    SliceAt(AllCoefficients, 8, w)
  }

  /** `Workflow.albedos`. */
  function Albedos(w: Workflow): (r: seq<Albedo>)
    ensures forall a :: a in r ==> a in AllAlbedos
  {
    SliceLast(AllAlbedos, w)
  }

  /** `Workflow.ard_products`. */
  function ArdProducts(w: Workflow): (r: seq<ArdProduct>)
    ensures forall p :: p in r ==> p in AllProducts
  {
    SliceLast(AllProducts, w)
  }

  /** NBAR interpolates the eight reflectance coefficients FS to TS, SBT the
      four thermal ones, and together, in order, they are all twelve. */
  lemma AtmosCoefficientsSplit()
    ensures AtmosCoefficients(Nbar) == [FS, FV, A, B, S, DIR, DIF, TS]
    ensures AtmosCoefficients(Sbt) == [PathUp, PathDown, TransmittanceUp, Esun]
    ensures AtmosCoefficients(Nbar) + AtmosCoefficients(Sbt) == AtmosCoefficients(Standard)
    ensures |AtmosCoefficients(Standard)| == 12
    ensures forall c :: c in AtmosCoefficients(Nbar) ==> c !in AtmosCoefficients(Sbt)
  {
    SliceAtPartition(AllCoefficients, 8);
  }

  /** NBAR evaluates albedo 0, SBT the thermal albedo, STANDARD both. */
  lemma AlbedosSplit()
    ensures Albedos(Nbar) == [Albedo0] && Albedos(Sbt) == [AlbedoTh]
    ensures Albedos(Nbar) + Albedos(Sbt) == Albedos(Standard)
  {
    SliceLastPartition(AllAlbedos);
  }

  /** NBAR makes the three reflectance products, SBT the temperature
      product, STANDARD all four. */
  lemma ArdProductsSplit()
    ensures ArdProducts(Nbar) == [NBAR, NBART, LAMBERTIAN] && ArdProducts(Sbt) == [SBT]
    ensures ArdProducts(Nbar) + ArdProducts(Sbt) == ArdProducts(Standard) == AllProducts
  {
    SliceLastPartition(AllProducts);
  }

  /** The separators `re.sub("[-_]", ...)` deletes. */
  const Separators: set<char> := {'-', '_'}

  /** `combine_satellite_sensor`: both names without separators, in lower
      case, satellite first. */
  function CombineSatelliteSensor(satellite: string, sensor: string): (r: string)
    ensures |r| <= |satellite| + |sensor|
    ensures forall c :: c in r ==> c !in Separators && !('A' <= c <= 'Z')
  {
    var a, b := Without(satellite, Separators), Without(sensor, Separators);
    LowerNoUpper(a);
    LowerNoUpper(b);
    Lower(a) + Lower(b)
  }

  /** The combined name is the two names written one after the other,
      without separators, in lower case. */
  lemma CombinedName(satellite: string, sensor: string)
    ensures CombineSatelliteSensor(satellite, sensor) == Lower(Without(satellite + sensor, Separators))
  {
    WithoutConcat(satellite, sensor, Separators);
    LowerConcat(Without(satellite, Separators), Without(sensor, Separators));
  }

  /** Deleting characters from two strings in a row is deleting them from
      each. */
  lemma {:induction false} WithoutConcat(a: string, b: string, chars: set<char>)
    ensures Without(a + b, chars) == Without(a, chars) + Without(b, chars)
    decreases |b|
  {
    if |b| == 0 {
      assert a + b == a;
    } else {
      assert (a + b)[..|a + b| - 1] == a + b[..|b| - 1];
      WithoutConcat(a, b[..|b| - 1], chars);
    }
  }

  lemma LowerConcat(a: string, b: string)
    ensures Lower(a + b) == Lower(a) + Lower(b)
  {
  }

  lemma LowerNoUpper(s: string)
    requires forall k :: 0 <= k < |s| ==> s[k] !in Separators
    ensures forall c :: c in Lower(s) ==> c !in Separators && !('A' <= c <= 'Z')
  {
    forall c | c in Lower(s)
      ensures c !in Separators && !('A' <= c <= 'Z')
    {
      var k :| 0 <= k < |s| && Lower(s)[k] == c;
      assert c == LowerChar(s[k]);
    }
  }

  /** The lookup table of `sbt_bands`. */
  const ThermalBands: map<string, seq<string>> := map[
    "landsat5tm" := ["6"],
    "landsat7etm+" := ["61", "62"],
    "landsat8olitirs" := ["10"]]

  /** `sbt_bands`: the thermal bands of a satellite/sensor pair, none for
      any pair outside the table. */
  function SbtBands(satellite: string, sensor: string): (r: seq<string>)
    ensures CombineSatelliteSensor(satellite, sensor) in ThermalBands ==>
      r == ThermalBands[CombineSatelliteSensor(satellite, sensor)] && |r| > 0
    ensures CombineSatelliteSensor(satellite, sensor) !in ThermalBands ==> r == []
  {
    var combined := CombineSatelliteSensor(satellite, sensor);
    if combined in ThermalBands then ThermalBands[combined] else []
  }

  /** A separator between two strings is deleted. */
  lemma DropSeparator(x: string, c: char, y: string)
    requires c in Separators
    ensures Without(x + [c] + y, Separators) == Without(x, Separators) + Without(y, Separators)
  {
    WithoutConcat(x + [c], y, Separators);
    WithoutConcat(x, [c], Separators);
    assert Without([c], Separators) == [] by {
      assert [c][..0] == [];
    }
  }

  /** A satellite and a sensor name each made of two words joined by a
      separator combine into the four words in lower case. */
  lemma CombineWords(a: string, c: char, b: string, d: string, e: char, f: string)
    requires c in Separators && e in Separators
    requires forall k :: 0 <= k < |a| ==> a[k] !in Separators
    requires forall k :: 0 <= k < |b| ==> b[k] !in Separators
    requires forall k :: 0 <= k < |d| ==> d[k] !in Separators
    requires forall k :: 0 <= k < |f| ==> f[k] !in Separators
    ensures CombineSatelliteSensor(a + [c] + b, d + [e] + f) == Lower(a) + Lower(b) + (Lower(d) + Lower(f))
  {
    DropSeparator(a, c, b);
    DropSeparator(d, e, f);
    LowerConcat(a, b);
    LowerConcat(d, f);
  }

  /** The same for a sensor name of one word. */
  lemma CombineWord(a: string, c: char, b: string, d: string)
    requires c in Separators
    requires forall k :: 0 <= k < |a| ==> a[k] !in Separators
    requires forall k :: 0 <= k < |b| ==> b[k] !in Separators
    requires forall k :: 0 <= k < |d| ==> d[k] !in Separators
    ensures CombineSatelliteSensor(a + [c] + b, d) == Lower(a) + Lower(b) + Lower(d)
  {
    DropSeparator(a, c, b);
    LowerConcat(a, b);
  }

  /** The pairs in the table, as the metadata spells them: `LANDSAT_8` with
      `OLI_TIRS`, `Landsat-7` with `ETM+`, `LANDSAT_5` with `TM`. */
  lemma SbtBandsLandsat8()
    ensures SbtBands("LANDSAT_8", "OLI_TIRS") == ["10"]
  {
    Landsat8Key();
    assert ThermalBands["landsat8olitirs"] == ["10"];
  }

  lemma SbtBandsLandsat7()
    ensures SbtBands("Landsat-7", "ETM+") == ["61", "62"]
  {
    Landsat7Key();
    assert ThermalBands["landsat7etm+"] == ["61", "62"];
  }

  lemma SbtBandsLandsat5()
    ensures SbtBands("LANDSAT_5", "TM") == ["6"]
  {
    Landsat5Key();
    assert ThermalBands["landsat5tm"] == ["6"];
  }

  lemma Landsat8Key()
    ensures CombineSatelliteSensor("LANDSAT_8", "OLI_TIRS") == "landsat8olitirs"
  {
    assert CombineSatelliteSensor("LANDSAT_8", "OLI_TIRS") ==
      Lower("LANDSAT") + Lower("8") + (Lower("OLI") + Lower("TIRS")) by {
      CombineWords("LANDSAT", '_', "8", "OLI", '_', "TIRS");
      assert "LANDSAT" + ['_'] + "8" == "LANDSAT_8" && "OLI" + ['_'] + "TIRS" == "OLI_TIRS";
    }
    LowerLandsat8();
  }

  lemma Landsat7Key()
    ensures CombineSatelliteSensor("Landsat-7", "ETM+") == "landsat7etm+"
  {
    CombineWord("Landsat", '-', "7", "ETM+");
    assert "Landsat" + ['-'] + "7" == "Landsat-7";
    LowerWords();
    assert "landsat" + "7" + "etm+" == "landsat7etm+";
  }

  lemma Landsat5Key()
    ensures CombineSatelliteSensor("LANDSAT_5", "TM") == "landsat5tm"
  {
    CombineWord("LANDSAT", '_', "5", "TM");
    assert "LANDSAT" + ['_'] + "5" == "LANDSAT_5";
    LowerWords();
    assert "landsat" + "5" + "tm" == "landsat5tm";
  }

  lemma LowerLandsat8()
    ensures Lower("LANDSAT") + Lower("8") + (Lower("OLI") + Lower("TIRS")) == "landsat8olitirs"
  {
    LowerWords();
    assert "landsat" + "8" + ("oli" + "tirs") == "landsat8olitirs";
  }

  /** The words of the examples in lower case. */
  lemma LowerWords()
    ensures Lower("LANDSAT") == "landsat" && Lower("Landsat") == "landsat"
    ensures Lower("OLI") == "oli" && Lower("TIRS") == "tirs" && Lower("ETM+") == "etm+" && Lower("TM") == "tm"
    ensures Lower("8") == "8" && Lower("7") == "7" && Lower("5") == "5"
  {
  }

  /** The lookup sees only the normalised name: looking up the combined
      name itself, with an empty sensor, gives the same bands. */
  lemma SbtBandsNormalised(satellite: string, sensor: string)
    ensures SbtBands(CombineSatelliteSensor(satellite, sensor), "") == SbtBands(satellite, sensor)
  {
    var c := CombineSatelliteSensor(satellite, sensor);
    CombinedFixed(c);
  }

  /** A name already combined combines with an empty sensor into itself. */
  lemma CombinedFixed(c: string)
    requires forall x :: x in c ==> x !in Separators && !('A' <= x <= 'Z')
    ensures CombineSatelliteSensor(c, "") == c
  {
    assert forall k :: 0 <= k < |c| ==> c[k] !in Separators by {
      forall k | 0 <= k < |c|
        ensures c[k] !in Separators
      {
        assert c[k] in c;
      }
    }
    assert Without(c, Separators) == c;
    LowerFixed(c);
    assert Without("", Separators) == "" && Lower("") == "";
  }

  lemma LowerFixed(c: string)
    requires forall x :: x in c ==> !('A' <= x <= 'Z')
    ensures Lower(c) == c
  {
    forall k | 0 <= k < |c|
      ensures Lower(c)[k] == c[k]
    {
      assert c[k] in c;
    }
  }
}
