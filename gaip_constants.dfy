// The name tables of gaip's constants and the per-sensor pixel-quality
// constants object, which its constructor fills one setter at a time.

module GaipConstants {
  import opened Wrappers
  import opened Workflows

  /** `ALL_FACTORS`, `ALL_ALBEDOS` and `ARD_PRODUCTS`. */
  const AllFactors: seq<string> := ["fs", "fv", "a", "b", "s", "dir", "dif", "ts",
                                    "path-up", "path-down", "transmittance-up"]
  const AllAlbedos: seq<string> := ["0", "1", "t", "th"]
  const AllProducts: seq<string> := ["brdf", "terrain", "lambertian", "sbt"]

  /** `Model.factors`. */
  function Factors(w: Workflow): (r: seq<string>)
    ensures forall f :: f in r ==> f in AllFactors
  {
    SliceAt(AllFactors, 8, w)
  }

  /** `Model.albedos`. */
  function Albedos(w: Workflow): (r: seq<string>)
    ensures forall a :: a in r ==> a in AllAlbedos
  {
    SliceLast(AllAlbedos, w)
  }

  /** `Model.ard_products`. */
  function ArdProducts(w: Workflow): (r: seq<string>)
    ensures forall p :: p in r ==> p in AllProducts
  {
    SliceLast(AllProducts, w)
  }

  /** nbar takes the first eight of the eleven factors and sbt the three
      thermal ones, with nothing in common and nothing left over. */
  lemma FactorsSplit()
    ensures Factors(Nbar) == ["fs", "fv", "a", "b", "s", "dir", "dif", "ts"]
    ensures Factors(Sbt) == ["path-up", "path-down", "transmittance-up"]
    ensures Factors(Nbar) + Factors(Sbt) == Factors(Standard) && |Factors(Standard)| == 11
    ensures forall f :: f in Factors(Nbar) ==> f !in Factors(Sbt)
  {
    SliceAtPartition(AllFactors, 8);
  }

  /** nbar evaluates albedos 0, 1 and t, sbt only th; nbar makes the three
      reflectance products and sbt the temperature one. */
  lemma AlbedosAndProductsSplit()
    ensures Albedos(Nbar) == ["0", "1", "t"] && Albedos(Sbt) == ["th"]
    ensures Albedos(Nbar) + Albedos(Sbt) == Albedos(Standard)
    ensures ArdProducts(Nbar) == ["brdf", "terrain", "lambertian"] && ArdProducts(Sbt) == ["sbt"]
    ensures ArdProducts(Nbar) + ArdProducts(Sbt) == ArdProducts(Standard)
  {
    SliceLastPartition(AllAlbedos);
    SliceLastPartition(AllProducts);
  }

  /** The sensors the constants object knows. */
  datatype Sensor = TM | ETMPlus | OliTirs | Oli | Tirs
  {
    function Name(): string
    {
      match this
      case TM => "TM"
      case ETMPlus => "ETM+"
      case OliTirs => "OLI_TIRS"
      case Oli => "OLI"
      case Tirs => "TIRS"
    }
  }

  const SensorNames: set<string> := {"TM", "ETM+", "OLI_TIRS", "OLI", "TIRS"}

  /** The sensor a name keys in the tables; any other name is a `KeyError`. */
  function ParseSensor(name: string): (r: Option<Sensor>)
    ensures r.Some? <==> name in SensorNames
    ensures r.Some? ==> r.value.Name() == name
  {
    if name == "TM" then Some(TM)
    else if name == "ETM+" then Some(ETMPlus)
    else if name == "OLI_TIRS" then Some(OliTirs)
    else if name == "OLI" then Some(Oli)
    else if name == "TIRS" then Some(Tirs)
    else None
  }

  /** Every sensor's name keys its own table entries. */
  lemma ParseSensorName(s: Sensor)
    ensures ParseSensor(s.Name()) == Some(s)
  {
  }

  /** The bands checked for saturation, per sensor. */
  function SaturationBands(s: Sensor): seq<string>
  {
    match s
    case TM => ["1", "2", "3", "4", "5", "6", "7"]
    case ETMPlus => ["1", "2", "3", "4", "5", "61", "62", "7"]
    case OliTirs => ["2", "3", "4", "5", "6", "7", "10", "11"]
    case Oli => ["2", "3", "4", "5", "6", "7"]
    case Tirs => ["10", "11"]
  }

  /** The bit each of those bands' saturation test sets, in the same order. */
  function SaturationBits(s: Sensor): seq<int>
  {
    match s
    case TM => [0, 1, 2, 3, 4, 5, 7]
    case ETMPlus => [0, 1, 2, 3, 4, 5, 6, 7]
    case OliTirs => [0, 1, 2, 3, 4, 7, 5, 6]
    case Oli => [0, 1, 2, 3, 4, 7]
    case Tirs => [5, 6]
  }

  /** The bands of a sensor's image stack, in the order they are read. */
  function AvailableBands(s: Sensor): seq<string>
  {
    match s
    case TM => ["1", "2", "3", "4", "5", "6", "7"]
    case ETMPlus => ["1", "2", "3", "4", "5", "61", "62", "7"]
    case OliTirs => ["1", "2", "3", "4", "5", "6", "7", "9", "10", "11"]
    case Oli => ["1", "2", "3", "4", "5", "6", "7", "9"]
    case Tirs => ["10", "11"]
  }

  /** The thermal band of the sensors that have one. */
  function ThermalBandOf(s: Sensor): Option<string>
  {
    match s
    case TM => Some("6")
    case ETMPlus => Some("61")
    case OliTirs => Some("10")
    case _ => None
  }

  /** What `thermal_band` holds for any other sensor. */
  const NoThermalBand := "Error! No Thermal Band Found."

  /** The sensors whose cloud and cloud-shadow algorithms run. */
  const CloudSensors: set<Sensor> := {TM, ETMPlus, OliTirs}

  /** Every sensor has as many saturation bits as saturation bands, each
      bit one of the eight low bits and no two the same, and every band
      checked for saturation is one of the sensor's available bands. */
  lemma SaturationTablesAgree(s: Sensor)
    ensures |SaturationBands(s)| == |SaturationBits(s)|
    ensures forall b :: b in SaturationBits(s) ==> 0 <= b < 8
    ensures Distinct(SaturationBits(s))
    ensures forall b :: b in SaturationBands(s) ==> b in AvailableBands(s)
  {
  }

  /** The cloud algorithms run for exactly the sensors with a thermal band. */
  lemma CloudSensorsHaveThermalBand(s: Sensor)
    ensures s in CloudSensors <==> ThermalBandOf(s).Some?
  {
  }

  /** Why `list.index` fails: the band is not in the list. */
  datatype LookupError = ValueError(band: string)

  /** `available.index(band)`: the first position of `band`. */
  function IndexOf(available: seq<string>, band: string): (r: Result<nat, LookupError>)
    ensures r.Ok? <==> band in available
    ensures r.Ok? ==> r.value < |available| && available[r.value] == band && band !in available[..r.value]
    ensures r.Err? ==> r.error == ValueError(band)
  {
    if |available| == 0 then Err(ValueError(band))
    else if available[0] == band then Ok(0)
    else
      match IndexOf(available[1..], band)
      case Ok(i) => assert available[1..][..i] == available[1..i + 1]; Ok(i + 1)
      case Err(e) => Err(e)
  }

  /** The bit each pixel-quality test sets. */
  datatype TestBits = TestBits(contiguity: int, landSea: int, acca: int, fmask: int,
                               accaShadow: int, fmaskShadow: int, topoShadow: int, reserved: int)
  {
    function Bits(): seq<int>
    {
      [contiguity, landSea, acca, fmask, accaShadow, fmaskShadow, topoShadow, reserved]
    }
  }

  /** The pixel-quality constants of one sensor. */
  class PqaConstants {
    const sensor: Sensor
    var saturationBands: seq<string>
    var saturationBits: seq<int>
    var availableBands: seq<string>
    var testBits: TestBits
    var runCloudShadow: bool
    var runCloud: bool
    var oliTirs: bool
    var thermalBand: string

    /** Every field holds what its setter gives the sensor. */
    predicate Valid()
      reads this
    {
      BandsSet() && TestBitsSet() && FlagsSet()
    }

    predicate BandsSet()
      reads this
    {
      && saturationBands == SaturationBands(sensor)
      && saturationBits == SaturationBits(sensor)
      && availableBands == AvailableBands(sensor)
    }

    predicate FlagsSet()
      reads this
    {
      && runCloudShadow == (sensor in CloudSensors)
      && runCloud == (sensor in CloudSensors)
      && oliTirs == (sensor == OliTirs)
      && thermalBand == (if ThermalBandOf(sensor).Some? then ThermalBandOf(sensor).value else NoThermalBand)
    }

    predicate TestBitsSet()
      reads this
    {
      testBits == TestBits(8, 9, 10, 11, 12, 13, 14, 15)
    }

    /** `__init__`, for a sensor the tables know. */
    constructor (sensor: Sensor)
      ensures this.sensor == sensor && Valid()
    {
      this.sensor := sensor;
      new;
      SetSaturationBands();
      SetSaturationBits();
      SetTestBits();
      SetAvailableBands();
      assert BandsSet();
      SetRunCloudShadow();
      SetRunCloud();
      SetOliTirs();
      SetThermalBand();
      assert FlagsSet();
    }

    method SetSaturationBands()
      modifies this`saturationBands
      ensures saturationBands == SaturationBands(sensor)
    {
      saturationBands := SaturationBands(sensor);
    }

    method SetSaturationBits()
      modifies this`saturationBits
      ensures saturationBits == SaturationBits(sensor)
    {
      saturationBits := SaturationBits(sensor);
    }

    method SetTestBits()
      modifies this`testBits
      ensures TestBitsSet()
    {
      testBits := TestBits(8, 9, 10, 11, 12, 13, 14, 15);
    }

    method SetAvailableBands()
      modifies this`availableBands
      ensures availableBands == AvailableBands(sensor)
    {
      availableBands := AvailableBands(sensor);
    }

    method SetRunCloudShadow()
      modifies this`runCloudShadow
      ensures runCloudShadow == (sensor in CloudSensors)
    {
      if sensor in CloudSensors {
        runCloudShadow := true;
      } else {
        runCloudShadow := false;
      }
    }

    method SetRunCloud()
      modifies this`runCloud
      ensures runCloud == (sensor in CloudSensors)
    {
      if sensor in CloudSensors {
        runCloud := true;
      } else {
        runCloud := false;
      }
    }

    method SetOliTirs()
      modifies this`oliTirs
      ensures oliTirs == (sensor == OliTirs)
    {
      if sensor == OliTirs {
        oliTirs := true;
      } else {
        oliTirs := false;
      }
    }

    method SetThermalBand()
      modifies this`thermalBand
      ensures thermalBand == if ThermalBandOf(sensor).Some? then ThermalBandOf(sensor).value else NoThermalBand
    {
      thermalBand := match ThermalBandOf(sensor)
        case Some(band) => band
        case None => NoThermalBand;
    }

    /** `get_array_band_lookup`: the position of each requested band in the
        image stack, failing at the first band the sensor does not have. */
    function GetArrayBandLookup(bandNumbers: seq<string>): (r: Result<seq<nat>, LookupError>)
      reads this
      ensures r.Ok? <==> forall b :: b in bandNumbers ==> b in availableBands
      ensures r.Ok? ==> |r.value| == |bandNumbers|
      ensures r.Ok? ==> forall k :: 0 <= k < |bandNumbers| ==>
        r.value[k] < |availableBands| && availableBands[r.value[k]] == bandNumbers[k]
      ensures r.Err? ==> r.error.band in bandNumbers && r.error.band !in availableBands
    {
      var available := availableBands;
      var r := MapAll(bandNumbers, (b: string) => IndexOf(available, b));
      MapAllMeaning(bandNumbers, (b: string) => IndexOf(available, b));
      r
    }
  }

  /** `PQAConstants(sensor)`: a sensor the tables do not know raises
      `KeyError` from the first setter. */
  method NewPqaConstants(name: string) returns (r: Result<PqaConstants, string>)
    ensures r.Err? <==> name !in SensorNames
    ensures r.Err? ==> r.error == name
    ensures r.Ok? ==> fresh(r.value) && r.value.sensor.Name() == name && r.value.Valid()
  {
    match ParseSensor(name)
    case None =>
      return Err(name);
    case Some(sensor) =>
      var p := new PqaConstants(sensor);
      return Ok(p);
  }

  /** The eight test bits are 8 to 15 in order, so no test shares a bit
      with another or with a saturation test; the saturation bands of a
      valid object are all in its image stack, so looking them up succeeds. */
  lemma PqaBitsDisjoint(p: PqaConstants)
    requires p.Valid()
    ensures Distinct(p.testBits.Bits())
    ensures forall b :: b in p.saturationBits ==> b !in p.testBits.Bits()
    ensures p.GetArrayBandLookup(p.saturationBands).Ok?
  {
    SaturationTablesAgree(p.sensor);
  }
}
