# ard-pipeline core in Dafny

A Dafny model of the index, selection, parsing and lookup rules at the
heart of the ARD (analysis ready data) pipeline for Landsat and Sentinel-2
imagery (`wagl`, `gaip`, `tesp` and their helpers), with the properties
those rules promise proved about the model.

The modules follow the program's structure:

- `TrackBisection` (`gaip/calculate_angles.py`): `first_and_last`,
  `asymetric_linspace`, `swathe_edges` and `create_boxline`, `create_vertices`
  with its quirks kept as written, the per-row solver loop's status check
  and the in-place centre-line post-processing.
- `Blrb`: bilinear recursive bisection as `tests/test_blrb.py` pins it
  (`indices`, `subdivide`, `bilinear`, `interpolate_block`), with the block
  driver filling a two-dimensional array in place.
- `Ancillary` (`wagl/ancillary.py`): `get_4d_idx`, the sample-geometry
  check, the default interpolation grid, the `collect_ancillary` guards and
  the tiered aerosol, ozone, water-vapour and elevation rules.
- `WaglBrdf` (`wagl/brdf.py`): date proximity, the MODIS and fallback
  directory choice, the `BrdfTileSummary` sum and mean, and the
  `get_brdf_data` decisions and 31-day retry.
- `GaipBrdf` (`gaip/brdf.py`): the `BRDFLoader` object, window means,
  the pre-MODIS and MODIS directory choice, `find_file` and the
  `get_brdf_data` fallback and all-zero rules.
- `Acquisition` (`wagl/acquisition/__init__.py`): `fixname`, the loader
  dispatch, band ids and names from MTL files, Sentinel-2 directories and
  SAFE archives, and `group_helper`.
- `Fmask` (`fmask_cloud_masking.py`): `match_file`, the `lndhdrread`
  header parser and its validation, missing-pixel masking in `nd2toar`,
  and the layered class mask of `fcssm_1_6sav`.
- `WaglConstants`, `GaipConstants`, `TespConstants`, `Workflows`: the
  workflow partitions, sensor tables and product sets.
- `ArdPbs` (`tesp/scripts/ard_pbs.py`): node counts, NCI project paths,
  storage strings and job dependencies.
- `MediaTypes` (`tesp/workflow.py`): the S3 content-type lookup.
- `AotConverter` (`wagl/scripts/aot_converter.py`): the `.pix` and `.cmp`
  binary layouts, aerosol filtering, extents and output naming.
- `DemHeight` (`src/extractDemHeight.c`): the GeoTIFF set-up, the frame
  and range checks, the DEM read and the duration text.
- `Wrappers`, `Text`, `Numeric`, `Dates`: Option/Result, Python string
  and sorting behaviour, truncating integer conversion and calendar dates,
  shared by the modules above.

Floating-point values are exact reals. Directory listings, file contents,
regular-expression matches, foreign solvers and projections are
parameters of the operations that use them.

## Model

| member | source | states |
|---|---|---|
| Dates.OrdinalRange | wagl/brdf.py:107-114 | a date's day count falls inside its year and inside its month, the count that date subtraction differences |
| Dates.OrdinalMonotone | wagl/brdf.py:107-114 | day counts order dates exactly as Python compares them, and two dates share a count only when equal |
| Dates.YearLength | wagl/brdf.py:107-114 | a year has as many days as its twelve months, and the count of the days before the next year grows by exactly that |
| Dates.ParseDoy | wagl/brdf.py:185 | a `%j` field accepted is a day of the year from 1 to 366 |
| Dates.DateOfDoy | wagl/brdf.py:185 | a year and a day of the year give the date that many days into the year; only the day after 9999-12-31 has none |
| Dates.ParseDirDate | wagl/brdf.py:136-140 | a directory name accepted by the `%Y.%m.%d` pattern names a real date |
| Dates.DirDateRoundTrip | wagl/brdf.py:138-142 | the name a date is written back with reads back as that date |
| Dates.DateFromDottedInts | wagl/brdf.py:546 | a dotted name whose pieces are not all integers fails on the integer conversion; one with integer pieces but not three of them fails on the count; an accepted name is a real date |
| Dates.DottedIntsRoundTrip | gaip/brdf.py:506-509 | a `%Y.%m.%d` directory name converts back to its date |
| Numeric.Trunc | gaip/calculate_angles.py:135-136 | a real cast to an integer dtype is cut toward zero: within one below a non-negative value and within one above a negative one |
| Numeric.RoundHalfEven | gaip/calculate_angles.py:995 | `rint` gives the nearest integer, and the even one when two are equally near |
| Numeric.Linspace | wagl/ancillary.py:157-159 | the requested number of evenly spaced samples, each its fraction of the way from start to stop cut to an integer, and stop itself last when the endpoint is kept |
| Numeric.LinspaceBounds | wagl/ancillary.py:157-159 | samples between two ordered non-negative ends stay within them and never decrease |
| Numeric.Ceil | tesp/scripts/ard_pbs.py:111 | `math.ceil`: the least integer not below the value |
| Workflows.SliceAtPartition | wagl/constants.py:28-40 | cutting a table at k gives NBAR and SBT parts that make up the STANDARD table in order and share no name when the table has no repeats |
| Workflows.SliceLastPartition | wagl/constants.py:41-64 | cutting off the last name gives NBAR and SBT parts that make up the STANDARD table, and the last name is not in the NBAR part |
| WaglConstants.AtmosCoefficients | wagl/constants.py:28-40 | every coefficient a workflow interpolates is one of `AtmosphericCoefficients` |
| WaglConstants.Albedos | wagl/constants.py:41-53 | every albedo a workflow evaluates is one of `Albedos` |
| WaglConstants.ArdProducts | wagl/constants.py:54-64 | every product a workflow makes is one of `ArdProducts` |
| WaglConstants.AtmosCoefficientsSplit | wagl/constants.py:28-40 | NBAR uses the eight reflectance coefficients FS to TS and SBT the four thermal ones; together, in order, they are all twelve, with none shared |
| WaglConstants.AlbedosSplit | wagl/constants.py:41-53 | NBAR evaluates albedo 0 and SBT the thermal albedo; STANDARD evaluates both |
| WaglConstants.ArdProductsSplit | wagl/constants.py:54-64 | NBAR makes NBAR, NBART and LAMBERTIAN, SBT makes SBT, and STANDARD makes all four |
| WaglConstants.CombineSatelliteSensor | wagl/constants.py:301-310 | the combined name is no longer than the two names together, and holds neither `-`, `_` nor an upper-case letter |
| WaglConstants.SbtBands | wagl/constants.py:313-325 | a known satellite/sensor pair gets its non-empty list of thermal bands; any other pair gets the empty list |
| WaglConstants.SbtBandsNormalised | wagl/constants.py:301-325 | looking up an already combined name gives the same bands as looking up the pair it came from |
| WaglConstants.CombinedName | wagl/constants.py:306-310 | the combined name is the satellite and sensor names written one after the other, with every `-` and `_` deleted, in lower case |
| WaglConstants.WithoutConcat | wagl/constants.py:308-309 | deleting separators from two strings in a row is deleting them from each |
| WaglConstants.LowerConcat | wagl/constants.py:308-309 | lower-casing two strings in a row is lower-casing each |
| WaglConstants.DropSeparator | wagl/constants.py:308-309 | a separator between two strings is deleted and nothing else changes |
| WaglConstants.CombineWords | wagl/constants.py:301-310 | two names of two words each, joined by separators, combine into the four words in lower case |
| WaglConstants.CombineWord | wagl/constants.py:301-310 | a two-word satellite name and a one-word sensor name combine into the three words in lower case |
| WaglConstants.SbtBandsLandsat8 | wagl/constants.py:313-325 | `LANDSAT_8` with `OLI_TIRS` gets band 10 only |
| WaglConstants.SbtBandsLandsat7 | wagl/constants.py:313-325 | `Landsat-7` with `ETM+` gets bands 61 and 62 |
| WaglConstants.SbtBandsLandsat5 | wagl/constants.py:313-325 | `LANDSAT_5` with `TM` gets band 6 |
| WaglConstants.Landsat8Key | wagl/constants.py:301-310 | `LANDSAT_8` with `OLI_TIRS` combines into `landsat8olitirs` |
| WaglConstants.Landsat7Key | wagl/constants.py:301-310 | `Landsat-7` with `ETM+` combines into `landsat7etm+` |
| WaglConstants.Landsat5Key | wagl/constants.py:301-310 | `LANDSAT_5` with `TM` combines into `landsat5tm` |
| WaglConstants.LowerLandsat8 | wagl/constants.py:308-309 | the words of `LANDSAT_8` and `OLI_TIRS` in lower case spell `landsat8olitirs` |
| WaglConstants.LowerWords | wagl/constants.py:308-309 | the example words in lower case |
| WaglConstants.CombinedFixed | wagl/constants.py:301-310 | a name already combined combines with an empty sensor into itself |
| WaglConstants.LowerFixed | wagl/constants.py:308-309 | a string without upper-case letters is its own lower case |
| GaipConstants.Factors | gaip/constants.py:46-57 | every factor a model uses is one of `ALL_FACTORS` |
| GaipConstants.Albedos | gaip/constants.py:58-69 | every albedo a model uses is one of `ALL_ALBEDOS` |
| GaipConstants.ArdProducts | gaip/constants.py:70-79 | every product a model makes is one of `ARD_PRODUCTS` |
| GaipConstants.FactorsSplit | gaip/constants.py:10-22 | nbar takes the first eight of the eleven factors and sbt the three thermal ones; together they are the standard list, with none shared |
| GaipConstants.AlbedosAndProductsSplit | gaip/constants.py:58-79 | nbar evaluates albedos 0, 1 and t and sbt only th; nbar makes brdf, terrain and lambertian and sbt makes sbt; each pair of parts makes up the standard list |
| GaipConstants.ParseSensor | gaip/constants.py:251-265 | a name is accepted exactly when it is one of the five sensors the tables know, and it parses to the sensor of that name |
| GaipConstants.ParseSensorName | gaip/constants.py:251-265 | each sensor's own name parses back to that sensor |
| GaipConstants.SaturationTablesAgree | gaip/constants.py:267-295 | for each sensor there are as many saturation bits as saturation bands; each bit is one of bits 0 to 7, no two bits are the same, and each saturation band is an available band |
| GaipConstants.CloudSensorsHaveThermalBand | gaip/constants.py:384-426 | the cloud and cloud-shadow tests run for exactly the sensors that have a thermal band |
| GaipConstants.IndexOf | gaip/constants.py:375-382 | `list.index`: succeeds exactly when the band is listed, and then gives its first position; otherwise ValueError naming the band |
| GaipConstants.PqaConstants.constructor | gaip/constants.py:251-265 | after construction every field holds what its setter gives the sensor |
| GaipConstants.PqaConstants.SetSaturationBands | gaip/constants.py:267-280 | the saturation bands become the sensor's table entry |
| GaipConstants.PqaConstants.SetSaturationBits | gaip/constants.py:282-295 | the saturation bits become the sensor's table entry |
| GaipConstants.PqaConstants.SetTestBits | gaip/constants.py:352-361 | the eight test bits become bits 8 to 15 in order |
| GaipConstants.PqaConstants.SetAvailableBands | gaip/constants.py:363-373 | the available bands become the sensor's image stack |
| GaipConstants.PqaConstants.SetRunCloudShadow | gaip/constants.py:384-393 | the cloud-shadow flag is set exactly for TM, ETM+ and OLI_TIRS |
| GaipConstants.PqaConstants.SetRunCloud | gaip/constants.py:395-404 | the cloud flag is set exactly for TM, ETM+ and OLI_TIRS |
| GaipConstants.PqaConstants.SetOliTirs | gaip/constants.py:406-416 | the OLI_TIRS flag is set exactly for OLI_TIRS |
| GaipConstants.PqaConstants.SetThermalBand | gaip/constants.py:418-426 | the thermal band is the sensor's thermal band, or the "no thermal band" message for a sensor without one |
| GaipConstants.PqaConstants.GetArrayBandLookup | gaip/constants.py:375-382 | succeeds exactly when every requested band is available; then it gives, for each band in order, a position in the stack holding that band; otherwise it fails on a requested band that is not available |
| GaipConstants.NewPqaConstants | gaip/constants.py:251-265 | fails, with the name as the KeyError, exactly for a name the tables do not know; otherwise gives a fresh, fully set object for that sensor |
| GaipConstants.PqaBitsDisjoint | gaip/constants.py:224-242 | no two test bits are the same, no test bit is a saturation bit, and looking up the saturation bands of a set-up object succeeds |
| TespConstants.ProductNames | tesp/constants.py:17 | the package names of the four wagl products are "nbar", "nbart", "lambertian" and "sbt" |
| TespConstants.All | tesp/constants.py:17-25 | all products are the four lower-case product names |
| TespConstants.Default | tesp/constants.py:12-29 | the default products are nbar and nbart, a subset of all products |
| TespConstants.ValidateProducts | tesp/constants.py:20-21 | a list is valid exactly when every name in it is a product name |
| TespConstants.ValidateProductsExamples | tesp/constants.py:20-21 | the empty list and a list of product names with a repeat are valid; an upper-case name is not |
| MediaTypes.BaseName | tesp/workflow.py:253-263 | `PurePath.name` is the tail of the path after its last `/` and holds no `/` |
| MediaTypes.Suffix | tesp/workflow.py:253-263 | `PurePath.suffix` is empty or a dot followed by at least one character and no further dot |
| MediaTypes.StemSuffix | tesp/workflow.py:253-263 | the stem and the suffix together make up the name, and a non-empty suffix has a non-empty stem |
| MediaTypes.ContentMediaType | tesp/workflow.py:253-263 | a README stem gives text/plain; otherwise a known lower-cased extension gives its table entry and any other gives application/octet-stream |
| MediaTypes.SplitName | tesp/workflow.py:253-263 | a name made of a stem, a dot and an extension has that stem and suffix |
| MediaTypes.ExtensionCaseIgnored | tesp/workflow.py:253-263 | `.TIF` and `.tif` both give image/tiff, unless the stem is README |
| MediaTypes.NoExtension | tesp/workflow.py:253-263 | a file without an extension is an octet stream in any directory, unless it is called README |
| Workflows.SliceAt | wagl/constants.py:28-40 | a workflow's part of a table cut at k holds names of the table only: the first k for NBAR, the rest for SBT; `SliceAtPartition` states how the parts fit together |
| Workflows.SliceLast | wagl/constants.py:41-64 | a workflow's part of a table cut before its last name: all but the last for NBAR, the last alone for SBT; `SliceLastPartition` states how the parts fit together |
| TespConstants.ProductName | tesp/constants.py:17 | a product's package name, its value in lower case; `ProductNames` states the four names |
| MediaTypes.Stem | tesp/workflow.py:253-263 | `PurePath.stem`, the name less its suffix; `StemSuffix` states that stem and suffix make up the name |
| MediaTypes.Extension | tesp/workflow.py:253-263 | the suffix without its dot, one character shorter than a non-empty suffix and empty without one; `ExtensionCaseIgnored` states that case does not matter |
| TrackBisection.FirstTrue | gaip/calculate_angles.py:124-126 | the first true index, or -1 exactly when no element is true |
| TrackBisection.LastTrue | gaip/calculate_angles.py:124-126 | the last true index, or -1 exactly when no element is true |
| TrackBisection.FirstAndLastSpec | gaip/calculate_angles.py:111-126 | the pair is (-1, -1) exactly when no element is true; otherwise both ends are true and every true element lies between them |
| TrackBisection.FirstAndLastExamples | gaip/calculate_angles.py:114-123 | the three documented examples: (2, 6), (-1, -1) and (0, 0) |
| TrackBisection.AsymLinspaceShape | gaip/calculate_angles.py:129-137 | the samples have odd length `2*(num//2)+1`, which equals `num` exactly when `num` is odd; the middle sample is the midpoint, and from two samples on the ends are `start` and `stop` |
| TrackBisection.AsymLinspaceBounds | gaip/calculate_angles.py:129-137 | with `0 <= start <= midpoint <= stop`, every sample lies in [start, stop] and the samples never decrease |
| TrackBisection.AsymLinspaceExample | gaip/calculate_angles.py:129-134 | the documented example gives [10, 14, 18, 19, 20] |
| TrackBisection.WithinAngle | gaip/calculate_angles.py:150 | pixel i is marked exactly when its view angle is at most the threshold |
| TrackBisection.SwatheEdges | gaip/calculate_angles.py:140-151 | for each row, the start and end are the first and last columns within the threshold, or -1 for both when no column is |
| TrackBisection.CreateBoxline | gaip/calculate_angles.py:154-212 | one record per row, holding the row index, the truncated track column and point count, and the row's swathe edges |
| TrackBisection.BoxlineEdges | gaip/calculate_angles.py:191-208 | a record's start is -1 exactly when no pixel of its row is within the angle; otherwise both edges are within the angle and bracket every pixel that is |
| TrackBisection.BitOr | gaip/calculate_angles.py:250 | a bitwise or is at least each operand and at most their sum |
| TrackBisection.TrackRows | gaip/calculate_angles.py:258-264 | a row counts as a track row exactly when its point count is non-zero |
| TrackBisection.PartialTrackRows | gaip/calculate_angles.py:264-265 | a track end row left after removing -1, 0 and rows-1 lies strictly inside the raster |
| TrackBisection.PyIndex | gaip/calculate_angles.py:285 | a Python index from -n to n-1 refers to a position inside the sequence |
| TrackBisection.ToCoordinator | gaip/calculate_angles.py:302-312 | a coordinator record keeps the row and column of its location |
| TrackBisection.ToCoordinators | gaip/calculate_angles.py:302-312 | one coordinator per location, in order |
| TrackBisection.CreateVertices | gaip/calculate_angles.py:215-314 | the chained guard gives the dimension ValueError; an empty `set.pop` gives a KeyError; otherwise the mid row is one of the allowed choices and the result is the coordinators of the grid locations laid out around it |
| TrackBisection.FillLocations | gaip/calculate_angles.py:282-289 | the loop writes the same locations, or stops at the same grid row, as the row-by-row definition |
| TrackBisection.MidRowInRaster | gaip/calculate_angles.py:264-273 | the chosen middle row is a raster row whenever the raster has rows |
| TrackBisection.GridRowsInRaster | gaip/calculate_angles.py:280 | every sampled row is a raster row; from two grid rows on, the first is row 0 and the last is the bottom row |
| TrackBisection.LocationsFromOk | gaip/calculate_angles.py:283-288 | when every sampled row is a raster row, filling the grid succeeds exactly when each grid line has the expected number of columns |
| TrackBisection.GridLine | gaip/calculate_angles.py:284-286 | a grid line has at least `v1` samples |
| TrackBisection.GridSamples | gaip/calculate_angles.py:283-289 | the intended grid has `|gridRows| * v1` samples, each on a boxline row |
| TrackBisection.LocationsFromSamples | gaip/calculate_angles.py:283-289 | a successful fill writes exactly the intended sample grid |
| TrackBisection.CreateVerticesSucceeds | gaip/calculate_angles.py:250-289 | when the raster has rows and a middle row has been chosen, the layout succeeds exactly when the vertex row count is odd and the vertex column count is odd or zero |
| TrackBisection.CreateVerticesLayout | gaip/calculate_angles.py:280-289 | a successful layout is `v0 * v1` locations on raster rows, in row-major order, and equals the intended sample grid |
| TrackBisection.LineMidpointIsMidRow | gaip/calculate_angles.py:266-285 | for a raster of at least two rows the middle row is non-zero, so `mid_row or xcentre[ir]` is always the middle row and the bisection index is never used |
| TrackBisection.ScanRows | gaip/calculate_angles.py:916-966 | the row loop gives the same result as running the solver row by row from zeroed sums, and a failure names a raster row |
| TrackBisection.ScanFailsAtFirstBadRow | gaip/calculate_angles.py:961-966 | the RuntimeError names a raster row whose status is not zero, every earlier row reported zero, and each row ran from the sums the rows before it left |
| TrackBisection.StatusAfterFirst | gaip/calculate_angles.py:961-966 | running from a row is running that row, then the rest from the sums it leaves |
| TrackBisection.ScanSucceeds | gaip/calculate_angles.py:961-966 | the loop completes exactly when every row reports status zero, and then yields the sums the last row left |
| TrackBisection.Averaged | gaip/calculate_angles.py:980-981 | a row with more than 1.5 track points takes its mean column; any other row keeps its sum |
| TrackBisection.RolledFill | gaip/calculate_angles.py:985-991 | `np.roll` by one: a row without a track point takes the column of the row before it, cyclically, so the first row takes the last row's; every other row keeps its own |
| TrackBisection.DivideByCounts | gaip/calculate_angles.py:980-981 | in place, the columns become their averaged values |
| TrackBisection.FillFromPrevious | gaip/calculate_angles.py:985-991 | in place, the columns become their rolled fill |
| TrackBisection.RoundToColumns | gaip/calculate_angles.py:995 | in place, each column is rounded half to even and reduced by one |
| TrackBisection.FinishCentreLine | gaip/calculate_angles.py:976-995 | fails on `temp[1]` exactly when there is no centre line (no rows, or a single row without a track point), leaving the averaged columns behind; otherwise leaves the centre line |
| TrackBisection.GapTakesRowAbove | gaip/calculate_angles.py:985-995 | a row after the first with no track point takes the rounded column of the row above, and that row's raw column when the row above has no track point either |
| TrackBisection.CentreLineRounding | gaip/calculate_angles.py:995 | every centre-line value plus one is an integer within half a pixel of the column it comes from |
| TrackBisection.FirstAndLast | gaip/calculate_angles.py:111-126 | either both ends are -1 or neither is, and the first never comes after the last; `FirstAndLastSpec` states the rest |
| TrackBisection.AsymLinspace | gaip/calculate_angles.py:129-137 | `asymetric_linspace`, the two linspaces around the midpoint; `AsymLinspaceShape`, `AsymLinspaceBounds` and `AsymLinspaceExample` state its shape and values |
| TrackBisection.RowLocations | gaip/calculate_angles.py:283-288 | the locations of one grid row, with the index and broadcast errors; `LocationsFromOk` and `LocationsFromSamples` state when it succeeds and what it writes |
| TrackBisection.GridLocations | gaip/calculate_angles.py:280-289 | the locations `create_vertices` lays out; `CreateVerticesSucceeds` and `CreateVerticesLayout` state its outcome |
| TrackBisection.ScanFrom | gaip/calculate_angles.py:916-966 | the row loop of `calculate_angles` from a given row; a failure names a row from that row on, below the row count, and `ScanRows`, `ScanFailsAtFirstBadRow` and `ScanSucceeds` state its outcome |
| TrackBisection.CentreLine | gaip/calculate_angles.py:976-995 | one centre-line column per row; `GapTakesRowAbove` and `CentreLineRounding` state its values |
| Blrb.Indices | tests/test_blrb.py:20-24 | the inclusive bounds start at the origin and span exactly the block's rows and columns |
| Blrb.IndicesExamples | tests/test_blrb.py:20-24 | (0, 0) with shape (16, 32) gives (0, 15, 0, 31), and (2, 3) with shape (3, 4) gives (2, 4, 3, 6) |
| Blrb.Subdivide | tests/test_blrb.py:26-32 | the keys are UL, UR, LL and LR, and each quadrant's list holds its four corners |
| Blrb.SubdivideExample | tests/test_blrb.py:26-32 | the four corner lists the test asserts for a 16 x 32 block |
| Blrb.QuadrantsTileBlock | tests/test_blrb.py:26-32 | the quadrants of a non-empty block are non-empty, lie inside the block, and together cover it |
| Blrb.Bilinear | tests/test_blrb.py:34-59 | a block of the given shape whose every pixel is the bilinear blend of the four corner values |
| Blrb.BilinearCorners | tests/test_blrb.py:43-59 | the block reproduces its four corner values exactly |
| Blrb.BilinearConstant | tests/test_blrb.py:34-41 | equal corner values give a uniform block |
| Blrb.BilinearCentreExamples | tests/test_blrb.py:43-59 | the centre of a 5 x 5 block is 0.5 for corners (0, 1, 1, 0) and 1.0 for corners (0, 1, 2, 1) |
| Blrb.InterpolateBlock | tests/test_blrb.py:61-86 | the filled block has the shape of the block |
| Blrb.InterpolateBlockExact | tests/test_blrb.py:88-111 | on a bilinear field every pixel of the block gets the field's own value |
| Blrb.InterpolateBlockExactAt | tests/test_blrb.py:88-111 | the same, indexed by raster position |
| Blrb.InterpolateBlockExamples | tests/test_blrb.py:61-86 | the values the tests assert for the field i*j: 4 and 16 on a 5 x 5 block, and 40, 30 and 36 on a 5 x 11 block |
| Blrb.ProductFieldExact | tests/test_blrb.py:61-86 | for the field i*j every pixel of a block at the origin is the product of its row and column |
| Blrb.InterpolatePlanarMatchesBilinear | tests/test_blrb.py:88-111 | for the field i+j on a 3 x 5 block, the block fill equals the bilinear fill of the corner values, exactly and not just within 1e-6 |
| Blrb.QuadrantIndices | tests/test_blrb.py:26-32 | a quadrant's origin and shape describe that quadrant's bounds |
| Blrb.InSomeQuadrant | tests/test_blrb.py:26-32 | a point lies in some quadrant exactly when it lies in the block |
| Blrb.WriteBlock | tests/test_blrb.py:65 | writing a block into the grid sets exactly the block's pixels and leaves every other pixel as it was |
| Blrb.FillStep | tests/test_blrb.py:26-32 | filling one more quadrant extends the filled region by that quadrant and leaves the rest unchanged |
| Blrb.InterpolateGrid | tests/test_blrb.py:26-111 | the recursive bisection leaves every pixel outside the block unchanged, and gives every pixel inside it the interpolated value of some leaf block around it |
| Blrb.FillQuadrant | tests/test_blrb.py:26-32 | filling one quadrant one level deeper changes only that quadrant, and gives each of its pixels a leaf value |
| Blrb.FromLeafExact | tests/test_blrb.py:88-111 | on a bilinear field every leaf value is the field's own value, so the recursive fill reproduces the field over the whole block |
| Ancillary.Get4dIdx | wagl/ancillary.py:100-108 | 37 consecutive indices, the first being `1 + 37*(day-1)` |
| Ancillary.Get4dIdxPartition | wagl/ancillary.py:100-108 | every index belongs to exactly one day, and each day's indices are followed directly by the next day's |
| Ancillary.ElementsCard | wagl/ancillary.py:144-146 | a sequence has at most as many distinct elements as entries, with equality exactly when no entry repeats |
| Ancillary.CheckSampleGeometry | wagl/ancillary.py:134-146 | true exactly when no two coordinator records fall on the same pixel |
| Ancillary.DefaultInterpolationGrid | wagl/ancillary.py:149-165 | the row-by-row loop returns the default grid, or the IndexError of the first grid row outside the boxline |
| Ancillary.DefaultSamplesAt | wagl/ancillary.py:157-162 | entry `ig*v1 + j` of the samples is column j of grid row ig |
| Ancillary.DefaultGridSucceeds | wagl/ancillary.py:149-165 | with one boxline record per raster row the default grid never fails; with no rows and at least one grid row it fails |
| Ancillary.DefaultGridLayout | wagl/ancillary.py:149-165 | the default grid has `v0 * v1` records in row-major order; its rows run from 0 to rows-1 without decreasing, and each row's columns lie between that row's swathe edges |
| Ancillary.CollectCoordinator | wagl/ancillary.py:286-325 | more than one granule is a RuntimeError; the track-based vertices are kept when they fall on distinct pixels in every group, and otherwise replaced by the default grid |
| Ancillary.AerosolSources | wagl/ancillary.py:727-730 | three sources, tried in the order PIX, CMP year-month, CMP month |
| Ancillary.Recent | wagl/ancillary.py:750-753 | keeps exactly the records less than half a day from the acquisition |
| Ancillary.WithinValues | wagl/ancillary.py:758-761 | the aerosol values are exactly those of the records inside the scene |
| Ancillary.MeanBounds | wagl/ancillary.py:761 | the mean of values within bounds lies within those bounds |
| Ancillary.GetAerosolData | wagl/ancillary.py:711-780 | a missing pathname is a KeyError, even when a user value is given; a user value wins; otherwise the first source with a finite mean is chosen, and the 0.06 default when none has one |
| Ancillary.AerosolPrecedence | wagl/ancillary.py:743-780 | the chosen tier outranks every source with a finite mean, so the default is never chosen while some source has one |
| Ancillary.OzoneAreaIsRectangle | wagl/ancillary.py:826-831 | a point is inside the fallback polygon exactly when its longitude is strictly between 70.3 and 170 and its latitude strictly between -56.7 and -7.8 |
| Ancillary.GetOzoneData | wagl/ancillary.py:813-840 | a successful read is the definitive value; an IndexError falls back to 0.275 exactly inside the fallback area and raises "No Ozone data" exactly outside it |
| Ancillary.ElevationPath | wagl/ancillary.py:783-810 | onshore, a path without exactly one ':' is always "No Elevation data"; with exactly one, the read uses the file and dataset either side of it, and its value is scaled by 0.001 |
| Ancillary.Nearest | wagl/ancillary.py:886-887 | `argmin`: an index of a nearest observation, and the first such index |
| Ancillary.ObservationHour | wagl/ancillary.py:883-887 | the hour used is one of 0, 6, 12 and 18, and none of them is nearer |
| Ancillary.ObservationHourBands | wagl/ancillary.py:883-887 | each hour of the day reads the observation of its band: 0 up to 3 o'clock, 6 up to 9, 12 up to 15 and 18 after that, ties going to the earlier observation |
| Ancillary.ObservationHourExamples | wagl/ancillary.py:883-887 | hour 17 uses 18 (the nearest, not the previous one the comment describes), 15 uses 12, 3 uses 0 and 23 uses 18 |
| Ancillary.FallbackDatasetNameExample | wagl/ancillary.py:881-888 | the 5th of January at hour 17 reads `AVERAGE/JANUARY-05/1800` |
| Ancillary.LatestPrevious | wagl/ancillary.py:867-896 | `idxmax` over the past day: none exactly when no record is in the window; otherwise the first record in the window with the largest time delta |
| Ancillary.GetWaterVapour | wagl/ancillary.py:843-924 | a missing pathname is a KeyError; a user value wins; with no record in the past day and no fallback dataset it raises "No actual or fallback water vapour data."; otherwise the definitive or fallback tier is read, scaled by 0.1, and the fallback-default tier never results |
| Ancillary.DefinitiveReadsLatest | wagl/ancillary.py:863-913 | when the definitive file holds a record from the past day, the value read is that of a latest such record |
| Ancillary.DefaultGrid | wagl/ancillary.py:149-165 | what `default_interpolation_grid` returns; `DefaultGridSucceeds` and `DefaultGridLayout` state when it fails and the grid it lays out |
| Ancillary.GetElevationData | wagl/ancillary.py:783-810 | the only errors are the IndexError of a read outside the dataset and AncillaryError "No Elevation data"; `ElevationPath` states how the onshore path is split |
| Ancillary.ReadWaterVapour | wagl/ancillary.py:902-912 | a value exactly when the pixel was read, tagged with the tier it was read from; a ValueError becomes AncillaryError "No Water Vapour data" |
| Ancillary.FallbackDatasetName | wagl/ancillary.py:881-888 | the `AVERAGE/<MONTH-DD>/<hh>00` dataset name; `FallbackDatasetNameExample` states its value for one date |
| WaglBrdf.MinIndex | wagl/brdf.py:95-116 | `min` with the proximity key: a position whose key no date beats, and the first such position |
| WaglBrdf.NearestMostRecent | wagl/brdf.py:95-116 | the chosen date is nearest to the target, and among dates equally near it is never before another, so it is the most recent |
| WaglBrdf.ParsedDates | wagl/brdf.py:135-140 | the dates of exactly the names that parse as `%Y.%m.%d`; the other names are skipped |
| WaglBrdf.GetBrdfDirsModis | wagl/brdf.py:119-142 | a ValueError exactly when no name parses as a date; otherwise the re-formatted name of a listed date nearest to the scene, which parses back to that date |
| WaglBrdf.ModisCandidates | wagl/brdf.py:136 | sorting the listing does not change which dates it names |
| WaglBrdf.ModisNearest | wagl/brdf.py:136-142 | the chosen date is listed, and no listed date is nearer to the scene |
| WaglBrdf.FallbackEntries | wagl/brdf.py:169-178 | the candidates are the sorted day names in the scene year, preceded by the last one in the previous year and followed by the first one in the next year |
| WaglBrdf.EntryDate | wagl/brdf.py:185 | a parsed `%Y %j` entry is a valid date |
| WaglBrdf.EntryDates | wagl/brdf.py:181-187 | all entries parse exactly when every entry parses on its own, and then there is one valid date per entry |
| WaglBrdf.GetBrdfDirsFallback | wagl/brdf.py:145-187 | an empty listing is an IndexError and an unparseable entry a ValueError; otherwise the result is a listed day name whose entry is nearest to the scene |
| WaglBrdf.FallbackNearest | wagl/brdf.py:181-187 | the entry chosen by the proximity key is a nearest entry |
| WaglBrdf.FallbackEntryListed | wagl/brdf.py:172-178 | every candidate's day name comes from the listing |
| WaglBrdf.FallbackParses | wagl/brdf.py:145-187 | a non-empty listing of valid day numbers never fails for a scene away from the ends of the year range |
| WaglBrdf.FallbackWrapsYear | wagl/brdf.py:175-178 | near a year boundary the search reaches into the next year: with days 361 and 001, 31 December 2005 chooses 001 |
| WaglBrdf.YearEndWraps | wagl/brdf.py:175-178 | in any non-leap year, a fallback listing of days 361 and 001 resolves 31 December to day 001 of the next year, the nearer composite |
| WaglBrdf.DoyExamples | wagl/brdf.py:185 | "361" and "001" parse as days 361 and 1, and day 361 is 26 December in 2004 and 27 December in 2005 |
| WaglBrdf.DecemberDoy | wagl/brdf.py:185 | day 361 is 26 December in a leap year and 27 December otherwise |
| WaglBrdf.Empty | wagl/brdf.py:244-251 | every parameter has sum 0 and count 0, and there are no source ids or files |
| WaglBrdf.Add | wagl/brdf.py:258-272 | the source lists of the sum are sorted without repeats, and swapped: the ids are the union of both files lists and the files the union of both id lists |
| WaglBrdf.EmptyIsEmpty | wagl/brdf.py:245-256 | the empty summary is empty |
| WaglBrdf.AddIdentity | wagl/brdf.py:258-272 | adding the empty summary on either side leaves sums and counts unchanged |
| WaglBrdf.AddEmptySwaps | wagl/brdf.py:268-272 | adding to the empty summary swaps the source ids and source files |
| WaglBrdf.AddCommutative | wagl/brdf.py:258-272 | the order of the two summaries does not matter |
| WaglBrdf.AddAssociativeSummaries | wagl/brdf.py:258-272 | sums and counts add up associatively, and a sum is empty exactly when both parts are |
| WaglBrdf.AccumulateMixesSources | wagl/brdf.py:570-579 | accumulating tiles keeps every id and file name but mixes the two lists, and the result is empty exactly when every tile is |
| WaglBrdf.AccumulateTwoTiles | wagl/brdf.py:573-578 | with two tiles the files are the first tile's files and the second's ids, and the ids are the first tile's ids and the second's files |
| WaglBrdf.TileSummaries | wagl/brdf.py:574-578 | one summary per tile, as `load_brdf_tile` gives it |
| WaglBrdf.GetTally | wagl/brdf.py:570-579 | one entry per dataset, each the accumulation from `empty()` of that dataset's tile summaries |
| WaglBrdf.TallyTiles | wagl/brdf.py:573-578 | one dataset's entry is the accumulation from `empty()` of its tile summaries, in tile order |
| WaglBrdf.Average | wagl/brdf.py:284-287 | `sum / count` is finite exactly when the count is positive |
| WaglBrdf.Divide | wagl/brdf.py:297 | a float division is finite exactly when both operands are finite and the divisor is non-zero, and then it is the quotient |
| WaglBrdf.Mean | wagl/brdf.py:274-300 | the ids are the summary's ids; an empty summary gives 0.0; otherwise the value is finite exactly when the ratio of averages is defined, and then it is that ratio |
| WaglBrdf.MeanOfDoubled | wagl/brdf.py:258-300 | adding a summary to itself leaves its means unchanged |
| WaglBrdf.MeanOf | wagl/brdf.py:613-615 | `np.mean` is finite exactly when the list is non-empty and every value is finite |
| WaglBrdf.MeanOfEqual | wagl/brdf.py:613-615 | the mean of equal finite values is that value |
| WaglBrdf.AllIds | wagl/brdf.py:600-607 | the ids are exactly those of some dataset's summary |
| WaglBrdf.AllFiles | wagl/brdf.py:610-612 | the local paths are exactly the source files of some dataset's summary |
| WaglBrdf.Coverage | wagl/brdf.py:595-623 | an entry's ids and paths are those of all datasets; its value is finite exactly when every dataset's mean is; its tier is FALLBACK_DATASET exactly when the fallback was chosen, and DEFINITIVE otherwise |
| WaglBrdf.UserCoverages | wagl/brdf.py:507-516 | succeeds exactly when the alias has both `alpha-1` and `alpha-2` keys, and then gives those two user values |
| WaglBrdf.UserIsoVolGeoRejected | wagl/brdf.py:462-466 | a user entry keyed iso, vol and geo, as the docstring describes, is a KeyError for `alpha-1` |
| WaglBrdf.DateFromDirName | wagl/brdf.py:546 | succeeds exactly when the name is three dot-separated integers forming a valid date, and gives that date |
| WaglBrdf.UseFallback | wagl/brdf.py:531-549 | no primary path always uses the fallback; a missing or empty primary directory is NoBrdfRootError; otherwise the fallback is used exactly when the scene is before 2002-07-01 or after the date of the last entry in sorted order |
| WaglBrdf.RetryOutcomeUnique | wagl/brdf.py:586-593 | the retry loop has a single possible outcome |
| WaglBrdf.RetryTally | wagl/brdf.py:581-593 | the loop ends with the fallback tally when the fallback is chosen; otherwise with the first definitive tally, 0 to 31 days back, that fails or has no empty dataset; and when all 32 have an empty dataset, with the fallback tally at the scene date |
| WaglBrdf.ExhaustedRetryLabelledDefinitive | wagl/brdf.py:586-620 | when all 32 definitive attempts have an empty dataset the values come from the fallback archive, yet the tier reported is DEFINITIVE |
| WaglBrdf.ConfiguredPaths | wagl/brdf.py:518-520 | succeeds exactly when `brdf_path`, `brdf_fallback_path` and `ocean_mask_path` are all present |
| WaglBrdf.GetBrdfData | wagl/brdf.py:449-623 | a user configuration gives the user values; a missing path key or an error in choosing the archive is returned; otherwise the ALPHA-1 and ALPHA-2 entries are built from the retry loop's tally |
| WaglBrdf.CallKeywords | wagl/brdf.py:449-454 | a call succeeds exactly when every keyword is a declared parameter, and otherwise is a TypeError |
| WaglBrdf.CallersRejected | wagl/ancillary.py:589 | both callers pass an undeclared keyword (`mode`, and `offshore` at wagl/ancillary.py:698-700), so both calls raise TypeError |
| WaglBrdf.ProximityKey | wagl/brdf.py:95-116 | the `_date_proximity` key: the distance in days, then the negated year, month and day; `NearestMostRecent` states what its minimum is |
| WaglBrdf.NearestEntry | wagl/brdf.py:176-187 | an entry no other is nearer to the scene than, among entries that all parse; `FallbackNearest` states that the chosen entry is one |
| WaglBrdf.AddSummary | wagl/brdf.py:261-266 | the summed count of a parameter is zero exactly when both counts are, and is at least each of them |
| WaglBrdf.Means | wagl/brdf.py:595-617 | the mean of the parameter in each dataset's summary, one per dataset, in order |
| GaipBrdf.LastMinIndex | gaip/brdf.py:444-450 | the entry `delta_map[sorted(delta_map)[0]]` keeps: a position of smallest key, and no later position has that key (later entries overwrite earlier ones) |
| GaipBrdf.SortedLastMin | gaip/brdf.py:440-450 | over a sorted listing, no name of smallest key sorts after the pick |
| GaipBrdf.DayOfYear | gaip/brdf.py:441-442 | the scene's day of year lies between 1 and the length of its year |
| GaipBrdf.Score | gaip/brdf.py:443-446 | the distance of a composite's midpoint from the scene's day, folded around the last composite start (361): the smaller of the plain and the folded distance |
| GaipBrdf.PreModisScores | gaip/brdf.py:444-447 | one score per listed name, in listing order |
| GaipBrdf.GetBrdfDirsPreModis | gaip/brdf.py:413-452 | ValueError exactly when some name is not an integer, IndexError exactly when the listing is empty; otherwise a listed name of smallest score, and no name of equal score sorts after it |
| GaipBrdf.PreModisPick | gaip/brdf.py:444-450 | the position the score map keeps is, name by name, of smallest score and last in sorted order among equal scores |
| GaipBrdf.PreModisWrapsYear | gaip/brdf.py:443-446 | on 1 January the composite of day 353 is chosen over that of day 1, because the distance folds around the year end |
| GaipBrdf.BetterScoreWins | gaip/brdf.py:443-446 | of two composite day names, the one with the lower score for the scene is chosen |
| GaipBrdf.MaxOrdinalIsLastDate | gaip/brdf.py:392 | 9999-12-31 has the greatest ordinal, and no valid date goes past it |
| GaipBrdf.ModisNames | gaip/brdf.py:398 | the names kept are exactly the listed names matching the `YYYY.MM.DD` pattern |
| GaipBrdf.DirDate | gaip/brdf.py:390-392 | a date exactly when the name splits on dots into three integers forming a valid date; TypeError for the wrong number of fields, otherwise ValueError |
| GaipBrdf.Midpoint | gaip/brdf.py:388-392 | the directory's date plus eight days when that is representable; the date's exception otherwise, and OverflowError past 9999-12-31 |
| GaipBrdf.Distances | gaip/brdf.py:402 | the distance of every name's midpoint from the scene, in order; otherwise the exception of the first name whose midpoint fails |
| GaipBrdf.ModisDirs | gaip/brdf.py:398 | a sorted selection holding exactly the matching names; empty exactly when no name matches |
| GaipBrdf.GetBrdfDirsModis | gaip/brdf.py:362-410 | a date exception exactly when some kept name has no midpoint, IndexError exactly when no name matches, BRDFLookupError exactly when the scene precedes the first kept date; otherwise the kept name whose midpoint is nearest the scene, the later one on a tie |
| GaipBrdf.ModisPick | gaip/brdf.py:402-408 | the position the distance map keeps names the nearest midpoint, last in sorted order among equally near ones |
| GaipBrdf.UseJuppLi | gaip/brdf.py:503-513 | the Jupp-Li archive is used when the primary listing is empty, or when the scene falls before its first or after its last directory date; those names' date exceptions propagate |
| GaipBrdf.PrimaryCoversRange | gaip/brdf.py:505-511 | a scene between the first and the last primary date stays with the primary archive |
| GaipBrdf.FindFile | gaip/brdf.py:486-491 | the first file naming both the wavelength and the parameter; None exactly when no file names both |
| GaipBrdf.HdfOf | gaip/brdf.py:530-532 | exactly the folder's names ending in `.hdf` or `.hdf.gz` |
| GaipBrdf.HdfFiles | gaip/brdf.py:526-532 | exactly the HDF names of all visited folders |
| GaipBrdf.Corners | gaip/brdf.py:120-128 | the bounds of the polygon on two corners: the box holding both, whose edges are the corners' coordinates |
| GaipBrdf.Intersection | gaip/brdf.py:130-146 | the common part of two boxes, holding exactly the points in both; None exactly when they share no point |
| GaipBrdf.OpenFile | gaip/brdf.py:76-147 | BRDFLoaderError for a missing corner or file, IndexError when the data is empty or has fewer than two latitude or longitude centres; otherwise the file's data with a region of interest that is the common part of the request and the data extent |
| GaipBrdf.CeilIndex | gaip/brdf.py:268-278 | the least integer at or above the quotient; a zero step is ValueError for 0/0 and OverflowError otherwise |
| GaipBrdf.Slice | gaip/brdf.py:281 | Python slicing on an axis: exactly the indices from start below stop, counting a negative stop from the end |
| GaipBrdf.Window | gaip/brdf.py:268-281 | fails exactly when a grid step is zero; otherwise rows and columns inside the data |
| GaipBrdf.Keep | gaip/brdf.py:280-282 | exactly the row's values other than the fill value |
| GaipBrdf.Selected | gaip/brdf.py:280-282 | exactly the window's values other than the fill value |
| GaipBrdf.MeanBetween | gaip/brdf.py:284-288 | a mean lies between the least and the greatest value averaged |
| GaipBrdf.WindowValues | gaip/brdf.py:268-282 | the values averaged are those of the computed window, fill values removed |
| GaipBrdf.WindowMean | gaip/brdf.py:258-310 | fails exactly when a grid step is zero; otherwise the scaled and offset mean of the window's values, an empty window counting as mean 0 |
| GaipBrdf.WindowMeanBetween | gaip/brdf.py:284-290 | with a non-negative scale the result lies between the scaled bounds of the values averaged |
| GaipBrdf.WindowMeanUniform | gaip/brdf.py:258-310 | a raster of one value other than the fill value, read through a non-empty window, gives that value scaled and offset |
| GaipBrdf.GetMeanOf | gaip/brdf.py:346-359 | 0.0 when every value is the fill value; otherwise the scaled and offset mean of the other values |
| GaipBrdf.KeepNothing | gaip/brdf.py:280-282 | without fill values in a row, masking keeps the row unchanged |
| GaipBrdf.GetMeanVersusMeanDataValue | gaip/brdf.py:346-350 | `get_mean` agrees with `mean_data_value` on the window's values when some are valid; on a window of fill values only, `mean_data_value` gives the scaled offset and `get_mean` gives 0.0 |
| GaipBrdf.BrdfLoader.constructor | gaip/brdf.py:86-111 | the filename and the requested corners are set, no data is loaded, and the metadata holds the defaults |
| GaipBrdf.BrdfLoader.Load | gaip/brdf.py:149-210 | BRDFLoaderError for a missing file and IndexError when a subdataset has no first cell to read; otherwise the three subdatasets are loaded, the file's metadata replaces the defaults when present, and the name and region are unchanged |
| GaipBrdf.BrdfLoader.Clip | gaip/brdf.py:117-147 | IndexError without two centres on each axis; BRDFLoaderError, not intersecting, when the region and the data extent share no point; otherwise the region becomes their common part and the loader intersects; the data is unchanged |
| GaipBrdf.BrdfLoader.Open | gaip/brdf.py:76-147 | fails exactly as `OpenFile` does; otherwise a new, intersecting loader whose state is the one `OpenFile` gives |
| GaipBrdf.BrdfLoader.MeanDataValue | gaip/brdf.py:258-310 | fails exactly when a grid step is zero; otherwise the scaled and offset mean of the window's values |
| GaipBrdf.BrdfLoader.GetMean | gaip/brdf.py:346-359 | 0.0 when every value is the fill value, with this loader's metadata |
| GaipBrdf.SelectDir | gaip/brdf.py:503-524 | the pre-MODIS choice within the secondary archive when Jupp-Li is used, the MODIS choice within the primary archive otherwise, joined to the archive path; each choice's exception propagates |
| GaipBrdf.ReadMean | gaip/brdf.py:556-566 | a mean only for a file that opens over the acquisition's corners; BRDFLoaderError for a missing file |
| GaipBrdf.ParameterMean | gaip/brdf.py:536-576 | TypeError when no file names the parameter or nothing was walked; otherwise an entry for the parameter holding the joined file path and that file's mean |
| GaipBrdf.Collect | gaip/brdf.py:534-576 | a map holding exactly the parameters looped over, each with its own entry; otherwise the failure of the first parameter that fails |
| GaipBrdf.CollectAll | gaip/brdf.py:535 | a completed loop has an entry for iso, vol and geo |
| GaipBrdf.Entries | gaip/brdf.py:534-576 | the completed loop's keys are iso, vol and geo |
| GaipBrdf.NoBrdfOverride | gaip/brdf.py:578-583 | all-zero entries become the isotropic (1, 0, 0) BRDF, any other map is unchanged; some entry is then non-zero |
| GaipBrdf.FromSource | gaip/brdf.py:534-583 | a result has the three parameters and at least one non-zero value |
| GaipBrdf.BrdfData | gaip/brdf.py:455-590 | a result has the three parameters and at least one non-zero value; a failure to choose the directory is the result |
| GaipBrdf.CollectStops | gaip/brdf.py:535-576 | once a parameter has failed, the remaining parameters do not change the outcome |
| GaipBrdf.CollectStep | gaip/brdf.py:535-576 | a successful pass adds that parameter's entry to the map |
| GaipBrdf.CollectFails | gaip/brdf.py:535-576 | a failing pass after successful ones is the loop's outcome |
| GaipBrdf.MeansOrIsotropic | gaip/brdf.py:534-583 | a result means every parameter was read; it is the isotropic BRDF when all three means are zero and the files' means otherwise |
| GaipBrdf.WalkHdfs | gaip/brdf.py:525-532 | the walk loop collects every HDF name and leaves the last visited folder |
| GaipBrdf.ReadParameters | gaip/brdf.py:534-583 | the parameter loop with a loader per file gives the outcome `FromSource` describes |
| GaipBrdf.GetBrdfData | gaip/brdf.py:455-590 | the step-by-step procedure gives the outcome `BrdfData` describes |
| GaipBrdf.ModisPattern | gaip/brdf.py:394-398 | a name the `YYYY.MM.DD` pattern matches: ten characters, digits around two separators; `ModisNames` and `ModisDirs` state the names it keeps |
| GaipBrdf.NoBrdf | gaip/brdf.py:578-583 | the all-zero test of the three means; `MeansOrIsotropic` states the replacement it triggers |
| Acquisition.Run | wagl/acquisition/__init__.py:42-44 | the letters `[a-zA-Z]+` match greedily: the run is all letters and stops before a non-letter |
| Acquisition.DigitEnd | wagl/acquisition/__init__.py:42-44 | when the optional `_` or `-` and a digit follow the letters, the match ends just after that digit, past the letters |
| Acquisition.FixNameWord | wagl/acquisition/__init__.py:37-44 | a word of letters, an optional separator and a digit becomes the upper-cased letters, `_` and the digit, and the rest is rewritten on its own |
| Acquisition.FixNameLandsat7 | wagl/acquisition/__init__.py:39 | `Landsat7` becomes `LANDSAT_7`, as the docstring says |
| Acquisition.FixNameLandsat8 | wagl/acquisition/__init__.py:39 | `LANDSAT8` becomes `LANDSAT_8`, as the docstring says |
| Acquisition.FixNameLandsatDash5 | wagl/acquisition/__init__.py:40 | `Landsat-5` becomes `LANDSAT_5`, as the docstring says |
| Acquisition.FixNameFirst | wagl/acquisition/__init__.py:42-44 | the rewritten name starts with a digit exactly when the name does |
| Acquisition.FixNameCons | wagl/acquisition/__init__.py:42-44 | a leading non-letter is copied and the rest rewritten |
| Acquisition.FixNameIdempotent | wagl/acquisition/__init__.py:37-44 | rewriting a rewritten platform name leaves it unchanged |
| Acquisition.LastIndexOf | wagl/acquisition/__init__.py:65 | the last position holding the character, -1 when there is none |
| Acquisition.SplitExt | wagl/acquisition/__init__.py:65 | the path cut in two: a root and an extension that is empty or a dot followed by no dot or slash |
| Acquisition.SplitExtExamples | wagl/acquisition/__init__.py:65 | a `.zip` archive is recognised by its extension, and a hidden file named `.zip` has none |
| Acquisition.Acquisitions | wagl/acquisition/__init__.py:58-73 | the directory loader for the `s2_directory` hint, the SAFE loader for a `.zip`, otherwise the MTL loader, whose OSError is raised again naming the path |
| Acquisition.GetFound | wagl/acquisition/__init__.py:145 | a dictionary lookup finds a key exactly when some entry has it, with that entry's value |
| Acquisition.BandName | wagl/acquisition/__init__.py:163-172 | a supported band takes its popped `band_name` (KeyError without one); any other band its id |
| Acquisition.BandFiles | wagl/acquisition/__init__.py:93-95 | exactly the metadata keys containing both `band` and `file_name` |
| Acquisition.BandId | wagl/acquisition/__init__.py:139-142 | the id has no leading or trailing underscore |
| Acquisition.Bands | wagl/acquisition/__init__.py:96 | one band per band-file key, in order, with `file_name` removed and underscores stripped |
| Acquisition.KeptMembers | wagl/acquisition/__init__.py:128-136 | the bands kept are exactly the bands other than `band_quality` |
| Acquisition.KeptSplit | wagl/acquisition/__init__.py:134-136 | skipping the quality band distributes over concatenation |
| Acquisition.KeptStep | wagl/acquisition/__init__.py:134-136 | one more band adds it unless it is the quality band |
| Acquisition.MtlBandsFail | wagl/acquisition/__init__.py:134-174 | once a band fails, the remaining bands do not change the loop's outcome |
| Acquisition.AcqTypeOf | wagl/acquisition/__init__.py:118-121 | the registered class exactly when `PLATFORM_SENSOR` is registered, the Landsat default otherwise |
| Acquisition.SensorConfigs | wagl/acquisition/__init__.py:131 | KeyError exactly when the platform or the sensor is not in the sensor table |
| Acquisition.ViaMtl | wagl/acquisition/__init__.py:76-178 | KeyError when the dates cannot be read; on success the platform is the rewritten spacecraft name, ETM is spelled ETM+, and there is one band per kept band file, in order, with its derived id and its metadata readable |
| Acquisition.AcquisitionsViaMtl | wagl/acquisition/__init__.py:106-174 | with Python's eager `dict.get` defaults, the band loop gives the outcome `ViaMtl` describes |
| Acquisition.MtlBandNaming | wagl/acquisition/__init__.py:138-174 | a band whose metadata cannot be read is a KeyError; otherwise it takes its derived id, an unconfigured or unsupported band is named by its id, a supported band by its configured name, and KeyError when that name is missing |
| Acquisition.KeySet | wagl/acquisition/__init__.py:102 | exactly the PRODUCT_METADATA keys |
| Acquisition.OldStyleDatesRaise | wagl/acquisition/__init__.py:106-107 | metadata with only the old date spellings is a KeyError as written, while the lazy lookups read both dates |
| Acquisition.OldStyleBandRaises | wagl/acquisition/__init__.py:148-159 | a band with only old-style metadata keys is a KeyError as written, while the lazy lookups read all five of its values |
| Acquisition.LazyExtendsEager | wagl/acquisition/__init__.py:106-159 | whatever the eager reader accepts, the lazy reader accepts too and builds the same product |
| Acquisition.OldStyleReadLazily | wagl/acquisition/__init__.py:106-159 | with dates and every kept band's metadata in the old spelling, the lazy reader reads every value |
| Acquisition.InGroup | wagl/acquisition/__init__.py:294-296 | a group holds no more bands than were placed |
| Acquisition.InGroupMembers | wagl/acquisition/__init__.py:294-296 | a band is in a group exactly when it was placed there |
| Acquisition.Distribute | wagl/acquisition/__init__.py:264 | the groups are exactly R10m, R20m and R60m |
| Acquisition.InGroupStep | wagl/acquisition/__init__.py:294-296 | placing a band appends it to its own group only |
| Acquisition.DistributeStep | wagl/acquisition/__init__.py:275-296 | a skipped band changes no group; a placed band is appended to its group, the others unchanged |
| Acquisition.GroupOf | wagl/acquisition/__init__.py:278-283 | the first group listing the name; None exactly when no group lists it |
| Acquisition.FindGroup | wagl/acquisition/__init__.py:278-283 | the loop with `break` and `else: continue` finds the group `GroupOf` describes |
| Acquisition.S2Name | wagl/acquisition/__init__.py:267-271 | the image name is at least as long as the band id |
| Acquisition.S2NameExamples | wagl/acquisition/__init__.py:267-271 | band `1` is image `B01`, `8A` is `B8A`, and `TCI` is unchanged |
| Acquisition.S2BandMeaning | wagl/acquisition/__init__.py:266-296 | with the items of the configuration copied, a band is placed exactly when its image exists and a group lists it, in that group under its id, and a supported band under its configured name |
| Acquisition.UnpackKeys | wagl/acquisition/__init__.py:285 | iterating a dict as pairs succeeds exactly when every key has two characters, and each pair becomes a one-character key; otherwise ValueError |
| Acquisition.ShortKeysUnsupported | wagl/acquisition/__init__.py:285-286 | no copied one-character key is `supported_band` |
| Acquisition.S2AsWrittenIgnoresConfig | wagl/acquisition/__init__.py:285-290 | as written a placed band never takes its configured name, and a configuration with any key not of two characters is a ValueError |
| Acquisition.S2DictIterationExample | wagl/acquisition/__init__.py:285-290 | a supported blue band with an image is a ValueError as written, and placed in R10m under its configured name with `.items()` |
| Acquisition.S2NameB02 | wagl/acquisition/__init__.py:268-269 | band `2` is image `B02` |
| Acquisition.S2Directory | wagl/acquisition/__init__.py:264-301 | the groups are exactly R10m, R20m and R60m |
| Acquisition.S2DirectoryMeaning | wagl/acquisition/__init__.py:266-296 | each group holds exactly the bands whose configuration is placed there; an error is that of the first configuration that fails |
| Acquisition.S2Entry | wagl/acquisition/__init__.py:267-296 | the loop body for one configuration gives the band or skip `S2Band` describes |
| Acquisition.AcquisitionsS2Directory | wagl/acquisition/__init__.py:264-296 | the band loop gives the groups `S2Directory` describes |
| Acquisition.StripB | wagl/acquisition/__init__.py:330 | every `B` is removed, and a name without `B` is unchanged |
| Acquisition.StripBExamples | wagl/acquisition/__init__.py:330 | image `B01` is band `1`, `B10` is `10`, `B8A` is `8A`, and `TCI` is unchanged |
| Acquisition.FirstIn | wagl/acquisition/__init__.py:328-331 | the first item the file name contains; None exactly when it contains none |
| Acquisition.FirstItem | wagl/acquisition/__init__.py:327-332 | the first item in group order and then item order that the file name contains, with its group |
| Acquisition.GroupHelperMeaning | wagl/acquisition/__init__.py:322-332 | a group and a band id together exactly when some item is in the file name; the id is that item without `B` |
| Acquisition.FindGroupItem | wagl/acquisition/__init__.py:327-332 | the nested loops returning at the first match give `GroupHelper`'s result |
| Acquisition.SafeGroupHelper | wagl/acquisition/__init__.py:327-333 | on the SAFE groups a resolution group and a band id are found together, and neither when no item is in the file name |
| Acquisition.SafeImageMeaning | wagl/acquisition/__init__.py:428-451 | a loaded image is placed in a resolution group under a configured id with no `B`: a supported band by its configured name and with an irradiance, any other band by its id; a name holding no group item is an AttributeError |
| Acquisition.ImageFiles | wagl/acquisition/__init__.py:428-430 | one image path per image, in order |
| Acquisition.SafeGranule | wagl/acquisition/__init__.py:405-453 | the groups are exactly R10m, R20m and R60m |
| Acquisition.SafeGranuleMeaning | wagl/acquisition/__init__.py:404-453 | each group holds exactly the images placed there, together all images; an error is that of the first image that fails |
| Acquisition.PlacedCount | wagl/acquisition/__init__.py:449-453 | when every band is placed in a resolution group, the groups together hold as many bands as were placed |
| Acquisition.AcquisitionsSafeGranule | wagl/acquisition/__init__.py:428-451 | the image loop gives the groups `SafeGranule` describes |
| Acquisition.SafeEntry | wagl/acquisition/__init__.py:429-451 | the loop body for one image gives the result `SafeImage` describes |
| Acquisition.SafeSatellite | wagl/acquisition/__init__.py:356-360 | Sentinel-2A exactly when the file name starts with `S2A`, otherwise Sentinel-2B |
| Acquisition.FixName | wagl/acquisition/__init__.py:37-44 | `fixname`, the regular-expression rewrite of a platform name; what it does is stated by `FixNameWord`, `FixNameFirst`, `FixNameCons`, `FixNameIdempotent` and the three docstring examples |
| Acquisition.SensorName | wagl/acquisition/__init__.py:114-115 | the sensor id is never left as `ETM`; it is `ETM+` exactly when the id was `ETM` or already `ETM+` |
| Acquisition.MtlBand | wagl/acquisition/__init__.py:133-172 | a band whose metadata keys cannot be read is a KeyError; a band it builds had its keys read and carries the id derived from the band's name |
| Acquisition.S2Band | wagl/acquisition/__init__.py:267-296 | one configured band of a granule directory, with the attributes copied as intended; `S2BandMeaning` states when it is placed and under which name |
| Acquisition.S2BandAsWritten | wagl/acquisition/__init__.py:285-291 | the same band with the attributes copied by `{k: v for k, v in d}` as written; `S2AsWrittenIgnoresConfig` and the Findings row state what that changes |
| Acquisition.GroupHelper | wagl/acquisition/__init__.py:322-333 | `group_helper`, the first group item found in the file name; `GroupHelperMeaning` and `SafeGroupHelper` state its result |
| Acquisition.SafeImage | wagl/acquisition/__init__.py:428-451 | one image of a SAFE granule, with the `AttributeError` and `KeyError` cases; `SafeImageMeaning` states when and where it is placed |
| Fmask.VisibleNames | image_processor/pqa/calc_pqa_masks/fmask_cloud_masking.py:399 | exactly the listed names not starting with `.` |
| Fmask.FirstIndex | image_processor/pqa/calc_pqa_masks/fmask_cloud_masking.py:399-401 | the first position whose name matches, and no earlier one does; None exactly when none matches |
| Fmask.MatchFileMeaning | image_processor/pqa/calc_pqa_masks/fmask_cloud_masking.py:396-411 | a file is found exactly when some visible name matches, and it is the matching visible name that sorts first, joined to the directory |
| Fmask.FindFile | image_processor/pqa/calc_pqa_masks/fmask_cloud_masking.py:399-411 | the loop over the sorted visible names gives the match `MatchFile` describes |
| Fmask.ParseLineMeaning | image_processor/pqa/calc_pqa_masks/fmask_cloud_masking.py:525-530 | a line gives an entry exactly when it holds one `" = "`; the key and the value are the two sides, stripped, and the value loses its quotes |
| Fmask.HeaderKeys | image_processor/pqa/calc_pqa_masks/fmask_cloud_masking.py:522-530 | a key is in the header exactly when some line gives it |
| Fmask.HeaderLastWins | image_processor/pqa/calc_pqa_masks/fmask_cloud_masking.py:525-530 | the value of a key is that of the last line giving it |
| Fmask.ReadHeader | image_processor/pqa/calc_pqa_masks/fmask_cloud_masking.py:522-530 | the loop over the lines builds the map `Header` describes |
| Fmask.Lookup | image_processor/pqa/calc_pqa_masks/fmask_cloud_masking.py:535 | the stored value exactly when the key is present, a KeyError naming the key otherwise |
| Fmask.IntValue | image_processor/pqa/calc_pqa_masks/fmask_cloud_masking.py:611-617 | a number exactly when the text is a non-empty run of decimal digits, ValueError otherwise |
| Fmask.LandsatNumber | image_processor/pqa/calc_pqa_masks/fmask_cloud_masking.py:535-536 | the Landsat number is the value of the id's last character when it is a digit; an empty id is an IndexError |
| Fmask.BandKeys | image_processor/pqa/calc_pqa_masks/fmask_cloud_masking.py:538-608 | the seven keys of one calibration value, the sixth naming `BAND61` on Landsat 7 and `BAND6` otherwise |
| Fmask.BandValues | image_processor/pqa/calc_pqa_masks/fmask_cloud_masking.py:538-550 | seven values, each the conversion of its band key's text |
| Fmask.DayOfYear | image_processor/pqa/calc_pqa_masks/fmask_cloud_masking.py:635-640 | a day of year between 1 and 365, ValueError otherwise |
| Fmask.LeapDayRejected | image_processor/pqa/calc_pqa_masks/fmask_cloud_masking.py:636-640 | day 366 of a leap year is rejected, however the period text goes on |
| Fmask.ReadCalibration | image_processor/pqa/calc_pqa_masks/fmask_cloud_masking.py:538-608 | seven values each of LMAX, LMIN, QCALMAX and QCALMIN, the thermal one read under the Landsat number's key |
| Fmask.ReadView | image_processor/pqa/calc_pqa_masks/fmask_cloud_masking.py:627-629 | the azimuth as given and the zenith as 90 degrees less the sun's elevation |
| Fmask.ReadScene | image_processor/pqa/calc_pqa_masks/fmask_cloud_masking.py:534-657 | a scene with a day of year in range, its Landsat number, calibration and view as read from the header; KeyError without a spacecraft id |
| Fmask.LndHdrRead | image_processor/pqa/calc_pqa_masks/fmask_cloud_masking.py:493-657 | reading the file's lines gives the scene `ReadScene` describes on their header |
| Fmask.CornerShiftInverse | image_processor/pqa/calc_pqa_masks/fmask_cloud_masking.py:689 | the corner moves half a 30 m pixel west and north, which moving back undoes |
| Fmask.ThermalToken | image_processor/pqa/calc_pqa_masks/fmask_cloud_masking.py:693-696 | the thermal file is found by `B61` on Landsat 7 and `B6` otherwise, the band the header reads |
| Fmask.ThermalConstants | image_processor/pqa/calc_pqa_masks/fmask_cloud_masking.py:707-722 | constants exactly for Landsat 4, 5 and 7, with 0 < K1 < K2 |
| Fmask.RadianceCalibration | image_processor/pqa/calc_pqa_masks/fmask_cloud_masking.py:776-811 | the calibration maps QCALMIN to LMIN and QCALMAX to LMAX, and a brighter pixel never gets less radiance |
| Fmask.Missing | image_processor/pqa/calc_pqa_masks/fmask_cloud_masking.py:772-775 | a pixel is missing exactly when some band is zero there |
| Fmask.MaskedMeaning | image_processor/pqa/calc_pqa_masks/fmask_cloud_masking.py:897-903 | masking keeps every present pixel, fills every missing one, and a second masking changes nothing |
| Fmask.MaskBand | image_processor/pqa/calc_pqa_masks/fmask_cloud_masking.py:897 | the band's new contents are the old ones with missing pixels set to -9999 |
| Fmask.MaskBands | image_processor/pqa/calc_pqa_masks/fmask_cloud_masking.py:897-903 | every band's new contents are its old ones with missing pixels set to -9999 |
| Fmask.PixelClass | image_processor/pqa/calc_pqa_masks/fmask_cloud_masking.py:1665-1673 | each class exactly under its condition: outside the boundary above all, then cloud, shadow, snow, water, clear |
| Fmask.Assigned | image_processor/pqa/calc_pqa_masks/fmask_cloud_masking.py:1665-1673 | the masked assignment writes the value exactly where the condition holds and keeps the rest |
| Fmask.Blank | image_processor/pqa/calc_pqa_masks/fmask_cloud_masking.py:1344-1353 | a layer of zeros of the given size |
| Fmask.MaskedAssign | image_processor/pqa/calc_pqa_masks/fmask_cloud_masking.py:1665-1673 | the array's new contents are `Assigned` of the old ones |
| Fmask.Indicator | image_processor/pqa/calc_pqa_masks/fmask_cloud_masking.py:1356-1360 | 1 exactly where the condition holds, 0 elsewhere |
| Fmask.LayeredIsPriority | image_processor/pqa/calc_pqa_masks/fmask_cloud_masking.py:1665-1673 | writing the layers one over the other gives, pixel by pixel, the class `PixelClass` chooses |
| Fmask.TotalBounds | image_processor/pqa/calc_pqa_masks/fmask_cloud_masking.py:1364 | a 0/1 layer set only where a larger one is counts no more pixels than it, and no more than its length |
| Fmask.CloudShare | image_processor/pqa/calc_pqa_masks/fmask_cloud_masking.py:1364-1372 | potential cloud lies inside the boundary, so its share is a fraction, and an all-cloud scene skips the match |
| Fmask.SkipLayers | image_processor/pqa/calc_pqa_masks/fmask_cloud_masking.py:1372-1375 | with the comparison intended, layers the size of the scene: the potential cloud as cloud and the rest as shadow |
| Fmask.SkipLayersAsWritten | image_processor/pqa/calc_pqa_masks/fmask_cloud_masking.py:1374-1375 | the as-written layers have the size of the scene |
| Fmask.SkippedIsCloudOrShadow | image_processor/pqa/calc_pqa_masks/fmask_cloud_masking.py:1372-1375 | without shadow matching, every pixel inside the boundary is cloud where potential cloud was found and shadow elsewhere |
| Fmask.SkippedAsWrittenHasNoCloud | image_processor/pqa/calc_pqa_masks/fmask_cloud_masking.py:1374-1375 | as written, a scene without shadow matching has no cloud and no shadow pixel |
| Fmask.OvercastPixel | image_processor/pqa/calc_pqa_masks/fmask_cloud_masking.py:1372-1375 | a one-pixel all-cloud scene comes out clear as written and cloud as intended |
| Fmask.Zeros | image_processor/pqa/calc_pqa_masks/fmask_cloud_masking.py:1344-1353 | a fresh layer of zeros |
| Fmask.PotentialLayers | image_processor/pqa/calc_pqa_masks/fmask_cloud_masking.py:1359-1360 | the boundary layer marks pixels below 255 and the cloud layer pixels equal to 1 |
| Fmask.SkippedLayers | image_processor/pqa/calc_pqa_masks/fmask_cloud_masking.py:1372-1375 | fresh cloud and shadow layers as `SkipLayers` gives them |
| Fmask.FinalMask | image_processor/pqa/calc_pqa_masks/fmask_cloud_masking.py:1665-1673 | a fresh mask with the layers written in order, as `Layered` gives it |
| Fmask.CloudShadowSnow | image_processor/pqa/calc_pqa_masks/fmask_cloud_masking.py:1343-1673 | the skip decision is `SkipMatch`, and the final mask is `Classes` |
| Fmask.MatchFile | image_processor/pqa/calc_pqa_masks/fmask_cloud_masking.py:396-411 | `match_file`; `MatchFileMeaning` states that it finds the least visible matching name |
| Fmask.ParseLine | image_processor/pqa/calc_pqa_masks/fmask_cloud_masking.py:525-530 | one header line; `ParseLineMeaning` states when it gives an entry and what the entry is |
| Fmask.Header | image_processor/pqa/calc_pqa_masks/fmask_cloud_masking.py:522-530 | the header's entries; `HeaderKeys` and `HeaderLastWins` state which keys it holds and that the last line wins |
| Fmask.ThermalBand | image_processor/pqa/calc_pqa_masks/fmask_cloud_masking.py:544-597 | the suffix of the thermal band's keys, `61` on Landsat 7; `BandKeys` states the keys it gives |
| Fmask.Radiance | image_processor/pqa/calc_pqa_masks/fmask_cloud_masking.py:776-811 | no radiance exactly when the calibration range is empty; `RadianceCalibration` states the line through the limits |
| Fmask.Layered | image_processor/pqa/calc_pqa_masks/fmask_cloud_masking.py:1665-1673 | the final mask has one class per pixel; `LayeredIsPriority` states that each is the class of highest priority |
| Fmask.SkipMatch | image_processor/pqa/calc_pqa_masks/fmask_cloud_masking.py:1364-1372 | the skip test of shadow matching; `CloudShare` states what it sees |
| Fmask.Classes | image_processor/pqa/calc_pqa_masks/fmask_cloud_masking.py:1343-1673 | the final mask with the skip intended, one class per pixel; `SkippedIsCloudOrShadow` and `OvercastPixel` state its values |
| Fmask.ClassesAsWritten | image_processor/pqa/calc_pqa_masks/fmask_cloud_masking.py:1374-1375 | the final mask as written, one class per pixel; `SkippedAsWrittenHasNoCloud` and `OvercastPixel` state its values |
| PosixPath.Kept | tesp/scripts/ard_pbs.py:135 | every piece kept is neither empty nor `.`, and comes from the pieces given |
| PosixPath.KeptConcat | tesp/scripts/ard_pbs.py:135 | keeping the pieces of two lists in a row is keeping those of each |
| PosixPath.KeptAll | tesp/scripts/ard_pbs.py:135 | pieces that are all parts are kept as they are |
| PosixPath.Parts | tesp/scripts/ard_pbs.py:135 | every part of a path is non-empty, not `.` and free of `/` |
| PosixPath.AsPosixNormal | tesp/scripts/ard_pbs.py:135 | the written-back path has the same root and parts as the path, so writing back is idempotent |
| PosixPath.SamePath | tesp/scripts/ard_pbs.py:147 | two paths are equal exactly when their roots and their parts are |
| PosixPath.JoinHead | tesp/scripts/ard_pbs.py:135 | parts joined with `/` start with the first part's first character, never `/` |
| PosixPath.RootOfJoin | tesp/scripts/ard_pbs.py:135 | writing a root before joined parts keeps that root |
| PosixPath.PartsOfJoin | tesp/scripts/ard_pbs.py:135 | writing a root before joined parts keeps those parts |
| PosixPath.PartsOfJoined | tesp/scripts/ard_pbs.py:135 | parts joined with `/` parse back into the same parts |
| PosixPath.PartsAfterSlash | tesp/scripts/ard_pbs.py:135 | a leading `/` adds no part |
| PosixPath.PartsAfterDoubleSlash | tesp/scripts/ard_pbs.py:135 | a leading `//` adds no part |
| PosixPath.PartsJoin | tesp/scripts/ard_pbs.py:135 | the parts of `x/y` are those of `x` followed by those of `y` |
| PosixPath.PartsOfWord | tesp/scripts/ard_pbs.py:135 | a string without `/` is its own only part, unless it is empty or `.`, which have none |
| PosixPath.RootedSplit | tesp/scripts/ard_pbs.py:135-139 | a rooted path with parts, written back, splits on `/` into the empty piece and its parts |
| PosixPath.SplitAfterSlash | tesp/scripts/ard_pbs.py:137-139 | splitting `/x` on `/` gives the empty piece and the pieces of `x` |
| PosixPath.SlashPrefix | tesp/scripts/ard_pbs.py:136-138 | `p/x` starts with `w/y`, for `p` and `w` free of `/`, exactly when `p` is `w` and `x` starts with `y` |
| PosixPath.WordPrefix | tesp/scripts/ard_pbs.py:136 | joined parts start with a string free of `/` exactly when the first part does |
| PosixPath.JoinPrefix | tesp/scripts/ard_pbs.py:136-138 | joined parts start with `w/t` exactly when the first part is `w` and the second starts with `t` |
| PosixPath.PosixPrefix | tesp/scripts/ard_pbs.py:135-138 | a written-back path starts with `/w/t` exactly when it is rooted at `/`, its first part is `w` and its second starts with `t` |
| PosixPath.SlashThenPrefix | tesp/scripts/ard_pbs.py:136-138 | `/a` starts with `/b` exactly when `a` starts with `b` |
| ArdPbs.WalltimeHoursAsWritten | tesp/scripts/ard_pbs.py:110 | as written the hours are read exactly when the walltime splits into three integer fields, and are the first; ValueError otherwise |
| ArdPbs.WalltimeHours | tesp/scripts/ard_pbs.py:102-110 | the hours of a walltime of two or three integer fields, the first field; ValueError otherwise |
| ArdPbs.NodesFor | tesp/scripts/ard_pbs.py:111 | ZeroDivisionError exactly when hours or workers are zero |
| ArdPbs.CalcNodesReqAsWritten | tesp/scripts/ard_pbs.py:102-111 | as written a walltime not of three integer fields is a ValueError; otherwise the node count for its hours |
| ArdPbs.CalcNodesReq | tesp/scripts/ard_pbs.py:102-111 | reading either walltime form, a bad walltime is a ValueError; otherwise the node count for its hours |
| ArdPbs.NodesCoverGranules | tesp/scripts/ard_pbs.py:111 | the node count is the least whose node-hours cover the granules' estimated processing time |
| ArdPbs.CalcNodesReqAgrees | tesp/scripts/ard_pbs.py:110-111 | walltimes of three fields are read the same way by both versions |
| ArdPbs.NoColon | tesp/scripts/ard_pbs.py:110 | an integer field holds no `:` |
| ArdPbs.TwoDigits | tesp/scripts/ard_pbs.py:110 | a two-digit field is read as its number |
| ArdPbs.HourMinute | tesp/scripts/ard_pbs.py:105-110 | `HH:MM` is a ValueError as written, and HH hours when read as intended |
| ArdPbs.HourMinuteSecond | tesp/scripts/ard_pbs.py:110 | `HH:MM:SS` is read as HH hours by both versions |
| ArdPbs.ExampleWalltimes | tesp/scripts/ard_pbs.py:105-108 | the docstring's walltimes `20:59` and `20:00` are a ValueError as written, and 20 hours as intended |
| ArdPbs.CalcNodesReqExamples | tesp/scripts/ard_pbs.py:105-108 | the docstring's examples are a ValueError as written; as intended they give the documented 2 and 3 nodes |
| ArdPbs.NodesToRequest | tesp/scripts/ard_pbs.py:484-485 | a given node count is used as it is; `--nodes 0` computes it with `_calc_nodes_req` as written, so a walltime of two fields stops the submission with ValueError |
| ArdPbs.NodesToRequestIntended | tesp/scripts/ard_pbs.py:484-485 | the same dispatch over the corrected node count, which reads a walltime of two or three fields |
| ArdPbs.ShortWalltimeStopsSubmission | tesp/scripts/ard_pbs.py:484-485 | with `--nodes 0` and an `HH:MM` walltime, submission raises ValueError as written and succeeds as intended; a given node count is used either way |
| ArdPbs.TwentyHours | tesp/scripts/ard_pbs.py:105-110 | `20:MM` is a ValueError as written and 20 hours as intended |
| ArdPbs.DefaultWalltime | tesp/scripts/ard_pbs.py:432-434 | the default walltime `48:00:00` is 48 hours |
| ArdPbs.DefaultWalltimeNodes | tesp/scripts/ard_pbs.py:484-485 | with the default walltime and some worker, the computed nodes cover one and a half hours per scene |
| ArdPbs.ImmediateProject | tesp/scripts/ard_pbs.py:134-141 | read from the written-back path; a project found is one of the path's own parts, and the only error is IndexError |
| ArdPbs.GdataPieces | tesp/scripts/ard_pbs.py:135-137 | a written-back path starting `/g/data` is rooted, has parts `g` and `data...`, and its `/`-pieces are the empty one and its parts |
| ArdPbs.ScratchPieces | tesp/scripts/ard_pbs.py:135-139 | a written-back path starting `/scratch/` is rooted, has the part `scratch` and one more, and its `/`-pieces are the empty one and its parts |
| ArdPbs.ImmediateProjectOfParts | tesp/scripts/ard_pbs.py:134-141 | in terms of the parsed path: under `/`, `g`, `data...` the third part or IndexError when there is none; under `/`, `scratch` the second part; otherwise no project, relative and `//`-rooted paths included |
| ArdPbs.RootedParts | tesp/scripts/ard_pbs.py:135 | a path with one leading `/` has root `/` and the parts of what follows it |
| ArdPbs.PartThen | tesp/scripts/ard_pbs.py:135 | the parts of `w/rest`, for a part `w`, are `w` followed by the parts of `rest` |
| ArdPbs.DataMount | tesp/scripts/ard_pbs.py:136 | `data<N>` is a part when the mount number holds no `/` |
| ArdPbs.GdataParts | tesp/scripts/ard_pbs.py:135-137 | `/g/data<N>/<more>` is rooted and its parts are `g`, `data<N>` and the parts of `<more>` |
| ArdPbs.GdataProject | tesp/scripts/ard_pbs.py:116-119 | a path under `/g/data<N>/<project>/` belongs to that project, whatever the mount number |
| ArdPbs.GdataDotProject | tesp/scripts/ard_pbs.py:135-137 | `/g/data<N>/./<project>/...` belongs to `<project>`: the `.` is dropped before the split |
| ArdPbs.GdataMountRaises | tesp/scripts/ard_pbs.py:136-137 | a `/g/data<N>` mount point with no project below it is an IndexError |
| ArdPbs.GdataTrailingSlashRaises | tesp/scripts/ard_pbs.py:135-137 | `/g/data<N>/` is an IndexError too: written back it loses its trailing `/` |
| ArdPbs.ScratchParts | tesp/scripts/ard_pbs.py:135-139 | `/scratch/<more>` is rooted and its parts are `scratch` and the parts of `<more>` |
| ArdPbs.ScratchProject | tesp/scripts/ard_pbs.py:120-121 | a path under `/scratch/<project>/` belongs to that project |
| ArdPbs.ScratchDoubleSlashProject | tesp/scripts/ard_pbs.py:135-139 | `/scratch//<project>/...` belongs to `<project>`: the empty piece is dropped before the split |
| ArdPbs.ScratchAlone | tesp/scripts/ard_pbs.py:135-141 | `/scratch` and `/scratch/` belong to no project: written back neither starts with `/scratch/` |
| ArdPbs.TmpPath | tesp/scripts/ard_pbs.py:122-123 | a path under `/tmp/` belongs to no project |
| ArdPbs.ProjectsForPath | tesp/scripts/ard_pbs.py:114-150 | exactly the projects of the path and of its resolved path; IndexError exactly when either cannot be read |
| ArdPbs.SamePhysicalPath | tesp/scripts/ard_pbs.py:146-148 | a resolved path written the same as the path adds nothing: the result is the path's own project |
| ArdPbs.ProjectsForPathExamples | tesp/scripts/ard_pbs.py:116-130 | a link on one `/g/data` project to a directory of another needs both projects, and a path under `/tmp/` needs none |
| ArdPbs.GatherConcat | tesp/scripts/ard_pbs.py:162-176 | gathering over two lists in a row is gathering over the first, then over the second from its result |
| ArdPbs.GatherMeaning | tesp/scripts/ard_pbs.py:162-176 | gathering succeeds exactly when every path's projects can be read, and then holds the start set and each of those projects, nothing else |
| ArdPbs.InputPaths | tesp/scripts/ard_pbs.py:172-173 | one stripped path per input line |
| ArdPbs.Somes | tesp/scripts/ard_pbs.py:175-176 | one present path per input path |
| ArdPbs.Candidates | tesp/scripts/ard_pbs.py:162-176 | the paths visited are the installed code, the other paths and the input lines, in that order |
| ArdPbs.AddOptionalPaths | tesp/scripts/ard_pbs.py:167-169 | the loop over the other paths, skipping None, gathers as `Gather` does |
| ArdPbs.AddPaths | tesp/scripts/ard_pbs.py:175-176 | the loop over the input paths gathers as `Gather` does |
| ArdPbs.FilesystemProjects | tesp/scripts/ard_pbs.py:153-180 | the procedure gives the outcome `FilesystemProjectsSpec` describes, and the result never holds None |
| ArdPbs.FilesystemProjectsMeaning | tesp/scripts/ard_pbs.py:153-180 | success exactly when every visited path's projects can be read; then exactly the projects some path needs |
| ArdPbs.StorageItems | tesp/scripts/ard_pbs.py:97 | two storage items per project |
| ArdPbs.StorageItemsAt | tesp/scripts/ard_pbs.py:97 | items 2k and 2k+1 are `scratch/P` and `gdata/P` of project k |
| ArdPbs.StorageJoin | tesp/scripts/ard_pbs.py:502 | joining the formatted entries with `+` is joining all the storage items with `+` |
| ArdPbs.StorageItemsPlusFree | tesp/scripts/ard_pbs.py:97 | projects without `+` give storage items without `+` |
| ArdPbs.StorageSplit | tesp/scripts/ard_pbs.py:502 | splitting the `storage=` value at `+` gives back `scratch/P` and `gdata/P` for each project, in order |
| ArdPbs.MatchJobId | tesp/scripts/ard_pbs.py:250-254 | a match is a job id, the whole output or the output less its final newline; a job id is always matched |
| ArdPbs.MatchQsubOutput | tesp/scripts/ard_pbs.py:250-254 | qsub's usual output, a job number, `.gadi-pbs` and a newline, gives the job id without the newline |
| ArdPbs.JobNumberDigits | tesp/scripts/ard_pbs.py:262 | the job number of a job id is its digits before `.gadi-pbs` |
| ArdPbs.JobIdDepsSplit | tesp/scripts/ard_pbs.py:262 | splitting the dependency list at `:` gives back each job's number, in order |
| ArdPbs.Visit | tesp/scripts/ard_pbs.py:162-176 | the projects one visited path adds; only a present path can fail, and only with IndexError |
| ArdPbs.Gather | tesp/scripts/ard_pbs.py:162-176 | the `fs_projects.update(...)` calls in turn; a successful result keeps every project it started from, and `GatherMeaning` states the rest |
| ArdPbs.FilesystemProjectsSpec | tesp/scripts/ard_pbs.py:153-180 | what `_filesystem_projects` computes; `FilesystemProjects` and `FilesystemProjectsMeaning` state its outcome |
| ArdPbs.Storage | tesp/scripts/ard_pbs.py:502 | the `storage=` value; `StorageJoin` and `StorageSplit` state that it lists `scratch/P` and `gdata/P` for each project, in order |
| ArdPbs.IsJobId | tesp/scripts/ard_pbs.py:250-254 | the job-id pattern, digits then `.gadi-pbs`; `MatchJobId` and `MatchQsubOutput` state what it accepts in qsub's output |
| ArdPbs.JobNumber | tesp/scripts/ard_pbs.py:262 | the job number holds no `.`; `JobNumberDigits` states that it is the digits of a job id |
| ArdPbs.JobIdDeps | tesp/scripts/ard_pbs.py:262 | the `depend=afterany:` list; `JobIdDepsSplit` states that it splits back into each job's number |
| AotConverter.UnsignedLittleEndian | wagl/scripts/aot_converter.py:25-36 | a number written as little-endian bytes reads back as itself |
| AotConverter.FromSigned | wagl/scripts/aot_converter.py:25-31 | the two's-complement pattern of a signed number reads back as that number |
| AotConverter.Words | wagl/scripts/aot_converter.py:25-36 | the requested count of numbers, each within its byte width |
| AotConverter.Read | wagl/scripts/aot_converter.py:25-36 | `np.fromfile` with a count: the numbers and the rest of the stream exactly when enough bytes remain; otherwise a short read |
| AotConverter.ReadEncoded | wagl/scripts/aot_converter.py:25-36 | reading back encoded numbers gives them and leaves what follows |
| AotConverter.WordsEncoded | wagl/scripts/aot_converter.py:25-36 | decoding encoded numbers gives them back |
| AotConverter.Unsigned16 | wagl/scripts/aot_converter.py:28-31 | the 16-bit patterns of int16 values read back as those values |
| AotConverter.Float32 | wagl/scripts/aot_converter.py:26-36 | a set sign bit never gives a positive number, a clear one never a negative number |
| AotConverter.DecodePixArrays | wagl/scripts/aot_converter.py:26-36 | arrays of the lengths the header gives, forming a well-shaped `.pix` file |
| AotConverter.DecodePix | wagl/scripts/aot_converter.py:24-37 | what is read is a well-shaped `.pix` file |
| AotConverter.PixRoundTrip | wagl/scripts/aot_converter.py:24-37 | reading a written `.pix` file gives back what was written, whatever follows |
| AotConverter.PixHeader | wagl/scripts/aot_converter.py:25 | the int32 header reads back as the three lengths |
| AotConverter.PixArraysRoundTrip | wagl/scripts/aot_converter.py:26-36 | the arrays after the header read back as written |
| AotConverter.DecodeCmp | wagl/scripts/aot_converter.py:71-76 | what is read is a well-shaped `.cmp` file |
| AotConverter.CmpArraysRoundTrip | wagl/scripts/aot_converter.py:74-76 | the longitude, latitude and aerosol arrays read back as written, one after the other |
| AotConverter.CmpRoundTrip | wagl/scripts/aot_converter.py:71-76 | reading a written `.cmp` file gives back what was written |
| AotConverter.PyIndex | wagl/scripts/aot_converter.py:39-40 | numpy indexing: a position exactly for indices from -len to len-1, a negative index counting from the end |
| AotConverter.Gridded | wagl/scripts/aot_converter.py:39-40 | the grid value at each index, exactly when every index is valid; IndexError otherwise |
| AotConverter.Timestamps | wagl/scripts/aot_converter.py:41-45 | the loop builds one timestamp per observation from its date and time columns, exactly when every column is a valid date and time |
| AotConverter.PixRecords | wagl/scripts/aot_converter.py:39-49 | one row per observation with its timestamp, grid longitude, grid latitude and aerosol; IndexError for an index off the grid, ValueError for a bad date or time |
| AotConverter.Copies | wagl/scripts/aot_converter.py:80-83 | a value copied the given number of times |
| AotConverter.Repeat | wagl/scripts/aot_converter.py:80-82 | the longitudes of all rows: the row repeated once per latitude |
| AotConverter.Stretch | wagl/scripts/aot_converter.py:80-83 | the latitudes of all cells: each latitude copied once per longitude |
| AotConverter.RepeatAt | wagl/scripts/aot_converter.py:80-82 | cell (j, i) of the repeated longitudes is longitude i |
| AotConverter.StretchAt | wagl/scripts/aot_converter.py:80-83 | cell (j, i) of the stretched latitudes is latitude j |
| AotConverter.CmpCoordinates | wagl/scripts/aot_converter.py:78-83 | the nested loop gives each cell, row by row, the longitude of its column and the latitude of its row |
| AotConverter.CmpRecords | wagl/scripts/aot_converter.py:78-85 | one row per grid cell |
| AotConverter.RepeatedFrom | wagl/scripts/aot_converter.py:80-82 | every repeated longitude is one of the longitudes |
| AotConverter.StretchedFrom | wagl/scripts/aot_converter.py:80-83 | every stretched latitude is one of the latitudes |
| AotConverter.CmpRecordAt | wagl/scripts/aot_converter.py:78-85 | cell (j, i) holds longitude i, latitude j and aerosol value j * nx + i |
| AotConverter.Filter | wagl/scripts/aot_converter.py:52-54 | exactly the rows whose aerosol lies in (0, 1], NaN excluded |
| AotConverter.FilterConcat | wagl/scripts/aot_converter.py:52-54 | filtering keeps the order of the rows |
| AotConverter.MinNum | wagl/scripts/aot_converter.py:57-60 | `Series.min()`: NaN exactly when every value is NaN; otherwise a value no greater than any other number |
| AotConverter.MaxNum | wagl/scripts/aot_converter.py:57-60 | `Series.max()`: NaN exactly when every value is NaN; otherwise a value no less than any other number |
| AotConverter.Lons | wagl/scripts/aot_converter.py:57-60 | one longitude per row |
| AotConverter.Lats | wagl/scripts/aot_converter.py:57-60 | one latitude per row |
| AotConverter.ExtentsHold | wagl/scripts/aot_converter.py:57-61 | the corners form an axis-aligned box that holds every row whose coordinates are numbers |
| AotConverter.ExtentsAttained | wagl/scripts/aot_converter.py:57-61 | each side of the box passes through a row, unless no row has a number there |
| AotConverter.Tabulate | wagl/scripts/aot_converter.py:51-61 | the table holds exactly the rows kept by the aerosol filter |
| AotConverter.ReadPixFile | wagl/scripts/aot_converter.py:19-63 | a written `.pix` file reads as its filtered rows exactly when its rows can be built |
| AotConverter.ReadCmpFile | wagl/scripts/aot_converter.py:66-99 | a written `.cmp` file always reads, as its filtered grid cells |
| AotConverter.BaseName | wagl/scripts/aot_converter.py:119 | what follows the last `/`, a suffix of the path without `/` |
| AotConverter.PosixJoin | wagl/scripts/aot_converter.py:120 | an absolute second part replaces the first; otherwise the parts are joined by `/` |
| AotConverter.OutNameOfListed | wagl/scripts/aot_converter.py:112-120 | a file the `*.pix` or `*.cmp` pattern lists is written under its extension and its stem |
| AotConverter.SplitDotted | wagl/scripts/aot_converter.py:118 | splitting a dotted extension at `.` gives an empty part and the extension |
| AotConverter.BaseNameOfChild | wagl/scripts/aot_converter.py:119 | the base name of a file in a directory is its name |
| AotConverter.SplitExtOfListed | wagl/scripts/aot_converter.py:117 | `splitext` of a listed file splits off its extension |
| AotConverter.Convert | wagl/scripts/aot_converter.py:117-125 | KeyError for an extension other than `pix` and `cmp`; otherwise the reader that extension selects, whose failure is the result, written under the file's output name |
| AotConverter.Run | wagl/scripts/aot_converter.py:102-127 | every `.pix` file and then every `.cmp` file is converted in turn, stopping at the first failure |
| AotConverter.RunOutputs | wagl/scripts/aot_converter.py:112-125 | a successful run writes each listed file under its output name, in order |
| AotConverter.Extents | wagl/scripts/aot_converter.py:57-61 | the corners of the minimum bounding box; `ExtentsHold` and `ExtentsAttained` state that it is the least box holding the rows |
| AotConverter.ReadPix | wagl/scripts/aot_converter.py:19-63 | an undecodable `.pix` file fails with its decoding error, and every row read keeps an aerosol value that passes the filter |
| AotConverter.ReadCmp | wagl/scripts/aot_converter.py:66-99 | a `.cmp` file reads exactly when it decodes, and every row read keeps an aerosol value that passes the filter |
| AotConverter.OutName | wagl/scripts/aot_converter.py:112-120 | the extension, which holds no dot, and the table path of a converted file; `OutNameOfListed` states them for a listed file |
| DemHeight.Scanned | src/extractDemHeight.c:36-37 | a coordinate `sscanf` cannot read keeps the zero the global starts with; one it reads is the value read |
| DemHeight.LineRange | src/extractDemHeight.c:64-83 | a latitude inside the frame gives a line from 0 to 40, and line 40 exactly at the southern edge |
| DemHeight.PixelRange | src/extractDemHeight.c:69-87 | a longitude inside the frame gives a pixel from 0 to 49, pixel 0 in the first degree |
| DemHeight.NormalisedBits | src/extractDemHeight.c:168-169 | any sample width from 9 to 16 bits is taken as 16; other widths are kept |
| DemHeight.SetupBits | src/extractDemHeight.c:162-217 | once the file opens and carries its tags, set-up succeeds exactly for sample widths from 9 to 16 bits and exits with status 11 otherwise |
| DemHeight.SetupFailsEarly | src/extractDemHeight.c:149-166 | a file that does not open, or has no bits-per-sample tag, makes set-up report failure rather than exit |
| DemHeight.Gtif.constructor | src/extractDemHeight.c:39 | a descriptor before set-up has no open file and no geometry |
| DemHeight.Gtif.Setup | src/extractDemHeight.c:147-230 | the outcome follows the order of its guards (missing name, open, bits, pixel scale, tie points, allocation, 16-bit samples); the width, height and bits are recorded once the tag is read, and the scanline size and the "no line read" marker once the pixel scale is read |
| DemHeight.TimeString | src/extractDemHeight.c:309-331 | a duration always has a non-empty text |
| DemHeight.BelowASecond | src/extractDemHeight.c:323 | the text for a zero duration is ten characters starting with `<` |
| DemHeight.Unit | src/extractDemHeight.c:325-328 | a field is the decimal digits of its number followed by its unit letter |
| DemHeight.Field | src/extractDemHeight.c:325-328 | a field only reads back when it ends in its unit letter after at least one digit |
| DemHeight.FieldFormat | src/extractDemHeight.c:325-328 | every printed field reads back as its number |
| DemHeight.NoColonInField | src/extractDemHeight.c:325-328 | a printed field never contains the separator |
| DemHeight.NotBelowASecond | src/extractDemHeight.c:323-328 | no text starting with a printed field is the zero-duration text |
| DemHeight.MinutesRoundTrip | src/extractDemHeight.c:325 | a minutes-and-seconds text reads back as its number of seconds |
| DemHeight.HoursRoundTrip | src/extractDemHeight.c:328 | an hours-minutes-seconds text reads back as its number of seconds |
| DemHeight.MinutesFields | src/extractDemHeight.c:325 | the minutes text splits at its separator into its two fields |
| DemHeight.HoursFields | src/extractDemHeight.c:328 | the hours text splits at its separators into its three fields |
| DemHeight.DurationParts | src/extractDemHeight.c:310-317 | the hours, minutes and seconds recombine to the duration, and are all zero only for a zero duration |
| DemHeight.TimeStringRoundTrip | src/extractDemHeight.c:309-331 | the text of every duration reads back as that duration, so no two durations share a text |
| DemHeight.BelowAnHourRoundTrip | src/extractDemHeight.c:324-325 | below an hour, the minutes-and-seconds text reads back as the duration |
| DemHeight.FromAnHourRoundTrip | src/extractDemHeight.c:326-328 | from an hour on, the hours text reads back as the duration |
| DemHeight.WriteTimeString | src/extractDemHeight.c:319-328 | the formatted text lands in the buffer exactly when it fits with its terminating NUL, and is then the duration's text |
| DemHeight.DigitsBound | src/extractDemHeight.c:319-328 | a number below ten to the k is printed in at most k digits |
| DemHeight.TimeStringOverflowsAsWritten | src/extractDemHeight.c:319-323 | with the ten-byte buffer, the zero-duration text and a duration of 1h:10m:10s both overflow |
| DemHeight.ShortTimeStringsFit | src/extractDemHeight.c:319-325 | every duration from one second to below an hour fits the ten-byte buffer |
| DemHeight.TimeStringFits | src/extractDemHeight.c:319-328 | a twenty-byte buffer holds the text of every duration whose hours fit a C `int` |
| DemHeight.ExtractDemHeight | src/extractDemHeight.c:20-112 | the program runs through argument copying, coordinate scanning, set-up, the frame checks, the line and pixel range checks, the duration text and the DEM read, with the outcome of the program as written |
| DemHeight.OutsideFrameExits | src/extractDemHeight.c:64-72 | a coordinate outside the DEM frame ends the program with status 1 |
| DemHeight.UnreadableLatitudeExits | src/extractDemHeight.c:36-68 | an unreadable latitude is taken as zero, which lies north of the frame, so the program exits with status 1 |
| DemHeight.SouthEdgeAsWritten | src/extractDemHeight.c:83-86 | as written, a latitude on the southern edge of a 40-line DEM passes the line check and the scanline read fails with status 11; corrected, the range check rejects it with status 1 |
| DemHeight.EastEdgeAsWritten | src/extractDemHeight.c:87-90 | as written, a pixel number equal to the width passes the pixel check and is read past the end of the scanline; corrected, the range check rejects it with status 1 |
| DemHeight.ExtractReadsInside | src/extractDemHeight.c:80-136 | corrected, no run reads past an edge, overflows the duration buffer or fails its scanline read, and a reported value is the DEM sample at the line and pixel of the coordinates |
| DemHeight.FrameFitsDem | src/extractDemHeight.c:64-136 | corrected, on a DEM of at least 41 lines and 50 pixels, every coordinate inside the frame reports a value |
| DemHeight.LineNumber | src/extractDemHeight.c:79 | `(int)(-(Lat - UL[1]))`; `LineRange` states its range inside the frame |
| DemHeight.PixelNumber | src/extractDemHeight.c:80 | `(int)(Long - LL[0])`; `PixelRange` states its range inside the frame |
| DemHeight.SetupSpec | src/extractDemHeight.c:147-230 | the outcome of `setupGtif`; `SetupBits` and `SetupFailsEarly` state it, and `Gtif.Setup` is proved to reach it |
| DemHeight.Extract | src/extractDemHeight.c:20-112 | the outcome of `main` as written and corrected; `ExtractDemHeight`, `OutsideFrameExits`, `SouthEdgeAsWritten`, `EastEdgeAsWritten`, `ExtractReadsInside` and `FrameFitsDem` state it |

## Left out

- The Fortran angle, satellite-model and track solvers, pyephem and the spheroid and orbital formulas in `gaip/calculate_angles.py`: each row's solver result is a parameter (a status and the row's centre-line contributions).
- Geodetic reprojection, GDAL, rasterio, HDF5 and h5py reads and writes: the projector, raster windows, file contents and directory listings are parameters, and listings arrive already sorted.
- `wagl/interpolation.py` is not part of this model. For `indices`, `subdivide`, `bilinear` and `interpolate_block`, `Blrb` states what `tests/test_blrb.py` pins. Its recursive driver (`InterpolateGrid`, `FillQuadrant`, `WriteBlock`, `FillStep`) goes further than the tests: it follows the bisection named in the docstring of the test module and the `grid` argument the tests pass to `interpolate_block`. It recurses over the quadrants `subdivide` gives, to a depth that stands in for the unseen stopping rule. The evaluation function is a parameter, and no error bound is stated.
- Floating point: reals are exact, so rounding, NaN and infinity appear only where the code depends on them (a non-finite mean, the float32 patterns of the aerosol files, the `rint` of the centre line).
- Python `int()` leniency (signs, surrounding whitespace, underscores): integer fields are runs of ASCII digits.
- Non-ASCII characters: `\d` and `str.isdigit` also accept other Unicode digits, and `str.lower`/`str.upper` also map non-ASCII letters. `Text.IsDigit`, `Acquisition.IsLetter`, `ArdPbs.IsJobId` and `Text.Lower`/`Text.Upper` cover ASCII only.
- Shapely, pyproj and rasterize in `valid_region`, `load_brdf_tile` and the aerosol polygon intersection: their results are parameters.
- `WaglBrdf.GetTally`: the per-tile tally read by `get_tally` is injected, because it reads HDF5 tiles.
- `coord_transformer`, `load_brdf_tile` and `valid_region` in `wagl/brdf.py`: foreign geometry calls.
- In `gaip/brdf.py`, `get_brdf_data` raises when the loader reports no intersection, but the loader's constructor has already raised for that case, so the branch is unreachable and not modelled.
- The gunzip and temporary-file handling, `extract_ancillary_metadata`, and the metadata entries added to each result at `gaip/brdf.py:586-588`: these are I/O and bookkeeping.
- The `PQAConstants` threshold setters `set_acca`, `set_fmask` and `set_cloud_shadow` (`gaip/constants.py:297-350`): these are floating-point tables with no rule to state.
- The `combine_satellite_sensor` and `sbt_bands` copies in `gaip/constants.py:429-453`: they repeat the wagl ones that `WaglConstants` models.
- Acquisition sorting: `Acquisition.__lt__` in `wagl/acquisition/base.py` is not part of this model, so each group keeps the order the loaders produce.
- The SAFE archive's XML lookups, `find_in` and `load_mtl`: zip and file I/O; their parsed contents are parameters.
- Acquisition datetimes and solar metadata: parsed values are passed through, not computed.
- Fmask reflectance and brightness-temperature conversion, the cloud probability and percentile tests, morphology and shadow matching (`plcloud`, `viewgeo`, `mat_truecloud`): floating-point image processing; their masks are inputs to the class layering.
- The Fmask scene-level cloud and shadow percentages (`fmask_cloud_masking.py:1676-1677`): floating-point ratios over the final mask.
- `qsub`, `_submit_multiple`, `_submit_summary`, `_submit_index` and `_submit_archive` in `tesp/scripts/ard_pbs.py`: they run subprocesses and write files. The uuid batch id is random.
- The HDF5 output of `aot_converter.py` (`write_dataframe`, the WKT extents attribute, the shapely polygon) and the order of `glob`: output I/O; listings are parameters.
- `AotConverter.ReadPix` and `AotConverter.ReadCmp` report a file shorter than its header promises, or a negative count, as an error of the model (`Truncated`, `NegativeCount`), where NumPy would read short arrays and fail later or read everything.
- `AotConverter.ReadCmp` does not model the 32-bit `nx*ny` product overflowing in NumPy's `count`.
- `AotConverter.ReadPix` does not model the 32-bit `recs[2] * 3` product that sizes the date and time arrays overflowing for a record count above 715827882; the model multiplies unbounded integers.
- `GaipBrdf.ModisPattern` keeps only ten-character names, although `$` also matches before a final newline. A name ending in a newline would then have to be read by `int()` with its whitespace, which is left out above.
- In `src/extractDemHeight.c`, `parseInputFileList`, `usage`, `closeGtif`, `setCPUTimer` and `getStageTime` are left out: they are file listing, printing and clocks. The elapsed time is a parameter.
- `extractDemHeight.h` is not part of this model: the corner coordinates come from the frame constants in `main`, and the header's other sizes are not used.
- `DemHeight.Lat` and `DemHeight.Long` read the coordinates as exact reals, not float32.
- `DemHeight.TimeString` takes the hours as an unbounded number, not `long` narrowed to `int`; `DemHeight.TimeStringFits` states the bound under which the two agree.
- `DemHeight.ExtractDemHeight` does not model a failing `malloc` of the duration buffer in `toTimeString`, which the source does not check.
- Printing to stdout and stderr: outcomes carry the status and the values printed, not the text.
- `Path.resolve()` in `_filesystem_projects` reads the filesystem, so the resolved path is the parameter `resolve`. `PosixPath` models only the parsing `PurePosixPath` does, which keeps `..` as a part.
- The MTL values themselves (dates, radiance and quantize limits, sun angles found by `nested_lookup`) are not read into the model: `Acquisition.ViaMtl` models which keys must be present and what the band loop builds from the band names.

## Findings

| source | as written | input that shows it | evidently intended | confidence | as-written member | corrected member |
|---|---|---|---|---|---|---|
| wagl/acquisition/__init__.py:285 | `{k: v for k, v in band_configurations[band_id]}` iterates the dictionary's keys and unpacks each key string | a supported band configured as `{"band_name": "BAND-2", "supported_band": True}`: the key `band_name` does not unpack into two names, so a `ValueError` is raised | iterate `.items()`, so the band takes its configured attributes and name | high (not executed) | Acquisition.S2AsWrittenIgnoresConfig | Acquisition.S2BandMeaning |
| image_processor/pqa/calc_pqa_masks/fmask_cloud_masking.py:1374-1375 | when shadow matching is skipped, cloud and shadow are set where `cloud_test is True`, which a NumPy array never is | a one-pixel scene of potential cloud with the match skipped comes out clear | mark potential cloud as cloud and the rest as shadow, with an element-wise test | high (not executed) | Fmask.SkippedAsWrittenHasNoCloud | Fmask.SkippedIsCloudOrShadow |
| tesp/scripts/ard_pbs.py:110 | the walltime is unpacked into exactly three fields | the function's own examples `(400, '20:59', 28)` and `(800, '20:00', 28)` raise `ValueError` | read the hours from `HH:MM` as well as `HH:MM:SS`, giving 2 and 3 nodes | high (not executed) | ArdPbs.CalcNodesReqAsWritten | ArdPbs.CalcNodesReq |
| src/extractDemHeight.c:83-90 | the range checks reject only `LineNo > height` and `PixelNo > width` | latitude -48 on a 40-line DEM gives line 40, which passes and then fails the scanline read with status 11; a pixel number equal to the width reads past the end of the scanline | reject a line or pixel equal to the size | high (not executed) | DemHeight.SouthEdgeAsWritten | DemHeight.ExtractReadsInside |
| src/extractDemHeight.c:319-323 | the duration text is written into a 10-byte buffer | a duration of 0 seconds gives `< 1 second` (11 bytes with its NUL); 4210 seconds gives `1h:10m:10s` (11 bytes) | a buffer that holds every text the format can produce | high (not executed) | DemHeight.TimeStringOverflowsAsWritten | DemHeight.TimeStringFits |
| wagl/acquisition/__init__.py:106-159 | each `d.get(old_key, d[new_key])` evaluates its default `d[new_key]` before the call | an MTL file that spells its keys the old way only (`acquisition_date`, `band1_file_name`, `lmin_band1`, `qcalmin_band1`) raises `KeyError` at the date lookup, and a band with only old-style keys raises `KeyError` too | take the old key when it is present and the new one otherwise | high (not executed) | Acquisition.OldStyleDatesRaise | Acquisition.OldStyleReadLazily |
