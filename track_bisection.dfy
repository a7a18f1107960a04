/** The satellite-track bisection of gaip/calculate_angles.py: the swathe
    edges and the per-row record of the track ("boxline"), the grid of
    sample locations ("coordinator") laid out around the track, the
    per-row run of the angle solver and the post-processing of the track
    centre line. */
module TrackBisection {
  import opened Numeric
  import opened Wrappers

  /** Default maximum view angle, in degrees, of `create_boxline`. */
  const MaxViewAngle: real := 9.0

  // ---------------------------------------------------------------------
  // first_and_last

  /** Index of the first true element, or -1 when there is none. */
  function FirstTrue(a: seq<bool>): (r: int)
    ensures r == -1 <==> forall i :: 0 <= i < |a| ==> !a[i]
    ensures r != -1 ==> 0 <= r < |a| && a[r] && forall i :: 0 <= i < r ==> !a[i]
  {
    if |a| == 0 then -1
    else if a[0] then 0
    else
      var t := FirstTrue(a[1..]);
      if t == -1 then -1 else t + 1
  }

  /** Index of the last true element, or -1 when there is none. */
  function LastTrue(a: seq<bool>): (r: int)
    ensures r == -1 <==> forall i :: 0 <= i < |a| ==> !a[i]
    ensures r != -1 ==> 0 <= r < |a| && a[r] && forall i :: r < i < |a| ==> !a[i]
  {
    if |a| == 0 then -1
    else if a[|a| - 1] then |a| - 1
    else LastTrue(a[..|a| - 1])
  }

  /** `first_and_last`: the indices of the first and last true value, or
      (-1, -1) when no value is true. */
  function FirstAndLast(a: seq<bool>): (r: (int, int))
    ensures r.0 == -1 <==> r.1 == -1
    ensures r.0 <= r.1
  {
    (FirstTrue(a), LastTrue(a))
  }

  /** Either no element is true and the pair is (-1, -1), or the pair
      brackets every true element and both of its ends are true. */
  lemma FirstAndLastSpec(a: seq<bool>)
    ensures FirstAndLast(a) == (-1, -1) <==> forall i :: 0 <= i < |a| ==> !a[i]
    ensures FirstAndLast(a).0 == -1 <==> FirstAndLast(a).1 == -1
    ensures FirstAndLast(a) != (-1, -1) ==>
      var (f, l) := FirstAndLast(a);
      0 <= f <= l < |a| && a[f] && a[l] &&
      forall i :: 0 <= i < |a| && a[i] ==> f <= i <= l
  {
  }

  /** The examples given in the documentation of `first_and_last`. */
  lemma FirstAndLastExamples()
    ensures FirstAndLast([false, false, true, true, false, true, true, false, false, false]) == (2, 6)
    ensures FirstAndLast([false, false, false]) == (-1, -1)
    ensures FirstAndLast([true]) == (0, 0)
  {
    var a := [false, false, true, true, false, true, true, false, false, false];
    assert FirstTrue(a) == 2 by {
      assert a[1..] == [false, true, true, false, true, true, false, false, false];
      assert a[1..][1..] == [true, true, false, true, true, false, false, false];
    }
    assert LastTrue(a) == 6 by {
      var a7 := [false, false, true, true, false, true, true];
      assert LastTrue(a7) == 6;
      assert a[..9][..8][..7] == a7;
      assert LastTrue(a[..9][..8]) == 6;
      assert LastTrue(a[..9]) == 6;
    }
    var z := [false, false, false];
    assert z[1..] == [false, false];
    assert z[1..][1..] == [false];
    assert z[1..][1..][1..] == [];
  }

  // ---------------------------------------------------------------------
  // asymetric_linspace

  /** `asymetric_linspace`: `num // 2` samples from `start` towards
      `midpoint` (midpoint excluded) followed by `num // 2 + 1` samples from
      `midpoint` to `stop` (both included), all cast to int64. */
  function AsymLinspace(start: int, stop: int, num: nat, midpoint: int): seq<int>
  {
    Linspace(start, midpoint, num / 2, false) + Linspace(midpoint, stop, num / 2 + 1, true)
  }

  /** The result always has an odd length, `num` itself when `num` is odd
      and `num + 1` when it is even; the midpoint sits at index `num // 2`,
      and from two samples on the ends are `start` and `stop`. */
  lemma AsymLinspaceShape(start: int, stop: int, num: nat, midpoint: int)
    ensures |AsymLinspace(start, stop, num, midpoint)| == 2 * (num / 2) + 1
    ensures |AsymLinspace(start, stop, num, midpoint)| == num <==> num % 2 == 1
    ensures AsymLinspace(start, stop, num, midpoint)[num / 2] == midpoint
    ensures num >= 2 ==> AsymLinspace(start, stop, num, midpoint)[0] == start
    ensures num >= 2 ==> AsymLinspace(start, stop, num, midpoint)[2 * (num / 2)] == stop
    ensures num < 2 ==> AsymLinspace(start, stop, num, midpoint) == [midpoint]
  {
    var r := AsymLinspace(start, stop, num, midpoint);
    var k := num / 2;
    assert r[k] == Linspace(midpoint, stop, k + 1, true)[0];
    if num >= 2 {
      assert r[0] == Linspace(start, midpoint, k, false)[0];
      assert r[2 * k] == Linspace(midpoint, stop, k + 1, true)[k];
    }
  }

  /** With `start <= midpoint <= stop` (all non-negative) every sample lies
      in `[start, stop]` and the samples never decrease. */
  lemma AsymLinspaceBounds(start: int, stop: int, num: nat, midpoint: int)
    requires 0 <= start <= midpoint <= stop
    ensures forall i :: 0 <= i < |AsymLinspace(start, stop, num, midpoint)| ==>
      start <= AsymLinspace(start, stop, num, midpoint)[i] <= stop
    ensures forall i, j :: 0 <= i <= j < |AsymLinspace(start, stop, num, midpoint)| ==>
      AsymLinspace(start, stop, num, midpoint)[i] <= AsymLinspace(start, stop, num, midpoint)[j]
  {
    var front := Linspace(start, midpoint, num / 2, false);
    var back := Linspace(midpoint, stop, num / 2 + 1, true);
    LinspaceBounds(start, midpoint, num / 2, false);
    LinspaceBounds(midpoint, stop, num / 2 + 1, true);
    var r := front + back;
    assert forall i :: 0 <= i < |front| ==> r[i] == front[i];
    assert forall i :: |front| <= i < |r| ==> r[i] == back[i - |front|];
  }

  /** The example given in the documentation of `asymetric_linspace`. */
  lemma AsymLinspaceExample()
    ensures AsymLinspace(10, 20, 5, 18) == [10, 14, 18, 19, 20]
  {
    assert LinspaceAt(10, 18, 2, false, 1) == 14;
    assert LinspaceAt(18, 20, 3, true, 1) == 19;
    assert Linspace(10, 18, 2, false) == [10, 14];
    assert Linspace(18, 20, 3, true) == [18, 19, 20];
  }

  // ---------------------------------------------------------------------
  // swathe_edges and create_boxline

  /** Which pixels of a row are seen at no more than `threshold` degrees. */
  function WithinAngle(row: seq<real>, threshold: real): (r: seq<bool>)
    ensures |r| == |row|
    ensures forall i :: 0 <= i < |row| ==> (r[i] <==> row[i] <= threshold)
  {
    seq(|row|, i requires 0 <= i < |row| => row[i] <= threshold)
  }

  /** `swathe_edges`: for each row of the view-angle raster, the first and
      last column whose view angle is within the threshold. */
  method SwatheEdges(threshold: real, view: seq<seq<real>>) returns (start: array<int>, end: array<int>)
    ensures fresh(start) && fresh(end)
    ensures start.Length == |view| && end.Length == |view|
    ensures forall i :: 0 <= i < |view| ==>
      (start[i], end[i]) == FirstAndLast(WithinAngle(view[i], threshold))
  {
    start := new int[|view|];
    end := new int[|view|];
    for i := 0 to |view|
      invariant forall k :: 0 <= k < i ==>
        (start[k], end[k]) == FirstAndLast(WithinAngle(view[k], threshold))
    {
      var edges := FirstAndLast(WithinAngle(view[i], threshold));
      start[i], end[i] := edges.0, edges.1;
    }
  }

  /** One record of the boxline: a raster row, its track column, the
      number of track points found in it and its swathe edges. */
  datatype BoxLine = BoxLine(rowIndex: int, bisectionIndex: int, npoints: int,
                             startIndex: int, endIndex: int)

  /** `create_boxline`: one record per raster row; the float track column
      and point count are stored as int64, so they are truncated. */
  method CreateBoxline(view: seq<seq<real>>, xcentre: seq<real>, npoints: seq<real>, maxAngle: real)
    returns (boxline: seq<BoxLine>)
    requires |xcentre| == |view| && |npoints| == |view|
    ensures |boxline| == |view|
    ensures forall i :: 0 <= i < |view| ==>
      var b := boxline[i];
      b.rowIndex == i && b.bisectionIndex == Trunc(xcentre[i]) && b.npoints == Trunc(npoints[i]) &&
      (b.startIndex, b.endIndex) == FirstAndLast(WithinAngle(view[i], maxAngle))
  {
    var istart, iend := SwatheEdges(maxAngle, view);
    boxline := seq(|view|, i requires 0 <= i < |view| reads istart, iend =>
      BoxLine(i, Trunc(xcentre[i]), Trunc(npoints[i]), istart[i], iend[i]));
  }

  /** The swathe edges of a boxline record bracket every pixel of its row
      that is seen within the maximum angle, or are (-1, -1) exactly when
      no pixel of the row is. */
  lemma BoxlineEdges(view: seq<seq<real>>, boxline: seq<BoxLine>, maxAngle: real, i: nat)
    requires i < |view| == |boxline|
    requires (boxline[i].startIndex, boxline[i].endIndex) == FirstAndLast(WithinAngle(view[i], maxAngle))
    ensures boxline[i].startIndex == -1 <==> forall c :: 0 <= c < |view[i]| ==> view[i][c] > maxAngle
    ensures boxline[i].startIndex != -1 ==>
      0 <= boxline[i].startIndex <= boxline[i].endIndex < |view[i]| &&
      view[i][boxline[i].startIndex] <= maxAngle && view[i][boxline[i].endIndex] <= maxAngle &&
      forall c :: 0 <= c < |view[i]| && view[i][c] <= maxAngle ==>
        boxline[i].startIndex <= c <= boxline[i].endIndex
  {
    FirstAndLastSpec(WithinAngle(view[i], maxAngle));
  }

  // ---------------------------------------------------------------------
  // create_vertices

  datatype VertexError =
    | DimensionError   // ValueError raised by the dimension guard
    | NoSpareColumn    // KeyError from popping an empty set
    | IndexOutOfRange  // IndexError while filling the location grid
    | BroadcastError   // ValueError from a grid line of the wrong length

  type Location = (int, int)

  /** An affine geotransform `(a, b, c, d, e, f)` mapping (column, row) to
      map coordinates `(a*col + b*row + c, d*col + e*row + f)`. */
  datatype Affine = Affine(a: real, b: real, c: real, d: real, e: real, f: real)

  /** A coordinator record: array location, geographic and map coordinates. */
  datatype Coordinator = Coordinator(rowIndex: int, colIndex: int, latitude: real,
                                     longitude: real, mapY: int, mapX: int)

  /** Python's `|` on non-negative integers: bitwise or. */
  function BitOr(x: nat, y: nat): (r: nat)
    ensures x <= r && y <= r
    ensures r <= x + y
  {
    if x == 0 then y
    else if y == 0 then x
    else 2 * BitOr(x / 2, y / 2) + (if x % 2 == 1 || y % 2 == 1 then 1 else 0)
  }

  /** The dimension guard of `create_vertices`: `rows < v0 | cols < v1`
      binds as the chained comparison `rows < (v0 | cols) < v1`. */
  predicate DimensionGuard(rows: nat, cols: nat, v0: nat, v1: nat)
  {
    rows < BitOr(v0, cols) < v1
  }

  /** The track counts of the boxline, as the truth values NumPy sees. */
  function TrackRows(boxline: seq<BoxLine>): (r: seq<bool>)
    ensures |r| == |boxline|
    ensures forall i :: 0 <= i < |boxline| ==> (r[i] <==> boxline[i].npoints != 0)
  {
    seq(|boxline|, i requires 0 <= i < |boxline| => boxline[i].npoints != 0)
  }

  /** The first and last rows in which the track was found, as a set. */
  function TrackEndRows(boxline: seq<BoxLine>): set<int>
  {
    var (f, l) := FirstAndLast(TrackRows(boxline));
    {f, l}
  }

  /** The end rows of a track that stops inside the raster. */
  function PartialTrack(rows: int, ends: set<int>): set<int>
  {
    ends - {0, rows - 1, -1}
  }

  /** Whether a track end row lies strictly inside the raster. */
  lemma PartialTrackRows(boxline: seq<BoxLine>, m: int)
    requires m in PartialTrack(|boxline|, TrackEndRows(boxline))
    ensures 0 < m < |boxline| - 1
  {
    FirstAndLastSpec(TrackRows(boxline));
  }

  /** The midpoint of a grid line: `mid_row or xcentre[ir]`. */
  function LineMidpoint(midRow: int, b: BoxLine): int
  {
    if midRow != 0 then midRow else b.bisectionIndex
  }

  /** Python indexing of a sequence of length n: -n <= k < n. */
  predicate PyIndexable(k: int, n: int)
  {
    -n <= k < n
  }

  function PyIndex(k: int, n: int): (r: int)
    requires PyIndexable(k, n)
    ensures 0 <= r < n
  {
    if k < 0 then k + n else k
  }

  /** The locations written for grid row `ig`, raster row `ir`. */
  function RowLocations(boxline: seq<BoxLine>, v0: nat, v1: nat, midRow: int, ig: nat, ir: int)
    : Result<seq<Location>, VertexError>
  {
    if !PyIndexable(ir, |boxline|) then Err(IndexOutOfRange)
    else
      var b := boxline[PyIndex(ir, |boxline|)];
      var line := AsymLinspace(b.startIndex, b.endIndex, v1, LineMidpoint(midRow, b));
      if ig >= v0 then Err(IndexOutOfRange)
      else if |line| != v1 && |line| != 1 then Err(BroadcastError)
      else Ok(seq(v1, j requires 0 <= j < v1 => (ir, if |line| == 1 then line[0] else line[j])))
  }

  /** Prepends already written locations to the outcome of the rest. */
  function Prepend(done: seq<Location>, rest: Result<seq<Location>, VertexError>): Result<seq<Location>, VertexError>
  {
    match rest
    case Ok(r) => Ok(done + r)
    case Err(e) => Err(e)
  }

  /** The locations of grid rows `ig..`, in row-major order, or the error of
      the first grid row that fails. */
  function LocationsFrom(boxline: seq<BoxLine>, v0: nat, v1: nat, midRow: int, gridRows: seq<int>, ig: nat)
    : Result<seq<Location>, VertexError>
    decreases |gridRows| - ig
  {
    if ig >= |gridRows| then Ok([])
    else
      match RowLocations(boxline, v0, v1, midRow, ig, gridRows[ig])
      case Err(e) => Err(e)
      case Ok(row) => Prepend(row, LocationsFrom(boxline, v0, v1, midRow, gridRows, ig + 1))
  }

  /** The raster rows sampled by the grid. */
  function GridRows(rows: int, v0: nat, midRow: int): seq<int>
  {
    AsymLinspace(0, rows - 1, v0, midRow)
  }

  /** The coordinator record of one location; map coordinates are stored
      as int64 and so truncated, and `project` converts (column, row) to
      (longitude, latitude). */
  function ToCoordinator(t: Affine, project: (int, int) -> (real, real), loc: Location): (r: Coordinator)
    ensures (r.rowIndex, r.colIndex) == loc
  {
    var (row, col) := loc;
    var (lon, lat) := project(col, row);
    Coordinator(row, col, lat, lon,
                Trunc(t.d * col as real + t.e * row as real + t.f),
                Trunc(t.a * col as real + t.b * row as real + t.c))
  }

  function ToCoordinators(t: Affine, project: (int, int) -> (real, real), locs: seq<Location>): (r: seq<Coordinator>)
    ensures |r| == |locs|
    ensures forall i :: 0 <= i < |locs| ==> r[i] == ToCoordinator(t, project, locs[i])
  {
    seq(|locs|, i requires 0 <= i < |locs| => ToCoordinator(t, project, locs[i]))
  }

  /** The rows `create_vertices` may choose as the track's middle row:
      half the raster height, or (for a track that ends inside the raster)
      one of its inner end rows; None when the set of spare track columns
      it pops from is empty. */
  function MidRowChoices(rows: nat, cols: int, boxline: seq<BoxLine>): Option<set<int>>
    requires |boxline| == rows
  {
    var ends := TrackEndRows(boxline);
    var partial := PartialTrack(rows, ends);
    if -1 in ends || partial == {} then Some({rows / 2})
    else
      var m :| m in partial;
      PartialTrackRows(boxline, m);
      if {boxline[0].bisectionIndex, boxline[1].bisectionIndex} - {0, cols - 1, 1, cols, -1} == {}
      then None
      else Some(partial)
  }

  /** `create_vertices`: the sample grid, `v0` rows by `v1` columns, laid out
      around the satellite track, as coordinator records in row-major order.
      `midRow` is the track row the grid is centred on. */
  method CreateVertices(rows: nat, cols: nat, boxline: seq<BoxLine>, v0: nat, v1: nat,
                        transform: Affine, project: (int, int) -> (real, real))
    returns (r: Result<seq<Coordinator>, VertexError>, midRow: int)
    requires |boxline| == rows
    ensures DimensionGuard(rows, cols, v0, v1) ==> r == Err(DimensionError)
    ensures !DimensionGuard(rows, cols, v0, v1) && MidRowChoices(rows, cols, boxline).None? ==>
      r == Err(NoSpareColumn)
    ensures !DimensionGuard(rows, cols, v0, v1) && MidRowChoices(rows, cols, boxline).Some? ==>
      midRow in MidRowChoices(rows, cols, boxline).value &&
      match LocationsFrom(boxline, v0, v1, midRow, GridRows(rows, v0, midRow), 0)
      case Ok(locs) => r == Ok(ToCoordinators(transform, project, locs))
      case Err(e) => r == Err(e)
  {
    midRow := rows / 2;
    if DimensionGuard(rows, cols, v0, v1) {
      return Err(DimensionError), midRow;
    }
    var ends := TrackEndRows(boxline);
    var partial := PartialTrack(rows, ends);
    if -1 in ends {
      // the source evaluates `cols // 2` here and discards it
    } else if partial != {} {
      ghost var m :| m in partial;
      PartialTrackRows(boxline, m);
      var spare := {boxline[0].bisectionIndex, boxline[1].bisectionIndex} - {0, cols - 1, 1, cols, -1};
      if spare == {} {
        return Err(NoSpareColumn), midRow;
      }
      midRow :| midRow in partial;
    }
    var locs := FillLocations(boxline, v0, v1, midRow, GridRows(rows, v0, midRow));
    r := match locs
      case Ok(l) => Ok(ToCoordinators(transform, project, l))
      case Err(e) => Err(e);
  }

  /** The loop of `create_vertices` that writes the grid rows one by one
      into the location array. */
  method FillLocations(boxline: seq<BoxLine>, v0: nat, v1: nat, midRow: int, gridRows: seq<int>)
    returns (r: Result<seq<Location>, VertexError>)
    ensures r == LocationsFrom(boxline, v0, v1, midRow, gridRows, 0)
  {
    var locs: seq<Location> := [];
    var ig := 0;
    match LocationsFrom(boxline, v0, v1, midRow, gridRows, 0) {
      case Ok(all) => assert [] + all == all;
      case Err(_) =>
    }
    while ig < |gridRows|
      invariant 0 <= ig <= |gridRows|
      invariant LocationsFrom(boxline, v0, v1, midRow, gridRows, 0)
             == Prepend(locs, LocationsFrom(boxline, v0, v1, midRow, gridRows, ig))
    {
      var row := RowLocations(boxline, v0, v1, midRow, ig, gridRows[ig]);
      if row.Err? {
        return Err(row.error);
      }
      PrependAssoc(locs, row.value, LocationsFrom(boxline, v0, v1, midRow, gridRows, ig + 1));
      locs := locs + row.value;
      ig := ig + 1;
    }
    assert locs + [] == locs;
    r := Ok(locs);
  }

  lemma PrependAssoc(a: seq<Location>, b: seq<Location>, rest: Result<seq<Location>, VertexError>)
    ensures Prepend(a, Prepend(b, rest)) == Prepend(a + b, rest)
  {
    if rest.Ok? {
      assert a + (b + rest.value) == (a + b) + rest.value;
    }
  }

  /** The chosen middle row is a raster row whenever the raster has rows. */
  lemma MidRowInRaster(rows: nat, cols: int, boxline: seq<BoxLine>, midRow: int)
    requires |boxline| == rows && 1 <= rows
    requires MidRowChoices(rows, cols, boxline).Some?
    requires midRow in MidRowChoices(rows, cols, boxline).value
    ensures 0 <= midRow < rows
  {
    var ends := TrackEndRows(boxline);
    if !(-1 in ends || PartialTrack(rows, ends) == {}) {
      PartialTrackRows(boxline, midRow);
    }
  }

  /** Every sampled raster row is a row of the raster, the first is row 0
      and (from two grid rows on) the last is the bottom row. */
  lemma GridRowsInRaster(rows: nat, v0: nat, midRow: int)
    requires 0 <= midRow < rows
    ensures forall i :: 0 <= i < |GridRows(rows, v0, midRow)| ==> 0 <= GridRows(rows, v0, midRow)[i] < rows
    ensures v0 >= 2 ==> GridRows(rows, v0, midRow)[0] == 0
    ensures v0 >= 2 ==> GridRows(rows, v0, midRow)[|GridRows(rows, v0, midRow)| - 1] == rows - 1
  {
    AsymLinspaceBounds(0, rows - 1, v0, midRow);
    AsymLinspaceShape(0, rows - 1, v0, midRow);
  }

  /** When every sampled row is a raster row, the grid rows from `ig` on are
      filled exactly when the vertex counts are odd (or there are no vertex
      columns). */
  lemma {:induction false} LocationsFromOk(boxline: seq<BoxLine>, v0: nat, v1: nat, midRow: int, gridRows: seq<int>, ig: nat)
    requires |gridRows| == 2 * (v0 / 2) + 1 && ig <= |gridRows|
    requires forall i :: 0 <= i < |gridRows| ==> 0 <= gridRows[i] < |boxline|
    ensures LocationsFrom(boxline, v0, v1, midRow, gridRows, ig).Ok? <==>
      (ig == |gridRows| || (v0 % 2 == 1 && (v1 % 2 == 1 || v1 == 0)))
    decreases |gridRows| - ig
  {
    if ig < |gridRows| {
      var b := boxline[gridRows[ig]];
      AsymLinspaceShape(b.startIndex, b.endIndex, v1, LineMidpoint(midRow, b));
      LocationsFromOk(boxline, v0, v1, midRow, gridRows, ig + 1);
      if v0 % 2 == 0 && ig == |gridRows| - 1 {
        assert ig >= v0;
      }
    }
  }

  /** The samples of the grid line through a boxline record. */
  function GridLine(midRow: int, v1: nat, b: BoxLine): (r: seq<int>)
    ensures v1 <= |r|
  {
    AsymLinspaceShape(b.startIndex, b.endIndex, v1, LineMidpoint(midRow, b));
    AsymLinspace(b.startIndex, b.endIndex, v1, LineMidpoint(midRow, b))
  }

  /** The intended sample grid, independent of how it is written: for each
      grid row in turn, its raster row paired with the first `v1` samples
      of its grid line. */
  function GridSamples(boxline: seq<BoxLine>, v1: nat, midRow: int, gridRows: seq<int>): (r: seq<Location>)
    requires forall i :: 0 <= i < |gridRows| ==> 0 <= gridRows[i] < |boxline|
    ensures |r| == |gridRows| * v1
    ensures forall i :: 0 <= i < |r| ==> 0 <= r[i].0 < |boxline|
  {
    if gridRows == [] then []
    else
      var line := GridLine(midRow, v1, boxline[gridRows[0]]);
      seq(v1, j requires 0 <= j < v1 => (gridRows[0], line[j])) + GridSamples(boxline, v1, midRow, gridRows[1..])
  }

  /** A filled grid is the intended sample grid. */
  lemma {:induction false} LocationsFromSamples(boxline: seq<BoxLine>, v0: nat, v1: nat, midRow: int, gridRows: seq<int>, ig: nat)
    requires ig <= |gridRows|
    requires forall i :: 0 <= i < |gridRows| ==> 0 <= gridRows[i] < |boxline|
    requires v1 % 2 == 1 || v1 == 0
    requires LocationsFrom(boxline, v0, v1, midRow, gridRows, ig).Ok?
    ensures LocationsFrom(boxline, v0, v1, midRow, gridRows, ig).value == GridSamples(boxline, v1, midRow, gridRows[ig..])
    decreases |gridRows| - ig
  {
    if ig < |gridRows| {
      LocationsFromSamples(boxline, v0, v1, midRow, gridRows, ig + 1);
      var b := boxline[gridRows[ig]];
      AsymLinspaceShape(b.startIndex, b.endIndex, v1, LineMidpoint(midRow, b));
      assert gridRows[ig..][1..] == gridRows[ig + 1..];
    }
  }

  /** The locations `create_vertices` lays out for a chosen middle row. */
  function GridLocations(rows: nat, boxline: seq<BoxLine>, v0: nat, v1: nat, midRow: int)
    : Result<seq<Location>, VertexError>
  {
    LocationsFrom(boxline, v0, v1, midRow, GridRows(rows, v0, midRow), 0)
  }

  /** Whenever the raster has rows, the dimension guard passes and a middle
      row can be chosen, `create_vertices` succeeds exactly when both vertex
      counts are odd (or there are no vertex columns). */
  lemma CreateVerticesSucceeds(rows: nat, cols: nat, boxline: seq<BoxLine>, v0: nat, v1: nat, midRow: int)
    requires |boxline| == rows && 1 <= rows
    requires MidRowChoices(rows, cols, boxline).Some?
    requires midRow in MidRowChoices(rows, cols, boxline).value
    ensures GridLocations(rows, boxline, v0, v1, midRow).Ok? <==> v0 % 2 == 1 && (v1 % 2 == 1 || v1 == 0)
  {
    MidRowInRaster(rows, cols, boxline, midRow);
    GridRowsInRaster(rows, v0, midRow);
    AsymLinspaceShape(0, rows - 1, v0, midRow);
    LocationsFromOk(boxline, v0, v1, midRow, GridRows(rows, v0, midRow), 0);
  }

  /** A successful `create_vertices` yields the intended sample grid:
      `v0 * v1` locations, all on raster rows, in row-major order. */
  lemma CreateVerticesLayout(rows: nat, cols: nat, boxline: seq<BoxLine>, v0: nat, v1: nat, midRow: int)
    requires |boxline| == rows && 1 <= rows
    requires MidRowChoices(rows, cols, boxline).Some?
    requires midRow in MidRowChoices(rows, cols, boxline).value
    requires GridLocations(rows, boxline, v0, v1, midRow).Ok?
    ensures forall i :: 0 <= i < |GridRows(rows, v0, midRow)| ==> 0 <= GridRows(rows, v0, midRow)[i] < rows
    ensures GridLocations(rows, boxline, v0, v1, midRow).value
         == GridSamples(boxline, v1, midRow, GridRows(rows, v0, midRow))
    ensures |GridLocations(rows, boxline, v0, v1, midRow).value| == v0 * v1
  {
    var gridRows := GridRows(rows, v0, midRow);
    MidRowInRaster(rows, cols, boxline, midRow);
    GridRowsInRaster(rows, v0, midRow);
    CreateVerticesSucceeds(rows, cols, boxline, v0, v1, midRow);
    AsymLinspaceShape(0, rows - 1, v0, midRow);
    LocationsFromSamples(boxline, v0, v1, midRow, gridRows, 0);
    assert gridRows[0..] == gridRows;
  }

  /** For a raster of at least two rows the columns of every grid line are
      centred on the middle ROW index, never on the track column: the
      boxline's bisection index is only consulted for a one-row raster. */
  lemma LineMidpointIsMidRow(rows: nat, cols: int, boxline: seq<BoxLine>, midRow: int, b: BoxLine)
    requires |boxline| == rows && 2 <= rows
    requires MidRowChoices(rows, cols, boxline).Some?
    requires midRow in MidRowChoices(rows, cols, boxline).value
    ensures LineMidpoint(midRow, b) == midRow
  {
    var ends := TrackEndRows(boxline);
    if !(-1 in ends || PartialTrack(rows, ends) == {}) {
      PartialTrackRows(boxline, midRow);
    }
  }

  // ---------------------------------------------------------------------
  // The per-row angle solver and the centre line

  /** The outcome of the external angle solver for one row: its status and
      the track-column sums and track-point counts after that row. */
  datatype RowSolution = RowSolution(status: int, xCent: seq<real>, nCent: seq<real>)

  /** Runs the solver over rows `i..rows` from the given state; Err(k) names
      the first row whose status is not zero. */
  function ScanFrom(solve: (nat, seq<real>, seq<real>) -> RowSolution, rows: nat, i: nat,
                    xCent: seq<real>, nCent: seq<real>): (r: Result<(seq<real>, seq<real>), nat>)
    ensures r.Err? ==> i <= r.error < rows
    decreases rows - i
  {
    if i >= rows then Ok((xCent, nCent))
    else
      var s := solve(i, xCent, nCent);
      if s.status != 0 then Err(i) else ScanFrom(solve, rows, i + 1, s.xCent, s.nCent)
  }

  /** The row loop of `calculate_angles`: the solver is called for each row
      with the track accumulators, which start at zero; a non-zero status
      raises a RuntimeError naming the row. */
  method ScanRows(solve: (nat, seq<real>, seq<real>) -> RowSolution, rows: nat)
    returns (r: Result<(seq<real>, seq<real>), nat>)
    ensures r == ScanFrom(solve, rows, 0, seq(rows, _ => 0.0), seq(rows, _ => 0.0))
    ensures r.Err? ==> r.error < rows
  {
    var xCent: seq<real> := seq(rows, _ => 0.0);
    var nCent: seq<real> := seq(rows, _ => 0.0);
    var i := 0;
    while i < rows
      invariant i <= rows
      invariant ScanFrom(solve, rows, 0, seq(rows, _ => 0.0), seq(rows, _ => 0.0))
             == ScanFrom(solve, rows, i, xCent, nCent)
    {
      var s := solve(i, xCent, nCent);
      if s.status != 0 {
        return Err(i);
      }
      xCent, nCent := s.xCent, s.nCent;
      i := i + 1;
    }
    r := Ok((xCent, nCent));
  }

  /** The track accumulators the solver is given for row `k` when it runs
      from row `i` with the given ones, whatever the statuses on the way. */
  function StateAt(solve: (nat, seq<real>, seq<real>) -> RowSolution, i: nat,
                   xCent: seq<real>, nCent: seq<real>, k: nat): (seq<real>, seq<real>)
    requires i <= k
    decreases k - i
  {
    if k == i then (xCent, nCent)
    else
      var s := solve(i, xCent, nCent);
      StateAt(solve, i + 1, s.xCent, s.nCent, k)
  }

  /** The status the solver reports for row `k` when it runs from row `i`. */
  function StatusAt(solve: (nat, seq<real>, seq<real>) -> RowSolution, i: nat,
                    xCent: seq<real>, nCent: seq<real>, k: nat): int
    requires i <= k
  {
    var st := StateAt(solve, i, xCent, nCent, k);
    solve(k, st.0, st.1).status
  }

  /** Running from row `i` is running row `i` and then from row `i + 1`. */
  lemma StatusAfterFirst(solve: (nat, seq<real>, seq<real>) -> RowSolution, i: nat,
                         xCent: seq<real>, nCent: seq<real>, k: nat)
    requires i < k
    ensures var s := solve(i, xCent, nCent);
      StateAt(solve, i, xCent, nCent, k) == StateAt(solve, i + 1, s.xCent, s.nCent, k) &&
      StatusAt(solve, i, xCent, nCent, k) == StatusAt(solve, i + 1, s.xCent, s.nCent, k)
  {
  }

  /** A failing scan names the first row whose status is not zero: every
      row before it, each run from the accumulators the rows before it
      left, reported zero. */
  lemma {:induction false} ScanFailsAtFirstBadRow(solve: (nat, seq<real>, seq<real>) -> RowSolution, rows: nat,
                                                  i: nat, xCent: seq<real>, nCent: seq<real>)
    requires ScanFrom(solve, rows, i, xCent, nCent).Err?
    ensures var e := ScanFrom(solve, rows, i, xCent, nCent).error;
      i <= e < rows && StatusAt(solve, i, xCent, nCent, e) != 0 &&
      forall k :: i <= k < e ==> StatusAt(solve, i, xCent, nCent, k) == 0
    decreases rows - i
  {
    var s := solve(i, xCent, nCent);
    if s.status == 0 {
      ScanFailsAtFirstBadRow(solve, rows, i + 1, s.xCent, s.nCent);
      var e := ScanFrom(solve, rows, i, xCent, nCent).error;
      StatusAfterFirst(solve, i, xCent, nCent, e);
      forall k | i < k < e
        ensures StatusAt(solve, i, xCent, nCent, k) == 0
      {
        StatusAfterFirst(solve, i, xCent, nCent, k);
      }
    }
  }

  /** Every row from `i` up to `rows` reports status zero. */
  predicate RowsSolved(solve: (nat, seq<real>, seq<real>) -> RowSolution, i: nat,
                       xCent: seq<real>, nCent: seq<real>, rows: nat)
  {
    forall k :: i <= k < rows ==> StatusAt(solve, i, xCent, nCent, k) == 0
  }

  /** A scan succeeds exactly when every row reports status zero, and then
      gives the accumulators the last row left. */
  lemma {:induction false} ScanSucceeds(solve: (nat, seq<real>, seq<real>) -> RowSolution, rows: nat,
                                        i: nat, xCent: seq<real>, nCent: seq<real>)
    requires i <= rows
    ensures ScanFrom(solve, rows, i, xCent, nCent).Ok? <==> RowsSolved(solve, i, xCent, nCent, rows)
    ensures ScanFrom(solve, rows, i, xCent, nCent).Ok? ==>
      ScanFrom(solve, rows, i, xCent, nCent).value == StateAt(solve, i, xCent, nCent, rows)
    decreases rows - i
  {
    if i < rows {
      var s := solve(i, xCent, nCent);
      assert StatusAt(solve, i, xCent, nCent, i) == s.status;
      if s.status == 0 {
        var j, x, n := i + 1, s.xCent, s.nCent;
        ScanSucceeds(solve, rows, j, x, n);
        StatusAfterFirst(solve, i, xCent, nCent, rows);
        if RowsSolved(solve, i, xCent, nCent, rows) {
          forall k | j <= k < rows
            ensures StatusAt(solve, j, x, n, k) == 0
          {
            StatusAfterFirst(solve, i, xCent, nCent, k);
          }
        }
        if RowsSolved(solve, j, x, n, rows) {
          forall k | i < k < rows
            ensures StatusAt(solve, i, xCent, nCent, k) == 0
          {
            StatusAfterFirst(solve, i, xCent, nCent, k);
          }
        }
      }
    }
  }

  /** Track columns averaged over the rows with more than one track point. */
  function Averaged(x: seq<real>, n: seq<real>): (r: seq<real>)
    requires |x| == |n|
    ensures |r| == |x|
    ensures forall i :: 0 <= i < |x| ==> r[i] == if n[i] > 1.5 then x[i] / n[i] else x[i]
  {
    seq(|x|, i requires 0 <= i < |x| => if n[i] > 1.5 then x[i] / n[i] else x[i])
  }

  /** Whether the centre-line block gets through: at least two rows, or a
      single row holding a track point. */
  predicate HasCentreLine(n: seq<real>)
  {
    2 <= |n| || (|n| == 1 && n[0] >= 0.5)
  }

  /** A row without a track point takes the (averaged) column of the row
      before it; the first row takes that of the second row. */
  function Filled(avg: seq<real>, n: seq<real>, i: nat): real
    requires |avg| == |n| && HasCentreLine(n) && i < |avg|
  {
    if n[i] >= 0.5 then avg[i]
    else if i == 0 then avg[1]
    else avg[i - 1]
  }

  /** The centre line: filled columns rounded half-to-even, less the
      one-based offset of the solver. */
  function CentreLine(x: seq<real>, n: seq<real>): (r: seq<real>)
    requires |x| == |n| && HasCentreLine(n)
    ensures |r| == |x|
  {
    var avg := Averaged(x, n);
    seq(|x|, i requires 0 <= i < |x| => (RoundHalfEven(Filled(avg, n, i)) - 1) as real)
  }

  datatype CentreLineError = CentreLineIndexError

  /** Columns of rows without a track point replaced by those of the row
      before, cyclically (`np.roll(x, 1)`). */
  function RolledFill(avg: seq<real>, n: seq<real>): (r: seq<real>)
    requires |avg| == |n|
    ensures |r| == |avg|
    ensures forall k :: 0 <= k < |avg| ==>
      r[k] == if n[k] < 0.5 then (if k == 0 then avg[|avg| - 1] else avg[k - 1]) else avg[k]
  {
    seq(|avg|, k requires 0 <= k < |avg| =>
      if n[k] < 0.5 then (if k == 0 then avg[|avg| - 1] else avg[k - 1]) else avg[k])
  }

  /** `x_cent[wh] = x_cent[wh] / n_cent[wh]` for `wh = n_cent > 1.5`. */
  method DivideByCounts(xCent: array<real>, nCent: array<real>)
    requires xCent != nCent && xCent.Length == nCent.Length
    modifies xCent
    ensures xCent[..] == Averaged(old(xCent[..]), nCent[..])
  {
    ghost var x0 := xCent[..];
    for i := 0 to xCent.Length
      invariant forall k :: 0 <= k < i ==> xCent[k] == Averaged(x0, nCent[..])[k]
      invariant forall k :: i <= k < xCent.Length ==> xCent[k] == x0[k]
    {
      if nCent[i] > 1.5 {
        xCent[i] := xCent[i] / nCent[i];
      }
    }
  }

  /** `x_cent[wh] = np.roll(x_cent, 1)[wh]` for `wh = n_cent < 0.5`. */
  method FillFromPrevious(xCent: array<real>, nCent: array<real>)
    requires xCent != nCent && xCent.Length == nCent.Length
    modifies xCent
    ensures xCent[..] == RolledFill(old(xCent[..]), nCent[..])
  {
    var rolled := xCent[..];
    var len := xCent.Length;
    for i := 0 to len
      invariant forall k :: 0 <= k < i ==> xCent[k] == RolledFill(rolled, nCent[..])[k]
      invariant forall k :: i <= k < len ==> xCent[k] == rolled[k]
    {
      if nCent[i] < 0.5 {
        xCent[i] := if i == 0 then rolled[len - 1] else rolled[i - 1];
      }
    }
  }

  /** `x_cent = np.rint(x_cent) - 1`. */
  method RoundToColumns(xCent: array<real>)
    modifies xCent
    ensures forall k :: 0 <= k < xCent.Length ==> xCent[k] == (RoundHalfEven(old(xCent[k])) - 1) as real
  {
    for i := 0 to xCent.Length
      invariant forall k :: 0 <= k < i ==> xCent[k] == (RoundHalfEven(old(xCent[k])) - 1) as real
      invariant forall k :: i <= k < xCent.Length ==> xCent[k] == old(xCent[k])
    {
      xCent[i] := (RoundHalfEven(xCent[i]) - 1) as real;
    }
  }

  /** The centre-line block of `calculate_angles`, in place on `xCent`. An
      empty raster fails on `wh[0]`; a one-row raster without a track point
      fails on `temp[1]`; a failure leaves the averaged columns behind. */
  method FinishCentreLine(xCent: array<real>, nCent: array<real>) returns (r: Result<(), CentreLineError>)
    requires xCent != nCent && xCent.Length == nCent.Length
    modifies xCent
    ensures r.Err? <==> !HasCentreLine(nCent[..])
    ensures r.Ok? ==> xCent[..] == CentreLine(old(xCent[..]), nCent[..])
    ensures r.Err? ==> xCent[..] == Averaged(old(xCent[..]), nCent[..])
  {
    ghost var x0 := xCent[..];
    DivideByCounts(xCent, nCent);
    var avg := xCent[..];
    var temp := if xCent.Length < 2 then avg else avg[..2];
    FillFromPrevious(xCent, nCent);
    if xCent.Length == 0 {
      return Err(CentreLineIndexError);
    }
    if nCent[0] < 0.5 {
      if |temp| < 2 {
        assert xCent[..] == avg;
        return Err(CentreLineIndexError);
      }
      xCent[0] := temp[1];
    }
    assert forall k :: 0 <= k < xCent.Length ==> xCent[k] == Filled(avg, nCent[..], k);
    RoundToColumns(xCent);
    assert xCent[..] == CentreLine(x0, nCent[..]);
    r := Ok(());
  }

  /** A row without a track point gets the rounded column of the row above,
      as that row was averaged and NOT as it was itself filled: two
      consecutive gap rows do not chain, the second takes the first's raw
      (unfilled) value. */
  lemma GapTakesRowAbove(x: seq<real>, n: seq<real>, i: nat)
    requires |x| == |n| && 2 <= |x| && 1 <= i < |x| && n[i] < 0.5
    ensures CentreLine(x, n)[i] == (RoundHalfEven(Averaged(x, n)[i - 1]) - 1) as real
    ensures n[i - 1] < 0.5 ==> CentreLine(x, n)[i] == (RoundHalfEven(x[i - 1]) - 1) as real
  {
  }

  /** Every centre-line value is an integer within half a pixel of the
      (zero-based) track column it is derived from. */
  lemma CentreLineRounding(x: seq<real>, n: seq<real>, i: nat)
    requires |x| == |n| && 2 <= |x| && i < |x|
    ensures var c := CentreLine(x, n)[i] + 1.0;
      var f := Filled(Averaged(x, n), n, i);
      f - 0.5 <= c <= f + 0.5 && c == c.Floor as real
  {
  }
}
