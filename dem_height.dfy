/** The DEM height lookup of src/extractDemHeight.c: the command line, the
    set-up of the GeoTIFF descriptor with its bits-per-sample rule, the
    latitude and longitude checks against the fixed frame of the DEM, the
    line and pixel of a coordinate, the read of that pixel, and the
    duration text of the timing line. */
module DemHeight {
  import opened Wrappers
  import opened Text
  import opened Numeric

  // ---------------------------------------------------------------------
  // The frame of the DEM, as `main` assumes it

  const North: real := -8.0
  const South: real := -48.0
  const West: real := 108.0
  const East: real := 157.99999999

  /** `sscanf(s, "%f", &x)` into a zero-initialised global: the number read,
      or 0.0 when nothing could be read. */
  function Scanned(parsed: Option<real>): (x: real)
    ensures parsed.Some? ==> x == parsed.value
    ensures parsed.None? ==> x == 0.0
  {
    match parsed
    case Some(v) => v
    case None => 0.0
  }

  /** The latitude check of `main`: neither north of the upper left corner
      nor south of the lower right one. */
  predicate LatInFrame(lat: real)
  {
    !(lat > North || lat < South)
  }

  /** The longitude check of `main`. */
  predicate LongInFrame(long: real)
  {
    !(long < West || long > East)
  }

  /** `(int)(-(Lat - UL[1]))`: whole degrees south of the top edge. */
  function LineNumber(lat: real): int
  {
    Trunc(-(lat - North))
  }

  /** `(int)(Long - LL[0])`: whole degrees east of the left edge. */
  function PixelNumber(long: real): int
  {
    Trunc(long - West)
  }

  /** A latitude that passes the frame guard falls on one of lines 0 to 40, and on
      line 40 only at the southern edge itself. */
  lemma LineRange(lat: real)
    requires LatInFrame(lat)
    ensures 0 <= LineNumber(lat) <= 40
    ensures LineNumber(lat) == 40 <==> lat == South
  {
  }

  /** A longitude that passes the frame guard falls on one of pixels 0 to 49. */
  lemma PixelRange(long: real)
    requires LongInFrame(long)
    ensures 0 <= PixelNumber(long) <= 49
    ensures long < West + 1.0 ==> PixelNumber(long) == 0
  {
  }

  // ---------------------------------------------------------------------
  // The GeoTIFF descriptor

  /** What libtiff reports about the file: whether it opens, its
      bits-per-sample tag, its size, whether the pixel-scale and tie-point
      tags are there, and whether the scanline buffers can be allocated. */
  datatype TiffInfo = TiffInfo(opens: bool, bitsPerSample: Option<nat>, width: nat, height: nat,
                               hasPixelScale: bool, hasTiePoints: bool, allocates: bool)

  /** `setupGtif`'s end: `TRUE`, `FALSE`, or an `exit` with a status. */
  datatype SetupResult = SetupOk | SetupFailed | SetupExit(code: nat)

  /** Any depth above 8 bits up to 16 is handled as 16 bits. */
  function NormalisedBits(bits: nat): (r: nat)
    ensures 8 < bits <= 16 ==> r == 16
    ensures !(8 < bits <= 16) ==> r == bits
  {
    if bits > 8 && bits <= 16 then 16 else bits
  }

  /** The steps of `setupGtif` that decide how it ends. */
  function SetupSpec(fileName: Option<string>, info: TiffInfo): (r: SetupResult)
  {
    if fileName.None? || !info.opens || info.bitsPerSample.None? then SetupFailed
    else if !info.hasPixelScale || !info.hasTiePoints then SetupExit(11)
    else if !info.allocates then SetupExit(13)
    else if NormalisedBits(info.bitsPerSample.value) != 16 then SetupExit(11)
    else SetupOk
  }

  /** A readable file with all its tags is accepted exactly when its depth
      is above 8 and at most 16 bits; any other depth ends with status 11. */
  lemma SetupBits(name: string, info: TiffInfo)
    requires info.opens && info.bitsPerSample.Some? && info.hasPixelScale && info.hasTiePoints && info.allocates
    ensures SetupSpec(Some(name), info) == SetupOk <==> 8 < info.bitsPerSample.value <= 16
    ensures !(8 < info.bitsPerSample.value <= 16) ==> SetupSpec(Some(name), info) == SetupExit(11)
  {
  }

  /** A file that cannot be opened, or has no bits-per-sample tag, makes
      `setupGtif` return `FALSE` without touching the image size. */
  lemma SetupFailsEarly(name: string, info: TiffInfo)
    requires !info.opens || info.bitsPerSample.None?
    ensures SetupSpec(Some(name), info) == SetupFailed
  {
  }

  /** The `Gtif` record of one GeoTIFF file. */
  class Gtif {
    var isOpen: bool
    var bitsPerSample: nat
    var width: nat
    var height: nat
    var scanlineSize: nat
    var lineNo: int

    /** A descriptor not yet set up. */
    constructor ()
      ensures !isOpen && bitsPerSample == 0 && width == 0 && height == 0 && scanlineSize == 0 && lineNo == 0
    {
      isOpen, bitsPerSample, width, height, scanlineSize, lineNo := false, 0, 0, 0, 0, 0;
    }

    /** `setupGtif(gtif, fileName)`: opens the file and fills the
        descriptor in step by step, stopping at the first tag missing. */
    method Setup(fileName: Option<string>, info: TiffInfo) returns (r: SetupResult)
      modifies this
      ensures r == SetupSpec(fileName, info)
      ensures fileName.None? ==> unchanged(this)
      ensures fileName.Some? ==> isOpen == info.opens
      ensures fileName.Some? && info.opens && info.bitsPerSample.Some? ==>
        bitsPerSample == NormalisedBits(info.bitsPerSample.value) && width == info.width && height == info.height
      ensures !(fileName.Some? && info.opens && info.bitsPerSample.Some?) ==>
        bitsPerSample == old(bitsPerSample) && width == old(width) && height == old(height)
      ensures fileName.Some? && info.opens && info.bitsPerSample.Some? && info.hasPixelScale ==>
        scanlineSize == width * (bitsPerSample / 8) && lineNo == -1
      ensures !(fileName.Some? && info.opens && info.bitsPerSample.Some? && info.hasPixelScale) ==>
        scanlineSize == old(scanlineSize) && lineNo == old(lineNo)
    {
      if fileName.None? {
        return SetupFailed;
      }
      isOpen := info.opens;
      if !isOpen {
        return SetupFailed;
      }
      if info.bitsPerSample.None? {
        return SetupFailed;
      }
      bitsPerSample := info.bitsPerSample.value;
      if bitsPerSample > 8 && bitsPerSample <= 16 {
        bitsPerSample := 16;
      }
      width, height := info.width, info.height;
      if !info.hasPixelScale {
        return SetupExit(11);
      }
      scanlineSize := width * (bitsPerSample / 8);
      lineNo := -1;
      if !info.hasTiePoints {
        return SetupExit(11);
      }
      if !info.allocates {
        return SetupExit(13);
      }
      if bitsPerSample != 16 {
        return SetupExit(11);
      }
      return SetupOk;
    }
  }

  // ---------------------------------------------------------------------
  // The duration text

  /** The text of a duration of `d` seconds: `< 1 second`, `<m>m:<s>s`
      below an hour, `<h>h:<m>m:<s>s` from an hour on. */
  function TimeString(d: nat): (r: string)
    ensures |r| > 0
  {
    var hours, minutes, seconds := d / 3600, (d % 3600) / 60, d % 60;
    if hours == 0 then
      if minutes == 0 && seconds == 0 then BelowASecond()
      else Unit(minutes, 'm') + [':'] + Unit(seconds, 's')
    else Unit(hours, 'h') + [':'] + Unit(minutes, 'm') + [':'] + Unit(seconds, 's')
  }

  /** The text of a duration under a second. */
  function BelowASecond(): (r: string)
    ensures |r| == 10 && r[0] == '<'
  {
    "< 1 second"
  }

  /** `%d` followed by a unit letter. */
  function Unit(n: nat, unit: char): (r: string)
    ensures |r| == |NatToString(n)| + 1
  {
    NatToString(n) + [unit]
  }

  /** The number before the unit letter `unit` of a field such as `12m`. */
  function Field(f: string, unit: char): (r: Option<nat>)
    ensures r.Some? ==> |f| >= 2 && f[|f| - 1] == unit
  {
    if |f| >= 2 && f[|f| - 1] == unit && forall k :: 0 <= k < |f| - 1 ==> IsDigit(f[k]) then
      Some(ParseNat(f[..|f| - 1]))
    else None
  }

  /** Reading a duration text back as seconds. */
  function ParseDuration(s: string): (r: Option<nat>)
  {
    if s == BelowASecond() then Some(0)
    else
      var fields := Split(s, ":");
      if |fields| == 2 then
        var minutes, seconds := Field(fields[0], 'm'), Field(fields[1], 's');
        if minutes.Some? && seconds.Some? then Some(60 * minutes.value + seconds.value) else None
      else if |fields| == 3 then
        var hours, minutes, seconds := Field(fields[0], 'h'), Field(fields[1], 'm'), Field(fields[2], 's');
        if hours.Some? && minutes.Some? && seconds.Some? then
          Some(3600 * hours.value + 60 * minutes.value + seconds.value)
        else None
      else None
  }

  lemma FieldFormat(n: nat, unit: char)
    requires !IsDigit(unit)
    ensures Field(Unit(n, unit), unit) == Some(n)
  {
    var f := Unit(n, unit);
    assert f[..|f| - 1] == NatToString(n);
    ParseFormat(n);
  }

  lemma NoColonInField(n: nat, unit: char)
    requires unit != ':'
    ensures ':' !in Unit(n, unit)
  {
    var f := Unit(n, unit);
    forall k | 0 <= k < |f|
      ensures f[k] != ':'
    {
      if k < |f| - 1 {
        assert f[k] == NatToString(n)[k];
      }
    }
  }

  /** A text that starts with a digit is not the sub-second text. */
  lemma NotBelowASecond(n: nat, unit: char, rest: string)
    ensures Unit(n, unit) + rest != BelowASecond()
  {
    assert (Unit(n, unit) + rest)[0] == NatToString(n)[0];
  }

  /** A text below an hour reads back as its minutes and seconds. */
  lemma MinutesRoundTrip(m: nat, s: nat)
    ensures ParseDuration(Unit(m, 'm') + [':'] + Unit(s, 's')) == Some(60 * m + s)
  {
    var a, b := Unit(m, 'm'), Unit(s, 's');
    var text := a + [':'] + b;
    assert text == a + ([':'] + b);
    NotBelowASecond(m, 'm', [':'] + b);
    MinutesFields(a, b, m, s);
    FieldFormat(m, 'm');
    FieldFormat(s, 's');
    var fields := Split(text, ":");
    assert Field(fields[0], 'm') == Some(m) && Field(fields[1], 's') == Some(s);
  }

  /** A text from an hour on reads back as its hours, minutes and
      seconds. */
  lemma HoursRoundTrip(h: nat, m: nat, s: nat)
    ensures ParseDuration(Unit(h, 'h') + [':'] + Unit(m, 'm') + [':'] + Unit(s, 's')) == Some(3600 * h + 60 * m + s)
  {
    var a, b, c := Unit(h, 'h'), Unit(m, 'm'), Unit(s, 's');
    var text := a + [':'] + b + [':'] + c;
    assert text == a + ([':'] + (b + [':'] + c));
    NotBelowASecond(h, 'h', [':'] + (b + [':'] + c));
    HoursFields(a, b, c, h, m, s);
    FieldFormat(h, 'h');
    FieldFormat(m, 'm');
    FieldFormat(s, 's');
  }

  lemma MinutesFields(a: string, b: string, m: nat, s: nat)
    requires a == Unit(m, 'm') && b == Unit(s, 's')
    ensures Split(a + [':'] + b, ":") == [a, b]
  {
    NoColonInField(m, 'm');
    NoColonInField(s, 's');
    SplitFirst(a, ':', b);
    SplitNone(b, ':');
  }

  lemma HoursFields(a: string, b: string, c: string, h: nat, m: nat, s: nat)
    requires a == Unit(h, 'h') && b == Unit(m, 'm') && c == Unit(s, 's')
    ensures Split(a + [':'] + b + [':'] + c, ":") == [a, b, c]
  {
    NoColonInField(h, 'h');
    NoColonInField(m, 'm');
    NoColonInField(s, 's');
    assert a + [':'] + b + [':'] + c == a + [':'] + (b + [':'] + c);
    SplitFirst(a, ':', b + [':'] + c);
    SplitFirst(b, ':', c);
    SplitNone(c, ':');
  }

  lemma DurationParts(d: nat)
    ensures d == 3600 * (d / 3600) + 60 * ((d % 3600) / 60) + d % 60
    ensures d / 3600 == 0 && (d % 3600) / 60 == 0 && d % 60 == 0 ==> d == 0
  {
  }

  /** The duration text reads back as the duration: hours, minutes and
      seconds are each shown in full. */
  lemma TimeStringRoundTrip(d: nat)
    ensures ParseDuration(TimeString(d)) == Some(d)
  {
    DurationParts(d);
    if d == 0 {
      assert TimeString(d) == BelowASecond();
    } else if d < 3600 {
      BelowAnHourRoundTrip(d);
    } else {
      FromAnHourRoundTrip(d);
    }
  }

  lemma BelowAnHourRoundTrip(d: nat)
    requires 0 < d < 3600
    ensures ParseDuration(TimeString(d)) == Some(d)
  {
    var minutes, seconds := d / 60, d % 60;
    assert TimeString(d) == Unit(minutes, 'm') + [':'] + Unit(seconds, 's');
    MinutesRoundTrip(minutes, seconds);
  }

  lemma FromAnHourRoundTrip(d: nat)
    requires 3600 <= d
    ensures ParseDuration(TimeString(d)) == Some(d)
  {
    var hours, minutes, seconds := d / 3600, (d % 3600) / 60, d % 60;
    DurationParts(d);
    HoursText(d, hours, minutes, seconds);
    HoursRoundTrip(hours, minutes, seconds);
  }

  lemma HoursText(d: nat, h: nat, m: nat, s: nat)
    requires 3600 <= d && h == d / 3600 && m == (d % 3600) / 60 && s == d % 60
    ensures TimeString(d) == Unit(h, 'h') + [':'] + Unit(m, 'm') + [':'] + Unit(s, 's')
  {
  }

  /** `sprintf` into a buffer of `size` bytes: the text when it fits with
      its terminating NUL, nothing when the write runs past the buffer. */
  function WriteTimeString(d: nat, size: nat): (r: Option<string>)
    ensures r.Some? <==> |TimeString(d)| + 1 <= size
    ensures r.Some? ==> r.value == TimeString(d)
  {
    if |TimeString(d)| + 1 <= size then Some(TimeString(d)) else None
  }

  /** The buffer `toTimeString` allocates. */
  const TimeBufferAsWritten: nat := 10

  /** A buffer that holds every duration text whose hours fit a C `int`. */
  const TimeBuffer: nat := 20

  function Pow10(k: nat): (r: nat)
    ensures r >= 1
  {
    if k == 0 then 1 else 10 * Pow10(k - 1)
  }

  lemma {:induction false} DigitsBound(n: nat, k: nat)
    requires 1 <= k && n < Pow10(k)
    ensures |NatToString(n)| <= k
  {
    if n >= 10 {
      DigitsBound(n / 10, k - 1);
    }
  }

  /** The sub-second text needs 11 bytes, and so does `1h:10m:10s`. */
  lemma TimeStringOverflowsAsWritten()
    ensures WriteTimeString(0, TimeBufferAsWritten) == None
    ensures WriteTimeString(4210, TimeBufferAsWritten) == None
  {
    assert TimeString(0) == BelowASecond();
    assert |NatToString(10)| == 2 by {
      assert NatToString(10) == NatToString(1) + [DigitChar(0)];
    }
    assert |TimeString(4210)| == 10;
  }

  /** Every duration from one second up to an hour fits the 10-byte
      buffer. */
  lemma ShortTimeStringsFit(d: nat)
    requires 0 < d < 3600
    ensures WriteTimeString(d, TimeBufferAsWritten) == Some(TimeString(d))
  {
    DigitsBound(d / 60, 2);
    DigitsBound(d % 60, 2);
  }

  /** With the larger buffer every duration whose hours fit a C `int` is
      written in full. */
  lemma TimeStringFits(d: nat)
    requires d / 3600 < 0x8000_0000
    ensures WriteTimeString(d, TimeBuffer) == Some(TimeString(d))
  {
    DigitsBound(d / 3600, 10);
    DigitsBound((d % 3600) / 60, 2);
    DigitsBound(d % 60, 2);
  }

  // ---------------------------------------------------------------------
  // The program

  /** What a run is given: the command line (`args[0]` is the program
      name), the `%f` reading of a string, what libtiff reports about the
      DEM, the DEM's value at each (line, pixel), and the seconds the run
      has taken when the timing line is printed. */
  datatype Inputs = Inputs(args: seq<string>, parse: string -> Option<real>, info: TiffInfo,
                           raster: (int, int) -> nat, elapsed: nat)

  /** A run that C does not define. */
  datatype Fault = MissingArgument | ArgumentTooLong | UninitialisedSize | PixelPastScanline | TimeStringOverflow

  /** How a run ends: an exit status, undefined behaviour, or the line,
      pixel and DEM value printed before exiting with status 0. */
  datatype Outcome = Exit(code: nat) | Undefined(fault: Fault) | Reported(line: int, pixel: int, value: nat)

  /** The program as written, or with its two defects corrected: the size
      checks rejecting a line or pixel equal to the size, and the duration
      buffer holding every text. */
  datatype Variant = AsWritten | Corrected

  /** `LineNo > height` as written, `LineNo >= height` corrected. */
  predicate PastEdge(index: int, size: nat, v: Variant)
  {
    if v == AsWritten then index > size else index >= size
  }

  /** The outcome of `main`, step by step. */
  function Extract(inp: Inputs, v: Variant): (r: Outcome)
  {
    var args := inp.args;
    if |args| < 4 then Undefined(MissingArgument)
    else if |args[1]| >= 200 || |args[2]| >= 20 || |args[3]| >= 20 then Undefined(ArgumentTooLong)
    else
      var lat, long := Scanned(inp.parse(args[2])), Scanned(inp.parse(args[3]));
      var setup := SetupSpec(Some(args[1]), inp.info);
      if setup.SetupExit? then Exit(setup.code)
      else if !LatInFrame(lat) || !LongInFrame(long) then Exit(1)
      else if setup == SetupFailed then Undefined(UninitialisedSize)
      else ExtractAt(inp, LineNumber(lat), PixelNumber(long), v)
  }

  /** The steps of `main` after the set-up and the frame checks. */
  function ExtractAt(inp: Inputs, line: int, pixel: int, v: Variant): (r: Outcome)
  {
    var width, height := inp.info.width, inp.info.height;
    var buffer := if v == AsWritten then TimeBufferAsWritten else TimeBuffer;
    if line < 0 || PastEdge(line, height, v) then Exit(1)
    else if pixel < 0 || PastEdge(pixel, width, v) then Exit(1)
    else if WriteTimeString(inp.elapsed, buffer).None? then Undefined(TimeStringOverflow)
    else if line >= height then Exit(11)
    else if pixel >= width then Undefined(PixelPastScanline)
    else Reported(line, pixel, inp.raster(line, pixel))
  }

  /** `main`: copy the arguments, read the coordinates, set up the DEM,
      check the coordinates against the frame and the line and pixel
      against the DEM's size, print the timing line, read the pixel. */
  method ExtractDemHeight(inp: Inputs) returns (r: Outcome)
    ensures r == Extract(inp, AsWritten)
  {
    var args := inp.args;
    if |args| < 4 {
      return Undefined(MissingArgument);
    }
    if |args[1]| >= 200 || |args[2]| >= 20 || |args[3]| >= 20 {
      return Undefined(ArgumentTooLong);
    }
    var lat := Scanned(inp.parse(args[2]));
    var long := Scanned(inp.parse(args[3]));
    var dem := new Gtif();
    var setup := dem.Setup(Some(args[1]), inp.info);
    if setup.SetupExit? {
      return Exit(setup.code);
    }
    if lat > North || lat < South {
      return Exit(1);
    }
    if long < West || long > East {
      return Exit(1);
    }
    if setup == SetupFailed {
      return Undefined(UninitialisedSize);
    }
    var line := LineNumber(lat);
    var pixel := PixelNumber(long);
    if line < 0 || line > dem.height {
      return Exit(1);
    }
    if pixel < 0 || pixel > dem.width {
      return Exit(1);
    }
    var text := WriteTimeString(inp.elapsed, TimeBufferAsWritten);
    if text.None? {
      return Undefined(TimeStringOverflow);
    }
    if line >= dem.height {
      return Exit(11);
    }
    if pixel >= dem.width {
      return Undefined(PixelPastScanline);
    }
    return Reported(line, pixel, inp.raster(line, pixel));
  }

  /** A well-formed call: program name, DEM file and two coordinates, each
      short enough for its buffer, and a DEM that sets up. */
  predicate WellFormed(inp: Inputs)
  {
    |inp.args| >= 4 && |inp.args[1]| < 200 && |inp.args[2]| < 20 && |inp.args[3]| < 20 &&
    SetupSpec(Some(inp.args[1]), inp.info) == SetupOk
  }

  function Lat(inp: Inputs): real
    requires |inp.args| >= 4
  {
    Scanned(inp.parse(inp.args[2]))
  }

  function Long(inp: Inputs): real
    requires |inp.args| >= 4
  {
    Scanned(inp.parse(inp.args[3]))
  }

  /** A coordinate outside the frame ends the run with status 1, as does an
      argument that does not read as a number (it reads as 0.0). */
  lemma OutsideFrameExits(inp: Inputs, v: Variant)
    requires WellFormed(inp)
    requires !LatInFrame(Lat(inp)) || !LongInFrame(Long(inp))
    ensures Extract(inp, v) == Exit(1)
  {
  }

  /** An unreadable latitude reads as 0.0, which is north of the frame. */
  lemma UnreadableLatitudeExits(inp: Inputs, v: Variant)
    requires WellFormed(inp) && inp.parse(inp.args[2]).None?
    ensures Extract(inp, v) == Exit(1)
  {
  }

  /** As written, a point on the southern edge of a 40-line DEM passes the
      size check as line 40 and the scanline read then fails. */
  lemma SouthEdgeAsWritten(inp: Inputs)
    requires WellFormed(inp) && inp.info.height == 40
    requires Lat(inp) == South && LongInFrame(Long(inp)) && PixelNumber(Long(inp)) < inp.info.width
    requires 0 < inp.elapsed < 3600
    ensures Extract(inp, AsWritten) == Exit(11)
    ensures Extract(inp, Corrected) == Exit(1)
  {
    LineRange(Lat(inp));
    PixelRange(Long(inp));
    ShortTimeStringsFit(inp.elapsed);
    TimeStringFits(inp.elapsed);
  }

  /** As written, a pixel equal to the width passes the size check and is
      read one element past the end of the scanline. */
  lemma EastEdgeAsWritten(inp: Inputs)
    requires WellFormed(inp)
    requires LatInFrame(Lat(inp)) && LineNumber(Lat(inp)) < inp.info.height
    requires LongInFrame(Long(inp)) && PixelNumber(Long(inp)) == inp.info.width
    requires 0 < inp.elapsed < 3600
    ensures Extract(inp, AsWritten) == Undefined(PixelPastScanline)
    ensures Extract(inp, Corrected) == Exit(1)
  {
    LineRange(Lat(inp));
    PixelRange(Long(inp));
    ShortTimeStringsFit(inp.elapsed);
    TimeStringFits(inp.elapsed);
  }

  /** Corrected, a run that reports a value read it from inside the DEM at
      the line and pixel of the coordinates, and no run reads past an
      edge or overflows the duration buffer while its hours fit an
      `int`. */
  lemma ExtractReadsInside(inp: Inputs)
    requires WellFormed(inp) && inp.elapsed / 3600 < 0x8000_0000
    ensures Extract(inp, Corrected) != Undefined(PixelPastScanline)
    ensures Extract(inp, Corrected) != Undefined(TimeStringOverflow)
    ensures Extract(inp, Corrected) != Exit(11)
    ensures Extract(inp, Corrected).Reported? ==>
      var r := Extract(inp, Corrected);
      0 <= r.line < inp.info.height && 0 <= r.pixel < inp.info.width &&
      r.line == LineNumber(Lat(inp)) && r.pixel == PixelNumber(Long(inp)) &&
      r.value == inp.raster(r.line, r.pixel)
  {
    TimeStringFits(inp.elapsed);
  }

  /** Corrected, every coordinate inside the frame of a DEM of 41 lines and
      50 pixels or more is reported. */
  lemma FrameFitsDem(inp: Inputs)
    requires WellFormed(inp) && inp.elapsed / 3600 < 0x8000_0000
    requires inp.info.height >= 41 && inp.info.width >= 50
    requires LatInFrame(Lat(inp)) && LongInFrame(Long(inp))
    ensures Extract(inp, Corrected).Reported?
  {
    LineRange(Lat(inp));
    PixelRange(Long(inp));
    TimeStringFits(inp.elapsed);
  }
}
