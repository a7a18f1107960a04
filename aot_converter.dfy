// The converter of AATSR aerosol optical thickness files to tables: the
// binary layouts of the sparse `.pix` files and the gridded `.cmp` files,
// the observations each yields, the filter on the aerosol value, the
// bounding box of what is kept, and the table path each file is written to.

module AotConverter {
  import opened Wrappers
  import opened Dates
  import opened Text
  import Acquisition

  // ---------------------------------------------------------------------
  // Machine words in a byte stream

  type Byte = b: int | 0 <= b < 256

  function Pow256(width: nat): (r: nat)
    ensures r > 0
  {
    if width == 0 then 1 else 256 * Pow256(width - 1)
  }

  /** The unsigned little-endian number in `bytes`. */
  function Unsigned(bytes: seq<Byte>): (r: nat)
    ensures r < Pow256(|bytes|)
  {
    if |bytes| == 0 then 0 else bytes[0] + 256 * Unsigned(bytes[1..])
  }

  /** The `width` little-endian bytes of `u`. */
  function LittleEndian(u: nat, width: nat): (r: seq<Byte>)
    ensures |r| == width
  {
    if width == 0 then [] else [u % 256] + LittleEndian(u / 256, width - 1)
  }

  lemma {:induction false} UnsignedLittleEndian(u: nat, width: nat)
    requires u < Pow256(width)
    ensures Unsigned(LittleEndian(u, width)) == u
  {
    if width > 0 {
      UnsignedLittleEndian(u / 256, width - 1);
      assert LittleEndian(u, width)[1..] == LittleEndian(u / 256, width - 1);
    }
  }

  /** `x` fits `width` bytes in two's complement. */
  predicate InSignedRange(x: int, width: nat)
  {
    -(Pow256(width) as int) <= 2 * x < Pow256(width)
  }

  /** The two's-complement reading of an unsigned `width`-byte number. */
  function ToSigned(u: nat, width: nat): (r: int)
    requires u < Pow256(width)
    ensures InSignedRange(r, width)
  {
    if 2 * u >= Pow256(width) then u - Pow256(width) else u
  }

  /** The unsigned `width`-byte pattern of a signed number. */
  function FromSigned(x: int, width: nat): (r: nat)
    requires InSignedRange(x, width)
    ensures r < Pow256(width) && ToSigned(r, width) == x
  {
    if x < 0 then x + Pow256(width) else x
  }

  /** `count` unsigned `width`-byte numbers at the start of `stream`. */
  function Words(stream: seq<Byte>, width: nat, count: nat): (r: seq<nat>)
    requires width * count <= |stream|
    ensures |r| == count
    ensures forall k :: 0 <= k < count ==> r[k] < Pow256(width)
  {
    if count == 0 then []
    else [Unsigned(stream[..width])] + Words(stream[width..], width, count - 1)
  }

  /** The bytes of `count` unsigned `width`-byte numbers, one after the
      other. */
  function Encode(words: seq<nat>, width: nat): (r: seq<Byte>)
    ensures |r| == width * |words|
  {
    if |words| == 0 then [] else LittleEndian(words[0], width) + Encode(words[1..], width)
  }

  /** The errors reading a file can end in. A file shorter than its header
      announces is `Truncated`; a negative count in the header is
      `NegativeCount`. */
  datatype AotError = Truncated | NegativeCount | IndexError | ValueError | KeyError

  /** `np.fromfile(src, dtype, count)` on a stream positioned at `stream`:
      the numbers read and what is left. */
  function Read(stream: seq<Byte>, width: nat, count: nat): (r: Result<(seq<nat>, seq<Byte>), AotError>)
    ensures r.Ok? <==> width * count <= |stream|
    ensures r.Ok? ==> |r.value.0| == count && r.value.1 == stream[width * count..]
    ensures r.Err? ==> r.error == Truncated
  {
    if width * count <= |stream| then Ok((Words(stream, width, count), stream[width * count..]))
    else Err(Truncated)
  }

  /** Reading back encoded numbers gives them, and leaves what follows. */
  lemma {:induction false} ReadEncoded(words: seq<nat>, width: nat, rest: seq<Byte>)
    requires forall k :: 0 <= k < |words| ==> words[k] < Pow256(width)
    ensures Read(Encode(words, width) + rest, width, |words|) == Ok((words, rest))
  {
    var stream := Encode(words, width) + rest;
    assert stream[width * |words|..] == rest;
    WordsEncoded(words, width, rest);
  }

  lemma {:induction false} WordsEncoded(words: seq<nat>, width: nat, rest: seq<Byte>)
    requires forall k :: 0 <= k < |words| ==> words[k] < Pow256(width)
    ensures Words(Encode(words, width) + rest, width, |words|) == words
  {
    if |words| > 0 {
      var stream := Encode(words, width) + rest;
      var head := LittleEndian(words[0], width);
      assert stream == head + (Encode(words[1..], width) + rest);
      assert stream[..width] == head;
      assert stream[width..] == Encode(words[1..], width) + rest;
      UnsignedLittleEndian(words[0], width);
      WordsEncoded(words[1..], width, rest);
    }
  }

  function Signed16(words: seq<nat>): (r: seq<int>)
    requires forall k :: 0 <= k < |words| ==> words[k] < Pow256(2)
    ensures |r| == |words|
  {
    seq(|words|, k requires 0 <= k < |words| => ToSigned(words[k], 2))
  }

  predicate IsInt16s(xs: seq<int>)
  {
    forall k :: 0 <= k < |xs| ==> InSignedRange(xs[k], 2)
  }

  function Unsigned16(xs: seq<int>): (r: seq<nat>)
    requires IsInt16s(xs)
    ensures |r| == |xs|
    ensures forall k :: 0 <= k < |r| ==> r[k] < Pow256(2)
    ensures Signed16(r) == xs
  {
    seq(|xs|, k requires 0 <= k < |xs| => FromSigned(xs[k], 2))
  }

  predicate IsWords32(ws: seq<nat>)
  {
    forall k :: 0 <= k < |ws| ==> ws[k] < Pow256(4)
  }

  /** A count the int32 header can hold. */
  predicate IsCount(n: nat)
  {
    2 * n < Pow256(4)
  }

  // ---------------------------------------------------------------------
  // IEEE 754 single precision

  /** A float32 value: a finite number, an infinity or not a number. */
  datatype Num = Finite(value: real) | PosInf | NegInf | NaN

  function Pow2(e: nat): (r: nat)
    ensures r > 0
  {
    if e == 0 then 1 else 2 * Pow2(e - 1)
  }

  /** 2 to the power `e`, for any integer `e`. */
  function Scale(e: int): (r: real)
    ensures r > 0.0
  {
    if e >= 0 then Pow2(e) as real else 1.0 / Pow2(-e) as real
  }

  /** The value of the 32-bit pattern `bits`: sign, 8 exponent bits and 23
      fraction bits; exponent 255 is an infinity or not a number, exponent
      0 a subnormal number. */
  function Float32(bits: nat): (r: Num)
    requires bits < Pow256(4)
    ensures bits / 0x8000_0000 == 1 && r.Finite? ==> r.value <= 0.0
    ensures bits / 0x8000_0000 == 0 && r.Finite? ==> r.value >= 0.0
  {
    var sign := bits / 0x8000_0000;
    var exponent := (bits / 0x80_0000) % 256;
    var fraction := bits % 0x80_0000;
    if exponent == 255 then
      if fraction != 0 then NaN else if sign == 1 then NegInf else PosInf
    else
      var magnitude :=
        if exponent == 0 then fraction as real * Scale(-149)
        else (0x80_0000 + fraction) as real * Scale(exponent - 150);
      Finite(if sign == 1 then -magnitude else magnitude)
  }

  // ---------------------------------------------------------------------
  // The `.pix` layout

  /** A `.pix` file: the x and y grids, the grid index of each
      observation's longitude and latitude, its date and time as 3 x n
      rows (year, month, day and hour, minute, second), two float32 arrays
      that are read only to move past them, and the aerosol values. Floats
      are kept as their bit patterns. */
  datatype PixFile = PixFile(xgrid: seq<nat>, ygrid: seq<nat>, idxlon: seq<int>, idxlat: seq<int>,
                             date: seq<int>, time: seq<int>, skipped1: seq<nat>, skipped2: seq<nat>, aot: seq<nat>)
  {
    /** The shape the header describes: n observations in every per-
        observation array, and numbers that fit their types. */
    predicate Valid()
    {
      var n := |aot|;
      IsCount(|xgrid|) && IsCount(|ygrid|) && IsCount(n) &&
      |idxlon| == n && |idxlat| == n && |date| == 3 * n && |time| == 3 * n &&
      |skipped1| == n && |skipped2| == n &&
      IsWords32(xgrid) && IsWords32(ygrid) && IsWords32(skipped1) && IsWords32(skipped2) && IsWords32(aot) &&
      IsInt16s(idxlon) && IsInt16s(idxlat) && IsInt16s(date) && IsInt16s(time)
    }
  }

  /** The bytes of a `.pix` file, followed by `rest`: the int32 header
      (nx, ny, n), then each array in turn. */
  function PixBytes(f: PixFile, rest: seq<Byte>): (r: seq<Byte>)
    requires f.Valid()
  {
    Encode([|f.xgrid|, |f.ygrid|, |f.aot|], 4) + PixArrayBytes(f, rest)
  }

  function PixArrayBytes(f: PixFile, rest: seq<Byte>): (r: seq<Byte>)
    requires f.Valid()
  {
    Encode(f.xgrid, 4) + (Encode(f.ygrid, 4) +
    (Encode(Unsigned16(f.idxlon), 2) + (Encode(Unsigned16(f.idxlat), 2) +
    (Encode(Unsigned16(f.date), 2) + (Encode(Unsigned16(f.time), 2) +
    (Encode(f.skipped1, 4) + (Encode(f.skipped2, 4) + (Encode(f.aot, 4) + rest))))))))
  }

  /** The reads of `read_pix`, in order, on the bytes of a file: the
      header, then the arrays it announces. */
  function DecodePix(bytes: seq<Byte>): (r: Result<PixFile, AotError>)
    ensures r.Ok? ==> r.value.Valid()
  {
    var (recs, rest) :- Read(bytes, 4, 3);
    var nx, ny, n := ToSigned(recs[0], 4), ToSigned(recs[1], 4), ToSigned(recs[2], 4);
    if nx < 0 || ny < 0 || n < 0 then Err(NegativeCount)
    else DecodePixArrays(rest, nx, ny, n)
  }

  function DecodePixArrays(stream: seq<Byte>, nx: nat, ny: nat, n: nat): (r: Result<PixFile, AotError>)
    requires IsCount(nx) && IsCount(ny) && IsCount(n)
    ensures r.Ok? ==> r.value.Valid() && |r.value.xgrid| == nx && |r.value.ygrid| == ny && |r.value.aot| == n
  {
    var (xgrid, s1) :- Read(stream, 4, nx);
    var (ygrid, s2) :- Read(s1, 4, ny);
    var (idxlon, s3) :- Read(s2, 2, n);
    var (idxlat, s4) :- Read(s3, 2, n);
    var (date, s5) :- Read(s4, 2, 3 * n);
    var (time, s6) :- Read(s5, 2, 3 * n);
    var (skipped1, s7) :- Read(s6, 4, n);
    var (skipped2, s8) :- Read(s7, 4, n);
    var (aot, _) :- Read(s8, 4, n);
    Ok(PixFile(xgrid, ygrid, Signed16(idxlon), Signed16(idxlat), Signed16(date), Signed16(time),
               skipped1, skipped2, aot))
  }

  /** Reading a `.pix` file gives back what was written, whatever follows
      it. */
  lemma PixRoundTrip(f: PixFile, rest: seq<Byte>)
    requires f.Valid()
    ensures DecodePix(PixBytes(f, rest)) == Ok(f)
  {
    var header := [|f.xgrid|, |f.ygrid|, |f.aot|];
    PixHeader(f, rest);
    assert ToSigned(header[0], 4) == |f.xgrid|;
    assert ToSigned(header[1], 4) == |f.ygrid|;
    assert ToSigned(header[2], 4) == |f.aot|;
    PixArraysRoundTrip(f, rest);
  }

  lemma PixHeader(f: PixFile, rest: seq<Byte>)
    requires f.Valid()
    ensures Read(PixBytes(f, rest), 4, 3) == Ok(([|f.xgrid|, |f.ygrid|, |f.aot|], PixArrayBytes(f, rest)))
  {
    ReadEncoded([|f.xgrid|, |f.ygrid|, |f.aot|], 4, PixArrayBytes(f, rest));
  }

  lemma PixArraysRoundTrip(f: PixFile, rest: seq<Byte>)
    requires f.Valid()
    ensures DecodePixArrays(PixArrayBytes(f, rest), |f.xgrid|, |f.ygrid|, |f.aot|) == Ok(f)
  {
    var s8 := Encode(f.aot, 4) + rest;
    var s7 := Encode(f.skipped2, 4) + s8;
    var s6 := Encode(f.skipped1, 4) + s7;
    var s5 := Encode(Unsigned16(f.time), 2) + s6;
    var s4 := Encode(Unsigned16(f.date), 2) + s5;
    var s3 := Encode(Unsigned16(f.idxlat), 2) + s4;
    var s2 := Encode(Unsigned16(f.idxlon), 2) + s3;
    var s1 := Encode(f.ygrid, 4) + s2;
    ReadEncoded(f.xgrid, 4, s1);
    ReadEncoded(f.ygrid, 4, s2);
    ReadEncoded(Unsigned16(f.idxlon), 2, s3);
    ReadEncoded(Unsigned16(f.idxlat), 2, s4);
    ReadEncoded(Unsigned16(f.date), 2, s5);
    ReadEncoded(Unsigned16(f.time), 2, s6);
    ReadEncoded(f.skipped1, 4, s7);
    ReadEncoded(f.skipped2, 4, s8);
    ReadEncoded(f.aot, 4, rest);
  }

  // ---------------------------------------------------------------------
  // The `.cmp` layout

  /** A `.cmp` file: the longitude of each of the nx columns, the latitude
      of each of the ny rows, and the nx x ny aerosol values, row by row.
      Floats are kept as their bit patterns. */
  datatype CmpFile = CmpFile(lon: seq<nat>, lat: seq<nat>, aot: seq<nat>)
  {
    predicate Valid()
    {
      IsCount(|lon|) && IsCount(|lat|) && |aot| == |lon| * |lat| &&
      IsWords32(lon) && IsWords32(lat) && IsWords32(aot)
    }
  }

  /** The bytes of a `.cmp` file followed by `rest`: int32 nx, int32 ny,
      then the three arrays. */
  function CmpBytes(f: CmpFile, rest: seq<Byte>): (r: seq<Byte>)
    requires f.Valid()
  {
    Encode([|f.lon|], 4) + (Encode([|f.lat|], 4) +
    (Encode(f.lon, 4) + (Encode(f.lat, 4) + (Encode(f.aot, 4) + rest))))
  }

  /** The reads of `read_cmp`: nx and ny one at a time, then the arrays. */
  function DecodeCmp(bytes: seq<Byte>): (r: Result<CmpFile, AotError>)
    ensures r.Ok? ==> r.value.Valid()
  {
    var (nxs, s1) :- Read(bytes, 4, 1);
    var (nys, s2) :- Read(s1, 4, 1);
    var nx, ny := ToSigned(nxs[0], 4), ToSigned(nys[0], 4);
    if nx < 0 || ny < 0 then Err(NegativeCount)
    else
      var (lon, s3) :- Read(s2, 4, nx);
      var (lat, s4) :- Read(s3, 4, ny);
      var (aot, _) :- Read(s4, 4, nx * ny);
      Ok(CmpFile(lon, lat, aot))
  }

  lemma CmpArraysRoundTrip(f: CmpFile, rest: seq<Byte>)
    requires f.Valid()
    ensures Read(Encode(f.lon, 4) + (Encode(f.lat, 4) + (Encode(f.aot, 4) + rest)), 4, |f.lon|)
      == Ok((f.lon, Encode(f.lat, 4) + (Encode(f.aot, 4) + rest)))
    ensures Read(Encode(f.lat, 4) + (Encode(f.aot, 4) + rest), 4, |f.lat|) == Ok((f.lat, Encode(f.aot, 4) + rest))
    ensures Read(Encode(f.aot, 4) + rest, 4, |f.lon| * |f.lat|) == Ok((f.aot, rest))
  {
    ReadEncoded(f.lon, 4, Encode(f.lat, 4) + (Encode(f.aot, 4) + rest));
    ReadEncoded(f.lat, 4, Encode(f.aot, 4) + rest);
    ReadEncoded(f.aot, 4, rest);
  }

  /** Reading a `.cmp` file gives back what was written. */
  lemma CmpRoundTrip(f: CmpFile, rest: seq<Byte>)
    requires f.Valid()
    ensures DecodeCmp(CmpBytes(f, rest)) == Ok(f)
  {
    var s2 := Encode(f.lon, 4) + (Encode(f.lat, 4) + (Encode(f.aot, 4) + rest));
    var s1 := Encode([|f.lat|], 4) + s2;
    ReadEncoded([|f.lon|], 4, s1);
    ReadEncoded([|f.lat|], 4, s2);
    assert ToSigned([|f.lon|][0], 4) == |f.lon|;
    assert ToSigned([|f.lat|][0], 4) == |f.lat|;
    CmpArraysRoundTrip(f, rest);
  }

  // ---------------------------------------------------------------------
  // Observations

  /** numpy's index `i` on an axis of length `len`: a negative index counts
      from the end, anything outside `-len .. len - 1` is an IndexError. */
  function PyIndex(len: nat, i: int): (r: Option<nat>)
    ensures r.Some? <==> -(len as int) <= i < len
    ensures r.Some? ==> r.value < len && (if i >= 0 then r.value == i else r.value == len + i)
  {
    if 0 <= i < len then Some(i)
    else if -(len as int) <= i < 0 then Some(len + i)
    else None
  }

  /** `grid[idx]`: the grid value at each index, or an IndexError when one
      index is out of range. */
  function Gridded(grid: seq<nat>, idx: seq<int>): (r: Result<seq<nat>, AotError>)
    ensures r.Ok? <==> forall k :: 0 <= k < |idx| ==> PyIndex(|grid|, idx[k]).Some?
    ensures r.Err? ==> r.error == IndexError
    ensures r.Ok? ==> (|r.value| == |idx| &&
      forall k :: 0 <= k < |idx| ==> r.value[k] == grid[PyIndex(|grid|, idx[k]).value])
  {
    if forall k :: 0 <= k < |idx| ==> PyIndex(|grid|, idx[k]).Some? then
      Ok(seq(|idx|, k requires 0 <= k < |idx| && PyIndex(|grid|, idx[k]).Some? => grid[PyIndex(|grid|, idx[k]).value]))
    else Err(IndexError)
  }

  /** A `datetime`: a date and a time of day. */
  datatype DateTime = DateTime(date: Date, hour: int, minute: int, second: int)

  /** What `datetime(...)` accepts. */
  predicate ValidDateTime(t: DateTime)
  {
    ValidDate(t.date) && 0 <= t.hour < 24 && 0 <= t.minute < 60 && 0 <= t.second < 60
  }

  /** Column `i` of the 3 x n `date` and `time` arrays. */
  function Column(date: seq<int>, time: seq<int>, n: nat, i: nat): (t: DateTime)
    requires |date| == 3 * n && |time| == 3 * n && i < n
  {
    DateTime(Date(date[i], date[n + i], date[2 * n + i]), time[i], time[n + i], time[2 * n + i])
  }

  /** The timestamps of the n observations, or the ValueError of the first
      column `datetime` refuses. */
  function TimestampsOf(date: seq<int>, time: seq<int>, n: nat): (r: Result<seq<DateTime>, AotError>)
    requires |date| == 3 * n && |time| == 3 * n
  {
    if forall i :: 0 <= i < n ==> ValidDateTime(Column(date, time, n, i)) then
      Ok(seq(n, i requires 0 <= i < n => Column(date, time, n, i)))
    else Err(ValueError)
  }

  /** The loop of `read_pix` building the timestamps. */
  method Timestamps(date: seq<int>, time: seq<int>, n: nat) returns (r: Result<seq<DateTime>, AotError>)
    requires |date| == 3 * n && |time| == 3 * n
    ensures r == TimestampsOf(date, time, n)
    ensures r.Ok? <==> forall i :: 0 <= i < n ==> ValidDateTime(Column(date, time, n, i))
    ensures r.Ok? ==> |r.value| == n && forall i :: 0 <= i < n ==> r.value[i] == Column(date, time, n, i)
  {
    var timestamps: seq<DateTime> := [];
    var i := 0;
    while i < n
      invariant 0 <= i <= n
      invariant forall k :: 0 <= k < i ==> ValidDateTime(Column(date, time, n, k))
      invariant timestamps == seq(i, k requires 0 <= k < i => Column(date, time, n, k))
    {
      var t := Column(date, time, n, i);
      if !ValidDateTime(t) {
        return Err(ValueError);
      }
      timestamps := timestamps + [t];
      i := i + 1;
    }
    return Ok(timestamps);
  }

  /** A row of a table: a timestamp (only `.pix` observations have one),
      the longitude, the latitude and the aerosol value. */
  datatype Record = Record(timestamp: Option<DateTime>, lon: Num, lat: Num, aerosol: Num)

  /** Every observation's grid indices are valid numpy indices. */
  predicate IndicesInRange(f: PixFile)
    requires f.Valid()
  {
    (forall k :: 0 <= k < |f.aot| ==> PyIndex(|f.xgrid|, f.idxlon[k]).Some?) &&
    (forall k :: 0 <= k < |f.aot| ==> PyIndex(|f.ygrid|, f.idxlat[k]).Some?)
  }

  /** The rows of a `.pix` file, before filtering: the grid longitude and
      latitude of each observation, its timestamp and its aerosol value. */
  function PixRecords(f: PixFile): (r: Result<seq<Record>, AotError>)
    requires f.Valid()
    ensures r.Ok? <==> IndicesInRange(f) &&
                       forall k :: 0 <= k < |f.aot| ==> ValidDateTime(Column(f.date, f.time, |f.aot|, k))
    ensures r.Err? ==> (r.error == IndexError <==> !IndicesInRange(f))
    ensures r.Err? ==> (r.error == ValueError <==> IndicesInRange(f))
    ensures r.Ok? ==> |r.value| == |f.aot| && forall k :: 0 <= k < |f.aot| ==>
      r.value[k] == Record(Some(Column(f.date, f.time, |f.aot|, k)),
                           Float32(f.xgrid[PyIndex(|f.xgrid|, f.idxlon[k]).value]),
                           Float32(f.ygrid[PyIndex(|f.ygrid|, f.idxlat[k]).value]),
                           Float32(f.aot[k]))
  {
    var n := |f.aot|;
    var lon :- Gridded(f.xgrid, f.idxlon);
    var lat :- Gridded(f.ygrid, f.idxlat);
    var timestamps :- TimestampsOf(f.date, f.time, n);
    assert IsWords32(lon) && IsWords32(lat);
    Ok(seq(n, k requires 0 <= k < n => Record(Some(timestamps[k]), Float32(lon[k]), Float32(lat[k]), Float32(f.aot[k]))))
  }

  /** `x` copied `k` times. */
  function Copies(x: nat, k: nat): (r: seq<nat>)
    ensures |r| == k && forall i :: 0 <= i < k ==> r[i] == x
  {
    seq(k, _ => x)
  }

  /** `s` repeated `k` times: the longitude of each grid cell, row by
      row. */
  function Repeat(s: seq<nat>, k: nat): (r: seq<nat>)
    ensures |r| == k * |s|
  {
    if k == 0 then [] else Repeat(s, k - 1) + s
  }

  /** Each element of `s` copied `k` times: the latitude of each grid
      cell, row by row. */
  function Stretch(s: seq<nat>, k: nat): (r: seq<nat>)
    ensures |r| == |s| * k
  {
    if |s| == 0 then [] else Stretch(s[..|s| - 1], k) + Copies(s[|s| - 1], k)
  }

  lemma MulLe(a: nat, b: nat, c: nat)
    requires a <= b
    ensures a * c <= b * c
  {
  }

  /** Cell (j, i) of the repeated row is `s[i]`. */
  lemma {:induction false} RepeatAt(s: seq<nat>, k: nat, j: nat, i: nat)
    requires j < k && i < |s|
    ensures j * |s| + i < |Repeat(s, k)| && Repeat(s, k)[j * |s| + i] == s[i]
  {
    var w := |s|;
    var front := Repeat(s, k - 1);
    assert Repeat(s, k) == front + s;
    if j < k - 1 {
      RepeatAt(s, k - 1, j, i);
      MulLe(j + 1, k - 1, w);
      assert j * w + i < |front|;
    } else {
      assert j * w == |front|;
    }
  }

  /** Cell (j, i) of the stretched column is `s[j]`. */
  lemma {:induction false} StretchAt(s: seq<nat>, k: nat, j: nat, i: nat)
    requires j < |s| && i < k
    ensures j * k + i < |Stretch(s, k)| && Stretch(s, k)[j * k + i] == s[j]
  {
    var front := s[..|s| - 1];
    if j < |s| - 1 {
      StretchAt(front, k, j, i);
      MulLe(j + 1, |front|, k);
      assert j * k + i < |front| * k;
    } else {
      assert j * k == |front| * k;
    }
  }

  /** The nested loop of `read_cmp`: for each row j, for each column i,
      the longitude `lon[i]` and the latitude `lat[j]`. */
  method CmpCoordinates(lon: seq<nat>, lat: seq<nat>) returns (obsLon: seq<nat>, obsLat: seq<nat>)
    ensures obsLon == Repeat(lon, |lat|) && obsLat == Stretch(lat, |lon|)
  {
    obsLon, obsLat := [], [];
    var nx, ny := |lon|, |lat|;
    for j := 0 to ny
      invariant obsLon == Repeat(lon, j) && obsLat == Stretch(lat[..j], nx)
    {
      for i := 0 to nx
        invariant obsLon == Repeat(lon, j) + lon[..i] && obsLat == Stretch(lat[..j], nx) + Copies(lat[j], i)
      {
        obsLon := obsLon + [lon[i]];
        obsLat := obsLat + [lat[j]];
        assert lon[..i + 1] == lon[..i] + [lon[i]];
        assert Copies(lat[j], i + 1) == Copies(lat[j], i) + [lat[j]];
      }
      assert lon[..nx] == lon;
      assert lat[..j + 1][..j] == lat[..j];
    }
    assert lat[..ny] == lat;
  }

  /** The rows of a `.cmp` file, before filtering: cell j * nx + i has the
      longitude of column i, the latitude of row j and its aerosol value. */
  function CmpRecords(f: CmpFile): (r: seq<Record>)
    requires f.Valid()
    ensures |r| == |f.aot|
  {
    var lons, lats := Repeat(f.lon, |f.lat|), Stretch(f.lat, |f.lon|);
    assert IsWords32(lons) && IsWords32(lats) by {
      forall k | 0 <= k < |lons| ensures lons[k] < Pow256(4) && lats[k] < Pow256(4) {
        RepeatedFrom(f.lon, |f.lat|, k);
        StretchedFrom(f.lat, |f.lon|, k);
      }
    }
    seq(|f.aot|, k requires 0 <= k < |f.aot| => Record(None, Float32(lons[k]), Float32(lats[k]), Float32(f.aot[k])))
  }

  lemma {:induction false} RepeatedFrom(s: seq<nat>, k: nat, m: nat)
    requires m < |Repeat(s, k)|
    ensures Repeat(s, k)[m] in s
  {
    if m < |Repeat(s, k - 1)| {
      RepeatedFrom(s, k - 1, m);
    }
  }

  lemma {:induction false} StretchedFrom(s: seq<nat>, k: nat, m: nat)
    requires m < |Stretch(s, k)|
    ensures Stretch(s, k)[m] in s
  {
    var front := s[..|s| - 1];
    if m < |Stretch(front, k)| {
      StretchedFrom(front, k, m);
      assert Stretch(front, k)[m] in front;
    }
  }

  /** Cell (j, i) of a `.cmp` grid. */
  lemma CmpRecordAt(f: CmpFile, j: nat, i: nat)
    requires f.Valid() && j < |f.lat| && i < |f.lon|
    ensures j * |f.lon| + i < |CmpRecords(f)|
    ensures CmpRecords(f)[j * |f.lon| + i] ==
      Record(None, Float32(f.lon[i]), Float32(f.lat[j]), Float32(f.aot[j * |f.lon| + i]))
  {
    RepeatAt(f.lon, |f.lat|, j, i);
    StretchAt(f.lat, |f.lon|, j, i);
  }

  // ---------------------------------------------------------------------
  // Filtering and extents

  /** The rows kept: `aerosol > 0.0` and `aerosol <= 1.0`, both false for
      NaN. */
  predicate Kept(aerosol: Num)
  {
    aerosol.Finite? && 0.0 < aerosol.value <= 1.0
  }

  /** `df[wh]` followed by `reset_index`: the kept rows, in order. */
  function Filter(rs: seq<Record>): (r: seq<Record>)
    ensures |r| <= |rs|
    ensures forall x :: x in r <==> x in rs && Kept(x.aerosol)
  {
    if |rs| == 0 then []
    else (if Kept(rs[0].aerosol) then [rs[0]] else []) + Filter(rs[1..])
  }

  /** Filtering keeps the order of the rows: filtering two tables one after
      the other is filtering each. */
  lemma {:induction false} FilterConcat(a: seq<Record>, b: seq<Record>)
    ensures Filter(a + b) == Filter(a) + Filter(b)
  {
    if |a| > 0 {
      assert (a + b)[0] == a[0];
      assert (a + b)[1..] == a[1..] + b;
      FilterConcat(a[1..], b);
      var head := if Kept(a[0].aerosol) then [a[0]] else [];
      assert Filter(a + b) == head + (Filter(a[1..]) + Filter(b));
      assert Filter(a) == head + Filter(a[1..]);
    } else {
      assert a + b == b;
    }
  }

  /** `a <= b` on numbers that are not NaN. */
  predicate Le(a: Num, b: Num)
  {
    a.NegInf? || b.PosInf? || (a.Finite? && b.Finite? && a.value <= b.value)
  }

  /** `Series.min()`: the least number that is not NaN, or NaN when there
      is none. */
  function MinNum(xs: seq<Num>): (r: Num)
    ensures r.NaN? <==> forall k :: 0 <= k < |xs| ==> xs[k].NaN?
    ensures !r.NaN? ==> r in xs && forall k :: 0 <= k < |xs| && !xs[k].NaN? ==> Le(r, xs[k])
  {
    if |xs| == 0 then NaN
    else
      var front := xs[..|xs| - 1];
      var m, x := MinNum(front), xs[|xs| - 1];
      assert forall k :: 0 <= k < |front| ==> front[k] == xs[k];
      if x.NaN? then m else if m.NaN? || Le(x, m) then x else m
  }

  /** `Series.max()`: the greatest number that is not NaN, or NaN when there
      is none. */
  function MaxNum(xs: seq<Num>): (r: Num)
    ensures r.NaN? <==> forall k :: 0 <= k < |xs| ==> xs[k].NaN?
    ensures !r.NaN? ==> r in xs && forall k :: 0 <= k < |xs| && !xs[k].NaN? ==> Le(xs[k], r)
  {
    if |xs| == 0 then NaN
    else
      var front := xs[..|xs| - 1];
      var m, x := MaxNum(front), xs[|xs| - 1];
      assert forall k :: 0 <= k < |front| ==> front[k] == xs[k];
      if x.NaN? then m else if m.NaN? || Le(m, x) then x else m
  }

  function Lons(rs: seq<Record>): (r: seq<Num>)
    ensures |r| == |rs|
  {
    seq(|rs|, k requires 0 <= k < |rs| => rs[k].lon)
  }

  function Lats(rs: seq<Record>): (r: seq<Num>)
    ensures |r| == |rs|
  {
    seq(|rs|, k requires 0 <= k < |rs| => rs[k].lat)
  }

  /** The corners of a box as (lon, lat) pairs. */
  datatype Box = Box(ul: (Num, Num), ur: (Num, Num), lr: (Num, Num), ll: (Num, Num))

  /** The minimum bounding box of the rows. */
  function Extents(rs: seq<Record>): Box
  {
    var west, east := MinNum(Lons(rs)), MaxNum(Lons(rs));
    var south, north := MinNum(Lats(rs)), MaxNum(Lats(rs));
    Box((west, north), (east, north), (east, south), (west, south))
  }

  /** The box holds every row whose coordinates are numbers. */
  lemma ExtentsHold(rs: seq<Record>)
    ensures var b := Extents(rs);
      b.ul.0 == b.ll.0 && b.ur.0 == b.lr.0 && b.ul.1 == b.ur.1 && b.ll.1 == b.lr.1
    ensures var b := Extents(rs);
      forall x :: x in rs && !x.lon.NaN? ==> Le(b.ul.0, x.lon) && Le(x.lon, b.ur.0)
    ensures var b := Extents(rs);
      forall x :: x in rs && !x.lat.NaN? ==> Le(b.ll.1, x.lat) && Le(x.lat, b.ul.1)
  {
    var lons, lats := Lons(rs), Lats(rs);
    forall x | x in rs
      ensures x.lon in lons && x.lat in lats
    {
      var k :| 0 <= k < |rs| && rs[k] == x;
      assert lons[k] == x.lon && lats[k] == x.lat;
    }
  }

  /** Each side of the box passes through a row, unless no row has a
      number there. */
  lemma ExtentsAttained(rs: seq<Record>)
    ensures var b := Extents(rs);
      !b.ul.0.NaN? ==> (exists x :: x in rs && x.lon == b.ul.0) && (exists x :: x in rs && x.lon == b.ur.0)
    ensures var b := Extents(rs);
      !b.ll.1.NaN? ==> (exists x :: x in rs && x.lat == b.ll.1) && (exists x :: x in rs && x.lat == b.ul.1)
  {
    var lons, lats := Lons(rs), Lats(rs);
    forall v | v in lons
      ensures exists x :: x in rs && x.lon == v
    {
      var k :| 0 <= k < |lons| && lons[k] == v;
      assert rs[k] in rs;
    }
    forall v | v in lats
      ensures exists x :: x in rs && x.lat == v
    {
      var k :| 0 <= k < |lats| && lats[k] == v;
      assert rs[k] in rs;
    }
  }

  /** A table as written: the kept rows and their bounding box. */
  datatype Table = Table(records: seq<Record>, extents: Box)

  function Tabulate(rs: seq<Record>): (t: Table)
    ensures forall x :: x in t.records <==> x in rs && Kept(x.aerosol)
  {
    var kept := Filter(rs);
    Table(kept, Extents(kept))
  }

  /** `read_pix` on the bytes of a file. */
  function ReadPix(bytes: seq<Byte>): (r: Result<Table, AotError>)
    ensures DecodePix(bytes).Err? ==> r == Err(DecodePix(bytes).error)
    ensures r.Ok? ==> forall x :: x in r.value.records ==> Kept(x.aerosol)
  {
    var f :- DecodePix(bytes);
    var rs :- PixRecords(f);
    Ok(Tabulate(rs))
  }

  /** `read_cmp` on the bytes of a file. */
  function ReadCmp(bytes: seq<Byte>): (r: Result<Table, AotError>)
    ensures r.Ok? <==> DecodeCmp(bytes).Ok?
    ensures r.Ok? ==> forall x :: x in r.value.records ==> Kept(x.aerosol)
  {
    var f :- DecodeCmp(bytes);
    Ok(Tabulate(CmpRecords(f)))
  }

  /** A written `.pix` file reads back as its kept observations. */
  lemma ReadPixFile(f: PixFile, rest: seq<Byte>)
    requires f.Valid()
    ensures ReadPix(PixBytes(f, rest)).Ok? <==> PixRecords(f).Ok?
    ensures PixRecords(f).Ok? ==> ReadPix(PixBytes(f, rest)).value.records == Filter(PixRecords(f).value)
  {
    PixRoundTrip(f, rest);
  }

  /** A written `.cmp` file reads back as its kept grid cells. */
  lemma ReadCmpFile(f: CmpFile, rest: seq<Byte>)
    requires f.Valid()
    ensures ReadCmp(CmpBytes(f, rest)).Ok?
    ensures ReadCmp(CmpBytes(f, rest)).value.records == Filter(CmpRecords(f))
  {
    CmpRoundTrip(f, rest);
  }

  // ---------------------------------------------------------------------
  // Output naming and the conversion of a directory

  /** `os.path.basename`: what follows the last `/`. */
  function BaseName(p: string): (r: string)
    ensures '/' !in r && |r| <= |p| && r == p[|p| - |r|..]
  {
    var slash := Acquisition.LastIndexOf(p, '/');
    var r := p[slash + 1..];
    assert '/' !in r by {
      forall k | 0 <= k < |r|
        ensures r[k] != '/'
      {
        assert r[k] == p[slash + 1 + k];
      }
    }
    r
  }

  /** `posixpath.join(a, b)`: `b` when it is absolute, otherwise `b` after
      `a` with a `/` between them unless `a` is empty or already ends in
      one. */
  function PosixJoin(a: string, b: string): (r: string)
    ensures |b| > 0 && b[0] == '/' ==> r == b
    ensures (|b| == 0 || b[0] != '/') && |a| > 0 && a[|a| - 1] != '/' ==> r == a + "/" + b
  {
    if |b| > 0 && b[0] == '/' then b
    else if |a| == 0 || a[|a| - 1] == '/' then a + b
    else a + "/" + b
  }

  /** The extension of a file name (after its last dot, without the dot)
      and the path of its table in the output file: `<extension>/<name
      without its extension>`. */
  function OutName(fname: string): (r: (string, string))
    ensures '.' !in r.0
  {
    var (pth, dotted) := Acquisition.SplitExt(fname);
    SplitPiecesFree(dotted, '.');
    var parts := Split(dotted, ".");
    var ext := parts[|parts| - 1];
    (ext, PosixJoin(ext, BaseName(pth)))
  }

  /** A file the `*.pix` or `*.cmp` pattern lists in `dir` is written to
      `pix/<stem>` or `cmp/<stem>`; the pattern never lists a hidden
      file, whose name starts with a dot. */
  lemma OutNameOfListed(dir: string, stem: string, ext: string)
    requires ext == "pix" || ext == "cmp"
    requires |stem| > 0 && stem[0] != '.' && '/' !in stem
    ensures OutName(dir + "/" + stem + "." + ext) == (ext, ext + "/" + stem)
  {
    SplitExtOfListed(dir, stem, ext);
    SplitDotted(ext);
    BaseNameOfChild(dir, stem);
  }

  lemma SplitDotted(ext: string)
    requires '.' !in ext
    ensures Split("." + ext, ".") == ["", ext]
  {
    SplitFirst("", '.', ext);
    SplitNone(ext, '.');
    assert "" + ['.'] + ext == "." + ext;
  }

  lemma BaseNameOfChild(dir: string, name: string)
    requires '/' !in name
    ensures BaseName(dir + "/" + name) == name
  {
    var p := dir + "/" + name;
    forall k | |dir| < k < |p|
      ensures p[k] != '/'
    {
      assert p[k] == name[k - |dir| - 1];
    }
    Acquisition.LastIndexAt(p, '/', |dir|);
    assert p[|dir| + 1..] == name;
  }

  lemma SplitExtOfListed(dir: string, stem: string, ext: string)
    requires |ext| > 0 && '.' !in ext && '/' !in ext
    requires |stem| > 0 && stem[0] != '.' && '/' !in stem
    ensures Acquisition.SplitExt(dir + "/" + stem + "." + ext) == (dir + "/" + stem, "." + ext)
  {
    var pth := dir + "/" + stem;
    var p := pth + "." + ext;
    var dot := |pth|;
    assert p[dot] == '.' && p[|dir|] == '/' && p[|dir| + 1] == stem[0];
    forall k | dot < k < |p|
      ensures p[k] != '.' && p[k] != '/'
    {
      assert p[k] == ext[k - dot - 1];
    }
    forall k | |dir| < k < dot
      ensures p[k] != '/'
    {
      assert p[k] == stem[k - |dir| - 1];
    }
    Acquisition.LastIndexAt(p, '.', dot);
    Acquisition.LastIndexAt(p, '/', |dir|);
    assert p[..dot] == pth && p[dot..] == "." + ext;
  }

  /** A table written to the output file, with the file it came from. */
  datatype Output = Output(path: string, source: string, table: Table)

  /** One file of `run`: read by the reader its extension selects, and
      written under its output name; an extension other than `pix` and
      `cmp` has no reader (a KeyError). */
  function Convert(fname: string, bytes: seq<Byte>): (r: Result<Output, AotError>)
    ensures OutName(fname).0 != "pix" && OutName(fname).0 != "cmp" ==> r == Err(KeyError)
    ensures OutName(fname).0 == "pix" ==> (r.Ok? <==> ReadPix(bytes).Ok?)
    ensures OutName(fname).0 == "cmp" ==> (r.Ok? <==> ReadCmp(bytes).Ok?)
    ensures r.Ok? ==> r.value.path == OutName(fname).1 && r.value.source == fname
  {
    var (ext, path) := OutName(fname);
    var table :- if ext == "pix" then ReadPix(bytes) else if ext == "cmp" then ReadCmp(bytes) else Err(KeyError);
    Ok(Output(path, fname, table))
  }

  /** Converting one file whose bytes `contents` gives. */
  function ConvertStep(contents: string -> seq<Byte>): string -> Result<Output, AotError>
  {
    fname => Convert(fname, contents(fname))
  }

  /** `run`: every file the `*.pix` pattern lists, then every file the
      `*.cmp` pattern lists, converted in turn; the first failure ends the
      run. */
  method Run(pixFiles: seq<string>, cmpFiles: seq<string>, contents: string -> seq<Byte>)
    returns (r: Result<seq<Output>, AotError>)
    ensures r == MapAll(pixFiles + cmpFiles, ConvertStep(contents))
  {
    var files := pixFiles + cmpFiles;
    var outputs: seq<Output> := [];
    for i := 0 to |files|
      invariant MapAll(files[..i], ConvertStep(contents)) == Ok(outputs)
    {
      var out := Convert(files[i], contents(files[i]));
      MapAllPrefix(files, i, ConvertStep(contents));
      if out.Err? {
        return Err(out.error);
      }
      outputs := outputs + [out.value];
    }
    assert files[..|files|] == files;
    return Ok(outputs);
  }

  /** A successful run writes each listed file under its output name, in
      order. */
  lemma RunOutputs(files: seq<string>, contents: string -> seq<Byte>)
    requires MapAll(files, ConvertStep(contents)).Ok?
    ensures |MapAll(files, ConvertStep(contents)).value| == |files|
    ensures forall k :: 0 <= k < |files| ==>
      MapAll(files, ConvertStep(contents)).value[k].path == OutName(files[k]).1 &&
      MapAll(files, ConvertStep(contents)).value[k].source == files[k]
  {
    MapAllMeaning(files, ConvertStep(contents));
  }
}
