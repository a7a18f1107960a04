/** Calendar dates as Python's `datetime.date` handles them: the proleptic
    Gregorian calendar, ordinals (`toordinal`), comparison, and the two
    directory-name formats the BRDF lookups parse: `%Y.%m.%d` and the
    day of year `%j`. */
module Dates {
  import opened Wrappers
  import opened Text

  datatype Date = Date(year: int, month: int, day: int)

  predicate IsLeap(y: int)
  {
    y % 4 == 0 && (y % 100 != 0 || y % 400 == 0)
  }

  function DaysInYear(y: int): int
  {
    if IsLeap(y) then 366 else 365
  }

  function DaysInMonth(y: int, m: int): int
  {
    if m == 2 then (if IsLeap(y) then 29 else 28)
    else if m == 4 || m == 6 || m == 9 || m == 11 then 30
    else 31
  }

  /** Days in the months of year y before month m. */
  function DaysBeforeMonth(y: int, m: int): int
    requires 1 <= m <= 13
  {
    if m == 1 then 0 else DaysBeforeMonth(y, m - 1) + DaysInMonth(y, m - 1)
  }

  /** Days in the years before year y, counting from year 1. */
  function DaysBeforeYear(y: int): int
    requires 1 <= y
  {
    var p := y - 1;
    365 * p + p / 4 - p / 100 + p / 400
  }

  /** A date `datetime.date` accepts. */
  predicate ValidDate(d: Date)
  {
    1 <= d.year <= 9999 && 1 <= d.month <= 12 && 1 <= d.day <= DaysInMonth(d.year, d.month)
  }

  /** `date.toordinal()`: 1 for 0001-01-01. */
  function Ordinal(d: Date): int
    requires ValidDate(d)
  {
    DaysBeforeYear(d.year) + DaysBeforeMonth(d.year, d.month) + d.day
  }

  /** `a < b` for dates: lexicographic on (year, month, day). */
  predicate Before(a: Date, b: Date)
  {
    a.year < b.year || (a.year == b.year && (a.month < b.month || (a.month == b.month && a.day < b.day)))
  }

  lemma DivStep(p: nat)
    ensures (p + 1) / 4 == p / 4 + (if (p + 1) % 4 == 0 then 1 else 0)
    ensures (p + 1) / 100 == p / 100 + (if (p + 1) % 100 == 0 then 1 else 0)
    ensures (p + 1) / 400 == p / 400 + (if (p + 1) % 400 == 0 then 1 else 0)
  {
  }

  lemma MonthTotals(y: int)
    ensures DaysBeforeMonth(y, 13) == DaysInYear(y)
  {
    assert DaysBeforeMonth(y, 2) == 31;
    assert DaysBeforeMonth(y, 3) == 31 + DaysInMonth(y, 2);
    assert DaysBeforeMonth(y, 4) == DaysBeforeMonth(y, 3) + 31;
    assert DaysBeforeMonth(y, 5) == DaysBeforeMonth(y, 3) + 61;
    assert DaysBeforeMonth(y, 6) == DaysBeforeMonth(y, 5) + 31;
    assert DaysBeforeMonth(y, 7) == DaysBeforeMonth(y, 5) + 61;
    assert DaysBeforeMonth(y, 8) == DaysBeforeMonth(y, 7) + 31;
    assert DaysBeforeMonth(y, 9) == DaysBeforeMonth(y, 7) + 62;
    assert DaysBeforeMonth(y, 10) == DaysBeforeMonth(y, 9) + 30;
    assert DaysBeforeMonth(y, 11) == DaysBeforeMonth(y, 9) + 61;
    assert DaysBeforeMonth(y, 12) == DaysBeforeMonth(y, 11) + 30;
    assert DaysBeforeMonth(y, 13) == DaysBeforeMonth(y, 11) + 61;
  }

  /** A year has as many days as its twelve months, and the day count of
      the years before it grows by exactly that much. */
  lemma YearLength(y: int)
    requires 1 <= y
    ensures DaysBeforeYear(y + 1) == DaysBeforeYear(y) + DaysInYear(y)
    ensures DaysBeforeMonth(y, 13) == DaysInYear(y)
  {
    DivStep(y - 1);
    MonthTotals(y);
    if y % 400 == 0 {
      assert y % 100 == 0 && y % 4 == 0;
    } else if y % 100 == 0 {
      assert y % 4 == 0;
    }
  }

  lemma {:induction false} DaysBeforeYearMonotone(a: int, b: int)
    requires 1 <= a <= b
    ensures DaysBeforeYear(a) + (b - a) * 365 <= DaysBeforeYear(b)
    decreases b - a
  {
    if a < b {
      DaysBeforeYearMonotone(a, b - 1);
      YearLength(b - 1);
    }
  }

  lemma {:induction false} DaysBeforeMonthMonotone(y: int, a: int, b: int)
    requires 1 <= a <= b <= 13
    ensures DaysBeforeMonth(y, a) + (b - a) * 28 <= DaysBeforeMonth(y, b)
    decreases b - a
  {
    if a < b {
      DaysBeforeMonthMonotone(y, a, b - 1);
    }
  }

  /** A date's ordinal lies within its year and within its month. */
  lemma OrdinalRange(d: Date)
    requires ValidDate(d)
    ensures DaysBeforeYear(d.year) < Ordinal(d) <= DaysBeforeYear(d.year + 1)
    ensures DaysBeforeMonth(d.year, d.month) < DaysBeforeMonth(d.year, d.month) + d.day <= DaysBeforeMonth(d.year, d.month + 1)
  {
    YearLength(d.year);
    DaysBeforeMonthMonotone(d.year, 1, d.month);
    DaysBeforeMonthMonotone(d.year, d.month + 1, 13);
    assert DaysBeforeMonth(d.year, d.month + 1) == DaysBeforeMonth(d.year, d.month) + DaysInMonth(d.year, d.month);
  }

  /** Ordinals order dates as Python compares them. */
  lemma OrdinalMonotone(a: Date, b: Date)
    requires ValidDate(a) && ValidDate(b)
    ensures Before(a, b) <==> Ordinal(a) < Ordinal(b)
    ensures a == b <==> Ordinal(a) == Ordinal(b)
  {
    if a.year < b.year {
      OrdinalYearOrder(a, b);
    } else if b.year < a.year {
      OrdinalYearOrder(b, a);
    } else if a.month < b.month {
      OrdinalMonthOrder(a, b);
    } else if b.month < a.month {
      OrdinalMonthOrder(b, a);
    }
  }

  /** A date of an earlier year has the smaller ordinal. */
  lemma OrdinalYearOrder(a: Date, b: Date)
    requires ValidDate(a) && ValidDate(b) && a.year < b.year
    ensures Ordinal(a) < Ordinal(b)
  {
    OrdinalRange(a);
    OrdinalRange(b);
    DaysBeforeYearMonotone(a.year + 1, b.year);
  }

  /** Within a year, a date of an earlier month has the smaller ordinal. */
  lemma OrdinalMonthOrder(a: Date, b: Date)
    requires ValidDate(a) && ValidDate(b) && a.year == b.year && a.month < b.month
    ensures Ordinal(a) < Ordinal(b)
  {
    OrdinalRange(a);
    DaysBeforeMonthMonotone(a.year, a.month + 1, b.month);
  }

  /** The date of day `rem` counted from the first of month m. */
  function MonthOfDoy(y: int, rem: int, m: int): (d: Date)
    requires 1 <= y <= 9999 && 1 <= m <= 12
    requires 1 <= rem <= DaysBeforeMonth(y, 13) - DaysBeforeMonth(y, m)
    ensures ValidDate(d) && d.year == y
    ensures DaysBeforeMonth(y, d.month) + d.day == DaysBeforeMonth(y, m) + rem
    decreases 12 - m
  {
    if rem <= DaysInMonth(y, m) || m == 12 then Date(y, m, rem)
    else MonthOfDoy(y, rem - DaysInMonth(y, m), m + 1)
  }

  /** `strptime(f"{year} {doy}", "%Y %j").date()`: day `doy` of the year,
      where day 366 of a common year is the first of the next year; None
      past the last representable date. */
  function DateOfDoy(year: int, doy: int): (r: Option<Date>)
    requires 1 <= year <= 9999 && 1 <= doy <= 366
    ensures r.Some? ==> ValidDate(r.value) && Ordinal(r.value) == DaysBeforeYear(year) + doy
    ensures r.None? <==> year == 9999 && doy == 366
  {
    YearLength(year);
    if doy <= DaysInYear(year) then Some(MonthOfDoy(year, doy, 1))
    else if year < 9999 then Some(Date(year + 1, 1, 1))
    else None
  }

  predicate AllDigits(s: string)
  {
    forall k :: 0 <= k < |s| ==> IsDigit(s[k])
  }

  /** A `%j` field: one to three digits with a value from 1 to 366. */
  function ParseDoy(s: string): (r: Option<int>)
    ensures r.Some? ==> 1 <= r.value <= 366
  {
    if 1 <= |s| <= 3 && AllDigits(s) && 1 <= ParseNat(s) <= 366 then Some(ParseNat(s)) else None
  }

  /** `datetime.strptime(s, "%Y.%m.%d").date()`: four digits of year, one
      or two of month and of day, separated by dots, naming a real date. */
  function ParseDirDate(s: string): (r: Option<Date>)
    ensures r.Some? ==> ValidDate(r.value)
  {
    var parts := Split(s, ".");
    if |parts| != 3 then None
    else if !(|parts[0]| == 4 && AllDigits(parts[0])) then None
    else if !(1 <= |parts[1]| <= 2 && AllDigits(parts[1])) then None
    else if !(1 <= |parts[2]| <= 2 && AllDigits(parts[2])) then None
    else
      var d := Date(ParseNat(parts[0]), ParseNat(parts[1]), ParseNat(parts[2]));
      if ValidDate(d) then Some(d) else None
  }

  /** `date.strftime("%Y.%m.%d")`. */
  function FormatDirDate(d: Date): string
    requires ValidDate(d)
  {
    Padded(d.year, 4) + "." + Padded(d.month, 2) + "." + Padded(d.day, 2)
  }

  lemma {:induction false} ParseZeros(k: nat, s: string)
    requires AllDigits(s)
    ensures AllDigits(seq(k, _ => '0') + s)
    ensures ParseNat(seq(k, _ => '0') + s) == ParseNat(s)
    decreases |s|
  {
    var z: string := seq(k, _ => '0');
    if |s| == 0 {
      assert z + s == z;
      ZerosParse(k);
    } else {
      var t := z + s;
      assert t[..|t| - 1] == z + s[..|s| - 1];
      ParseZeros(k, s[..|s| - 1]);
    }
  }

  lemma {:induction false} ZerosParse(k: nat)
    ensures ParseNat(seq(k, _ => '0')) == 0
  {
    if k > 0 {
      var z: string := seq(k, _ => '0');
      assert z[..k - 1] == seq(k - 1, _ => '0');
      ZerosParse(k - 1);
    }
  }

  /** A zero-padded natural parses back to itself. */
  lemma PaddedParse(n: nat, w: nat)
    ensures AllDigits(Padded(n, w))
    ensures |Padded(n, w)| == if |NatToString(n)| >= w then |NatToString(n)| else w
    ensures ParseNat(Padded(n, w)) == n
  {
    var s := NatToString(n);
    ParseFormat(n);
    if |s| < w {
      ParseZeros(w - |s|, s);
    }
  }

  /** Day and month numbers print in at most two digits, years in at most
      four. */
  lemma {:induction false} NatToStringLength(n: nat)
    ensures n < 10 ==> |NatToString(n)| <= 1
    ensures n < 100 ==> |NatToString(n)| <= 2
    ensures n < 1000 ==> |NatToString(n)| <= 3
    ensures n < 10000 ==> |NatToString(n)| <= 4
  {
    if n >= 10 {
      NatToStringLength(n / 10);
    }
  }

  /** Three dot-free pieces joined by dots split back into the pieces. */
  lemma SplitThree(a: string, b: string, c: string)
    requires AllDigits(a) && AllDigits(b) && AllDigits(c)
    ensures Split(a + "." + b + "." + c, ".") == [a, b, c]
  {
    assert '.' !in a && '.' !in b && '.' !in c;
    SplitNone(c, '.');
    SplitFirst(b, '.', c);
    assert a + "." + b + "." + c == a + ['.'] + (b + ['.'] + c);
    SplitFirst(a, '.', b + ['.'] + c);
  }

  /** Directory names written by `strftime("%Y.%m.%d")` parse back to
      their date. */
  lemma DirDateRoundTrip(d: Date)
    requires ValidDate(d)
    ensures ParseDirDate(FormatDirDate(d)) == Some(d)
  {
    PaddedParse(d.year, 4);
    PaddedParse(d.month, 2);
    PaddedParse(d.day, 2);
    NatToStringLength(d.year);
    NatToStringLength(d.month);
    NatToStringLength(d.day);
    SplitThree(Padded(d.year, 4), Padded(d.month, 2), Padded(d.day, 2));
  }

  /** Why `datetime.date(*[int(x) for x in name.split(".")])` fails. */
  datatype DottedDateError = NotAnInt | NotThreeFields | NotADate

  /** Whether `int(x)` succeeds on every piece. */
  predicate AllInts(parts: seq<string>)
  {
    forall i :: 0 <= i < |parts| ==> |parts[i]| > 0 && AllDigits(parts[i])
  }

  /** `datetime.date(*[int(x) for x in name.split(".")])`: every piece is
      converted first, so a piece that is not a number fails before the
      number of pieces is checked. */
  function DateFromDottedInts(name: string): (r: Result<Date, DottedDateError>)
    ensures r.Ok? ==> ValidDate(r.value) && |Split(name, ".")| == 3
    ensures r == Err(NotAnInt) <==> !AllInts(Split(name, "."))
    ensures r == Err(NotThreeFields) <==> AllInts(Split(name, ".")) && |Split(name, ".")| != 3
  {
    var parts := Split(name, ".");
    if !AllInts(parts) then Err(NotAnInt)
    else if |parts| != 3 then Err(NotThreeFields)
    else
      var d := Date(ParseNat(parts[0]), ParseNat(parts[1]), ParseNat(parts[2]));
      if ValidDate(d) then Ok(d) else Err(NotADate)
  }

  /** A `%Y.%m.%d` directory name reads back as its date. */
  lemma DottedIntsRoundTrip(d: Date)
    requires ValidDate(d)
    ensures DateFromDottedInts(FormatDirDate(d)) == Ok(d)
  {
    PaddedParse(d.year, 4);
    PaddedParse(d.month, 2);
    PaddedParse(d.day, 2);
    var y, m, dd := Padded(d.year, 4), Padded(d.month, 2), Padded(d.day, 2);
    SplitThree(y, m, dd);
    var parts := Split(FormatDirDate(d), ".");
    assert parts == [y, m, dd];
    assert AllInts(parts) by {
      assert |y| > 0 && |m| > 0 && |dd| > 0;
    }
    assert Date(ParseNat(parts[0]), ParseNat(parts[1]), ParseNat(parts[2])) == d;
  }
}
