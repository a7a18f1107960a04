/** BRDF source selection in wagl: picking the BRDF day directory nearest
    to an acquisition (the MODIS `YYYY.MM.DD` archive or the day-of-year
    fallback archive), the tile-summary accumulator and its mean, and the
    decisions of `get_brdf_data`: user override, fallback choice and the
    31-day retry loop. */
module WaglBrdf {
  import opened Wrappers
  import opened Text
  import opened Dates

  datatype BrdfFailure =
    | NoBrdfRootError
    | KeyError(key: string)
    | ValueError
    | IndexError
    | TypeError

  /** `BrdfTier`, lowest precedence first. */
  datatype BrdfTier = BrdfFallbackDefault | BrdfFallbackDataset | BrdfDefinitive | BrdfUser

  /** `BrdfModelParameters`. */
  datatype ModelParameter = Iso | Vol | Geo

  /** `BrdfDirectionalParameters`. */
  datatype DirectionalParameter = Alpha1 | Alpha2

  /** The key `brdf["user"][alias]` is looked up with: `param.value.lower()`. */
  function UserKey(p: DirectionalParameter): string
  {
    match p
    case Alpha1 => "alpha-1"
    case Alpha2 => "alpha-2"
  }

  // ---------------------------------------------------------------------
  // Nearest date

  function Distance(a: Date, b: Date): nat
    requires ValidDate(a) && ValidDate(b)
  {
    if Ordinal(a) >= Ordinal(b) then Ordinal(a) - Ordinal(b) else Ordinal(b) - Ordinal(a)
  }

  /** The key `_date_proximity(target)` gives a date: its distance in days,
      then the negated year, month and day. */
  function ProximityKey(d: Date, target: Date): (int, int, int, int)
    requires ValidDate(d) && ValidDate(target)
  {
    (Distance(d, target), -d.year, -d.month, -d.day)
  }

  /** Python's `<` on tuples of integers. */
  predicate KeyLess(a: (int, int, int, int), b: (int, int, int, int))
  {
    a.0 < b.0 || (a.0 == b.0 && (a.1 < b.1 || (a.1 == b.1 && (a.2 < b.2 || (a.2 == b.2 && a.3 < b.3)))))
  }

  predicate AllValid(ds: seq<Date>)
  {
    forall i :: 0 <= i < |ds| ==> ValidDate(ds[i])
  }

  /** The position `min(ds[..n], key=_date_proximity(target))` returns:
      Python's `min` keeps the first element no later one undercuts. */
  function MinIndex(ds: seq<Date>, target: Date, n: nat): (r: nat)
    requires AllValid(ds) && ValidDate(target) && 1 <= n <= |ds|
    ensures r < n
    ensures forall k :: 0 <= k < n ==> !KeyLess(ProximityKey(ds[k], target), ProximityKey(ds[r], target))
    ensures forall k :: 0 <= k < r ==> KeyLess(ProximityKey(ds[r], target), ProximityKey(ds[k], target))
  {
    if n == 1 then 0
    else
      var m := MinIndex(ds, target, n - 1);
      var kn, km := ProximityKey(ds[n - 1], target), ProximityKey(ds[m], target);
      if KeyLess(kn, km) then
        assert forall k :: 0 <= k < n - 1 ==>
          KeyLess(kn, ProximityKey(ds[k], target)) && !KeyLess(ProximityKey(ds[k], target), kn) by {
          forall k | 0 <= k < n - 1
            ensures KeyLess(kn, ProximityKey(ds[k], target)) && !KeyLess(ProximityKey(ds[k], target), kn)
          {
            KeyLessBelow(kn, km, ProximityKey(ds[k], target));
          }
        }
        n - 1
      else m
  }

  /** A key below `b` is below every key not below `b`. */
  lemma KeyLessBelow(a: (int, int, int, int), b: (int, int, int, int), c: (int, int, int, int))
    requires KeyLess(a, b) && !KeyLess(c, b)
    ensures KeyLess(a, c) && !KeyLess(c, a)
  {
  }

  /** The chosen date is nearest to the target; among dates equally near it
      is the most recent, so it is never before another one at its distance. */
  lemma NearestMostRecent(ds: seq<Date>, target: Date)
    requires AllValid(ds) && ValidDate(target) && 1 <= |ds|
    ensures var r := MinIndex(ds, target, |ds|);
      forall k :: 0 <= k < |ds| ==>
        Distance(ds[r], target) <= Distance(ds[k], target) &&
        (Distance(ds[r], target) == Distance(ds[k], target) ==> !Before(ds[r], ds[k]))
  {
  }

  // ---------------------------------------------------------------------
  // MODIS directories: `get_brdf_dirs_modis`

  /** Some name in the listing parses as `%Y.%m.%d` to the date d. */
  predicate DatedName(listing: seq<string>, d: Date)
  {
    ValidDate(d) && exists s :: s in listing && ParseDirDate(s) == Some(d)
  }

  /** The dates of the names that parse as `%Y.%m.%d`, in order; the others
      are skipped. */
  function ParsedDates(names: seq<string>): (r: seq<Date>)
    ensures AllValid(r) && |r| <= |names|
    ensures forall d :: d in r <==> DatedName(names, d)
  {
    if |names| == 0 then []
    else
      var rest := ParsedDates(names[1..]);
      assert forall s :: s in names <==> s == names[0] || s in names[1..];
      match ParseDirDate(names[0])
      case Some(d) => [d] + rest
      case None => rest
  }

  /** `get_brdf_dirs_modis`: the name, re-formatted as `%Y.%m.%d`, of the
      dated directory nearest to the scene, most recent on ties; `min` of
      an empty list is a `ValueError`. */
  function GetBrdfDirsModis(listing: seq<string>, scene: Date): (r: Result<string, BrdfFailure>)
    requires ValidDate(scene)
    ensures r.Err? <==> forall s :: s in listing ==> ParseDirDate(s).None?
    ensures r.Err? ==> r.error == ValueError
    ensures r.Ok? ==> exists d :: (DatedName(listing, d) &&
      r.value == FormatDirDate(d) && ParseDirDate(r.value) == Some(d) &&
      forall e :: DatedName(listing, e) ==> Distance(d, scene) <= Distance(e, scene))
  {
    var names := Sorted(listing);
    var ds := ParsedDates(names);
    ModisCandidates(listing, names);
    if |ds| == 0 then
      assert forall s :: s in listing ==> ParseDirDate(s).None? by {
        forall s | s in listing
          ensures ParseDirDate(s).None?
        {
          assert ParseDirDate(s).Some? ==> DatedName(listing, ParseDirDate(s).value);
        }
      }
      Err(ValueError)
    else
      var m := MinIndex(ds, scene, |ds|);
      ModisNearest(ds, scene, listing);
      DirDateRoundTrip(ds[m]);
      Ok(FormatDirDate(ds[m]))
  }

  /** Sorting the listing does not change which dates it names. */
  lemma ModisCandidates(listing: seq<string>, names: seq<string>)
    requires multiset(names) == multiset(listing)
    ensures forall d :: DatedName(names, d) <==> DatedName(listing, d)
  {
    assert forall s :: s in names <==> s in listing by {
      forall s
        ensures s in names <==> s in listing
      {
        assert s in names <==> s in multiset(names);
        assert s in listing <==> s in multiset(listing);
      }
    }
  }

  lemma ModisNearest(ds: seq<Date>, scene: Date, listing: seq<string>)
    requires AllValid(ds) && ValidDate(scene) && |ds| > 0
    requires forall d :: d in ds <==> DatedName(listing, d)
    ensures var m := MinIndex(ds, scene, |ds|);
      DatedName(listing, ds[m]) &&
      forall e :: DatedName(listing, e) ==> Distance(ds[m], scene) <= Distance(e, scene)
  {
    var m := MinIndex(ds, scene, |ds|);
    NearestMostRecent(ds, scene);
    assert ds[m] in ds;
    forall e | DatedName(listing, e)
      ensures Distance(ds[m], scene) <= Distance(e, scene)
    {
      var p :| 0 <= p < |ds| && ds[p] == e;
    }
  }

  // ---------------------------------------------------------------------
  // Day-of-year fallback directories: `get_brdf_dirs_fallback`

  /** The sort key of the fallback listing: `x.zfill(3)`. */
  function ZFill3(s: string): string
  {
    ZFill(s, 3)
  }

  /** The candidates searched: the last day directory in the previous year,
      every day directory in the scene's year and the first one in the
      next year. */
  function FallbackEntries(doys: seq<string>, year: int): (r: seq<(int, string)>)
    requires |doys| > 0
    ensures |r| == |doys| + 2
    ensures r[0] == (year - 1, doys[|doys| - 1]) && r[|r| - 1] == (year + 1, doys[0])
    ensures forall i :: 0 <= i < |doys| ==> r[i + 1] == (year, doys[i])
  {
    [(year - 1, doys[|doys| - 1])] + seq(|doys|, i requires 0 <= i < |doys| => (year, doys[i])) + [(year + 1, doys[0])]
  }

  /** `strptime(" ".join((str(year), doy)), "%Y %j").date()`: `%Y` takes
      exactly four digits, so only years 1000 to 9999 are read back. */
  function EntryDate(entry: (int, string)): (r: Option<Date>)
    ensures r.Some? ==> ValidDate(r.value)
  {
    if 1000 <= entry.0 <= 9999 then
      match ParseDoy(entry.1)
      case Some(j) => DateOfDoy(entry.0, j)
      case None => None
    else None
  }

  /** The dates of all entries, or None when one of them does not parse. */
  function EntryDates(entries: seq<(int, string)>): (r: Option<seq<Date>>)
    ensures r.Some? <==> forall i :: 0 <= i < |entries| ==> EntryDate(entries[i]).Some?
    ensures r.Some? ==> (|r.value| == |entries| && AllValid(r.value) &&
      forall i :: 0 <= i < |entries| ==> EntryDate(entries[i]) == Some(r.value[i]))
  {
    if |entries| == 0 then Some([])
    else
      match EntryDate(entries[0])
      case None => None
      case Some(d) =>
        match EntryDates(entries[1..])
        case None => None
        case Some(ds) => Some([d] + ds)
  }

  /** Entry i is nearest to the scene among entries that all parse. */
  predicate NearestEntry(entries: seq<(int, string)>, scene: Date, i: int)
    requires ValidDate(scene)
  {
    0 <= i < |entries| && (forall k :: 0 <= k < |entries| ==> EntryDate(entries[k]).Some?) &&
    forall k :: 0 <= k < |entries| ==>
      Distance(EntryDate(entries[i]).value, scene) <= Distance(EntryDate(entries[k]).value, scene)
  }

  /** `get_brdf_dirs_fallback`: the day-of-year name of the entry nearest to
      the scene, the later entry on ties. An empty listing is an
      `IndexError` and an entry that is not a date a `ValueError`. */
  function GetBrdfDirsFallback(listing: seq<string>, scene: Date): (r: Result<string, BrdfFailure>)
    requires ValidDate(scene)
    ensures |listing| == 0 ==> r == Err(IndexError)
    ensures |listing| > 0 && r.Err? ==> r == Err(ValueError)
    ensures |listing| > 0 ==> (r.Ok? <==> EntryDates(FallbackEntries(SortBy(listing, ZFill3), scene.year)).Some?)
    ensures r.Ok? ==> r.value in listing
    ensures r.Ok? ==>
      var entries := FallbackEntries(SortBy(listing, ZFill3), scene.year);
      exists i :: 0 <= i < |entries| && NearestEntry(entries, scene, i) && r.value == entries[i].1
  {
    if |listing| == 0 then Err(IndexError)
    else
      var doys := SortBy(listing, ZFill3);
      var entries := FallbackEntries(doys, scene.year);
      match EntryDates(entries)
      case None => Err(ValueError)
      case Some(ds) =>
        FallbackNearest(entries, ds, scene);
        FallbackEntryListed(listing, scene.year, MinIndex(ds, scene, |ds|));
        Ok(entries[MinIndex(ds, scene, |ds|)].1)
  }

  lemma FallbackNearest(entries: seq<(int, string)>, ds: seq<Date>, scene: Date)
    requires ValidDate(scene) && |entries| > 0 && EntryDates(entries) == Some(ds)
    ensures NearestEntry(entries, scene, MinIndex(ds, scene, |ds|))
  {
    NearestMostRecent(ds, scene);
  }

  /** Every candidate's day-of-year name comes from the listing. */
  lemma FallbackEntryListed(listing: seq<string>, year: int, m: int)
    requires |listing| > 0 && 0 <= m < |listing| + 2
    ensures FallbackEntries(SortBy(listing, ZFill3), year)[m].1 in listing
  {
    var doys := SortBy(listing, ZFill3);
    var entries := FallbackEntries(doys, year);
    assert entries[m].1 in doys by {
      if m == 0 {
        assert entries[m].1 == doys[|doys| - 1];
      } else if m == |entries| - 1 {
        assert entries[m].1 == doys[0];
      } else {
        assert entries[m].1 == doys[m - 1];
      }
    }
    assert entries[m].1 in multiset(doys);
  }

  /** Every entry of a well-formed fallback listing parses, so a listing of
      day numbers never raises once the scene is away from the year range
      edges. */
  lemma FallbackParses(listing: seq<string>, scene: Date)
    requires ValidDate(scene) && 1001 <= scene.year <= 9997 && |listing| > 0
    requires forall i :: 0 <= i < |listing| ==> ParseDoy(listing[i]).Some?
    ensures GetBrdfDirsFallback(listing, scene).Ok?
  {
    var entries := FallbackEntries(SortBy(listing, ZFill3), scene.year);
    forall i | 0 <= i < |entries|
      ensures EntryDate(entries[i]).Some?
    {
      FallbackEntryListed(listing, scene.year, i);
      ListedEntryParses(listing, entries[i]);
    }
    assert EntryDates(entries).Some?;
  }

  /** An entry naming a listed day number in a four-digit year before 9999
      parses. */
  lemma ListedEntryParses(listing: seq<string>, entry: (int, string))
    requires 1000 <= entry.0 <= 9998 && entry.1 in listing
    requires forall i :: 0 <= i < |listing| ==> ParseDoy(listing[i]).Some?
    ensures EntryDate(entry).Some?
  {
    var j :| 0 <= j < |listing| && listing[j] == entry.1;
    assert ParseDoy(entry.1).Some?;
  }

  /** Near a year boundary the search reaches into the neighbouring year:
      with day directories 1 and 361, the last day of 2005 is nearest to
      day 1 of 2006. */
  lemma FallbackWrapsYear()
    ensures GetBrdfDirsFallback(["361", "001"], Date(2005, 12, 31)) == Ok("001")
  {
    ParseDoyExamples();
    assert LexLess(ZFill3("001"), ZFill3("361"));
    YearEndWraps("361", "001", 2005);
  }

  /** With day directories of days 361 and 1, the last day of a common
      year is nearest to day 1 of the next year. */
  lemma YearEndWraps(a: string, b: string, y: int)
    requires 1001 <= y <= 9997 && !IsLeap(y)
    requires ParseDoy(a) == Some(361) && ParseDoy(b) == Some(1)
    requires LexLess(ZFill3(b), ZFill3(a))
    ensures GetBrdfDirsFallback([a, b], Date(y, 12, 31)) == Ok(b)
  {
    var entries := [(y - 1, a), (y, b), (y, a), (y + 1, b)];
    YearEndEntries(a, b, y);
    YearEndNearest(a, b, y);
    NearestIsLast([a, b], Date(y, 12, 31), entries);
  }

  lemma YearEndEntries(a: string, b: string, y: int)
    requires LexLess(ZFill3(b), ZFill3(a))
    ensures FallbackEntries(SortBy([a, b], ZFill3), y) == [(y - 1, a), (y, b), (y, a), (y + 1, b)]
  {
    var doys := SortBy([a, b], ZFill3);
    assert [a, b][..1] == [a];
    assert SortBy([a], ZFill3) == [a];
    assert doys == [b, a];
  }

  lemma YearEndNearest(a: string, b: string, y: int)
    requires 1001 <= y <= 9997 && !IsLeap(y)
    requires ParseDoy(a) == Some(361) && ParseDoy(b) == Some(1)
    ensures var entries := [(y - 1, a), (y, b), (y, a), (y + 1, b)];
      EntryDates(entries).Some? &&
      forall i :: NearestEntry(entries, Date(y, 12, 31), i) ==> i == |entries| - 1
  {
    EntryOrdinal(y - 1, a, 361);
    EntryOrdinal(y, b, 1);
    EntryOrdinal(y, a, 361);
    EntryOrdinal(y + 1, b, 1);
    WrapDistances(y, EntryDate((y - 1, a)).value, EntryDate((y, b)).value,
                  EntryDate((y, a)).value, EntryDate((y + 1, b)).value);
    NearestOfFour((y - 1, a), (y, b), (y, a), (y + 1, b), Date(y, 12, 31));
  }

  lemma NearestOfFour(e0: (int, string), e1: (int, string), e2: (int, string), e3: (int, string), scene: Date)
    requires ValidDate(scene)
    requires EntryDate(e0).Some? && EntryDate(e1).Some? && EntryDate(e2).Some? && EntryDate(e3).Some?
    requires Distance(EntryDate(e3).value, scene) < Distance(EntryDate(e0).value, scene)
    requires Distance(EntryDate(e3).value, scene) < Distance(EntryDate(e1).value, scene)
    requires Distance(EntryDate(e3).value, scene) < Distance(EntryDate(e2).value, scene)
    ensures EntryDates([e0, e1, e2, e3]).Some?
    ensures forall i :: NearestEntry([e0, e1, e2, e3], scene, i) ==> i == 3
  {
    var entries := [e0, e1, e2, e3];
    assert entries[0] == e0 && entries[1] == e1 && entries[2] == e2 && entries[3] == e3;
    assert forall k :: 0 <= k < |entries| ==> EntryDate(entries[k]).Some? by {
      forall k | 0 <= k < |entries|
        ensures EntryDate(entries[k]).Some?
      {
        if k == 0 {} else if k == 1 {} else if k == 2 {} else {}
      }
    }
    var d3 := Distance(EntryDate(e3).value, scene);
    forall i | NearestEntry(entries, scene, i)
      ensures i == 3
    {
      assert Distance(EntryDate(entries[i]).value, scene) <= d3;
      if i == 0 {} else if i == 1 {} else if i == 2 {}
    }
  }

  /** When only the last candidate can be nearest, its day-of-year name is
      the answer. */
  lemma NearestIsLast(listing: seq<string>, scene: Date, entries: seq<(int, string)>)
    requires ValidDate(scene) && |listing| > 0
    requires entries == FallbackEntries(SortBy(listing, ZFill3), scene.year)
    requires EntryDates(entries).Some?
    requires forall i :: NearestEntry(entries, scene, i) ==> i == |entries| - 1
    ensures GetBrdfDirsFallback(listing, scene).Ok?
    ensures GetBrdfDirsFallback(listing, scene).value == entries[|entries| - 1].1
  {
  }

  /** An entry of a year `%Y` reads and a day name that parses stands for
      that day of the year. */
  lemma EntryOrdinal(y: int, name: string, j: int)
    requires 1000 <= y <= 9998 && ParseDoy(name) == Some(j)
    ensures EntryDate((y, name)).Some?
    ensures Ordinal(EntryDate((y, name)).value) == DaysBeforeYear(y) + j
  {
  }

  /** Seen from the last day of a common year, day 1 of the next year is
      one day away and days 361 of the year before, day 1 and day 361 of
      the same year are further. */
  lemma WrapDistances(y: int, a: Date, b: Date, c: Date, d: Date)
    requires 1001 <= y <= 9998 && !IsLeap(y)
    requires ValidDate(a) && ValidDate(b) && ValidDate(c) && ValidDate(d)
    requires Ordinal(a) == DaysBeforeYear(y - 1) + 361 && Ordinal(b) == DaysBeforeYear(y) + 1
    requires Ordinal(c) == DaysBeforeYear(y) + 361 && Ordinal(d) == DaysBeforeYear(y + 1) + 1
    ensures Distance(d, Date(y, 12, 31)) == 1
    ensures Distance(a, Date(y, 12, 31)) > 1 && Distance(b, Date(y, 12, 31)) > 1 && Distance(c, Date(y, 12, 31)) > 1
  {
    YearLength(y);
    YearLength(y - 1);
    assert DaysBeforeMonth(y, 13) == DaysBeforeMonth(y, 12) + 31;
    assert Ordinal(Date(y, 12, 31)) == DaysBeforeYear(y + 1);
  }

  lemma DoyExamples()
    ensures ParseDoy("361") == Some(361) && ParseDoy("001") == Some(1)
    ensures DateOfDoy(2004, 361) == Some(Date(2004, 12, 26))
    ensures DateOfDoy(2005, 361) == Some(Date(2005, 12, 27))
  {
    ParseDoyExamples();
    DecemberDoy(2004);
    assert IsLeap(2004);
    DecemberDoy(2005);
    assert !IsLeap(2005);
  }

  lemma ParseDoyExamples()
    ensures ParseDoy("361") == Some(361) && ParseDoy("001") == Some(1)
  {
    assert "361"[..2] == "36" && "36"[..1] == "3" && "3"[..0] == "";
    assert "001"[..2] == "00" && "00"[..1] == "0" && "0"[..0] == "";
  }

  /** Day 361 falls in December. */
  lemma DecemberDoy(y: int)
    requires 1 <= y <= 9999
    ensures DateOfDoy(y, 361) == Some(Date(y, 12, if IsLeap(y) then 26 else 27))
  {
    MonthTotals(y);
    var d := MonthOfDoy(y, 361, 1);
    assert DaysBeforeMonth(y, 12) == DaysBeforeMonth(y, 13) - 31;
    var next := if d.month < 12 then d.month + 1 else 12;
    DaysBeforeMonthMonotone(y, next, 12);
    assert DaysBeforeMonth(y, d.month + 1) == DaysBeforeMonth(y, d.month) + DaysInMonth(y, d.month);
  }

  // ---------------------------------------------------------------------
  // Tile summaries: `BrdfTileSummary`

  /** `BrdfSummaryDict`: the sum of a parameter over the pixels counted. */
  datatype ParamSummary = ParamSummary(sum: real, count: nat)

  datatype BrdfTileSummary = BrdfTileSummary(
    iso: ParamSummary, vol: ParamSummary, geo: ParamSummary,
    sourceIds: seq<string>, sourceFiles: seq<string>)

  function Summary(t: BrdfTileSummary, p: ModelParameter): ParamSummary
  {
    match p
    case Iso => t.iso
    case Vol => t.vol
    case Geo => t.geo
  }

  /** `BrdfTileSummary.empty()`: what a tile outside the region gives. */
  function Empty(): (r: BrdfTileSummary)
    ensures forall p :: Summary(r, p) == ParamSummary(0.0, 0)
    ensures r.sourceIds == [] && r.sourceFiles == []
  {
    BrdfTileSummary(ParamSummary(0.0, 0), ParamSummary(0.0, 0), ParamSummary(0.0, 0), [], [])
  }

  /** `is_empty()`: no pixel counted for any parameter. */
  predicate IsEmpty(t: BrdfTileSummary)
  {
    t.iso.count == 0 && t.vol.count == 0 && t.geo.count == 0
  }

  /** The sum and count of one parameter over two tiles together. */
  function AddSummary(a: ParamSummary, b: ParamSummary): (r: ParamSummary)
    ensures r.count == 0 <==> a.count == 0 && b.count == 0
    ensures r.count >= a.count && r.count >= b.count
  {
    ParamSummary(a.sum + b.sum, a.count + b.count)
  }

  /** `__add__`: sums and counts add up; the sorted union of the source
      files goes in the ids' place and that of the ids in the files'. */
  function Add(a: BrdfTileSummary, b: BrdfTileSummary): (r: BrdfTileSummary)
    ensures StrictlySorted(r.sourceIds) && StrictlySorted(r.sourceFiles)
    ensures forall y :: y in r.sourceIds <==> y in a.sourceFiles || y in b.sourceFiles
    ensures forall y :: y in r.sourceFiles <==> y in a.sourceIds || y in b.sourceIds
  {
    BrdfTileSummary(
      AddSummary(a.iso, b.iso), AddSummary(a.vol, b.vol), AddSummary(a.geo, b.geo),
      SortedSet(a.sourceFiles + b.sourceFiles),
      SortedSet(a.sourceIds + b.sourceIds))
  }

  lemma EmptyIsEmpty()
    ensures IsEmpty(Empty())
  {
  }

  /** The empty summary is an identity for the sums and counts, on either
      side. */
  lemma AddIdentity(t: BrdfTileSummary)
    ensures forall p :: Summary(Add(Empty(), t), p) == Summary(t, p)
    ensures forall p :: Summary(Add(t, Empty()), p) == Summary(t, p)
  {
    assert forall p :: Summary(Add(Empty(), t), p) == AddSummary(Summary(Empty(), p), Summary(t, p));
    assert forall p :: Summary(Add(t, Empty()), p) == AddSummary(Summary(t, p), Summary(Empty(), p));
  }

  /** ... but not for the source lists, which it swaps. */
  lemma AddEmptySwaps(t: BrdfTileSummary)
    requires StrictlySorted(t.sourceIds) && StrictlySorted(t.sourceFiles)
    ensures Add(Empty(), t).sourceIds == t.sourceFiles
    ensures Add(Empty(), t).sourceFiles == t.sourceIds
  {
    StrictlySortedUnique(Add(Empty(), t).sourceIds, t.sourceFiles);
    StrictlySortedUnique(Add(Empty(), t).sourceFiles, t.sourceIds);
  }

  lemma AddCommutative(a: BrdfTileSummary, b: BrdfTileSummary)
    ensures Add(a, b) == Add(b, a)
  {
    StrictlySortedUnique(Add(a, b).sourceIds, Add(b, a).sourceIds);
    StrictlySortedUnique(Add(a, b).sourceFiles, Add(b, a).sourceFiles);
  }

  /** Sums and counts accumulate associatively, and being empty is being
      empty on both sides. */
  lemma AddAssociativeSummaries(a: BrdfTileSummary, b: BrdfTileSummary, c: BrdfTileSummary)
    ensures forall p :: Summary(Add(Add(a, b), c), p) == Summary(Add(a, Add(b, c)), p)
    ensures IsEmpty(Add(a, b)) <==> IsEmpty(a) && IsEmpty(b)
  {
    assert Summary(Add(a, b), Iso).count == a.iso.count + b.iso.count;
    assert Summary(Add(a, b), Vol).count == a.vol.count + b.vol.count;
    assert Summary(Add(a, b), Geo).count == a.geo.count + b.geo.count;
  }

  /** `get_tally`'s accumulation for one dataset: `empty()` plus each tile
      in turn. */
  function Accumulate(tiles: seq<BrdfTileSummary>): (r: BrdfTileSummary)
  {
    if |tiles| == 0 then Empty() else Add(Accumulate(tiles[..|tiles| - 1]), tiles[|tiles| - 1])
  }

  /** Accumulating tiles keeps every id and every file name, but mixes the
      two lists together: a name is in one of them iff some tile listed it
      as an id or as a file. */
  lemma {:induction false} AccumulateMixesSources(tiles: seq<BrdfTileSummary>)
    ensures var acc := Accumulate(tiles);
      forall y :: (y in acc.sourceIds || y in acc.sourceFiles) <==>
        exists i :: 0 <= i < |tiles| && (y in tiles[i].sourceIds || y in tiles[i].sourceFiles)
    ensures IsEmpty(Accumulate(tiles)) <==> forall i :: 0 <= i < |tiles| ==> IsEmpty(tiles[i])
  {
    if |tiles| > 0 {
      var prefix := tiles[..|tiles| - 1];
      AccumulateMixesSources(prefix);
      AddAssociativeSummaries(Accumulate(prefix), tiles[|tiles| - 1], Empty());
      assert forall i :: 0 <= i < |prefix| ==> prefix[i] == tiles[i];
    }
  }

  /** With two tiles the swaps leave the first tile's files and the second
      tile's ids in the source files, and the other two lists in the ids. */
  lemma AccumulateTwoTiles(t1: BrdfTileSummary, t2: BrdfTileSummary)
    ensures var acc := Accumulate([t1, t2]);
      (forall y :: y in acc.sourceFiles <==> y in t1.sourceFiles || y in t2.sourceIds) &&
      (forall y :: y in acc.sourceIds <==> y in t1.sourceIds || y in t2.sourceFiles)
  {
    assert [t1, t2][..1] == [t1];
    assert [t1][..0] == [];
    assert Accumulate([t1]) == Add(Empty(), t1);
  }

  /** The summaries `load_brdf_tile` gives for one dataset, tile by tile. */
  function TileSummaries(load: (string, nat) -> BrdfTileSummary, ds: string, tileCount: nat): (r: seq<BrdfTileSummary>)
    ensures |r| == tileCount && forall i :: 0 <= i < tileCount ==> r[i] == load(ds, i)
  {
    seq(tileCount, i requires 0 <= i < tileCount => load(ds, i))
  }

  /** `get_tally`: for each dataset, start from `empty()` and add the
      summary of every tile in turn. Reading the tiles is the injected
      `load(ds, i)`. */
  method GetTally(datasets: seq<string>, tileCount: nat, load: (string, nat) -> BrdfTileSummary)
    returns (tally: map<string, BrdfTileSummary>)
    ensures tally.Keys == set ds | ds in datasets
    ensures forall ds :: ds in tally ==> tally[ds] == Accumulate(TileSummaries(load, ds, tileCount))
  {
    tally := map[];
    for k := 0 to |datasets|
      invariant tally.Keys == set ds | ds in datasets[..k]
      invariant forall ds :: ds in tally ==> tally[ds] == Accumulate(TileSummaries(load, ds, tileCount))
    {
      var ds := datasets[k];
      var acc := TallyTiles(ds, tileCount, load);
      tally := tally[ds := acc];
      assert datasets[..k + 1] == datasets[..k] + [ds];
    }
    assert datasets[..|datasets|] == datasets;
  }

  /** The inner loop of `get_tally`: one dataset's tiles added in turn to
      `empty()`. */
  method TallyTiles(ds: string, tileCount: nat, load: (string, nat) -> BrdfTileSummary)
    returns (acc: BrdfTileSummary)
    ensures acc == Accumulate(TileSummaries(load, ds, tileCount))
  {
    acc := Empty();
    for i := 0 to tileCount
      invariant acc == Accumulate(TileSummaries(load, ds, tileCount)[..i])
    {
      assert TileSummaries(load, ds, tileCount)[..i + 1][..i] == TileSummaries(load, ds, tileCount)[..i];
      acc := Add(acc, load(ds, i));
    }
    assert TileSummaries(load, ds, tileCount)[..tileCount] == TileSummaries(load, ds, tileCount);
  }

  // ---------------------------------------------------------------------
  // Means: `BrdfTileSummary.mean`

  /** A float64 result: a finite value, or a NaN or infinity. */
  datatype Float = Finite(value: real) | NonFinite

  /** `sum / count` in float64: a zero count gives NaN. */
  function Average(s: ParamSummary): (r: Float)
    ensures r.Finite? <==> s.count > 0
  {
    if s.count == 0 then NonFinite else Finite(s.sum / s.count as real)
  }

  /** float64 division: non-finite on a non-finite operand or a zero divisor. */
  function Divide(x: Float, y: Float): (r: Float)
    ensures r.Finite? <==> x.Finite? && y.Finite? && y.value != 0.0
    ensures r.Finite? ==> r.value * y.value == x.value
  {
    if x.Finite? && y.Finite? && y.value != 0.0 then Finite(x.value / y.value) else NonFinite
  }

  /** The model parameter each directional parameter is the ratio of to ISO. */
  function Band(p: DirectionalParameter): ModelParameter
  {
    match p
    case Alpha1 => Vol
    case Alpha2 => Geo
  }

  /** `BrdfValue`. */
  datatype BrdfValue = BrdfValue(ids: seq<string>, value: Float)

  /** `mean()[p]`: 0.0 for an empty summary, otherwise the ratio of the
      average of VOL (ALPHA-1) or GEO (ALPHA-2) to the average of ISO. */
  function Mean(t: BrdfTileSummary, p: DirectionalParameter): (r: BrdfValue)
    ensures r.ids == t.sourceIds
    ensures IsEmpty(t) ==> r.value == Finite(0.0)
    ensures !IsEmpty(t) ==> (r.value.Finite? <==>
      t.iso.count > 0 && Summary(t, Band(p)).count > 0 && t.iso.sum != 0.0)
    ensures !IsEmpty(t) && r.value.Finite? ==>
      r.value.value * (t.iso.sum / t.iso.count as real) == Summary(t, Band(p)).sum / Summary(t, Band(p)).count as real
  {
    if IsEmpty(t) then BrdfValue(t.sourceIds, Finite(0.0))
    else BrdfValue(t.sourceIds, Divide(Average(Summary(t, Band(p))), Average(t.iso)))
  }

  /** Ratio of averages: summing a summary with itself leaves its means
      unchanged. */
  lemma MeanOfDoubled(t: BrdfTileSummary, p: DirectionalParameter)
    ensures Mean(Add(t, t), p).value == Mean(t, p).value
  {
    var d := Add(t, t);
    AverageDoubled(t.iso);
    AverageDoubled(t.vol);
    AverageDoubled(t.geo);
    assert d.iso == AddSummary(t.iso, t.iso) && d.vol == AddSummary(t.vol, t.vol) && d.geo == AddSummary(t.geo, t.geo);
  }

  lemma AverageDoubled(s: ParamSummary)
    ensures Average(AddSummary(s, s)) == Average(s)
  {
    if s.count > 0 {
      DoubledRatio(s.sum, s.count as real);
    }
  }

  lemma DoubledRatio(x: real, c: real)
    requires c > 0.0
    ensures (x + x) / (c + c) == x / c
  {
    var q := x / c;
    assert q * c == x;
    assert q * (c + c) == x + x;
  }

  // ---------------------------------------------------------------------
  // `get_brdf_data`

  /** The BRDF configuration: either a user override, keyed by band alias
      and then by parameter, or the three paths. A missing key is None. */
  datatype BrdfDict = BrdfDict(
    user: Option<map<string, map<string, real>>>,
    brdfPath: Option<string>,
    brdfFallbackPath: Option<string>,
    oceanMaskPath: Option<string>)

  /** One entry of the result: a user value (tier USER), or the value
      gathered from the tiles with its ids, local paths and tier. */
  datatype BrdfCoverage =
    | UserCoverage(userValue: real)
    | TallyCoverage(ids: set<string>, localSourcePaths: seq<string>, value: Float, tier: BrdfTier)

  const DefinitiveStartDate: Date := Date(2002, 7, 1)

  /** The last day the definitive archive reaches back to. */
  const MaxDaysBack: nat := 31

  /** The user branch: `brdf["user"][alias][param.value.lower()]` for
      ALPHA-1, then ALPHA-2. */
  function UserCoverages(user: map<string, map<string, real>>, alias: string): (r: Result<(BrdfCoverage, BrdfCoverage), BrdfFailure>)
    ensures r.Ok? <==> alias in user && UserKey(Alpha1) in user[alias] && UserKey(Alpha2) in user[alias]
    ensures r.Ok? ==> r.value == (UserCoverage(user[alias]["alpha-1"]), UserCoverage(user[alias]["alpha-2"]))
  {
    if alias !in user then Err(KeyError(alias))
    else if UserKey(Alpha1) !in user[alias] then Err(KeyError(UserKey(Alpha1)))
    else if UserKey(Alpha2) !in user[alias] then Err(KeyError(UserKey(Alpha2)))
    else Ok((UserCoverage(user[alias][UserKey(Alpha1)]), UserCoverage(user[alias][UserKey(Alpha2)])))
  }

  /** A user entry keyed `iso`, `vol` and `geo`, as the documentation of
      the configuration describes it, is a `KeyError`. */
  lemma UserIsoVolGeoRejected(alias: string, iso: real, vol: real, geo: real)
    ensures UserCoverages(map[alias := map["iso" := iso, "vol" := vol, "geo" := geo]], alias) == Err(KeyError("alpha-1"))
  {
    var m := map["iso" := iso, "vol" := vol, "geo" := geo];
    assert "alpha-1" !in m.Keys;
  }

  /** `datetime.date(*[int(x) for x in name.split(".")])` with Python's
      exceptions: a piece that is not a number or a bad date is a
      `ValueError`, the wrong number of pieces a `TypeError`. */
  function DateFromDirName(name: string): (r: Result<Date, BrdfFailure>)
    ensures r.Ok? <==> DateFromDottedInts(name).Ok?
    ensures r.Ok? ==> r.value == DateFromDottedInts(name).value
  {
    match DateFromDottedInts(name)
    case Ok(d) => Ok(d)
    case Err(NotThreeFields) => Err(TypeError)
    case Err(_) => Err(ValueError)
  }

  /** Whether the fallback archive is used: always without a primary path
      (the empty string stands for any false value); otherwise the primary
      directory must exist and hold entries, and the fallback is used iff
      the scene is before 2002-07-01 or after the date of the last entry
      in sorted order. */
  function UseFallback(primaryPath: string, primaryIsDir: bool, primaryListing: seq<string>, scene: Date): (r: Result<bool, BrdfFailure>)
    ensures primaryPath == "" ==> r == Ok(true)
    ensures primaryPath != "" && (!primaryIsDir || primaryListing == []) ==> r == Err(NoBrdfRootError)
    ensures primaryPath != "" && primaryIsDir && primaryListing != [] ==>
      var last := DateFromDirName(Sorted(primaryListing)[|primaryListing| - 1]);
      (last.Err? ==> r == Err(last.error)) &&
      (last.Ok? ==> r == Ok(Before(scene, DefinitiveStartDate) || Before(last.value, scene)))
  {
    if primaryPath == "" then Ok(true)
    else if !primaryIsDir then Err(NoBrdfRootError)
    else if primaryListing == [] then Err(NoBrdfRootError)
    else
      var last := DateFromDirName(Sorted(primaryListing)[|primaryListing| - 1]);
      if last.Err? then Err(last.error)
      else Ok(Before(scene, DefinitiveStartDate) || Before(last.value, scene))
  }

  /** `is_empty(tally)`: some dataset's summary is empty. */
  predicate AnyEmpty(tally: seq<BrdfTileSummary>)
  {
    exists i :: 0 <= i < |tally| && IsEmpty(tally[i])
  }

  /** The first `k` definitive attempts (0 to k-1 days back) all loaded and
      all had an empty dataset. */
  predicate DefinitiveMisses(tallyAt: (bool, nat) -> Result<seq<BrdfTileSummary>, BrdfFailure>, k: nat)
  {
    forall j :: 0 <= j < k ==> tallyAt(false, j).Ok? && AnyEmpty(tallyAt(false, j).value)
  }

  /** What the retry loop of `get_brdf_data` ends with. With the fallback
      chosen, the fallback tally; otherwise the first definitive attempt,
      0 to 31 days back, that fails or has no empty dataset; and when all
      32 have an empty dataset, the fallback tally at the scene date. */
  predicate RetryOutcome(useFallback: bool, tallyAt: (bool, nat) -> Result<seq<BrdfTileSummary>, BrdfFailure>,
                         r: Result<seq<BrdfTileSummary>, BrdfFailure>)
  {
    if useFallback then r == tallyAt(true, 0)
    else
      (exists k :: 0 <= k <= MaxDaysBack && DefinitiveMisses(tallyAt, k) && r == tallyAt(false, k) &&
         !(r.Ok? && AnyEmpty(r.value)))
      || (DefinitiveMisses(tallyAt, MaxDaysBack + 1) && r == tallyAt(true, 0))
  }

  /** The retry outcome is a single tally. */
  lemma RetryOutcomeUnique(useFallback: bool, tallyAt: (bool, nat) -> Result<seq<BrdfTileSummary>, BrdfFailure>,
                           r1: Result<seq<BrdfTileSummary>, BrdfFailure>, r2: Result<seq<BrdfTileSummary>, BrdfFailure>)
    requires RetryOutcome(useFallback, tallyAt, r1) && RetryOutcome(useFallback, tallyAt, r2)
    ensures r1 == r2
  {
    if !useFallback {
      forall k1, k2 | 0 <= k1 < k2 <= MaxDaysBack + 1 && DefinitiveMisses(tallyAt, k2)
        ensures tallyAt(false, k1).Ok? && AnyEmpty(tallyAt(false, k1).value)
      {
      }
    }
  }

  /** The retry loop: starting at the scene date, step back a day at a time
      while a definitive tally has an empty dataset; after 31 days back,
      load the fallback tally instead. `tallyAt(fallback, k)` is
      `get_tally(fallback, dt - k days)`; an error ends the loop. */
  method RetryTally(useFallback: bool, tallyAt: (bool, nat) -> Result<seq<BrdfTileSummary>, BrdfFailure>)
    returns (r: Result<seq<BrdfTileSummary>, BrdfFailure>)
    ensures RetryOutcome(useFallback, tallyAt, r)
  {
    r := tallyAt(useFallback, 0);
    var daysBack: nat := 0;
    while !useFallback && r.Ok? && AnyEmpty(r.value)
      invariant daysBack <= MaxDaysBack
    invariant useFallback ==> r == tallyAt(true, 0)
      invariant !useFallback ==> DefinitiveMisses(tallyAt, daysBack) && r == tallyAt(false, daysBack)
      decreases MaxDaysBack - daysBack
    {
      if daysBack > 30 {
        assert DefinitiveMisses(tallyAt, MaxDaysBack + 1);
        r := tallyAt(true, 0);
        return;
      }
      daysBack := daysBack + 1;
      r := tallyAt(false, daysBack);
    }
    if !useFallback {
      assert DefinitiveMisses(tallyAt, daysBack) && r == tallyAt(false, daysBack) && !(r.Ok? && AnyEmpty(r.value));
    }
  }

  /** `np.mean` of a list of floats: NaN for an empty list or when an
      element is not finite. */
  function MeanOf(vs: seq<Float>): (r: Float)
    ensures r.Finite? <==> |vs| > 0 && forall i :: 0 <= i < |vs| ==> vs[i].Finite?
  {
    if |vs| > 0 && forall i :: 0 <= i < |vs| ==> vs[i].Finite? then Finite(SumFinite(vs) / |vs| as real) else NonFinite
  }

  function SumFinite(vs: seq<Float>): real
  {
    if |vs| == 0 then 0.0 else SumFinite(vs[..|vs| - 1]) + (if vs[|vs| - 1].Finite? then vs[|vs| - 1].value else 0.0)
  }

  /** The mean of equal finite values is that value. */
  lemma {:induction false} MeanOfEqual(vs: seq<Float>, v: real)
    requires |vs| > 0 && forall i :: 0 <= i < |vs| ==> vs[i] == Finite(v)
    ensures MeanOf(vs) == Finite(v)
  {
    SumOfEqual(vs, v);
  }

  lemma {:induction false} SumOfEqual(vs: seq<Float>, v: real)
    requires forall i :: 0 <= i < |vs| ==> vs[i] == Finite(v)
    ensures SumFinite(vs) == |vs| as real * v
  {
    if |vs| > 0 {
      SumOfEqual(vs[..|vs| - 1], v);
    }
  }

  function Means(tally: seq<BrdfTileSummary>, p: DirectionalParameter): (r: seq<Float>)
    ensures |r| == |tally| && forall i :: 0 <= i < |tally| ==> r[i] == Mean(tally[i], p).value
  {
    seq(|tally|, i requires 0 <= i < |tally| => Mean(tally[i], p).value)
  }

  /** The ids of all datasets' summaries. */
  function AllIds(tally: seq<BrdfTileSummary>): (r: set<string>)
    ensures forall y :: y in r <==> exists i :: 0 <= i < |tally| && y in tally[i].sourceIds
  {
    if |tally| == 0 then {}
    else
      var rest := AllIds(tally[1..]);
      assert forall i :: 0 < i < |tally| ==> tally[i] == tally[1..][i - 1];
      (set y | y in tally[0].sourceIds) + rest
  }

  /** The source files of all datasets' summaries, dataset by dataset. */
  function AllFiles(tally: seq<BrdfTileSummary>): (r: seq<string>)
    ensures forall y :: y in r <==> exists i :: 0 <= i < |tally| && y in tally[i].sourceFiles
  {
    if |tally| == 0 then []
    else
      var rest := AllFiles(tally[1..]);
      assert forall i :: 0 < i < |tally| ==> tally[i] == tally[1..][i - 1];
      tally[0].sourceFiles + rest
  }

  /** The entry reported for one directional parameter: its tier follows
      the fallback choice made before the retry loop. */
  function Coverage(tally: seq<BrdfTileSummary>, p: DirectionalParameter, useFallback: bool): (r: BrdfCoverage)
    ensures r.TallyCoverage?
    ensures forall y :: y in r.ids <==> exists i :: 0 <= i < |tally| && y in tally[i].sourceIds
    ensures forall y :: y in r.localSourcePaths <==> exists i :: 0 <= i < |tally| && y in tally[i].sourceFiles
    ensures r.value.Finite? <==> |tally| > 0 && forall i :: 0 <= i < |tally| ==> Mean(tally[i], p).value.Finite?
    ensures r.tier == if useFallback then BrdfFallbackDataset else BrdfDefinitive
  {
    TallyCoverage(AllIds(tally), AllFiles(tally), MeanOf(Means(tally, p)), if useFallback then BrdfFallbackDataset else BrdfDefinitive)
  }

  /** When all 32 definitive attempts have an empty dataset the values come
      from the fallback archive, yet the tier reported is DEFINITIVE. */
  lemma ExhaustedRetryLabelledDefinitive(tallyAt: (bool, nat) -> Result<seq<BrdfTileSummary>, BrdfFailure>,
                                         r: Result<seq<BrdfTileSummary>, BrdfFailure>)
    requires DefinitiveMisses(tallyAt, MaxDaysBack + 1) && RetryOutcome(false, tallyAt, r)
    ensures r == tallyAt(true, 0)
    ensures r.Ok? ==> Coverage(r.value, Alpha1, false).tier == BrdfDefinitive
  {
    assert DefinitiveMisses(tallyAt, MaxDaysBack + 1) && tallyAt(true, 0) == tallyAt(true, 0);
    assert RetryOutcome(false, tallyAt, tallyAt(true, 0));
    RetryOutcomeUnique(false, tallyAt, r, tallyAt(true, 0));
  }

  /** The keys a non-user configuration must hold, read in this order. */
  function ConfiguredPaths(brdf: BrdfDict): (r: Result<(string, string, string), BrdfFailure>)
    ensures r.Ok? <==> brdf.brdfPath.Some? && brdf.brdfFallbackPath.Some? && brdf.oceanMaskPath.Some?
  {
    if brdf.brdfPath.None? then Err(KeyError("brdf_path"))
    else if brdf.brdfFallbackPath.None? then Err(KeyError("brdf_fallback_path"))
    else if brdf.oceanMaskPath.None? then Err(KeyError("ocean_mask_path"))
    else Ok((brdf.brdfPath.value, brdf.brdfFallbackPath.value, brdf.oceanMaskPath.value))
  }

  /** `get_brdf_data` for one acquisition. The primary directory's
      existence and listing, and `get_tally` (directory choice, walking the
      day directory, reading the tiles), are inputs. The result holds the
      ALPHA-1 and the ALPHA-2 entry. */
  method GetBrdfData(brdf: BrdfDict, alias: string, scene: Date, primaryIsDir: bool, primaryListing: seq<string>,
                     tallyAt: (bool, nat) -> Result<seq<BrdfTileSummary>, BrdfFailure>)
    returns (r: Result<(BrdfCoverage, BrdfCoverage), BrdfFailure>)
    ensures brdf.user.Some? ==> r == UserCoverages(brdf.user.value, alias)
    ensures brdf.user.None? && ConfiguredPaths(brdf).Err? ==> r == Err(ConfiguredPaths(brdf).error)
    ensures brdf.user.None? && ConfiguredPaths(brdf).Ok? ==>
      var u := UseFallback(ConfiguredPaths(brdf).value.0, primaryIsDir, primaryListing, scene);
      (u.Err? ==> r == Err(u.error)) &&
      (u.Ok? ==> exists t :: (RetryOutcome(u.value, tallyAt, t) &&
         (t.Err? ==> r == Err(t.error)) &&
         (t.Ok? ==> r == Ok((Coverage(t.value, Alpha1, u.value), Coverage(t.value, Alpha2, u.value))))))
  {
    if brdf.user.Some? {
      return UserCoverages(brdf.user.value, alias);
    }
    var paths := ConfiguredPaths(brdf);
    if paths.Err? {
      return Err(paths.error);
    }
    var u := UseFallback(paths.value.0, primaryIsDir, primaryListing, scene);
    if u.Err? {
      return Err(u.error);
    }
    var t := RetryTally(u.value, tallyAt);
    if t.Err? {
      return Err(t.error);
    }
    r := Ok((Coverage(t.value, Alpha1, u.value), Coverage(t.value, Alpha2, u.value)));
  }

  /** The keyword arguments `get_brdf_data` accepts. */
  const GetBrdfDataKeywords: set<string> := {"acquisition", "brdf", "compression", "filter_opts"}

  /** Calling `get_brdf_data` with the given keyword arguments: Python
      refuses an unexpected keyword with a `TypeError` before the body
      runs. */
  function CallKeywords(keywords: set<string>): (r: Result<(), BrdfFailure>)
    ensures r.Ok? <==> keywords <= GetBrdfDataKeywords
    ensures r.Err? ==> r.error == TypeError
  {
    if keywords <= GetBrdfDataKeywords then Ok(()) else Err(TypeError)
  }

  /** Both callers in the ancillary collection pass a keyword the function
      does not declare (`mode`, and `offshore`), so both calls fail. */
  lemma CallersRejected()
    ensures CallKeywords({"mode"}) == Err(TypeError)
    ensures CallKeywords({"compression", "offshore"}) == Err(TypeError)
  {
    assert "mode" !in GetBrdfDataKeywords;
    assert "offshore" !in GetBrdfDataKeywords;
  }
}
