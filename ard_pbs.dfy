// The arithmetic and string handling of the PBS batch submitter for ARD
// processing on NCI: how many nodes a batch asks for, which NCI projects
// the jobs touch on the filesystem, the `storage=` resource built from
// them, and the job-id list the summary job waits on.

module ArdPbs {
  import opened Wrappers
  import opened Text
  import opened Numeric
  import opened PosixPath

  /** The Python exceptions the modelled code can raise. */
  datatype PbsError = ValueError | ZeroDivisionError | IndexError

  /** A field `int()` accepts: a non-empty run of decimal digits. */
  predicate IsInteger(s: string)
  {
    |s| > 0 && forall k :: 0 <= k < |s| ==> IsDigit(s[k])
  }

  /** `hours, _, _ = (int(x) for x in walltime.split(":"))`: the unpacking
      fails unless there are exactly three fields, and `int` fails on a
      field that is not a number. */
  function WalltimeHoursAsWritten(walltime: string): (r: Result<nat, PbsError>)
    ensures r.Ok? <==> |Split(walltime, ":")| == 3 && forall k :: 0 <= k < 3 ==> IsInteger(Split(walltime, ":")[k])
    ensures r.Ok? ==> r.value == ParseNat(Split(walltime, ":")[0])
    ensures r.Err? ==> r.error == ValueError
  {
    var fields := Split(walltime, ":");
    if |fields| == 3 && IsInteger(fields[0]) && IsInteger(fields[1]) && IsInteger(fields[2]) then
      Ok(ParseNat(fields[0]))
    else
      Err(ValueError)
  }

  /** The hours of a walltime written `HH:MM` or `HH:MM:SS`, the two forms
      the function's own examples and the `--walltime` default use. */
  function WalltimeHours(walltime: string): (r: Result<nat, PbsError>)
    ensures r.Ok? <==> (2 <= |Split(walltime, ":")| <= 3 &&
      forall k :: 0 <= k < |Split(walltime, ":")| ==> IsInteger(Split(walltime, ":")[k]))
    ensures r.Ok? ==> r.value == ParseNat(Split(walltime, ":")[0])
    ensures r.Err? ==> r.error == ValueError
  {
    var fields := Split(walltime, ":");
    if 2 <= |fields| <= 3 && forall k :: 0 <= k < |fields| ==> IsInteger(fields[k]) then
      Ok(ParseNat(fields[0]))
    else
      Err(ValueError)
  }

  /** `int(math.ceil(float(hours_per_granule * granule_count) / (hours *
      workers)))`, a division by zero when no node-hours are available. */
  function NodesFor(granules: nat, hours: nat, workers: nat, hoursPerGranule: real): (r: Result<int, PbsError>)
    ensures r.Err? <==> hours * workers == 0
    ensures r.Err? ==> r.error == ZeroDivisionError
  {
    if hours * workers == 0 then Err(ZeroDivisionError)
    else Ok(Ceil(hoursPerGranule * granules as real / (hours * workers) as real))
  }

  /** `_calc_nodes_req` as written. */
  function CalcNodesReqAsWritten(granules: nat, walltime: string, workers: nat, hoursPerGranule: real)
    : (r: Result<int, PbsError>)
    ensures WalltimeHoursAsWritten(walltime).Err? ==> r == Err(ValueError)
    ensures WalltimeHoursAsWritten(walltime).Ok? ==>
      r == NodesFor(granules, WalltimeHoursAsWritten(walltime).value, workers, hoursPerGranule)
  {
    var hours :- WalltimeHoursAsWritten(walltime);
    NodesFor(granules, hours, workers, hoursPerGranule)
  }

  /** `_calc_nodes_req` reading the hours of either walltime form. */
  function CalcNodesReq(granules: nat, walltime: string, workers: nat, hoursPerGranule: real)
    : (r: Result<int, PbsError>)
    ensures WalltimeHours(walltime).Err? ==> r == Err(ValueError)
    ensures WalltimeHours(walltime).Ok? ==>
      r == NodesFor(granules, WalltimeHours(walltime).value, workers, hoursPerGranule)
  {
    var hours :- WalltimeHours(walltime);
    NodesFor(granules, hours, workers, hoursPerGranule)
  }

  /** The node count is the least whose node-hours cover the estimated
      processing time of the granules. */
  lemma NodesCoverGranules(granules: nat, hours: nat, workers: nat, hoursPerGranule: real)
    requires NodesFor(granules, hours, workers, hoursPerGranule).Ok?
    ensures var n := NodesFor(granules, hours, workers, hoursPerGranule).value;
      var capacity := (hours * workers) as real;
      n as real * capacity >= hoursPerGranule * granules as real &&
      (n - 1) as real * capacity < hoursPerGranule * granules as real
  {
    var n := NodesFor(granules, hours, workers, hoursPerGranule).value;
    var capacity := (hours * workers) as real;
    var q := hoursPerGranule * granules as real;
    var x := q / capacity;
    assert x * capacity == q;
    assert x <= n as real && (n - 1) as real < x;
    MultiplyPositive(x, n as real, capacity);
    MultiplyPositive((n - 1) as real, x, capacity);
    assert n as real * capacity >= q;
    assert (n - 1) as real * capacity < q;
  }

  lemma MultiplyPositive(a: real, b: real, c: real)
    requires a <= b && c > 0.0
    ensures a * c <= b * c
    ensures a < b ==> a * c < b * c
  {
  }

  /** Walltimes with three fields are read the same way by both versions. */
  lemma CalcNodesReqAgrees(granules: nat, walltime: string, workers: nat, hoursPerGranule: real)
    requires |Split(walltime, ":")| == 3
    ensures CalcNodesReq(granules, walltime, workers, hoursPerGranule) ==
      CalcNodesReqAsWritten(granules, walltime, workers, hoursPerGranule)
  {
  }

  /** A field of digits holds no `:`. */
  lemma NoColon(s: string)
    requires IsInteger(s)
    ensures ':' !in s
  {
    forall k | 0 <= k < |s|
      ensures s[k] != ':'
    {
      assert IsDigit(s[k]);
    }
  }

  /** A two-digit field is read as its number. */
  lemma TwoDigits(s: string)
    requires |s| == 2 && IsDigit(s[0]) && IsDigit(s[1])
    ensures IsInteger(s)
    ensures ParseNat(s) == 10 * DigitValue(s[0]) + DigitValue(s[1])
  {
    var first := s[..1];
    assert first[..0] == [] && first[0] == s[0];
    assert ParseNat(first) == DigitValue(s[0]);
    assert s[..|s| - 1] == first;
  }

  /** `HH:MM` has two fields: `_calc_nodes_req` as written rejects it, and
      the hours are its first field. */
  lemma HourMinute(h: string, m: string)
    requires |h| == 2 && IsDigit(h[0]) && IsDigit(h[1]) && IsInteger(m)
    ensures WalltimeHoursAsWritten(h + ":" + m) == Err(ValueError)
    ensures WalltimeHours(h + ":" + m) == Ok(10 * DigitValue(h[0]) + DigitValue(h[1]))
  {
    TwoDigits(h);
    NoColon(h);
    NoColon(m);
    SplitFirst(h, ':', m);
    SplitNone(m, ':');
  }

  /** `HH:MM:SS` has three fields, the hours first. */
  lemma HourMinuteSecond(h: string, m: string, s: string)
    requires |h| == 2 && IsDigit(h[0]) && IsDigit(h[1]) && IsInteger(m) && IsInteger(s)
    ensures WalltimeHoursAsWritten(h + ":" + m + ":" + s) == Ok(10 * DigitValue(h[0]) + DigitValue(h[1]))
    ensures WalltimeHours(h + ":" + m + ":" + s) == Ok(10 * DigitValue(h[0]) + DigitValue(h[1]))
  {
    TwoDigits(h);
    NoColon(h);
    NoColon(m);
    NoColon(s);
    SplitFirst(m, ':', s);
    SplitNone(s, ':');
    assert h + ":" + m + ":" + s == h + [':'] + (m + ":" + s);
    SplitFirst(h, ':', m + ":" + s);
  }

  /** The walltimes of the function's own examples, `20:59` and `20:00`,
      fail to unpack as written and read as 20 hours otherwise. */
  lemma ExampleWalltimes()
    ensures WalltimeHoursAsWritten("20:59") == Err(ValueError)
    ensures WalltimeHoursAsWritten("20:00") == Err(ValueError)
    ensures WalltimeHours("20:59") == Ok(20)
    ensures WalltimeHours("20:00") == Ok(20)
  {
    TwentyHours("59");
    assert "20:" + "59" == "20:59";
    TwentyHours("00");
    assert "20:" + "00" == "20:00";
  }

  /** A walltime of twenty hours and some minutes. */
  lemma TwentyHours(m: string)
    requires |m| == 2 && IsDigit(m[0]) && IsDigit(m[1])
    ensures WalltimeHoursAsWritten("20:" + m) == Err(ValueError) && WalltimeHours("20:" + m) == Ok(20)
  {
    ShortWalltimeOf("20:" + m, "20", m);
  }

  /** A walltime given as its two fields. */
  lemma ShortWalltimeOf(walltime: string, h: string, m: string)
    requires walltime == h + ":" + m
    requires |h| == 2 && IsDigit(h[0]) && IsDigit(h[1]) && |m| == 2 && IsDigit(m[0]) && IsDigit(m[1])
    ensures WalltimeHoursAsWritten(walltime) == Err(ValueError)
    ensures WalltimeHours(walltime) == Ok(10 * DigitValue(h[0]) + DigitValue(h[1]))
  {
    HourMinute(h, m);
  }

  /** The function's own examples: `(400, '20:59', 28)` and `(800,
      '20:00', 28)` fail as written, and need 2 and 3 nodes once the hours
      are read. */
  lemma CalcNodesReqExamples()
    ensures CalcNodesReqAsWritten(400, "20:59", 28, 1.5) == Err(ValueError)
    ensures CalcNodesReqAsWritten(800, "20:00", 28, 1.5) == Err(ValueError)
    ensures CalcNodesReq(400, "20:59", 28, 1.5) == Ok(2)
    ensures CalcNodesReq(800, "20:00", 28, 1.5) == Ok(3)
  {
    NodesExample400();
    NodesExample800();
  }

  lemma NodesExample400()
    ensures CalcNodesReqAsWritten(400, "20:59", 28, 1.5) == Err(ValueError)
    ensures CalcNodesReq(400, "20:59", 28, 1.5) == Ok(2)
  {
    ExampleWalltimes();
    assert NodesFor(400, 20, 28, 1.5) == Ok(2) by {
      assert 1.5 * 400 as real / (20 * 28) as real == 600.0 / 560.0;
    }
  }

  lemma NodesExample800()
    ensures CalcNodesReqAsWritten(800, "20:00", 28, 1.5) == Err(ValueError)
    ensures CalcNodesReq(800, "20:00", 28, 1.5) == Ok(3)
  {
    ExampleWalltimes();
    assert NodesFor(800, 20, 28, 1.5) == Ok(3) by {
      assert 1.5 * 800 as real / (20 * 28) as real == 1200.0 / 560.0;
    }
  }

  /** `--nodes 0` (the default) means the node count is computed from the
      number of scenes by `_calc_nodes_req` as written; any other count is
      used as given. */
  function NodesToRequest(nodes: nat, sceneCount: nat, walltime: string, workers: nat): (r: Result<int, PbsError>)
    ensures nodes > 0 ==> r == Ok(nodes)
    ensures nodes == 0 ==> r == CalcNodesReqAsWritten(sceneCount, walltime, workers, 1.5)
  {
    if nodes == 0 then CalcNodesReqAsWritten(sceneCount, walltime, workers, 1.5) else Ok(nodes)
  }

  /** The same choice with the walltime's hours read from either form. */
  function NodesToRequestIntended(nodes: nat, sceneCount: nat, walltime: string, workers: nat)
    : (r: Result<int, PbsError>)
    ensures nodes > 0 ==> r == Ok(nodes)
    ensures nodes == 0 ==> r == CalcNodesReq(sceneCount, walltime, workers, 1.5)
  {
    if nodes == 0 then CalcNodesReq(sceneCount, walltime, workers, 1.5) else Ok(nodes)
  }

  /** With `--nodes 0`, a walltime written `HH:MM` stops the submission
      with `ValueError`, where the intended reading asks for nodes; an
      explicit node count is never affected. */
  lemma ShortWalltimeStopsSubmission(sceneCount: nat, h: string, m: string, workers: nat)
    requires |h| == 2 && IsDigit(h[0]) && IsDigit(h[1]) && IsInteger(m)
    requires 10 * DigitValue(h[0]) + DigitValue(h[1]) > 0 && workers > 0
    ensures NodesToRequest(0, sceneCount, h + ":" + m, workers) == Err(ValueError)
    ensures NodesToRequestIntended(0, sceneCount, h + ":" + m, workers).Ok?
    ensures forall n: nat :: n > 0 ==> NodesToRequest(n, sceneCount, h + ":" + m, workers) == Ok(n)
  {
    HourMinute(h, m);
  }

  /** The `--walltime` default, `48:00:00`, is 48 hours. */
  lemma DefaultWalltime()
    ensures WalltimeHoursAsWritten("48:00:00") == Ok(48)
    ensures WalltimeHours("48:00:00") == Ok(48)
  {
    WalltimeOf("48:00:00", "48", "00", "00");
  }

  /** A walltime given as its three fields. */
  lemma WalltimeOf(walltime: string, h: string, m: string, s: string)
    requires walltime == h + ":" + m + ":" + s
    requires |h| == 2 && IsDigit(h[0]) && IsDigit(h[1]) && IsInteger(m) && IsInteger(s)
    ensures WalltimeHoursAsWritten(walltime) == Ok(10 * DigitValue(h[0]) + DigitValue(h[1]))
    ensures WalltimeHours(walltime) == Ok(10 * DigitValue(h[0]) + DigitValue(h[1]))
  {
    HourMinuteSecond(h, m, s);
  }

  /** With the default walltime and at least one worker, the computed node
      count covers one and a half hours per scene. */
  lemma DefaultWalltimeNodes(sceneCount: nat, workers: nat)
    requires workers > 0
    ensures NodesToRequest(0, sceneCount, "48:00:00", workers).Ok?
    ensures var n := NodesToRequest(0, sceneCount, "48:00:00", workers).value;
      n as real * (48 * workers) as real >= 1.5 * sceneCount as real
    ensures NodesToRequest(0, sceneCount, "48:00:00", workers) == NodesToRequestIntended(0, sceneCount, "48:00:00", workers)
  {
    DefaultWalltime();
    NodesCoverGranules(sceneCount, 48, workers, 1.5);
  }

  /** `_immediate_project`: the NCI project a path is stored under, read
      from its written-back form `p.as_posix()`: the fourth `/`-separated
      piece of a `/g/data...` path, the third of a `/scratch/...` path, and
      none for any other path. A `/g/data` path with fewer than four pieces
      has no fourth and raises. The project found is one of the path's own
      parts. */
  function ImmediateProject(path: string): (r: Result<Option<string>, PbsError>)
    ensures r.Ok? && r.value.Some? ==> r.value.value in Parts(path)
    ensures r.Err? ==> r.error == IndexError
  {
    var posix := AsPosix(path);
    var parts := Split(posix, "/");
    if StartsWith(posix, "/g/data") then
      if |parts| > 3 then
        GdataPieces(path);
        Ok(Some(parts[3]))
      else Err(IndexError)
    else if StartsWith(posix, "/scratch/") then
      ScratchPieces(path);
      Ok(Some(parts[2]))
    else Ok(None)
  }

  /** A written-back path that begins with `/g/data` is rooted, starts
      with the parts `g` and `data...`, and splits on `/` into the empty
      piece before the root and its parts. */
  lemma GdataPieces(path: string)
    requires StartsWith(AsPosix(path), "/g/data")
    ensures Root(path) == "/" && |Parts(path)| >= 2 && Parts(path)[0] == "g" && StartsWith(Parts(path)[1], "data")
    ensures Split(AsPosix(path), "/") == [""] + Parts(path)
  {
    assert "/g/data" == "/" + "g" + "/" + "data";
    PosixPrefix(path, "g", "data");
    RootedSplit(path);
  }

  /** A written-back path that begins with `/scratch/` is rooted, starts
      with the part `scratch` and has one more, and splits on `/` into the
      empty piece before the root and its parts. */
  lemma ScratchPieces(path: string)
    requires StartsWith(AsPosix(path), "/scratch/")
    ensures Root(path) == "/" && |Parts(path)| >= 2 && Parts(path)[0] == "scratch"
    ensures Split(AsPosix(path), "/") == [""] + Parts(path)
  {
    assert "/scratch/" == "/" + "scratch" + "/" + "";
    PosixPrefix(path, "scratch", "");
    RootedSplit(path);
  }

  /** `_immediate_project` in terms of the parsed path: a rooted path whose
      parts start `g`, `data...` is stored under its third part and raises
      when it has none; a rooted path whose parts start `scratch` and go on
      is stored under its second part; every other path, relative ones and
      ones with the root `//` included, is stored under no project. */
  lemma ImmediateProjectOfParts(path: string)
    ensures var parts := Parts(path);
      ImmediateProject(path) ==
        if Root(path) == "/" && |parts| >= 2 && parts[0] == "g" && StartsWith(parts[1], "data") then
          if |parts| >= 3 then Ok(Some(parts[2])) else Err(IndexError)
        else if Root(path) == "/" && |parts| >= 2 && parts[0] == "scratch" then Ok(Some(parts[1]))
        else Ok(None)
  {
    var parts := Parts(path);
    assert "/g/data" == "/" + "g" + "/" + "data";
    assert "/scratch/" == "/" + "scratch" + "/" + "";
    PosixPrefix(path, "g", "data");
    PosixPrefix(path, "scratch", "");
    if Root(path) == "/" && parts != [] {
      RootedSplit(path);
    }
  }

  /** The parts of a rooted path are those of what follows the root. */
  lemma RootedParts(path: string)
    requires |path| >= 2 && path[0] == '/' && path[1] != '/'
    ensures Root(path) == "/" && Parts(path) == Parts(path[1..])
  {
    assert path == "/" + path[1..];
    PartsAfterSlash(path[1..]);
  }

  /** The parts of a part followed by `/` and more. */
  lemma PartThen(w: string, rest: string)
    requires IsPart(w)
    ensures Parts(w + "/" + rest) == [w] + Parts(rest)
  {
    PartsJoin(w, rest);
    PartsOfWord(w);
  }

  /** `data<N>` is a part when the mount number holds no `/`. */
  lemma DataMount(mount: string)
    requires '/' !in mount
    ensures IsPart("data" + mount)
  {
    var data := "data" + mount;
    forall k | 0 <= k < |data|
      ensures data[k] != '/'
    {
      if k >= 4 {
        assert data[k] == mount[k - 4];
      }
    }
    assert data[0] == 'd';
  }

  /** The parts of `/g/data<N>/<more>`. */
  lemma GdataParts(mount: string, more: string)
    requires '/' !in mount
    ensures var path := "/g/data" + mount + "/" + more;
      Root(path) == "/" && Parts(path) == ["g", "data" + mount] + Parts(more)
  {
    var data := "data" + mount;
    var path := "/g/data" + mount + "/" + more;
    assert path == "/" + ("g" + "/" + (data + "/" + more));
    RootedParts(path);
    assert path[1..] == "g" + "/" + (data + "/" + more);
    DataMount(mount);
    PartThen("g", data + "/" + more);
    PartThen(data, more);
  }

  /** `/g/data<N>/<project>/...` is stored under `<project>`, whatever the
      mount number `<N>`: `/g/data/v10/...` under `v10`, `/g/data4/fk4/...`
      under `fk4`. */
  lemma GdataProject(mount: string, project: string, rest: string)
    requires '/' !in mount && IsPart(project)
    ensures ImmediateProject("/g/data" + mount + "/" + project + "/" + rest) == Ok(Some(project))
  {
    var path := "/g/data" + mount + "/" + project + "/" + rest;
    assert path == "/g/data" + mount + "/" + (project + "/" + rest);
    GdataParts(mount, project + "/" + rest);
    PartThen(project, rest);
    ImmediateProjectOfParts(path);
    assert StartsWith("data" + mount, "data");
  }

  /** A `./` after the mount is no part: `/g/data/./v10/...` is stored
      under `v10`. */
  lemma GdataDotProject(mount: string, project: string, rest: string)
    requires '/' !in mount && IsPart(project)
    ensures ImmediateProject("/g/data" + mount + "/./" + project + "/" + rest) == Ok(Some(project))
  {
    var path := "/g/data" + mount + "/./" + project + "/" + rest;
    assert path == "/g/data" + mount + "/" + ("." + "/" + (project + "/" + rest));
    GdataParts(mount, "." + "/" + (project + "/" + rest));
    PartsJoin(".", project + "/" + rest);
    PartsOfWord(".");
    PartThen(project, rest);
    ImmediateProjectOfParts(path);
    assert StartsWith("data" + mount, "data");
  }

  /** A `/g/data` mount point itself, with no project directory below it,
      raises `IndexError`. */
  lemma GdataMountRaises(mount: string)
    requires '/' !in mount
    ensures ImmediateProject("/g/data" + mount) == Err(IndexError)
  {
    var path := "/g/data" + mount;
    assert path == "/" + ("g" + "/" + ("data" + mount));
    RootedParts(path);
    assert path[1..] == "g" + "/" + ("data" + mount);
    DataMount(mount);
    PartThen("g", "data" + mount);
    PartsOfWord("data" + mount);
    ImmediateProjectOfParts(path);
    assert StartsWith("data" + mount, "data");
  }

  /** Written back, a mount point with a trailing `/` loses it and raises
      too: `/g/data/` has no fourth piece. */
  lemma GdataTrailingSlashRaises(mount: string)
    requires '/' !in mount
    ensures ImmediateProject("/g/data" + mount + "/") == Err(IndexError)
  {
    var path := "/g/data" + mount + "/";
    assert path == "/g/data" + mount + "/" + "";
    GdataParts(mount, "");
    PartsOfWord("");
    assert Parts(path) == ["g", "data" + mount];
    assert StartsWith("data" + mount, "data");
    ImmediateProjectOfParts(path);
  }

  /** The parts of `/scratch/<more>`. */
  lemma ScratchParts(more: string)
    ensures var path := "/scratch/" + more;
      Root(path) == "/" && Parts(path) == ["scratch"] + Parts(more)
  {
    var path := "/scratch/" + more;
    assert path == "/" + ("scratch" + "/" + more);
    RootedParts(path);
    assert path[1..] == "scratch" + "/" + more;
    PartThen("scratch", more);
  }

  /** `/scratch/<project>/...` is stored under `<project>`. */
  lemma ScratchProject(project: string, rest: string)
    requires IsPart(project)
    ensures ImmediateProject("/scratch/" + project + "/" + rest) == Ok(Some(project))
  {
    var more := project + "/" + rest;
    PartThen(project, rest);
    assert "/scratch/" + project + "/" + rest == "/scratch/" + more;
    ScratchParts(more);
    ImmediateProjectOfParts("/scratch/" + more);
  }

  /** The empty piece of `//` is no part: `/scratch//<project>/...` is
      stored under `<project>` too. */
  lemma ScratchDoubleSlashProject(project: string, rest: string)
    requires IsPart(project)
    ensures ImmediateProject("/scratch//" + project + "/" + rest) == Ok(Some(project))
  {
    var more := project + "/" + rest;
    PartThen(project, rest);
    assert "/scratch//" + project + "/" + rest == "/scratch/" + ("/" + more);
    ScratchParts("/" + more);
    PartsAfterSlash(more);
    ImmediateProjectOfParts("/scratch/" + ("/" + more));
  }

  /** `/scratch` itself, with or without a trailing `/`, is stored under no
      project: written back it loses the `/` that `/scratch/` needs. */
  lemma ScratchAlone()
    ensures ImmediateProject("/scratch") == Ok(None)
    ensures ImmediateProject("/scratch/") == Ok(None)
  {
    ScratchParts("");
    PartsOfWord("");
    assert "/scratch/" + "" == "/scratch/";
    ImmediateProjectOfParts("/scratch/");
    RootedParts("/scratch");
    assert "/scratch"[1..] == "scratch";
    PartsOfWord("scratch");
    ImmediateProjectOfParts("/scratch");
  }

  /** A path under `/tmp/` is stored under no project. */
  lemma TmpPath(rest: string)
    ensures ImmediateProject("/tmp/" + rest) == Ok(None)
  {
    var path := "/tmp/" + rest;
    assert path == "/" + ("tmp" + "/" + rest);
    RootedParts(path);
    assert path[1..] == "tmp" + "/" + rest;
    PartThen("tmp", rest);
    ImmediateProjectOfParts(path);
  }

  /** `_get_projects_for_path`: the project of the path itself and, when
      the path resolves to a different physical path through a symbolic
      link, the project of that path too. `physical` is `path.resolve()`;
      the two are compared as `PurePosixPath`s, by their written-back
      forms. */
  function ProjectsForPath(path: string, physical: string): (r: Result<set<Option<string>>, PbsError>)
    ensures r.Ok? <==> ImmediateProject(path).Ok? && ImmediateProject(physical).Ok?
    ensures r.Ok? ==> forall x :: x in r.value <==>
      x == ImmediateProject(path).value || x == ImmediateProject(physical).value
    ensures r.Err? ==> r.error == IndexError
  {
    var own :- ImmediateProject(path);
    if AsPosix(physical) != AsPosix(path) then
      var other :- ImmediateProject(physical);
      Ok({own, other})
    else
      Ok({own})
  }

  /** A path that resolves to itself, up to how it is written, adds only
      its own project. */
  lemma SamePhysicalPath(path: string, physical: string)
    requires AsPosix(physical) == AsPosix(path)
    ensures ImmediateProject(physical) == ImmediateProject(path)
    ensures ProjectsForPath(path, physical) ==
      match ImmediateProject(path)
      case Ok(own) => Ok({own})
      case Err(e) => Err(e)
  {
  }

  /** A link on one `/g/data` project to a directory of another needs both
      projects; a path under `/tmp/` that is no link needs none. */
  lemma ProjectsForPathExamples(mount: string, link: string, target: string, rest: string)
    requires '/' !in mount && IsPart(link) && IsPart(target)
    ensures ProjectsForPath("/g/data" + mount + "/" + link + "/" + rest, "/g/data" + mount + "/" + target + "/" + rest)
      == Ok({Some(link), Some(target)})
    ensures ProjectsForPath("/tmp/" + rest, "/tmp/" + rest) == Ok({None})
  {
    GdataProject(mount, link, rest);
    GdataProject(mount, target, rest);
    var r := ProjectsForPath("/g/data" + mount + "/" + link + "/" + rest, "/g/data" + mount + "/" + target + "/" + rest);
    assert r.Ok? && forall x :: x in r.value <==> x == Some(link) || x == Some(target);
    assert r.value == {Some(link), Some(target)};
    TmpPath(rest);
  }

  /** The projects one of `_filesystem_projects`' paths adds: none for a
      path that is `None`. */
  function Visit(path: Option<string>, resolve: string -> string): (r: Result<set<Option<string>>, PbsError>)
    ensures r.Err? ==> path.Some? && r.error == IndexError
  {
    match path
    case None => Ok({})
    case Some(p) => ProjectsForPath(p, resolve(p))
  }

  /** `fs_projects.update(...)` for each path in turn, from `fsProjects`:
      the first error, or the set with every path's projects added. */
  function Gather(fsProjects: set<Option<string>>, paths: seq<Option<string>>, resolve: string -> string)
    : (r: Result<set<Option<string>>, PbsError>)
    ensures r.Ok? ==> fsProjects <= r.value
    decreases |paths|
  {
    if |paths| == 0 then Ok(fsProjects)
    else
      var found :- Visit(paths[0], resolve);
      Gather(fsProjects + found, paths[1..], resolve)
  }

  /** Gathering over two lists in a row is gathering over both. */
  lemma {:induction false} GatherConcat(fsProjects: set<Option<string>>, a: seq<Option<string>>, b: seq<Option<string>>,
                                        resolve: string -> string)
    ensures Gather(fsProjects, a + b, resolve) ==
      match Gather(fsProjects, a, resolve)
      case Err(e) => Err(e)
      case Ok(middle) => Gather(middle, b, resolve)
    decreases |a|
  {
    if |a| == 0 {
      assert a + b == b;
    } else {
      assert (a + b)[0] == a[0] && (a + b)[1..] == a[1..] + b;
      match Visit(a[0], resolve)
      case Err(_) =>
      case Ok(found) => GatherConcat(fsProjects + found, a[1..], b, resolve);
    }
  }

  /** Gathering succeeds exactly when every path's projects can be read,
      and then adds to the starting set each project some path needs and
      nothing else. */
  lemma {:induction false} GatherMeaning(fsProjects: set<Option<string>>, paths: seq<Option<string>>,
                                         resolve: string -> string)
    ensures Gather(fsProjects, paths, resolve).Ok? <==> forall k :: 0 <= k < |paths| ==> Visit(paths[k], resolve).Ok?
    ensures Gather(fsProjects, paths, resolve).Ok? ==> forall x :: x in Gather(fsProjects, paths, resolve).value <==>
      (x in fsProjects || exists k :: 0 <= k < |paths| && Visit(paths[k], resolve).Ok? && x in Visit(paths[k], resolve).value)
    decreases |paths|
  {
    if |paths| > 0 {
      var rest := paths[1..];
      assert forall k :: 0 < k < |paths| ==> paths[k] == rest[k - 1];
      match Visit(paths[0], resolve)
      case Err(_) =>
      case Ok(found) =>
        GatherMeaning(fsProjects + found, rest, resolve);
        if Gather(fsProjects, paths, resolve).Ok? {
          forall x | x in Gather(fsProjects, paths, resolve).value
            ensures x in fsProjects || exists k :: 0 <= k < |paths| && Visit(paths[k], resolve).Ok? && x in Visit(paths[k], resolve).value
          {
            if x !in fsProjects && x !in found {
              var j :| 0 <= j < |rest| && Visit(rest[j], resolve).Ok? && x in Visit(rest[j], resolve).value;
              assert paths[j + 1] == rest[j];
            }
          }
        }
    }
  }

  /** `[p.strip() for p in src.readlines()]`. */
  function InputPaths(inputLines: seq<string>): (r: seq<string>)
    ensures |r| == |inputLines|
  {
    seq(|inputLines|, k requires 0 <= k < |inputLines| => Strip(inputLines[k]))
  }

  function Somes(paths: seq<string>): (r: seq<Option<string>>)
    ensures |r| == |paths|
  {
    seq(|paths|, k requires 0 <= k < |paths| => Some(paths[k]))
  }

  /** The paths `_filesystem_projects` visits, in order: the installed code,
      the other paths it is given (any of which may be `None`), and the
      stripped lines of the input list. */
  function Candidates(codePath: string, others: seq<Option<string>>, inputLines: seq<string>): (r: seq<Option<string>>)
    ensures |r| == 1 + |others| + |inputLines|
  {
    [Some(codePath)] + others + Somes(InputPaths(inputLines))
  }

  /** What `_filesystem_projects` computes: the first `IndexError` among the
      visited paths, or every project they need without `None`. */
  function FilesystemProjectsSpec(inputLines: seq<string>, codePath: string, others: seq<Option<string>>,
                                  resolve: string -> string): Result<set<Option<string>>, PbsError>
  {
    var all :- Gather({None}, Candidates(codePath, others, inputLines), resolve);
    Ok(all - {None})
  }

  /** The loop `for path in other_paths: if path is not None:
      fs_projects.update(...)`. */
  method AddOptionalPaths(fsProjects: set<Option<string>>, paths: seq<Option<string>>, resolve: string -> string)
    returns (r: Result<set<Option<string>>, PbsError>)
    ensures r == Gather(fsProjects, paths, resolve)
  {
    var projects := fsProjects;
    for i := 0 to |paths|
      invariant Gather(projects, paths[i..], resolve) == Gather(fsProjects, paths, resolve)
    {
      assert paths[i..][0] == paths[i] && paths[i..][1..] == paths[i + 1..];
      if paths[i].Some? {
        var found := ProjectsForPath(paths[i].value, resolve(paths[i].value));
        if found.Err? {
          return Err(found.error);
        }
        projects := projects + found.value;
      } else {
        assert projects + {} == projects;
      }
    }
    assert paths[|paths|..] == [];
    return Ok(projects);
  }

  /** The loop `for input_path in paths: fs_projects.update(...)`. */
  method AddPaths(fsProjects: set<Option<string>>, paths: seq<string>, resolve: string -> string)
    returns (r: Result<set<Option<string>>, PbsError>)
    ensures r == Gather(fsProjects, Somes(paths), resolve)
  {
    ghost var all := Somes(paths);
    var projects := fsProjects;
    for i := 0 to |paths|
      invariant Gather(projects, all[i..], resolve) == Gather(fsProjects, all, resolve)
    {
      assert all[i..][0] == Some(paths[i]) && all[i..][1..] == all[i + 1..];
      var found := ProjectsForPath(paths[i], resolve(paths[i]));
      if found.Err? {
        return Err(found.error);
      }
      projects := projects + found.value;
    }
    assert all[|paths|..] == [];
    return Ok(projects);
  }

  /** `_filesystem_projects`: starts from `{None}`, adds the projects of
      each path in turn and removes `None` at the end, which is always
      there to remove. The symbolic-link resolution of the filesystem is
      the parameter `resolve`. */
  method FilesystemProjects(inputLines: seq<string>, codePath: string, others: seq<Option<string>>,
                            resolve: string -> string)
    returns (r: Result<set<Option<string>>, PbsError>)
    ensures r == FilesystemProjectsSpec(inputLines, codePath, others, resolve)
    ensures r.Ok? ==> None !in r.value
  {
    var paths := InputPaths(inputLines);
    ghost var code := Somes([codePath]);
    assert code == [Some(codePath)];
    GatherConcat({None}, code + others, Somes(paths), resolve);
    GatherConcat({None}, code, others, resolve);
    GatherMeaning({None}, Candidates(codePath, others, inputLines), resolve);

    var fsProjects: set<Option<string>> := {None};
    var step := AddPaths(fsProjects, [codePath], resolve);
    if step.Err? {
      return Err(step.error);
    }
    fsProjects := step.value;

    step := AddOptionalPaths(fsProjects, others, resolve);
    if step.Err? {
      return Err(step.error);
    }
    fsProjects := step.value;

    step := AddPaths(fsProjects, paths, resolve);
    if step.Err? {
      return Err(step.error);
    }
    fsProjects := step.value;

    assert None in fsProjects;
    fsProjects := fsProjects - {None};
    return Ok(fsProjects);
  }

  /** `_filesystem_projects` succeeds exactly when every visited path's
      projects can be read, and then holds each project some path needs
      and nothing else. */
  lemma FilesystemProjectsMeaning(inputLines: seq<string>, codePath: string, others: seq<Option<string>>,
                                  resolve: string -> string)
    ensures var items := Candidates(codePath, others, inputLines);
      var r := FilesystemProjectsSpec(inputLines, codePath, others, resolve);
      (r.Ok? <==> forall k :: 0 <= k < |items| ==> Visit(items[k], resolve).Ok?) &&
      (r.Ok? ==> forall x :: x in r.value <==>
        (x.Some? && exists k :: 0 <= k < |items| && Visit(items[k], resolve).Ok? && x in Visit(items[k], resolve).value))
  {
    GatherMeaning({None}, Candidates(codePath, others, inputLines), resolve);
  }

  function ScratchItem(project: string): string
  {
    "scratch/" + project
  }

  function GdataItem(project: string): string
  {
    "gdata/" + project
  }

  /** `FMT7.format(f_project=project)`: `scratch/P+gdata/P`. */
  function StorageEntry(project: string): string
  {
    ScratchItem(project) + "+" + GdataItem(project)
  }

  /** `"+".join([FMT7.format(f_project=f) for f in fs_projects])`, the
      projects taken in the order the set yields them. */
  function Storage(projects: seq<string>): string
  {
    Join(seq(|projects|, k requires 0 <= k < |projects| => StorageEntry(projects[k])), "+")
  }

  /** The storage items PBS reads: `scratch/P` then `gdata/P` for each
      project P in turn. */
  function StorageItems(projects: seq<string>): (r: seq<string>)
    ensures |r| == 2 * |projects|
  {
    if |projects| == 0 then []
    else [ScratchItem(projects[0]), GdataItem(projects[0])] + StorageItems(projects[1..])
  }

  /** Items `2k` and `2k + 1` belong to project `k`. */
  lemma {:induction false} StorageItemsAt(projects: seq<string>, k: nat)
    requires k < |projects|
    ensures StorageItems(projects)[2 * k] == ScratchItem(projects[k])
    ensures StorageItems(projects)[2 * k + 1] == GdataItem(projects[k])
  {
    if k > 0 {
      StorageItemsAt(projects[1..], k - 1);
    }
  }

  lemma {:induction false} StorageJoin(projects: seq<string>)
    requires |projects| > 0
    ensures Storage(projects) == Join(StorageItems(projects), "+")
  {
    var entries := seq(|projects|, k requires 0 <= k < |projects| => StorageEntry(projects[k]));
    var p := projects[0];
    var tail := [GdataItem(p)] + StorageItems(projects[1..]);
    assert StorageItems(projects) == [ScratchItem(p)] + tail;
    assert tail[1..] == StorageItems(projects[1..]);
    if |projects| == 1 {
      assert Join(tail, "+") == GdataItem(p);
    } else {
      var rest := projects[1..];
      StorageJoin(rest);
      assert entries[1..] == seq(|rest|, k requires 0 <= k < |rest| => StorageEntry(rest[k]));
      assert Join(tail, "+") == GdataItem(p) + "+" + Join(StorageItems(rest), "+");
    }
  }

  /** A project name without `+` yields storage items without `+`. */
  lemma StorageItemsPlusFree(projects: seq<string>)
    requires forall k :: 0 <= k < |projects| ==> '+' !in projects[k]
    ensures forall k :: 0 <= k < |StorageItems(projects)| ==> '+' !in StorageItems(projects)[k]
  {
    var items := StorageItems(projects);
    forall k | 0 <= k < |items|
      ensures '+' !in items[k]
    {
      var j := k / 2;
      var prefix := if k % 2 == 0 then "scratch/" else "gdata/";
      StorageItemsAt(projects, j);
      assert k == 2 * j || k == 2 * j + 1;
      assert items[k] == prefix + projects[j];
      forall i | 0 <= i < |items[k]|
        ensures items[k][i] != '+'
      {
        if i >= |prefix| {
          assert items[k][i] == projects[j][i - |prefix|];
        }
      }
    }
  }

  /** Splitting the `storage=` value at `+` gives `scratch/P` and `gdata/P`
      for each project in turn, when no project name holds a `+`. */
  lemma StorageSplit(projects: seq<string>)
    requires |projects| > 0
    requires forall k :: 0 <= k < |projects| ==> '+' !in projects[k]
    ensures Split(Storage(projects), "+") == StorageItems(projects)
  {
    StorageJoin(projects);
    StorageItemsPlusFree(projects);
    SplitJoin(StorageItems(projects), '+');
  }

  /** What `re.match(r"^(?P<nci_job_id>\d+\.gadi-pbs)$", ...)` accepts as
      the job id: digits followed by `.gadi-pbs`. */
  predicate IsJobId(s: string)
  {
    |s| > 9 && s[|s| - 9..] == ".gadi-pbs" && IsInteger(s[..|s| - 9])
  }

  /** The job id `qsub` printed: the whole output, or the output before a
      single final newline, which `$` also matches before. */
  function MatchJobId(output: string): (r: Option<string>)
    ensures r.Some? ==> IsJobId(r.value) && (output == r.value || output == r.value + "\n")
    ensures IsJobId(output) ==> r == Some(output)
  {
    if IsJobId(output) then Some(output)
    else if |output| > 0 && output[|output| - 1] == '\n' && IsJobId(output[..|output| - 1]) then
      var id := output[..|output| - 1];
      assert output == id + "\n";
      Some(id)
    else None
  }

  /** `qsub`'s usual output, a job number, `.gadi-pbs` and a newline, gives
      the job id without the newline. */
  lemma MatchQsubOutput(number: string)
    requires IsInteger(number)
    ensures MatchJobId(number + ".gadi-pbs\n") == Some(number + ".gadi-pbs")
  {
    var id := number + ".gadi-pbs";
    var output := id + "\n";
    assert number + ".gadi-pbs\n" == output;
    assert id[|id| - 9..] == ".gadi-pbs" && id[..|id| - 9] == number;
    assert IsJobId(id);
    assert output[|output| - 9..][8] == '\n';
    assert !IsJobId(output);
    assert output[..|output| - 1] == id;
    assert output[|output| - 1] == '\n';
  }

  /** The job number of a job id: the part before its first `.`. */
  function JobNumber(jobId: string): (r: string)
    ensures '.' !in r
  {
    SplitPiecesFree(jobId, '.');
    Split(jobId, ".")[0]
  }

  /** `":".join([j.split(".")[0] for j in job_ids])`, the jobs the summary
      job depends on. */
  function JobIdDeps(jobIds: seq<string>): string
  {
    Join(seq(|jobIds|, k requires 0 <= k < |jobIds| => JobNumber(jobIds[k])), ":")
  }

  /** The job number of a matched job id is its digits. */
  lemma JobNumberDigits(jobId: string)
    requires IsJobId(jobId)
    ensures JobNumber(jobId) == jobId[..|jobId| - 9]
  {
    var number := jobId[..|jobId| - 9];
    assert '.' !in number by {
      forall i | 0 <= i < |number|
        ensures number[i] != '.'
      {
        assert IsDigit(number[i]);
      }
    }
    assert jobId == number + ['.'] + "gadi-pbs";
    SplitFirst(number, '.', "gadi-pbs");
  }

  /** Splitting the dependency list at `:` gives back the job number of each
      matched job id, in order. */
  lemma JobIdDepsSplit(jobIds: seq<string>)
    requires |jobIds| > 0
    requires forall k :: 0 <= k < |jobIds| ==> IsJobId(jobIds[k])
    ensures var numbers := Split(JobIdDeps(jobIds), ":");
      |numbers| == |jobIds| &&
      forall k :: 0 <= k < |jobIds| ==> numbers[k] + ".gadi-pbs" == jobIds[k] && IsInteger(numbers[k])
  {
    var numbers := seq(|jobIds|, k requires 0 <= k < |jobIds| => JobNumber(jobIds[k]));
    forall k | 0 <= k < |jobIds|
      ensures numbers[k] + ".gadi-pbs" == jobIds[k] && IsInteger(numbers[k]) && ':' !in numbers[k]
    {
      JobNumberDigits(jobIds[k]);
      assert jobIds[k] == jobIds[k][..|jobIds[k]| - 9] + jobIds[k][|jobIds[k]| - 9..];
      var number := numbers[k];
      forall i | 0 <= i < |number|
        ensures number[i] != ':'
      {
        assert IsDigit(number[i]);
      }
    }
    SplitJoin(numbers, ':');
  }
}
