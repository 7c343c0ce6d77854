/**
 * index.js of the boat-info collector: the command line program. It checks
 * for the API key, either lays out a new workbook from a comma-separated
 * list or reads the boat types of an existing one, asks the description
 * service about each boat type in turn with a pause between requests, and
 * writes the descriptions back in one update.
 */
module Cli {
  import opened Wrappers
  import opened JsString
  import opened Workbook
  import opened Utils

  /** The command line options after parsing, with their defaults filled in. */
  datatype Args = Args(
    file: Option<string>,
    sheet: string,
    column: string,
    target: string,
    delay: int,
    create: bool,
    list: Option<string>,
    output: string)

  /** The environment variables the program reads. */
  datatype Env = Env(apiKey: Option<string>, queryTemplate: Option<string>)

  /** Why the program exits with status 1. */
  datatype Reason =
    | NoApiKey
    | NoList
    | NoFile
    | Missing(path: string)
    | Raised(error: Failure)

  /** How a run ends. */
  datatype Status = Completed | Exited(reason: Reason)

  /** The process exit status of a run. */
  function ExitCode(s: Status): nat {
    if s.Completed? then 0 else 1
  }

  /**
   * What a run does to the outside world, in order: the new workbook
   * written in create mode, each request to the description service (by its
   * position in the list, with the prompt sent), each pause, and the final
   * write of the updated workbook.
   */
  datatype Event = Created(path: string) | Requested(index: nat, query: string) | Waited(ms: int) | Updated(path: string)

  /** The outcome of a run: its status, the files afterwards, and what it did. */
  datatype Run = Run(status: Status, files: map<string, Stored>, trace: seq<Event>)

  /** An option or variable that is set to a non-empty string (JavaScript truthiness). */
  predicate Given(o: Option<string>) {
    o.Some? && o.value != ""
  }

  // ---------------------------------------------------------------------
  // Create mode: the list and its row numbers
  // ---------------------------------------------------------------------

  /** `list.split(',').map(type => type.trim())`. */
  function ParseList(list: string): (types: seq<string>)
    ensures |types| == Count(list, ',') + 1
  {
    var parts := Split(list, ',');
    seq(|parts|, i requires 0 <= i < |parts| => Trim(parts[i]))
  }

  /** The boat types of a parsed list are trimmed and contain no comma; empty ones are kept. */
  lemma ParseListItems(list: string)
    ensures forall i :: 0 <= i < |ParseList(list)| ==>
              ',' !in ParseList(list)[i] && Trim(ParseList(list)[i]) == ParseList(list)[i]
  {
    var parts := Split(list, ',');
    forall i | 0 <= i < |parts|
      ensures ',' !in Trim(parts[i]) && Trim(Trim(parts[i])) == Trim(parts[i])
    {
      TrimIdempotent(parts[i]);
      TrimIsCore(parts[i]);
      var a, b :| 0 <= a <= b <= |parts[i]| && Trim(parts[i]) == parts[i][a..b];
      forall k | 0 <= k < |Trim(parts[i])|
        ensures Trim(parts[i])[k] != ','
      {
        assert Trim(parts[i])[k] == parts[i][a + k];
      }
    }
  }

  /** Joining trimmed, comma-free boat types with commas and parsing the result gives them back. */
  lemma ParseListJoin(types: seq<string>)
    requires |types| >= 1
    requires forall i :: 0 <= i < |types| ==> ',' !in types[i] && Trim(types[i]) == types[i]
    ensures ParseList(Join(types, ',')) == types
  {
    SplitJoin(types, ',');
  }

  /** The entries of create mode: boat type i goes with row i + 2, below the header row. */
  function Numbered(types: seq<string>): seq<BoatRow> {
    seq(|types|, i requires 0 <= i < |types| => BoatRow(i + 2, types[i]))
  }

  /** In the created worksheet, "Boat Type" is found in column 1 and "Information" in column 2. */
  lemma LayoutHeaders(types: seq<string>)
    ensures HeaderColumn(Layout(types), "Boat Type") == Some(1)
    ensures HeaderColumn(Layout(types), "Information") == Some(2)
  {
    LayoutCells(types);
    var g := Layout(types);
    assert g.Get(1, 2) == Str("Information");
    assert g.Get(1, 1) == Str("Boat Type");
    assert "Information" != "Boat Type" by {
      assert "Information"[0] != "Boat Type"[0];
    }
    assert LastMatch(g, "Boat Type", 1) == Some(1);
    assert LastMatch(g, "Boat Type", 2) == Some(1);
  }

  lemma WholePrefix<T>(s: seq<T>)
    ensures s[..|s|] == s
  {
  }

  lemma PrefixStep<T>(s: seq<T>, k: nat)
    requires 0 < k <= |s|
    ensures s[..k] == s[..k - 1] + [s[k - 1]]
  {
  }

  lemma {:induction false} ScanLayoutPrefix(types: seq<string>, k: nat)
    requires k <= |types|
    requires forall i :: 0 <= i < |types| ==> types[i] != "" && Trim(types[i]) == types[i]
    ensures ScanRows(Layout(types), 1, k + 1) == Numbered(types)[..k]
  {
    if k > 0 {
      ScanLayoutPrefix(types, k - 1);
      var g := Layout(types);
      var rows := Numbered(types);
      LayoutCells(types);
      assert g.Get(k + 1, 1) == Str(types[k - 1]);
      assert ScanRows(g, 1, k + 1) == ScanRows(g, 1, k) + [BoatRow(k + 1, Trim(types[k - 1]))];
      assert rows[k - 1] == BoatRow(k + 1, types[k - 1]);
      PrefixStep(rows, k);
    }
  }

  /**
   * Create mode numbers the rows exactly as a later scan of the created
   * workbook reads them, provided no boat type in the list is empty (an
   * empty cell is skipped by the scan).
   */
  lemma CreatedSheetReadsBack(files: map<string, Stored>, path: string, types: seq<string>)
    requires forall i :: 0 <= i < |types| ==> types[i] != "" && Trim(types[i]) == types[i]
    ensures ReadSpec(files[path := Book([Sheet(SheetName, Layout(types))])], path, SheetName, "Boat Type")
            == Ok(Numbered(types))
  {
    LayoutHeaders(types);
    ScanLayout(types);
    ReadSingleSheet(files, path, SheetName, Layout(types), "Boat Type");
  }

  /** Reading a file that holds one worksheet reads that worksheet. */
  lemma ReadSingleSheet(files: map<string, Stored>, path: string, sheet: string, g: Grid, column: string)
    ensures HeaderColumn(g, column).Some? ==>
              ReadSpec(files[path := Book([Sheet(sheet, g)])], path, sheet, column)
              == Ok(ScanColumn(g, HeaderColumn(g, column).value))
  {
    assert FindSheet([Sheet(sheet, g)], sheet) == Some(0);
  }

  /** The scan of the boat type column of the fresh layout gives the numbered boat types. */
  lemma ScanLayout(types: seq<string>)
    requires forall i :: 0 <= i < |types| ==> types[i] != "" && Trim(types[i]) == types[i]
    ensures ScanColumn(Layout(types), 1) == Numbered(types)
  {
    ScanLayoutPrefix(types, |types|);
    WholePrefix(Numbered(types));
  }

  // ---------------------------------------------------------------------
  // The request loop
  // ---------------------------------------------------------------------

  /**
   * The descriptions the loop collects. The description service is the
   * parameter `api`: it answers the request at position i with the prompt
   * it was sent, or fails.
   */
  function Enriched(rows: seq<BoatRow>, queryTemplate: Option<string>,
                    api: (nat, string) -> Option<string>): seq<BoatInfo> {
    seq(|rows|, i requires 0 <= i < |rows| =>
      BoatInfo(rows[i].row, rows[i].boatType, FetchBoatInfo(queryTemplate, rows[i].boatType, Service(api, i))))
  }

  /** The description service as seen by request i. */
  function Service(api: (nat, string) -> Option<string>, i: nat): string -> Option<string> {
    q => api(i, q)
  }

  /** The prompts the loop sends, in order. */
  function Queries(rows: seq<BoatRow>, queryTemplate: Option<string>): seq<string> {
    seq(|rows|, i requires 0 <= i < |rows| => Query(queryTemplate, rows[i].boatType))
  }

  /** Iteration i of a loop sending `queries`: request i, then a pause unless it is the last. */
  function Step(queries: seq<string>, delay: int, i: nat): seq<Event>
    requires i < |queries|
  {
    [Requested(i, queries[i])] + (if i < |queries| - 1 then [Waited(delay)] else [])
  }

  /** The events of the first k iterations. */
  function Steps(queries: seq<string>, delay: int, k: nat): seq<Event>
    requires k <= |queries|
  {
    if k == 0 then [] else Steps(queries, delay, k - 1) + Step(queries, delay, k - 1)
  }

  /** The events of the whole loop. */
  function Schedule(rows: seq<BoatRow>, queryTemplate: Option<string>, delay: int): seq<Event> {
    Steps(Queries(rows, queryTemplate), delay, |rows|)
  }

  lemma {:induction false} StepsShape(queries: seq<string>, delay: int, k: nat)
    requires k <= |queries|
    ensures |Steps(queries, delay, k)| == if k == |queries| && k > 0 then 2 * k - 1 else 2 * k
    ensures forall i :: 0 <= i < k ==> Steps(queries, delay, k)[2 * i] == Requested(i, queries[i])
    ensures forall i :: 0 <= i < k && i < |queries| - 1 ==> Steps(queries, delay, k)[2 * i + 1] == Waited(delay)
  {
    if k > 0 {
      StepsShape(queries, delay, k - 1);
      var prev := Steps(queries, delay, k - 1);
      var cur := Steps(queries, delay, k);
      assert |prev| == 2 * (k - 1);
      forall i | 0 <= i < k
        ensures cur[2 * i] == Requested(i, queries[i])
      {
        if i < k - 1 {
          assert cur[2 * i] == prev[2 * i];
        }
      }
      forall i | 0 <= i < k && i < |queries| - 1
        ensures cur[2 * i + 1] == Waited(delay)
      {
        if i < k - 1 {
          assert cur[2 * i + 1] == prev[2 * i + 1];
        }
      }
    }
  }

  /**
   * The loop sends one request per boat type, in list order, and pauses
   * `delay` milliseconds between consecutive requests only: n requests and
   * n - 1 pauses, alternating, none before the first or after the last.
   */
  lemma ScheduleShape(rows: seq<BoatRow>, queryTemplate: Option<string>, delay: int)
    ensures |Schedule(rows, queryTemplate, delay)| == if rows == [] then 0 else 2 * |rows| - 1
    ensures forall i :: 0 <= i < |rows| ==>
              Schedule(rows, queryTemplate, delay)[2 * i] == Requested(i, Query(queryTemplate, rows[i].boatType))
    ensures forall i :: 0 <= i < |rows| - 1 ==> Schedule(rows, queryTemplate, delay)[2 * i + 1] == Waited(delay)
  {
    StepsShape(Queries(rows, queryTemplate), delay, |rows|);
  }

  lemma EnrichedStep(rows: seq<BoatRow>, queryTemplate: Option<string>, api: (nat, string) -> Option<string>, i: nat)
    requires i < |rows|
    ensures Enriched(rows, queryTemplate, api)[..i + 1] == Enriched(rows, queryTemplate, api)[..i] +
              [BoatInfo(rows[i].row, rows[i].boatType, FetchBoatInfo(queryTemplate, rows[i].boatType, Service(api, i)))]
  {
    var e := Enriched(rows, queryTemplate, api);
    assert e[..i + 1] == e[..i] + [e[i]];
  }

  lemma StepsNext(rows: seq<BoatRow>, queryTemplate: Option<string>, delay: int, i: nat)
    requires i < |rows|
    ensures Steps(Queries(rows, queryTemplate), delay, i + 1) == Steps(Queries(rows, queryTemplate), delay, i) +
              [Requested(i, Query(queryTemplate, rows[i].boatType))] + (if i < |rows| - 1 then [Waited(delay)] else [])
  {
    assert Queries(rows, queryTemplate)[i] == Query(queryTemplate, rows[i].boatType);
  }

  /** The `for` loop of `main`: fetch each description in turn, pausing between requests. */
  method Enrich(rows: seq<BoatRow>, queryTemplate: Option<string>, api: (nat, string) -> Option<string>,
                delay: int) returns (infos: seq<BoatInfo>, trace: seq<Event>)
    ensures infos == Enriched(rows, queryTemplate, api)
    ensures trace == Schedule(rows, queryTemplate, delay)
  {
    infos, trace := [], [];
    for i := 0 to |rows|
      invariant infos == Enriched(rows, queryTemplate, api)[..i]
      invariant trace == Steps(Queries(rows, queryTemplate), delay, i)
    {
      EnrichedStep(rows, queryTemplate, api, i);
      StepsNext(rows, queryTemplate, delay, i);
      var boatType := rows[i].boatType;
      var info := FetchBoatInfo(queryTemplate, boatType, Service(api, i));
      infos := infos + [BoatInfo(rows[i].row, boatType, info)];
      trace := trace + [Requested(i, Query(queryTemplate, boatType))];
      if i < |rows| - 1 {
        trace := trace + [Waited(delay)];
      }
    }
    assert Enriched(rows, queryTemplate, api)[..|rows|] == Enriched(rows, queryTemplate, api);
  }

  // ---------------------------------------------------------------------
  // main
  // ---------------------------------------------------------------------

  /** The update after the loop: the descriptions are written to `sheet` of `path` in one go. */
  function Finish(files: map<string, Stored>, path: string, sheet: string, args: Args, env: Env,
                  api: (nat, string) -> Option<string>, rows: seq<BoatRow>, before: seq<Event>): Run
    requires forall i :: 0 <= i < |rows| ==> rows[i].row >= 1
  {
    var infos := Enriched(rows, env.queryTemplate, api);
    var trace := before + Schedule(rows, env.queryTemplate, args.delay);
    match UpdateSpec(files, path, sheet, args.target, infos)
    case Err(e) => Run(Exited(Raised(e)), files, trace)
    case Ok(files') => Run(Completed, files', trace + [Updated(path)])
  }

  /** A run of the program on the files `files`. */
  function ProgramSpec(args: Args, env: Env, api: (nat, string) -> Option<string>,
                       files: map<string, Stored>): Run
  {
    if !Given(env.apiKey) then Run(Exited(NoApiKey), files, [])
    else if args.create then
      if !Given(args.list) then Run(Exited(NoList), files, [])
      else
        var types := ParseList(args.list.value);
        var created := files[args.output := Book([Sheet(SheetName, Layout(types))])];
        Finish(created, args.output, SheetName, args, env, api, Numbered(types), [Created(args.output)])
    else if !Given(args.file) then Run(Exited(NoFile), files, [])
    else if args.file.value !in files then Run(Exited(Missing(args.file.value)), files, [])
    else
      match ReadSpec(files, args.file.value, args.sheet, args.column)
      case Err(e) => Run(Exited(Raised(e)), files, [])
      case Ok(rows) =>
        ReadRowsAreDataRows(files, args.file.value, args.sheet, args.column);
        Finish(files, args.file.value, args.sheet, args, env, api, rows, [])
  }

  /** The create-mode half of `main`: lay out the new workbook and number its rows. */
  method CreateMode(args: Args, disk: Disk) returns (rows: seq<BoatRow>)
    requires args.create && Given(args.list) && WellFormed(disk.files)
    modifies disk
    ensures WellFormed(disk.files)
    ensures disk.files == old(disk.files)[args.output := Book([Sheet(SheetName, Layout(ParseList(args.list.value)))])]
    ensures rows == Numbered(ParseList(args.list.value))
  {
    var types := ParseList(args.list.value);
    CreateExcelWithBoatTypes(disk, args.output, types);
    rows := seq(|types|, i requires 0 <= i < |types| => BoatRow(i + 2, types[i]));
  }

  /** The loop and the final update of `main`, common to both modes. */
  method Process(path: string, sheet: string, args: Args, env: Env, api: (nat, string) -> Option<string>,
                 disk: Disk, rows: seq<BoatRow>, before: seq<Event>) returns (status: Status, trace: seq<Event>)
    requires WellFormed(disk.files) && forall i :: 0 <= i < |rows| ==> rows[i].row >= 1
    modifies disk
    ensures Run(status, disk.files, trace) == Finish(old(disk.files), path, sheet, args, env, api, rows, before)
  {
    var infos, fetched := Enrich(rows, env.queryTemplate, api, args.delay);
    trace := before + fetched;
    var r := UpdateExcelWithInfo(disk, path, sheet, args.target, infos);
    if r.Err? {
      return Exited(Raised(r.error)), trace;
    }
    return Completed, trace + [Updated(path)];
  }

  /** `main`, with the API key check that precedes it: every exit and its effects. */
  method Program(args: Args, env: Env, api: (nat, string) -> Option<string>, disk: Disk)
    returns (status: Status, trace: seq<Event>)
    requires WellFormed(disk.files)
    modifies disk
    ensures Run(status, disk.files, trace) == ProgramSpec(args, env, api, old(disk.files))
  {
    if !Given(env.apiKey) {
      return Exited(NoApiKey), [];
    }
    if args.create {
      if !Given(args.list) {
        return Exited(NoList), [];
      }
      var rows := CreateMode(args, disk);
      status, trace := Process(args.output, SheetName, args, env, api, disk, rows, [Created(args.output)]);
    } else {
      if !Given(args.file) {
        return Exited(NoFile), [];
      }
      var path := args.file.value;
      if path !in disk.files {
        return Exited(Missing(path)), [];
      }
      var read := ReadBoatTypes(disk, path, args.sheet, args.column);
      if read.Err? {
        return Exited(Raised(read.error)), [];
      }
      ReadRowsAreDataRows(disk.files, path, args.sheet, args.column);
      status, trace := Process(path, args.sheet, args, env, api, disk, read.value, []);
    }
  }

  // ---------------------------------------------------------------------
  // Properties of a run
  // ---------------------------------------------------------------------

  /**
   * A run that stops before the loop (no API key, no list in create mode,
   * no file or a missing file in scan mode, or a failed read) exits with
   * status 1, changes no file and sends no request.
   */
  lemma EarlyExits(args: Args, env: Env, api: (nat, string) -> Option<string>, files: map<string, Stored>)
    requires || !Given(env.apiKey)
             || (args.create && !Given(args.list))
             || (!args.create && (!Given(args.file) || args.file.value !in files))
             || (!args.create && ReadSpec(files, args.file.value, args.sheet, args.column).Err?)
    ensures ExitCode(ProgramSpec(args, env, api, files).status) == 1
    ensures ProgramSpec(args, env, api, files).files == files
    ensures ProgramSpec(args, env, api, files).trace == []
  {
  }

  /**
   * In scan mode (API key set, file given and present) the run completes
   * exactly when `readBoatTypes` succeeds; the update that follows cannot
   * fail, it is the only change to the files, and the trace is the request
   * loop followed by one write of the file.
   */
  lemma ScanModeOutcome(args: Args, env: Env, api: (nat, string) -> Option<string>, files: map<string, Stored>)
    requires Given(env.apiKey) && !args.create && Given(args.file) && args.file.value in files
    ensures ProgramSpec(args, env, api, files).status.Completed? <==>
              ReadSpec(files, args.file.value, args.sheet, args.column).Ok?
    ensures ReadSpec(files, args.file.value, args.sheet, args.column).Ok? ==>
              var rows := ReadSpec(files, args.file.value, args.sheet, args.column).value;
              && RowsValid(Enriched(rows, env.queryTemplate, api))
              && UpdateSpec(files, args.file.value, args.sheet, args.target, Enriched(rows, env.queryTemplate, api)).Ok?
              && ProgramSpec(args, env, api, files).files ==
                   UpdateSpec(files, args.file.value, args.sheet, args.target, Enriched(rows, env.queryTemplate, api)).value
              && ProgramSpec(args, env, api, files).trace ==
                   Schedule(rows, env.queryTemplate, args.delay) + [Updated(args.file.value)]
  {
    var path := args.file.value;
    if ReadSpec(files, path, args.sheet, args.column).Ok? {
      var rows := ReadSpec(files, path, args.sheet, args.column).value;
      ReadRowsAreDataRows(files, path, args.sheet, args.column);
      UpdateAfterRead(files, path, args.sheet, args.column, args.target, Enriched(rows, env.queryTemplate, api));
    }
  }

  /** With rows i + 2 for entry i, the last write to row i + 2 is entry i's. */
  lemma NumberedLastWrite(data: seq<BoatInfo>, i: nat)
    requires i < |data| && forall j :: 0 <= j < |data| ==> data[j].row == j + 2
    ensures LastWrite(data, i + 2) == Some(data[i].info)
  {
    LastWriteSpec(data, i + 2);
    assert data[i].row == i + 2;
  }

  /** The update of create mode finds the "Information" column and writes there. */
  lemma CreatedUpdate(types: seq<string>, data: seq<BoatInfo>)
    requires RowsValid(data)
    ensures WithInfo(Layout(types), "Information", data) == WriteAll(Layout(types), 2, data)
  {
    LayoutHeaders(types);
  }

  /** Writing the descriptions to the "Information" column of the fresh layout keeps its header row. */
  lemma CreatedHeaderRow(types: seq<string>, infos: seq<BoatInfo>)
    requires forall j :: 0 <= j < |infos| ==> infos[j].row == j + 2
    ensures forall c: nat :: WithInfo(Layout(types), "Information", infos).Get(1, c) == Layout(types).Get(1, c)
  {
    var g := Layout(types);
    CreatedUpdate(types, infos);
    WriteAllCells(g, 2, infos);
    LastWriteSpec(infos, 1);
    assert LastWrite(infos, 1).None?;
  }

  /** Entry i of the create-mode descriptions is for row i + 2. */
  lemma EnrichedNumbered(types: seq<string>, queryTemplate: Option<string>, api: (nat, string) -> Option<string>)
    ensures forall i :: 0 <= i < |types| ==> Enriched(Numbered(types), queryTemplate, api)[i].row == i + 2
  {
  }

  lemma CreatedRow(types: seq<string>, infos: seq<BoatInfo>, i: nat)
    requires i < |types| && |infos| == |types| && forall j :: 0 <= j < |infos| ==> infos[j].row == j + 2
    ensures WithInfo(Layout(types), "Information", infos).Get(i + 2, 1) == Str(types[i])
    ensures WithInfo(Layout(types), "Information", infos).Get(i + 2, 2) == Str(infos[i].info)
  {
    var g := Layout(types);
    CreatedUpdate(types, infos);
    WriteAllCells(g, 2, infos);
    NumberedLastWrite(infos, i);
    LayoutCells(types);
    assert g.Get(i + 2, 1) == LayoutCell(types, i + 2, 1);
  }

  /**
   * Writing descriptions for rows 2, 3, ... to the "Information" column of
   * the fresh layout keeps boat type i in row i + 2 of column 1 and puts
   * description i beside it, in column 2.
   */
  lemma CreatedRows(types: seq<string>, infos: seq<BoatInfo>)
    requires |infos| == |types| && forall j :: 0 <= j < |infos| ==> infos[j].row == j + 2
    ensures forall i :: 0 <= i < |types| ==>
              && WithInfo(Layout(types), "Information", infos).Get(i + 2, 1) == Str(types[i])
              && WithInfo(Layout(types), "Information", infos).Get(i + 2, 2) == Str(infos[i].info)
  {
    forall i | 0 <= i < |types|
      ensures && WithInfo(Layout(types), "Information", infos).Get(i + 2, 1) == Str(types[i])
              && WithInfo(Layout(types), "Information", infos).Get(i + 2, 2) == Str(infos[i].info)
    {
      CreatedRow(types, infos, i);
    }
  }

  /**
   * Create mode always completes, whatever the target column: the new
   * workbook is written to the output path and no other file changes; its
   * only worksheet is "Boat Types", updated with the descriptions (for the
   * default target, as `CreatedRows` states). The trace is the write of the
   * new workbook, the request loop, and the final update.
   */
  lemma CreateModeOutcome(args: Args, env: Env, api: (nat, string) -> Option<string>, files: map<string, Stored>)
    requires Given(env.apiKey) && args.create && Given(args.list)
    ensures var run := ProgramSpec(args, env, api, files);
            var types := ParseList(args.list.value);
            var infos := Enriched(Numbered(types), env.queryTemplate, api);
            && run.status == Completed
            && run.files == files[args.output := Book([Sheet(SheetName, WithInfo(Layout(types), args.target, infos))])]
            && run.trace == [Created(args.output)] + Schedule(Numbered(types), env.queryTemplate, args.delay)
                            + [Updated(args.output)]
  {
    var types := ParseList(args.list.value);
    var rows := Numbered(types);
    var infos := Enriched(rows, env.queryTemplate, api);
    EnrichedNumbered(types, env.queryTemplate, api);
    CreateModeRun(args, env, api, files);
    UpdateCreated(files, args.output, types, args.target, infos);
  }

  /** In create mode, the run is the layout of the new workbook followed by the loop and the update. */
  lemma CreateModeRun(args: Args, env: Env, api: (nat, string) -> Option<string>, files: map<string, Stored>)
    requires Given(env.apiKey) && args.create && Given(args.list)
    ensures ProgramSpec(args, env, api, files) ==
              Finish(files[args.output := Book([Sheet(SheetName, Layout(ParseList(args.list.value)))])],
                     args.output, SheetName, args, env, api, Numbered(ParseList(args.list.value)), [Created(args.output)])
  {
  }

  /**
   * The update of a freshly created workbook, for any target column,
   * replaces its only worksheet and cannot fail.
   */
  lemma UpdateCreated(files: map<string, Stored>, path: string, types: seq<string>, target: string,
                      infos: seq<BoatInfo>)
    requires RowsValid(infos)
    ensures UpdateSpec(files[path := Book([Sheet(SheetName, Layout(types))])], path, SheetName, target, infos)
            == Ok(files[path := Book([Sheet(SheetName, WithInfo(Layout(types), target, infos))])])
  {
    var created := files[path := Book([Sheet(SheetName, Layout(types))])];
    assert FindSheet(created[path].sheets, SheetName) == Some(0);
    assert [Sheet(SheetName, Layout(types))][0 := Sheet(SheetName, WithInfo(Layout(types), target, infos))]
           == [Sheet(SheetName, WithInfo(Layout(types), target, infos))];
    var updated := Book([Sheet(SheetName, WithInfo(Layout(types), target, infos))]);
    assert created[path := updated] == files[path := updated];
  }
}
