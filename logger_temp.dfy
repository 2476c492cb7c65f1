/** The earlier print-log logger `DF-IV-Logger/Logger_mark2_temp.py`: the same
    columns and the same loop as `Logger/Loger_mark_2.py`, with broader
    exception handlers, no zero-length check, a percentage that adds both
    slice counts, the recipe taken from the last archive of the folder, and a
    statistics file written before the summary row is added to it. */
module LoggerTemp {
  import opened Py
  import opened Clock
  import opened JobName
  import opened LogScan
  import opened Jobs

  // ---------------------------------------------------------------------------
  // The helpers `logic()` calls

  /** `getLogsList`: the `.log` entries of the folder; the bare `except`
      turns any listing error into the empty list. */
  function LogsList(fs: FileSystem, folder: string): (r: seq<string>)
    ensures ListDir(fs, folder).Err? ==> r == []
    ensures ListDir(fs, folder).Ok? ==> r == LogFiles(ListDir(fs, folder).value)
  {
    match ListDir(fs, folder)
    case Ok(entries) => LogFiles(entries)
    case Err(_) => []
  }

  /** `getTEfile`: the first entry naming the job and "PrintSeq", None when
      the loop falls through; the listing is not guarded. */
  function TeFileOf(fs: FileSystem, folder: string, job: string): (r: Result<Option<string>>)
    ensures r.Err? <==> ListDir(fs, folder).Err?
  {
    match ListDir(fs, folder)
    case Ok(entries) => Ok(TeFile(entries, job))
    case Err(e) => Err(e)
  }

  /** `getFolderLogPath`: the job's log folder, the empty string when no entry
      matches, 'no such folder' on any listing error. */
  function FolderLogPath(fs: FileSystem, folder: string, job: string): string
  {
    match ListDir(fs, folder)
    case Ok(entries) =>
      (match FirstFolder(entries, job)
       case None => ""
       case Some(e) => PathJoin(folder, e))
    case Err(_) => "no such folder"
  }

  method GetFolderLogPath(fs: FileSystem, folder: string, job: string) returns (r: string)
    ensures r == FolderLogPath(fs, folder, job)
  {
    var listing := ListDir(fs, folder);
    if listing.Err? {
      return "no such folder";
    }
    r := FolderSearch(folder, listing.value, job);
  }

  /** The job is skipped (`if not logFolder: continue`) exactly when the
      listing succeeds and no folder matches; a job name holding '_' is
      always skipped when the folder can be listed. */
  lemma FolderLogPathSkips(fs: FileSystem, folder: string, job: string)
    ensures FolderLogPath(fs, folder, job) == "" <==>
      ListDir(fs, folder).Ok? && forall e :: e in ListDir(fs, folder).value ==> !FolderMatches(e, job)
    ensures '_' in job && ListDir(fs, folder).Ok? ==> FolderLogPath(fs, folder, job) == ""
  {
    if '_' in job && ListDir(fs, folder).Ok? {
      UnderscoreNeverMatches(ListDir(fs, folder).value, job);
    }
  }

  /** `TimeEstimationCalc`: nothing is guarded. A missing file raises
      FileNotFoundError. */
  function TimeEstimation(fs: FileSystem, folder: string, file: string): (r: Result<string>)
    ensures r.Err? ==> r.error in {FileNotFoundError, IndexError, AttributeError, ValueError}
  {
    match ReadLines(fs, PathJoin(folder, file))
    case Err(e) => Err(e)
    case Ok(lines) => EstimateLines(lines)
  }

  /** The estimate from the lines read: an empty file raises IndexError at
      `f[0]`; a single line is both the first and the last. */
  function EstimateLines(lines: seq<string>): (r: Result<string>)
    ensures r.Err? ==> r.error in {IndexError, AttributeError, ValueError}
  {
    if |lines| == 0 then Err(IndexError)
    else EstimateStamps(FoundStamp(lines[0]), FoundStamp(lines[|lines| - 1]))
  }

  /** `str(end - start)` from the two searches, in the order Python evaluates
      them: a last line without a stamp (AttributeError on `None.regs`), its
      stamp not parsing (ValueError), then the same two for the first line. */
  function EstimateStamps(first: Option<string>, last: Option<string>): (r: Result<string>)
    ensures r.Err? ==> r.error in {AttributeError, ValueError}
  {
    if last.None? then Err(AttributeError)
    else
      match Strptime(last.value, " ", ":")
      case Err(e) => Err(e)
      case Ok(end) =>
        if first.None? then Err(AttributeError)
        else
          match Strptime(first.value, " ", ":")
          case Err(e) => Err(e)
          case Ok(start) => Ok(TimedeltaStr(Difference(end, start)))
  }

  /** When both stamps are found and parse, the estimate reads back as the
      seconds between them. */
  lemma EstimateValue(lines: seq<string>, first: string, last: string, start: DateTime, end: DateTime)
    requires |lines| >= 1 && FoundStamp(lines[0]) == Some(first) && FoundStamp(lines[|lines| - 1]) == Some(last)
    requires Strptime(first, " ", ":") == Ok(start) && Strptime(last, " ", ":") == Ok(end)
    ensures EstimateLines(lines).Ok?
    ensures DurationSeconds(EstimateLines(lines).value) == Some(Seconds(end) - Seconds(start))
  {
    assert EstimateLines(lines) == EstimateStamps(Some(first), Some(last));
    EstimateStampsOk(first, last, start, end);
    DifferenceRead(end, start);
  }

  lemma EstimateStampsOk(first: string, last: string, start: DateTime, end: DateTime)
    requires Strptime(first, " ", ":") == Ok(start) && Strptime(last, " ", ":") == Ok(end)
    ensures EstimateStamps(Some(first), Some(last)) == Ok(TimedeltaStr(Difference(end, start)))
  {
  }

  /** A file of one stamped line estimates no time at all, where Mark 2
      raises IndexError. */
  lemma EstimateOneLine(line: string, d: DateTime)
    requires FoundStamp(line).Some? && Strptime(FoundStamp(line).value, " ", ":") == Ok(d)
    ensures EstimateLines([line]).Ok? && DurationSeconds(EstimateLines([line]).value) == Some(0)
  {
    var s := FoundStamp(line).value;
    EstimateValue([line], s, s, d, d);
  }

  /** The errors in the order they are met. */
  lemma EstimateErrors(lines: seq<string>)
    ensures lines == [] ==> EstimateLines(lines) == Err(IndexError)
    ensures lines != [] && FoundStamp(lines[|lines| - 1]).None? ==> EstimateLines(lines) == Err(AttributeError)
    ensures lines != [] && FoundStamp(lines[|lines| - 1]).Some? ==>
      (Strptime(FoundStamp(lines[|lines| - 1]).value, " ", ":").Err? ==> EstimateLines(lines) == Err(ValueError)) &&
      (Strptime(FoundStamp(lines[|lines| - 1]).value, " ", ":").Ok? && FoundStamp(lines[0]).None? ==>
         EstimateLines(lines) == Err(AttributeError))
  {
  }

  /** What an archive gives the Recipe column: the recipe, None when
      `pcbj.info` has none, and 'no pcbjc file' for any exception. */
  function ArchiveCell(read: ArchiveRead): (c: Cell)
    ensures read.Err? ==> c == Text("no pcbjc file")
  {
    match read
    case Ok(Some(r)) => Text(r)
    case Ok(None) => Null
    case Err(_) => Text("no pcbjc file")
  }

  /** The recipe loop over the job folder's entries: a recipe folder gives the
      first entry of its listing and ends the loop (an empty one raises
      IndexError); every archive writes the Recipe column and the loop goes
      on, so the last archive wins. */
  function RecipeFrom(fs: FileSystem, folder: string, entries: seq<string>, row: Record): Result<Record>
    decreases |entries|
  {
    if entries == [] then Ok(row)
    else
      var e := entries[0];
      if Contains(e, "Recipe") then
        match ListDir(fs, PathJoin(folder, e))
        case Err(x) => Err(x)
        case Ok(inner) => if inner == [] then Err(IndexError) else Ok(row["Recipe" := Text(inner[0])])
      else if !Contains(e, ".pcbjc") then RecipeFrom(fs, folder, entries[1..], row)
      else RecipeFrom(fs, folder, entries[1..], row["Recipe" := ArchiveCell(OpenArchive(fs, PathJoin(folder, e)))])
  }

  /** `for PCBJC in os.listdir(logFolder)`: the listing is not guarded. */
  function Recipe(fs: FileSystem, folder: string, row: Record): (r: Result<Record>)
    ensures ListDir(fs, folder).Err? ==> r == Err(ListDir(fs, folder).error)
  {
    match ListDir(fs, folder)
    case Err(e) => Err(e)
    case Ok(entries) => RecipeFrom(fs, folder, entries, row)
  }

  method ScanRecipe(fs: FileSystem, folder: string, row0: Record) returns (r: Result<Record>)
    ensures r == Recipe(fs, folder, row0)
  {
    var listing := ListDir(fs, folder);
    if listing.Err? {
      return Err(listing.error);
    }
    var entries := listing.value;
    var row := row0;
    for i := 0 to |entries|
      invariant RecipeFrom(fs, folder, entries, row0) == RecipeFrom(fs, folder, entries[i..], row)
    {
      assert entries[i..][1..] == entries[i + 1..];
      var e := entries[i];
      if Contains(e, "Recipe") {
        var inner := ListDir(fs, PathJoin(folder, e));
        if inner.Err? {
          return Err(inner.error);
        }
        if inner.value == [] {
          return Err(IndexError);
        }
        row := row["Recipe" := Text(inner.value[0])];
        return Ok(row);
      }
      if !Contains(e, ".pcbjc") {
        continue;
      }
      row := row["Recipe" := ArchiveCell(OpenArchive(fs, PathJoin(folder, e)))];
    }
    assert entries[|entries|..] == [];
    return Ok(row);
  }

  /** With no recipe folder among the entries, the Recipe column is the one
      of the last archive, and it is left as it was when there is none. */
  lemma {:induction false} RecipeLastWins(fs: FileSystem, folder: string, entries: seq<string>, row: Record)
    requires forall k :: 0 <= k < |entries| ==> !Contains(entries[k], "Recipe")
    ensures RecipeFrom(fs, folder, entries, row).Ok?
    ensures var r := RecipeFrom(fs, folder, entries, row).value;
      Lookup(r, "Recipe") == LastArchive(fs, folder, entries, Lookup(row, "Recipe")) &&
      forall k :: k != "Recipe" ==> Lookup(r, k) == Lookup(row, k)
    decreases |entries|
  {
    if entries != [] {
      var e := entries[0];
      var next := if Contains(e, ".pcbjc") then row["Recipe" := ArchiveCell(OpenArchive(fs, PathJoin(folder, e)))] else row;
      assert forall k :: 0 <= k < |entries| - 1 ==> entries[1..][k] == entries[k + 1];
      RecipeLastWins(fs, folder, entries[1..], next);
    }
  }

  /** The cell of the last archive among the entries, `current` when there is
      none. */
  function LastArchive(fs: FileSystem, folder: string, entries: seq<string>, current: Cell): Cell
    decreases |entries|
  {
    if entries == [] then current
    else if Contains(entries[0], ".pcbjc") then
      LastArchive(fs, folder, entries[1..], ArchiveCell(OpenArchive(fs, PathJoin(folder, entries[0]))))
    else LastArchive(fs, folder, entries[1..], current)
  }

  // ---------------------------------------------------------------------------
  // percentage and the time

  /** `int(x)` of a count, or 0 when the count is falsy or missing. */
  function CountOf(row: Record, key: string): Result<int>
  {
    if Truthy(Lookup(row, key)) then IntOf(Lookup(row, key)) else Ok(0)
  }

  /** `percentage`: both counts converted (a falsy one reads 0), then the
      total, which must be present; a zero total raises ZeroDivisionError. */
  function Percentage(row: Record): (r: Result<real>)
    ensures r.Err? ==> r.error in {ValueError, TypeError, ZeroDivisionError}
  {
    match CountOf(row, "Conductor Slices")
    case Err(e) => Err(e)
    case Ok(c) =>
      match CountOf(row, "Insulator Slices")
      case Err(e) => Err(e)
      case Ok(i) =>
        match IntOf(Lookup(row, "Total Slices"))
        case Err(e) => Err(e)
        case Ok(t) => if t == 0 then Err(ZeroDivisionError) else Ok(Ratio(c + i, t))
  }

  /** A count given as text: blank reads as 0, anything else through `int`. */
  function TextCount(c: string): Result<int>
  {
    if c == "" then Ok(0) else ParseInt(c)
  }

  lemma CountOfText(row: Record, key: string, c: string)
    requires Lookup(row, key) == Text(c)
    ensures CountOf(row, key) == TextCount(c)
  {
  }

  /** With the three counts present as strings, the percentage is computed
      exactly when each non-blank count and the total are integers and the
      total is not zero. */
  lemma PercentageOfText(row: Record, c: string, i: string, t: string)
    requires Lookup(row, "Conductor Slices") == Text(c) && Lookup(row, "Insulator Slices") == Text(i)
    requires Lookup(row, "Total Slices") == Text(t)
    ensures Percentage(row).Ok? <==>
      (c == "" || ParseInt(c).Ok?) && (i == "" || ParseInt(i).Ok?) && ParseInt(t).Ok? && ParseInt(t).value != 0
  {
    CountOfText(row, "Conductor Slices", c);
    CountOfText(row, "Insulator Slices", i);
  }

  /** The percentage from the three conversions, in the order they run: it
      is computed exactly when all three succeed and the total is not zero,
      and it is then the sum of the two counts over the total. */
  lemma PercentageOfCounts(row: Record, c: Result<int>, i: Result<int>, t: Result<int>)
    requires CountOf(row, "Conductor Slices") == c && CountOf(row, "Insulator Slices") == i
    requires IntOf(Lookup(row, "Total Slices")) == t
    ensures Percentage(row).Ok? <==> c.Ok? && i.Ok? && t.Ok? && t.value != 0
    ensures Percentage(row).Ok? ==> Percentage(row).value == Ratio(c.value + i.value, t.value)
  {
  }

  /** Two counts and a non-zero total that convert give their sum over the
      total. */
  lemma PercentageOfSum(row: Record, x: int, y: int, z: int)
    requires CountOf(row, "Conductor Slices") == Ok(x) && CountOf(row, "Insulator Slices") == Ok(y)
    requires IntOf(Lookup(row, "Total Slices")) == Ok(z) && z != 0
    ensures Percentage(row) == Ok(Ratio(x + y, z))
  {
    PercentageOfCounts(row, Ok(x), Ok(y), Ok(z));
  }

  /** A row as `logic()` appends it: both times readable, 'Time spent' its
      `str(end - start)` and Percentage its slice ratio; a zero length is
      allowed. */
  predicate KeptRow(row: Record)
  {
    Timed(row) && JobDuration(row).Ok? &&
    Lookup(row, "Time spent") == Text(TimedeltaStr(JobDuration(row).value)) &&
    Percentage(row).Ok? && Lookup(row, "Percentage") == Percent(Percentage(row).value)
  }

  /** The end of one job: with a blank time the job is skipped; otherwise the
      total grows, then the percentage is computed and the row appended. */
  function Close(filled: Record, total: nat): Result<Done>
  {
    if !Timed(filled) then Ok(Done(filled, total, false))
    else
      match JobDuration(filled)
      case Err(e) => Err(e)
      case Ok(td) =>
        match Percentage(filled)
        case Err(e) => Err(e)
        case Ok(p) => Ok(Done(Stamped(filled, p, td), total + Increment(td), true))
  }

  /** The percentage depends on the three slice counts alone. */
  lemma PercentageFrame(a: Record, b: Record)
    requires Lookup(a, "Total Slices") == Lookup(b, "Total Slices")
    requires Lookup(a, "Conductor Slices") == Lookup(b, "Conductor Slices")
    requires Lookup(a, "Insulator Slices") == Lookup(b, "Insulator Slices")
    ensures Percentage(a) == Percentage(b)
  {
    var c, i, t := CountOf(a, "Conductor Slices"), CountOf(a, "Insulator Slices"), IntOf(Lookup(a, "Total Slices"));
    assert CountOf(b, "Conductor Slices") == c && CountOf(b, "Insulator Slices") == i;
    assert IntOf(Lookup(b, "Total Slices")) == t;
    PercentageOfCounts(a, c, i, t);
    PercentageOfCounts(b, c, i, t);
  }

  lemma StampedKept(filled: Record, p: real, td: Timedelta)
    requires Timed(filled) && JobDuration(filled) == Ok(td) && Percentage(filled) == Ok(p)
    ensures KeptRow(Stamped(filled, p, td)) && RowIncrement(Stamped(filled, p, td)) == RowIncrement(filled)
  {
    var r := Stamped(filled, p, td);
    assert Timed(r) && JobDuration(r) == Ok(td) by {
      TimesFrame(r, filled);
    }
    assert Percentage(r) == Ok(p) by {
      PercentageFrame(r, filled);
    }
  }

  /** An appended row is a kept row whose increment is what the total grew
      by; a skipped job leaves the total alone. */
  lemma CloseDone(filled: Record, total: nat)
    requires Close(filled, total).Ok?
    ensures var d := Close(filled, total).value;
      (d.kept ==> KeptRow(d.row) && d.total == total + RowIncrement(d.row)) &&
      (!d.kept ==> !Timed(d.row) && d.total == total)
  {
    if Timed(filled) {
      StampedKept(filled, Percentage(filled).value, JobDuration(filled).value);
    }
  }

  /** A job of zero length (its two times equal, `ZeroDifference`) is
      appended, with 'Time spent' "0:00:00", and adds nothing to the total;
      Mark 2 leaves such a job out. */
  lemma ZeroLengthKept(filled: Record, total: nat)
    requires Timed(filled) && JobDuration(filled) == Ok(Timedelta(0, 0)) && Percentage(filled).Ok?
    ensures Close(filled, total).Ok? && Close(filled, total).value.kept
    ensures Lookup(Close(filled, total).value.row, "Time spent") == Text("0:00:00")
    ensures Close(filled, total).value.total == total
  {
    ZeroStr();
  }

  // ---------------------------------------------------------------------------
  // One job

  /** The row up to the recipe, or None when the job is skipped because no
      log folder matches. */
  function Head(fs: FileSystem, filename: string): Result<(Record, bool)>
  {
    match ExtractName(filename)
    case Err(e) => Err(e)
    case Ok(name) =>
      var row := Seeded()["File Name" := Text(name)];
      match TeFileOf(fs, TimeEstimationLogs, name)
      case Err(e) => Err(e)
      case Ok(te) =>
        var estimated :=
          (match te
           case None => Ok(row)
           case Some(file) =>
             (match TimeEstimation(fs, TimeEstimationLogs, file)
              case Err(e) => Err(e)
              case Ok(est) => Ok(row["Initial Time Estimation" := Text(est)])));
        match estimated
        case Err(e) => Err(e)
        case Ok(row1) =>
          var folder := FolderLogPath(fs, PrintLogs, name);
          if folder == "" then Ok((row1, false))
          else
            match Recipe(fs, folder, row1)
            case Err(e) => Err(e)
            case Ok(row2) => Ok((row2, true))
  }

  /** The rest of a job that was not skipped: the lines of the log file last
      read (none at all is the UnboundLocalError of `f`), folded into the
      row, then the time. */
  function Tail(row: Record, lines: Option<seq<string>>, total: nat): Result<Done>
  {
    match lines
    case None => Err(UnboundLocalError)
    case Some(ls) =>
      match Fill(row, ls)
      case Err(e) => Err(e)
      case Ok(filled) => Close(filled, total)
  }

  lemma TailDone(row: Record, lines: Option<seq<string>>, total: nat)
    requires Tail(row, lines, total).Ok?
    ensures Grows(Tail(row, lines, total).value, total, KeptRow, RowIncrement)
  {
    CloseDone(Fill(row, lines.value).value, total);
  }

  /** One job: the head of the row, then, unless it was skipped, the rest. */
  function JobDone(fs: FileSystem, filename: string, lines: Option<seq<string>>, total: nat): Result<Done>
  {
    match Head(fs, filename)
    case Err(e) => Err(e)
    case Ok((row, go)) => if go then Tail(row, lines, total) else Ok(Done(row, total, false))
  }

  /** One iteration of the loop over the log files. */
  function StepJob(fs: FileSystem, sc: Scan, filename: string): Step
  {
    var lines := FileLines(fs, filename, sc.lines);
    match JobDone(fs, filename, lines, sc.total)
    case Err(e) => Crash(e)
    case Ok(d) => Next(After(sc, d, lines))
  }

  method HeadRecord(fs: FileSystem, filename: string) returns (r: Result<(Record, bool)>)
    ensures r == Head(fs, filename)
  {
    var name := ExtractName(filename);
    if name.Err? {
      return Err(name.error);
    }
    var row := SeedRecord();
    row := row["File Name" := Text(name.value)];
    var te := TeFileOf(fs, TimeEstimationLogs, name.value);
    if te.Err? {
      return Err(te.error);
    }
    if te.value.Some? {
      var est := TimeEstimation(fs, TimeEstimationLogs, te.value.value);
      if est.Err? {
        return Err(est.error);
      }
      row := row["Initial Time Estimation" := Text(est.value)];
    }
    var folder := GetFolderLogPath(fs, PrintLogs, name.value);
    if folder == "" {
      return Ok((row, false));
    }
    var recipe := ScanRecipe(fs, folder, row);
    if recipe.Err? {
      return Err(recipe.error);
    }
    return Ok((recipe.value, true));
  }

  method ProcessJob(fs: FileSystem, filename: string, lines: Option<seq<string>>, total: nat) returns (r: Result<Done>)
    ensures r == JobDone(fs, filename, lines, total)
  {
    var head := HeadRecord(fs, filename);
    if head.Err? {
      return Err(head.error);
    }
    var (row, go) := head.value;
    if !go {
      return Ok(Done(row, total, false));
    }
    if lines.None? {
      return Err(UnboundLocalError);
    }
    var filled := FillRecord(row, lines.value);
    if filled.Err? {
      return Err(filled.error);
    }
    r := Close(filled.value, total);
  }

  /** One job appends at most its own row, a kept row whose increment is
      what the total grows by; a job that is not appended adds nothing. */
  lemma StepAppends(fs: FileSystem, sc: Scan, filename: string)
    requires StepJob(fs, sc, filename).Next?
    ensures Appends(sc, StepJob(fs, sc, filename).scan, KeptRow, RowIncrement)
  {
    var lines := FileLines(fs, filename, sc.lines);
    var (row, go) := Head(fs, filename).value;
    if go {
      TailDone(row, lines, sc.total);
    }
    AfterAppends(sc, JobDone(fs, filename, lines, sc.total).value, lines, KeptRow, RowIncrement);
  }

  function Run(fs: FileSystem, files: seq<string>, sc: Scan): (Scan, Option<Error>)
  {
    Loop((s, f) => StepJob(fs, s, f), files, sc)
  }

  /** The loop only appends to `log`, each appended row is a kept row, and the
      total grows by exactly the increments of the appended rows. */
  lemma RunAppends(fs: FileSystem, files: seq<string>, sc: Scan)
    requires Aliased(sc)
    ensures Appended(sc, Run(fs, files, sc).0, KeptRow, RowIncrement)
  {
    var body := (s, f) => StepJob(fs, s, f);
    forall s, f | body(s, f).Next? ensures Appends(s, body(s, f).scan, KeptRow, RowIncrement) {
      StepAppends(fs, s, f);
    }
    LoopAppends(body, files, sc, KeptRow, RowIncrement);
  }

  // ---------------------------------------------------------------------------
  // logic(): the loop, the statistics file, the summary row and the recipes

  /** How a run of `logic()` ends: an exception before the statistics file
      was read back; the file written with `log` and then an exception; or
      the file rewritten with the summary row added, followed by the recipe
      list or the exception `saveRecipes` raised. */
  datatype Outcome =
    | Crashed(error: Error)
    | Unfinished(statistics: seq<Record>, error: Error)
    | Saved(statistics: seq<Record>, recipes: Result<seq<RecipeEntry>>)

  /** After the loop. `savefile` swallows any error, so when the output folder
      is missing nothing is written and `read_csv` raises FileNotFoundError.
      Otherwise the file holds `log`. An empty `log` is written as a frame
      with no columns, which `read_csv` refuses with EmptyDataError, a
      ValueError. With no file at all `log_dict` was never bound; else the summary overwrites the last `log_dict` (and so the last
      row of `log` when that dictionary was appended), the file gets `log` as
      it was plus the summary, and the recipes are those of the new `log`. */
  function Finish(sc: Scan, outputExists: bool): (seq<Record>, Outcome)
  {
    if !outputExists then (sc.log, Crashed(FileNotFoundError))
    else if sc.log == [] then (sc.log, Unfinished([], ValueError))
    else
      match sc.last
      case None => (sc.log, Unfinished(sc.log, UnboundLocalError))
      case Some(row) =>
        var summary := Summary(row, sc.total, Interested);
        var log := Overwritten(sc, summary);
        (log, Saved(sc.log + [summary], Dedup(log)))
  }

  /** The new contents of the global `log` and the outcome of one click of the
      button, from the contents `log0` of `log` before it. */
  function LogicSpec(fs: FileSystem, outputExists: bool, log0: seq<Record>): (seq<Record>, Outcome)
  {
    var (sc, err) := Run(fs, LogsList(fs, PrintLogs), Scan(log0, 0, None, None, false));
    if err.Some? then (sc.log, Crashed(err.value)) else Finish(sc, outputExists)
  }

  /** The statistics file holds every row of `log` as the loop left it, the
      last job's row included, and ends with the summary, whose 'Time spent'
      reads back as the total. */
  lemma FinishStatistics(sc: Scan)
    requires sc.log != [] && sc.last.Some?
    ensures Finish(sc, true).1.Saved?
    ensures var stats := Finish(sc, true).1.statistics;
      |stats| == |sc.log| + 1 && stats[..|sc.log|] == sc.log &&
      stats[|stats| - 1] == Summary(sc.last.value, sc.total, Interested) &&
      "Time spent" in stats[|stats| - 1] && stats[|stats| - 1]["Time spent"].Text? &&
      DurationSeconds(stats[|stats| - 1]["Time spent"].text) == Some(sc.total)
  {
    var stats := Finish(sc, true).1.statistics;
    assert stats[..|sc.log|] == sc.log;
    SummaryTime(sc.last.value, sc.total);
  }

  /** In memory, the rows `log` held before are kept, every appended row but
      the last job's is a kept row, and when the last job was appended its row
      is replaced by the summary; the recipes are those of the new `log`. */
  lemma FinishRows(log0: seq<Record>, sc: Scan)
    requires Appended(Scan(log0, 0, None, None, false), sc, KeptRow, RowIncrement)
    requires sc.log != [] && sc.last.Some?
    ensures var log := Finish(sc, true).0;
      Finish(sc, true).1.Saved? && Finish(sc, true).1.recipes == Dedup(log) &&
      |log| == |sc.log| && log[..|log0|] == log0 &&
      (forall k :: |log0| <= k < |log| - (if sc.kept then 1 else 0) ==> KeptRow(log[k])) &&
      (!sc.kept ==> log == sc.log) &&
      (sc.kept ==> |log0| < |log| && log[|log| - 1] == Summary(sc.last.value, sc.total, Interested))
  {
    OverwrittenRows(log0, sc, Summary(sc.last.value, sc.total, Interested), KeptRow, RowIncrement);
  }

  /** A click that ends with `log` still empty never gets past `read_csv`:
      nothing is summarised and no recipe is exported, whether or not a job
      was read. */
  lemma EmptyLogUnread(sc: Scan)
    requires sc.log == []
    ensures Finish(sc, true) == ([], Unfinished([], ValueError))
    ensures !Finish(sc, true).1.Saved?
  {
  }

  /** On a first click (`log` empty) with no `.log` file at all, the
      statistics cannot be read back: ValueError, not the UnboundLocalError
      of the unbound `log_dict`. */
  lemma FirstClickNoLogs(fs: FileSystem)
    requires LogsList(fs, PrintLogs) == []
    ensures LogicSpec(fs, true, []) == ([], Unfinished([], ValueError))
  {
  }

  /** Whatever happens, the rows `log` held before are kept as they were. */
  lemma LogicKeepsLog(fs: FileSystem, outputExists: bool, log0: seq<Record>)
    ensures var (log, out) := LogicSpec(fs, outputExists, log0);
      |log0| <= |log| && log[..|log0|] == log0 &&
      (out.Saved? ==> out.recipes == Dedup(log))
  {
    var start := Scan(log0, 0, None, None, false);
    RunAppends(fs, LogsList(fs, PrintLogs), start);
    var (sc, err) := Run(fs, LogsList(fs, PrintLogs), start);
    if err.None? && outputExists && sc.log != [] && sc.last.Some? {
      FinishRows(log0, sc);
    }
  }

  /** The application: the module-level list `log`. */
  class Logger {
    var log: seq<Record>

    constructor ()
      ensures log == []
    {
      log := [];
    }

    /** `logic()`, with whether the output folder exists as a parameter;
        `appended` records whether `log_dict` is the object last appended to
        `log`, which Python knows by aliasing. */
    method Logic(fs: FileSystem, outputExists: bool) returns (out: Outcome)
      modifies this
      ensures (log, out) == LogicSpec(fs, outputExists, old(log))
    {
      var listing := ListDir(fs, PrintLogs);
      var files: seq<string> := [];
      if listing.Ok? {
        files := CollectLogs(listing.value);
      }
      var total: nat := 0;
      var lines: Option<seq<string>> := None;
      var last: Option<Record> := None;
      var appended := false;
      for i := 0 to |files|
        invariant Run(fs, files, Scan(old(log), 0, None, None, false)) ==
                  Run(fs, files[i..], Scan(log, total, lines, last, appended))
      {
        assert files[i..][1..] == files[i + 1..];
        lines := FileLines(fs, files[i], lines);
        var done := ProcessJob(fs, files[i], lines, total);
        if done.Err? {
          return Crashed(done.error);
        }
        total := done.value.total;
        last := Some(done.value.row);
        appended := done.value.kept;
        if appended {
          log := log + [done.value.row];
        }
      }
      assert files[|files|..] == [];
      if !outputExists {
        return Crashed(FileNotFoundError);
      }
      var written := log;
      if log == [] {
        return Unfinished([], ValueError);
      }
      if last.None? {
        return Unfinished(written, UnboundLocalError);
      }
      var summary := SummaryRow(last.value, total, Interested);
      if appended && |log| > 0 {
        log := log[..|log| - 1] + [summary];
      }
      var recipes := DedupRecipes(log);
      return Saved(written + [summary], recipes);
    }
  }
}
