/** The print-log logger `Logger/Loger_mark_2.py`: one statistics row per
    finished print job, a summary row, and the list of distinct recipes. */
module LoggerMark2 {
  import opened Py
  import opened Clock
  import opened JobName
  import opened LogScan
  import opened Jobs

  // ---------------------------------------------------------------------------
  // The helpers `logic()` calls

  /** `get_logs_list`: the `.log` entries of the folder; a missing folder gives
      the empty list, any other listing error propagates. */
  function LogsList(fs: FileSystem, folder: string): (r: Result<seq<string>>)
    ensures folder !in fs.dirs ==> r == Ok([])
  {
    match ListDir(fs, folder)
    case Ok(entries) => Ok(LogFiles(entries))
    case Err(e) => if e == FileNotFoundError then Ok([]) else Err(e)
  }

  /** `get_te_file`: the first entry naming the job and "PrintSeq"; None when
      there is none or the folder is missing. */
  function TeFileOf(fs: FileSystem, folder: string, job: string): (r: Result<Option<string>>)
    ensures folder !in fs.dirs ==> r == Ok(None)
  {
    match ListDir(fs, folder)
    case Ok(entries) => Ok(TeFile(entries, job))
    case Err(e) => if e == FileNotFoundError then Ok(None) else Err(e)
  }

  /** `get_folder_log_path`: the job's log folder, the text 'Log file not
      found.' when no entry matches, 'no such folder' when the folder is
      missing. */
  function FolderLogPath(fs: FileSystem, folder: string, job: string): Result<string>
  {
    match ListDir(fs, folder)
    case Ok(entries) =>
      (match FirstFolder(entries, job)
       case None => Ok("Log file not found.")
       case Some(e) => Ok(PathJoin(folder, e)))
    case Err(e) => if e == FileNotFoundError then Ok("no such folder") else Err(e)
  }

  /** The loop of `get_folder_log_path` around the shared folder search. */
  method GetFolderLogPath(fs: FileSystem, folder: string, job: string) returns (r: Result<string>)
    ensures r == FolderLogPath(fs, folder, job)
  {
    var listing := ListDir(fs, folder);
    if listing.Err? {
      if listing.error == FileNotFoundError {
        return Ok("no such folder");
      }
      return Err(listing.error);
    }
    var found := FolderSearch(folder, listing.value, job);
    if found == "" {
      return Ok("Log file not found.");
    }
    return Ok(found);
  }

  /** Whatever it finds, `get_folder_log_path` returns a non-empty string, so
      the `if not log_older: continue` after it never skips a job. */
  lemma FolderLogPathTruthy(fs: FileSystem, folder: string, job: string)
    requires FolderLogPath(fs, folder, job).Ok?
    ensures FolderLogPath(fs, folder, job).value != ""
  {
  }

  /** `time_estimation_calc`: the time between the stamps of the first and the
      last line of the estimation file, as `str(timedelta)`. A missing file
      re-raises as TypeError, because the handler concatenates a string with
      the exception. */
  function TimeEstimation(fs: FileSystem, folder: string, file: string): (r: Result<string>)
    ensures r.Err? ==> r.error in {TypeError, IndexError, ValueError}
  {
    match ReadLines(fs, PathJoin(folder, file))
    case Err(_) => Err(TypeError)
    case Ok(lines) => EstimateLines(lines)
  }

  /** The estimate from the lines read: `lines[0]` and `lines[-1]` on fewer
      than two lines raise IndexError, a line without a stamp ValueError. */
  function EstimateLines(lines: seq<string>): (r: Result<string>)
    ensures r.Err? ==> r.error in {IndexError, ValueError}
  {
    if |lines| < 2 then Err(IndexError)
    else
      var first, last := FoundStamp(lines[0]), FoundStamp(lines[|lines| - 1]);
      if first.None? || last.None? then Err(ValueError)
      else Estimate(first.value, last.value)
  }

  /** `str(end - start)` of the two stamps, the last one parsed first. */
  function Estimate(first: string, last: string): (r: Result<string>)
    ensures r.Err? ==> r.error == ValueError
  {
    match Strptime(last, " ", ":")
    case Err(e) => Err(e)
    case Ok(end) =>
      match Strptime(first, " ", ":")
      case Err(e) => Err(e)
      case Ok(start) => Ok(TimedeltaStr(Difference(end, start)))
  }

  /** When both stamps are found and parse, the estimate is computed and reads
      back as the seconds between them. */
  lemma EstimateValue(lines: seq<string>, first: string, last: string, start: DateTime, end: DateTime)
    requires |lines| >= 2 && FoundStamp(lines[0]) == Some(first) && FoundStamp(lines[|lines| - 1]) == Some(last)
    requires Strptime(first, " ", ":") == Ok(start) && Strptime(last, " ", ":") == Ok(end)
    ensures EstimateLines(lines).Ok?
    ensures DurationSeconds(EstimateLines(lines).value) == Some(Seconds(end) - Seconds(start))
  {
    assert EstimateLines(lines) == Estimate(first, last);
    EstimateRead(first, last, start, end);
  }

  lemma EstimateRead(first: string, last: string, start: DateTime, end: DateTime)
    requires Strptime(first, " ", ":") == Ok(start) && Strptime(last, " ", ":") == Ok(end)
    ensures Estimate(first, last).Ok?
    ensures DurationSeconds(Estimate(first, last).value) == Some(Seconds(end) - Seconds(start))
  {
    assert Estimate(first, last) == Ok(TimedeltaStr(Difference(end, start)));
    DifferenceRead(end, start);
  }

  /** Fewer than two lines raise IndexError; two lines of which the first or
      the last carries no stamp raise ValueError; a stamp that does not parse
      raises ValueError too. */
  lemma EstimateErrors(lines: seq<string>)
    ensures |lines| < 2 ==> EstimateLines(lines) == Err(IndexError)
    ensures |lines| >= 2 && (FoundStamp(lines[0]).None? || FoundStamp(lines[|lines| - 1]).None?) ==>
      EstimateLines(lines) == Err(ValueError)
    ensures |lines| >= 2 && FoundStamp(lines[|lines| - 1]).Some? && Strptime(FoundStamp(lines[|lines| - 1]).value, " ", ":").Err? ==>
      EstimateLines(lines) == Err(ValueError)
  {
  }

  /** What `find_recipe` returns: a name, or a falsy value (None, or False
      when the archive cannot be opened) as None. */
  function FindRecipeIn(fs: FileSystem, folder: string, entries: seq<string>): Result<Option<string>>
    decreases |entries|
  {
    if entries == [] then Ok(None)
    else
      var e := entries[0];
      if Contains(e, "Recipe") then
        match ListDir(fs, PathJoin(folder, e))
        case Err(x) => Err(x)
        case Ok(inner) => if inner == [] then Err(IndexError) else Ok(Some(inner[0]))
      else if !Contains(e, ".pcbjc") then FindRecipeIn(fs, folder, entries[1..])
      else
        match OpenArchive(fs, PathJoin(folder, e))
        case Ok(recipe) => Ok(recipe)
        case Err(x) => if x == PermissionError || x == FileNotFoundError then Ok(None) else Err(x)
  }

  /** `find_recipe`: its listing of the folder is not guarded, so a folder
      that does not exist (including the texts 'Log file not found.' and
      'no such folder') raises FileNotFoundError. */
  function FindRecipe(fs: FileSystem, folder: string): (r: Result<Option<string>>)
    ensures folder !in fs.dirs ==> r == Err(FileNotFoundError)
  {
    match ListDir(fs, folder)
    case Err(e) => Err(e)
    case Ok(entries) => FindRecipeIn(fs, folder, entries)
  }

  /** The scan answers from the first entry that is a recipe folder or an
      archive; the entries before it are neither. */
  lemma {:induction false} FindRecipeFirst(fs: FileSystem, folder: string, entries: seq<string>, i: nat)
    requires i < |entries| && (Contains(entries[i], "Recipe") || Contains(entries[i], ".pcbjc"))
    requires forall k :: 0 <= k < i ==> !Contains(entries[k], "Recipe") && !Contains(entries[k], ".pcbjc")
    ensures FindRecipeIn(fs, folder, entries) == FindRecipeIn(fs, folder, entries[i..])
    decreases i
  {
    if i > 0 {
      assert entries[1..][i - 1..] == entries[i..];
      FindRecipeFirst(fs, folder, entries[1..], i - 1);
    }
  }

  /** The Recipe column: the recipe when truthy, else 'no pcbjc file'. */
  function RecipeCell(recipe: Option<string>): (c: Cell)
    ensures Truthy(c)
  {
    match recipe
    case Some(r) => if r != "" then Text(r) else Text("no pcbjc file")
    case None => Text("no pcbjc file")
  }

  // ---------------------------------------------------------------------------
  // calculate_percentage and real_time_calculation

  /** `dictionary.get(key, 0)`: None stands for the default integer 0. */
  function Get(row: Record, key: string): Option<Cell>
  {
    if key in row then Some(row[key]) else None
  }

  /** `int(x)` of what `get` returned. */
  function IntOfGot(v: Option<Cell>): Result<int>
  {
    match v
    case None => Ok(0)
    case Some(c) => IntOf(c)
  }

  /** A value that `+` adds as a number: the default 0 or a float. */
  function NumberOf(v: Option<Cell>): Option<real>
  {
    match v
    case None => Some(0.0)
    case Some(Percent(x)) => Some(x)
    case Some(_) => None
  }

  /** `calculate_percentage`: Total Slices is converted first; a blank
      conductor count reads as 0 and the insulator count is converted; else a
      blank insulator count reads as 0 and the conductor count is converted;
      a zero total raises ZeroDivisionError; two non-blank counts are left as
      strings, and dividing their concatenation raises TypeError. */
  function CalculatePercentage(row: Record): (r: Result<real>)
    ensures r.Err? ==> r.error in {ValueError, TypeError, ZeroDivisionError}
  {
    var con, ins := Get(row, "Conductor Slices"), Get(row, "Insulator Slices");
    match IntOfGot(Get(row, "Total Slices"))
    case Err(e) => Err(e)
    case Ok(total) =>
      if con == Some(Text("")) then
        match IntOfGot(ins)
        case Err(e) => Err(e)
        case Ok(i) => if total == 0 then Err(ZeroDivisionError) else Ok(Ratio(i, total))
      else if ins == Some(Text("")) then
        match IntOfGot(con)
        case Err(e) => Err(e)
        case Ok(c) => if total == 0 then Err(ZeroDivisionError) else Ok(Ratio(c, total))
      else if total == 0 then Err(ZeroDivisionError)
      else
        match (NumberOf(con), NumberOf(ins))
        case (Some(c), Some(i)) => Ok((c + i) / total as real)
        case _ => Err(TypeError)
  }

  /** With the three counts present as strings, the percentage is computed
      exactly when one count is blank, the other and the total are integers and
      the total is not zero; it is then the other count over the total. Two
      non-blank counts fail with TypeError once the total is a non-zero
      integer, and a zero total fails with ZeroDivisionError. */
  lemma PercentageOfText(row: Record, c: string, i: string, t: string)
    requires Get(row, "Conductor Slices") == Some(Text(c)) && Get(row, "Insulator Slices") == Some(Text(i))
    requires Get(row, "Total Slices") == Some(Text(t))
    ensures CalculatePercentage(row).Ok? <==>
      ParseInt(t).Ok? && ParseInt(t).value != 0 &&
      ((c == "" && i != "" && ParseInt(i).Ok?) || (i == "" && c != "" && ParseInt(c).Ok?))
    ensures CalculatePercentage(row).Ok? ==>
      CalculatePercentage(row).value == Ratio(ParseInt(if c == "" then i else c).value, ParseInt(t).value)
    ensures c != "" && i != "" && ParseInt(t).Ok? && ParseInt(t).value != 0 ==> CalculatePercentage(row) == Err(TypeError)
    ensures ParseInt(t) == Ok(0) && (c == "" || i == "") && ParseInt(if c == "" then i else c).Ok? ==>
      CalculatePercentage(row) == Err(ZeroDivisionError)
  {
    var n := ParseInt(t);
    assert IntOfGot(Get(row, "Total Slices")) == n;
    if c == "" {
      assert IntOfGot(Get(row, "Insulator Slices")) == ParseInt(i);
    } else if i == "" {
      assert IntOfGot(Get(row, "Conductor Slices")) == ParseInt(c);
    }
  }

  /** What `real_time_calculation` returns: False, or the difference and the
      new total. */
  datatype Timing = NoTimes | Elapsed(wasted: Timedelta, total: nat)

  /** `real_time_calculation`: False when either time is blank; otherwise
      `end - start` and the total grown by `abs(days * 86400) + abs(seconds)`. */
  function RealTimeCalculation(row: Record, total: nat): (r: Result<Timing>)
    ensures r.Ok? && r.value.Elapsed? ==> r.value.total >= total && Normal(r.value.wasted)
  {
    if !Timed(row) then Ok(NoTimes)
    else
      match JobDuration(row)
      case Err(e) => Err(e)
      case Ok(td) => Ok(Elapsed(td, total + Increment(td)))
  }

  /** The total grows by exactly the elapsed seconds when the job ends no
      earlier than it starts. */
  lemma RealTimeForward(row: Record, total: nat, end: DateTime, start: DateTime)
    requires Timed(row) && LogTime(row, "End Time") == Ok(end) && LogTime(row, "StartTime") == Ok(start)
    requires !Before(end, start)
    ensures var r := RealTimeCalculation(row, total);
      r.Ok? && r.value.Elapsed? && r.value.wasted == Difference(end, start) &&
      r.value.total == total + Seconds(end) - Seconds(start)
  {
    assert JobDuration(row) == Ok(Difference(end, start));
    ForwardIncrement(end, start);
  }

  // ---------------------------------------------------------------------------
  // One job

  /** The row up to the recipe: File Name, the time estimate when there is an
      estimation file, and Recipe. */
  function Head(fs: FileSystem, filename: string): Result<Record>
  {
    match ExtractName(filename)
    case Err(e) => Err(e)
    case Ok(name) =>
      var row := Seeded()["File Name" := Text(name)];
      match TeFileOf(fs, TimeEstimationLogs, name)
      case Err(e) => Err(e)
      case Ok(te) =>
        var estimated :=
          (match te
           case None => Ok(row)
           case Some(file) =>
             (match TimeEstimation(fs, TimeEstimationLogs, file)
              case Err(e) => Err(e)
              case Ok(est) => Ok(row["Initial Time Estimation" := Text(est)])));
        match estimated
        case Err(e) => Err(e)
        case Ok(row1) =>
          match FolderLogPath(fs, PrintLogs, name)
          case Err(e) => Err(e)
          case Ok(folder) =>
            match FindRecipe(fs, folder)
            case Err(e) => Err(e)
            case Ok(recipe) => Ok(row1["Recipe" := RecipeCell(recipe)])
  }

  /** The rest of one job: the lines folded into the row, then the time. With
      no lines read yet the loop fails with UnboundLocalError. */
  function Tail(row: Record, lines: Option<seq<string>>, total: nat): Result<Done>
  {
    match lines
    case None => Err(UnboundLocalError)
    case Some(ls) =>
      match Fill(row, ls)
      case Err(e) => Err(e)
      case Ok(filled) => Close(filled, total)
  }

  /** The end of one job: with no times the unpacking of False fails with
      TypeError; a zero-length job is not appended; any other job gets its
      Percentage and its 'Time spent' and is appended. */
  function Close(filled: Record, total: nat): Result<Done>
  {
    match RealTimeCalculation(filled, total)
    case Err(e) => Err(e)
    case Ok(NoTimes) => Err(TypeError)
    case Ok(Elapsed(td, total')) =>
      if td == Timedelta(0, 0) then Ok(Done(filled, total', false))
      else
        match CalculatePercentage(filled)
        case Err(e) => Err(e)
        case Ok(p) => Ok(Done(Stamped(filled, p, td), total', true))
  }

  /** A job whose two times are equal is not appended and adds nothing to
      the total. */
  lemma ZeroLengthDropped(filled: Record, total: nat)
    requires Timed(filled) && JobDuration(filled) == Ok(Timedelta(0, 0))
    ensures Close(filled, total) == Ok(Done(filled, total, false))
  {
    var td := Timedelta(0, 0);
    assert Increment(td) == 0;
    RealTimeOf(filled, total, td);
    var c := Close(filled, total);
    assert c.Ok? && c.value == Done(filled, total, false);
    assert c == Ok(c.value);
  }

  /** With both times readable the result is the duration and the total grown
      by its increment. */
  lemma RealTimeOf(row: Record, total: nat, td: Timedelta)
    requires Timed(row) && JobDuration(row) == Ok(td)
    ensures RealTimeCalculation(row, total) == Ok(Elapsed(td, total + Increment(td)))
  {
    var r := RealTimeCalculation(row, total);
    assert r.Ok? && r.value == Elapsed(td, total + Increment(td));
    assert r == Ok(r.value);
  }

  /** A row as `logic()` appends it: both times readable, a non-zero length,
      'Time spent' its `str(end - start)` and Percentage its slice ratio. */
  predicate KeptRow(row: Record)
  {
    Timed(row) && JobDuration(row).Ok? && JobDuration(row).value != Timedelta(0, 0) &&
    Lookup(row, "Time spent") == Text(TimedeltaStr(JobDuration(row).value)) &&
    CalculatePercentage(row).Ok? && Lookup(row, "Percentage") == Percent(CalculatePercentage(row).value)
  }

  /** Writing Percentage and 'Time spent' leaves the times and the counts the
      row is judged by untouched, so the row is a kept row. */
  lemma StampedKept(filled: Record, p: real, td: Timedelta)
    requires Timed(filled) && JobDuration(filled) == Ok(td) && td != Timedelta(0, 0)
    requires CalculatePercentage(filled) == Ok(p)
    ensures KeptRow(Stamped(filled, p, td)) && RowIncrement(Stamped(filled, p, td)) == RowIncrement(filled)
  {
    var r := Stamped(filled, p, td);
    assert Timed(r) && JobDuration(r) == Ok(td) by {
      TimesFrame(r, filled);
    }
    assert CalculatePercentage(r) == Ok(p) by {
      assert Get(r, "Total Slices") == Get(filled, "Total Slices");
      assert Get(r, "Conductor Slices") == Get(filled, "Conductor Slices");
      assert Get(r, "Insulator Slices") == Get(filled, "Insulator Slices");
      PercentageFrame(r, filled);
    }
  }

  /** The percentage depends on the three slice counts alone. */
  lemma PercentageFrame(a: Record, b: Record)
    requires Get(a, "Total Slices") == Get(b, "Total Slices")
    requires Get(a, "Conductor Slices") == Get(b, "Conductor Slices")
    requires Get(a, "Insulator Slices") == Get(b, "Insulator Slices")
    ensures CalculatePercentage(a) == CalculatePercentage(b)
  {
  }

  /** An appended row is a kept row and adds its increment to the total; a
      job that is not appended has length zero and adds nothing. */
  lemma CloseDone(filled: Record, total: nat)
    requires Close(filled, total).Ok?
    ensures var d := Close(filled, total).value;
      (d.kept ==> KeptRow(d.row)) &&
      d.total == total + RowIncrement(d.row) &&
      (!d.kept ==> JobDuration(d.row) == Ok(Timedelta(0, 0)) && d.total == total)
  {
    var td := RealTimeCalculation(filled, total).value.wasted;
    assert JobDuration(filled) == Ok(td);
    if td != Timedelta(0, 0) {
      StampedKept(filled, CalculatePercentage(filled).value, td);
    }
  }

  lemma TailDone(row: Record, lines: Option<seq<string>>, total: nat)
    requires Tail(row, lines, total).Ok?
    ensures var d := Tail(row, lines, total).value;
      (d.kept ==> KeptRow(d.row)) &&
      d.total == total + RowIncrement(d.row) &&
      (!d.kept ==> JobDuration(d.row) == Ok(Timedelta(0, 0)) && d.total == total)
  {
    CloseDone(Fill(row, lines.value).value, total);
  }

  /** One job from its log file's name: the head of the row, then the lines
      folded in and the time. */
  function JobDone(fs: FileSystem, filename: string, lines: Option<seq<string>>, total: nat): Result<Done>
  {
    match Head(fs, filename)
    case Err(e) => Err(e)
    case Ok(row) => Tail(row, lines, total)
  }

  /** One iteration of the loop over the log files. */
  function StepJob(fs: FileSystem, sc: Scan, filename: string): Step
  {
    var lines := FileLines(fs, filename, sc.lines);
    match JobDone(fs, filename, lines, sc.total)
    case Err(e) => Crash(e)
    case Ok(d) => Next(After(sc, d, lines))
  }

  /** The body of the loop up to the append, step by step as `logic()` runs it. */
  method ProcessJob(fs: FileSystem, filename: string, lines: Option<seq<string>>, total: nat) returns (r: Result<Done>)
    ensures r == JobDone(fs, filename, lines, total)
  {
    var head := HeadRecord(fs, filename);
    if head.Err? {
      return Err(head.error);
    }
    if lines.None? {
      return Err(UnboundLocalError);
    }
    var filled := FillRecord(head.value, lines.value);
    if filled.Err? {
      return Err(filled.error);
    }
    r := Close(filled.value, total);
  }

  /** The row built before the log lines are read in. */
  method HeadRecord(fs: FileSystem, filename: string) returns (r: Result<Record>)
    ensures r == Head(fs, filename)
  {
    var name := ExtractName(filename);
    if name.Err? {
      return Err(name.error);
    }
    var row := SeedRecord();
    row := row["File Name" := Text(name.value)];
    var te := TeFileOf(fs, TimeEstimationLogs, name.value);
    if te.Err? {
      return Err(te.error);
    }
    if te.value.Some? {
      var est := TimeEstimation(fs, TimeEstimationLogs, te.value.value);
      if est.Err? {
        return Err(est.error);
      }
      row := row["Initial Time Estimation" := Text(est.value)];
    }
    var folder := GetFolderLogPath(fs, PrintLogs, name.value);
    if folder.Err? {
      return Err(folder.error);
    }
    var recipe := FindRecipe(fs, folder.value);
    if recipe.Err? {
      return Err(recipe.error);
    }
    return Ok(row["Recipe" := RecipeCell(recipe.value)]);
  }

  /** The loop of `logic()`. */
  function Run(fs: FileSystem, files: seq<string>, sc: Scan): (Scan, Option<Error>)
  {
    Loop((s, f) => StepJob(fs, s, f), files, sc)
  }

  /** One job appends at most its own row, a kept row whose increment is
      what the total grows by; a job that is not appended adds nothing. */
  lemma StepAppends(fs: FileSystem, sc: Scan, filename: string)
    requires StepJob(fs, sc, filename).Next?
    ensures Appends(sc, StepJob(fs, sc, filename).scan, KeptRow, RowIncrement)
  {
    var lines := FileLines(fs, filename, sc.lines);
    TailDone(Head(fs, filename).value, lines, sc.total);
    AfterAppends(sc, JobDone(fs, filename, lines, sc.total).value, lines, KeptRow, RowIncrement);
  }

  /** The loop of `logic()` only appends to `log`, each appended row is a kept
      row, and the total grows by exactly the increments of the appended rows. */
  lemma RunAppends(fs: FileSystem, files: seq<string>, sc: Scan)
    requires Aliased(sc)
    ensures Appended(sc, Run(fs, files, sc).0, KeptRow, RowIncrement)
  {
    var body := (s, f) => StepJob(fs, s, f);
    forall s, f | body(s, f).Next? ensures Appends(s, body(s, f).scan, KeptRow, RowIncrement) {
      StepAppends(fs, s, f);
    }
    LoopAppends(body, files, sc, KeptRow, RowIncrement);
  }

  // ---------------------------------------------------------------------------
  // logic(): the loop, the summary row and the two outputs

  /** How a run of `logic()` ends: the statistics file written (the rows of
      `log`) followed by the recipe list or the exception `save_recipes`
      raised, or an exception before anything was written. */
  datatype Outcome = Saved(statistics: seq<Record>, recipes: Result<seq<RecipeEntry>>) | Crashed(error: Error)

  /** After the loop: the last `log_dict` is overwritten with the summary row
      (every column emptied but 'Time spent', which holds the total). When
      that dictionary was the last row appended to `log`, the summary replaces
      that job's row in `log` itself. With no file at all `log_dict` was never
      bound. */
  function Finish(sc: Scan): (seq<Record>, Outcome)
  {
    match sc.last
    case None => (sc.log, Crashed(UnboundLocalError))
    case Some(row) =>
      var log := Overwritten(sc, Summary(row, sc.total, Interested));
      (log, Saved(log, Dedup(log)))
  }

  /** The new contents of the global `log` and the outcome of one click of the
      button, from the contents `log0` of `log` before it. */
  function LogicSpec(fs: FileSystem, log0: seq<Record>): (seq<Record>, Outcome)
  {
    match LogsList(fs, PrintLogs)
    case Err(e) => (log0, Crashed(e))
    case Ok(files) =>
      var (sc, err) := Run(fs, files, Scan(log0, 0, None, None, false));
      if err.Some? then (sc.log, Crashed(err.value)) else Finish(sc)
  }

  /** What the statistics hold after a loop that ran to the end: the rows
      `log` held before, then the appended rows; when the last job was
      appended its row is replaced by the summary, and when it was not, `log`
      is saved as it is. The recipes are those of the rows saved. */
  lemma FinishRows(log0: seq<Record>, sc: Scan)
    requires Appended(Scan(log0, 0, None, None, false), sc, KeptRow, RowIncrement)
    requires sc.last.Some?
    ensures var stats := Finish(sc).0;
      Finish(sc).1 == Saved(stats, Dedup(stats)) &&
      |stats| == |sc.log| && stats[..|log0|] == log0 &&
      (forall k :: |log0| <= k < |stats| - (if sc.kept then 1 else 0) ==> KeptRow(stats[k])) &&
      (!sc.kept ==> stats == sc.log) &&
      (sc.kept ==> |log0| < |stats| && stats[|stats| - 1] == Summary(sc.last.value, sc.total, Interested))
  {
    OverwrittenRows(log0, sc, Summary(sc.last.value, sc.total, Interested), KeptRow, RowIncrement);
  }

  /** When the last job was appended, the summary that replaces its row
      carries the total in 'Time spent'; after the loop that total is the sum
      of the increments of all the appended jobs, that one included
      (`RunAppends`). */
  lemma FinishTotal(sc: Scan)
    requires sc.last.Some? && sc.kept && |sc.log| > 0
    ensures var stats := Finish(sc).0;
      |stats| > 0 && "Time spent" in stats[|stats| - 1] && stats[|stats| - 1]["Time spent"].Text? &&
      DurationSeconds(stats[|stats| - 1]["Time spent"].text) == Some(sc.total)
  {
    var stats := Finish(sc).0;
    assert stats[|stats| - 1] == Summary(sc.last.value, sc.total, Interested);
    SummaryTime(sc.last.value, sc.total);
  }

  /** Whatever happens, the rows `log` held before are kept as they were, and
      what is saved is the new contents of `log` and its recipes. */
  lemma LogicKeepsLog(fs: FileSystem, log0: seq<Record>)
    ensures var (log, out) := LogicSpec(fs, log0);
      |log0| <= |log| && log[..|log0|] == log0 &&
      (out.Saved? ==> out.statistics == log && out.recipes == Dedup(log))
  {
    if LogsList(fs, PrintLogs).Ok? {
      var files := LogsList(fs, PrintLogs).value;
      var start := Scan(log0, 0, None, None, false);
      RunAppends(fs, files, start);
      var (sc, err) := Run(fs, files, start);
      if err.None? && sc.last.Some? {
        FinishRows(log0, sc);
      }
    } else {
      assert log0[..|log0|] == log0;
    }
  }

  /** The application: the module-level list `log`, which every click of the
      button extends. */
  class Logger {
    var log: seq<Record>

    constructor ()
      ensures log == []
    {
      log := [];
    }

    /** `logic()`. `total_time`, `f` and `log_dict` are its locals; `appended`
        records whether `log_dict` is the object last appended to `log`, which
        Python knows by aliasing. */
    method Logic(fs: FileSystem) returns (out: Outcome)
      modifies this
      ensures (log, out) == LogicSpec(fs, old(log))
    {
      var listing := ListDir(fs, PrintLogs);
      var files: seq<string> := [];
      if listing.Ok? {
        files := CollectLogs(listing.value);
      } else if listing.error != FileNotFoundError {
        return Crashed(listing.error);
      }
      var total: nat := 0;
      var lines: Option<seq<string>> := None;
      var last: Option<Record> := None;
      var appended := false;
      for i := 0 to |files|
        invariant Run(fs, files, Scan(old(log), 0, None, None, false)) ==
                  Run(fs, files[i..], Scan(log, total, lines, last, appended))
      {
        assert files[i..][1..] == files[i + 1..];
        lines := FileLines(fs, files[i], lines);
        var done := ProcessJob(fs, files[i], lines, total);
        if done.Err? {
          return Crashed(done.error);
        }
        total := done.value.total;
        last := Some(done.value.row);
        appended := done.value.kept;
        if appended {
          log := log + [done.value.row];
        }
      }
      assert files[|files|..] == [];
      if last.None? {
        return Crashed(UnboundLocalError);
      }
      var summary := SummaryRow(last.value, total, Interested);
      if appended && |log| > 0 {
        log := log[..|log| - 1] + [summary];
      }
      var recipes := DedupRecipes(log);
      return Saved(log, recipes);
    }
  }
}
