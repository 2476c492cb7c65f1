/** What the two print-log loggers share: the job row and its sixteen columns,
    the folders they read, the `key:\tvalue` lines folded into a row, the
    directory scans, the elapsed-time total, the summary row and the recipe
    list. */
module LogScan {
  import opened Py
  import opened Clock

  // ---------------------------------------------------------------------------
  // The machine's folders

  /** A directory listing, or the exception `os.listdir` raises. */
  type Listing = Result<seq<string>>

  /** What a `.pcbjc` archive yields: the `Recipe` entry of its `pcbj.info`
      (None when the entry is absent), or the exception opening or reading
      it raises. */
  type ArchiveRead = Result<Option<string>>

  /** The folders, text files and job archives as the loggers find them; a path
      missing from a map does not exist. */
  datatype FileSystem = FileSystem(
    dirs: map<string, Listing>,
    files: map<string, seq<string>>,
    archives: map<string, ArchiveRead>)

  function ListDir(fs: FileSystem, path: string): (r: Listing)
    ensures path !in fs.dirs ==> r == Err(FileNotFoundError)
  {
    if path in fs.dirs then fs.dirs[path] else Err(FileNotFoundError)
  }

  /** `open(path).readlines()`: the lines, each still ending in its newline. */
  function ReadLines(fs: FileSystem, path: string): (r: Result<seq<string>>)
    ensures r.Err? <==> path !in fs.files
  {
    if path in fs.files then Ok(fs.files[path]) else Err(FileNotFoundError)
  }

  function OpenArchive(fs: FileSystem, path: string): ArchiveRead
  {
    if path in fs.archives then fs.archives[path] else Err(FileNotFoundError)
  }

  function PathJoin(folder: string, name: string): string
  {
    folder + "/" + name
  }

  const PrintLogs: string := "C:/DragonFly/PrintLogs"
  const TimeEstimationLogs: string := "C:/DragonFly/Logs/TimeEstimationLogs"

  // ---------------------------------------------------------------------------
  // A job row

  /** A value in a row: a string, Python's None (a `pcbj.info` without a
      recipe), or the percentage `round(ratio, 4) * 100` kept as its exact
      ratio. */
  datatype Cell = Text(text: string) | Null | Percent(ratio: real)

  type Record = map<string, Cell>

  /** The columns of the statistics, in order. */
  const Interested: seq<string> := [
    "File Name", "Recipe", "DragonflyPC", "Initial Time Estimation", "StartTime", "End Time",
    "Conductor Slice Thickness", "Insulator Slice Thickness", "Tray Temp", "Resolution",
    "Insulator Slices", "Conductor Slices", "Total Slices", "Percentage", "Finish Status", "Time spent"]

  /** Python truthiness of a value. */
  predicate Truthy(c: Cell)
  {
    match c
    case Text(t) => t != ""
    case Null => false
    case Percent(x) => x != 0.0
  }

  /** `row.get(key)`: None when the key is absent. */
  function Lookup(row: Record, key: string): Cell
  {
    if key in row then row[key] else Null
  }

  /** A fresh row: every column holds the empty string. */
  function Seeded(): (row: Record)
    ensures row.Keys == set k | k in Interested
  {
    map k | k in Interested :: Text("")
  }

  /** The seeding loop at the top of each job. */
  method SeedRecord() returns (row: Record)
    ensures row == Seeded()
  {
    row := map[];
    for j := 0 to |Interested|
      invariant row == map k | k in Interested[..j] :: Text("")
    {
      assert Interested[..j + 1] == Interested[..j] + [Interested[j]];
      row := row[Interested[j] := Text("")];
    }
    assert Interested[..|Interested|] == Interested;
  }

  // ---------------------------------------------------------------------------
  // Folding the log lines into a row

  /** One line of a print log: blank lines (exactly "\n") and separator lines
      holding "-----" are skipped; any other line must split on ":\t" into
      exactly two parts (unpacking raises ValueError otherwise); the value is
      right-stripped. */
  function ParseLine(line: string): (r: Result<Option<(string, string)>>)
    ensures r.Err? ==> r.error == ValueError
  {
    if line == "\n" || Contains(line, "-----") then Ok(None)
    else
      var parts := Split(line, ":\t");
      if |parts| != 2 then Err(ValueError) else Ok(Some((parts[0], RStrip(parts[1]))))
  }

  /** The inner loop over the column names: every column whose name occurs in
      `key` takes the value, unless the row's entry under the raw key is
      already truthy. */
  function Apply(row: Record, key: string, value: string, names: seq<string>): Record
    decreases |names|
  {
    if names == [] then row
    else
      var next := if Contains(key, names[0]) && !Truthy(Lookup(row, key)) then row[names[0] := Text(value)] else row;
      Apply(next, key, value, names[1..])
  }

  /** The line loop of one job. */
  function Fill(row: Record, lines: seq<string>): (r: Result<Record>)
    ensures r.Err? ==> r.error == ValueError
    decreases |lines|
  {
    if lines == [] then Ok(row)
    else
      match ParseLine(lines[0])
      case Err(e) => Err(e)
      case Ok(None) => Fill(row, lines[1..])
      case Ok(Some((key, value))) => Fill(Apply(row, key, value, Interested), lines[1..])
  }

  method FillRecord(row0: Record, lines: seq<string>) returns (r: Result<Record>)
    ensures r == Fill(row0, lines)
  {
    var row := row0;
    for i := 0 to |lines|
      invariant Fill(row0, lines) == Fill(row, lines[i..])
    {
      var parsed := ParseLine(lines[i]);
      if parsed.Err? {
        return Err(parsed.error);
      }
      if parsed.value.Some? {
        var (key, value) := parsed.value.value;
        row := ApplyLine(row, key, value, Interested);
      }
      assert lines[i..][1..] == lines[i + 1..];
    }
    return Ok(row);
  }

  /** The loop over the column names for one `key:\tvalue` line. */
  method ApplyLine(row0: Record, key: string, value: string, names: seq<string>) returns (row: Record)
    ensures row == Apply(row0, key, value, names)
  {
    row := row0;
    for j := 0 to |names|
      invariant Apply(row0, key, value, names) == Apply(row, key, value, names[j..])
    {
      assert names[j..][1..] == names[j + 1..];
      if Contains(key, names[j]) && !Truthy(Lookup(row, key)) {
        row := row[names[j] := Text(value)];
      }
    }
  }

  /** A column whose entry is already truthy keeps it: the first non-empty
      value of an exact key wins, the seeded File Name and Recipe included. */
  lemma {:induction false} ApplyTruthyKeeps(row: Record, key: string, value: string, names: seq<string>)
    requires Truthy(Lookup(row, key))
    ensures Apply(row, key, value, names) == row
    decreases |names|
  {
    if names != [] {
      ApplyTruthyKeeps(row, key, value, names[1..]);
    }
  }

  /** A column that is still empty takes the value of a line with exactly its
      name as key. */
  lemma {:induction false} ApplyFalsySets(row: Record, key: string, value: string, names: seq<string>)
    requires key in row && !Truthy(row[key]) && key in names
    ensures Lookup(Apply(row, key, value, names), key) == Text(value)
    decreases |names|
  {
    if names[0] == key {
      assert Contains(key, key) by { assert key[..|key|] == key; }
      var next := row[key := Text(value)];
      if value == "" {
        if key in names[1..] {
          ApplyFalsySets(next, key, value, names[1..]);
        } else {
          ApplyMissing(next, key, value, names[1..]);
        }
      } else {
        ApplyTruthyKeeps(next, key, value, names[1..]);
      }
    } else {
      var next := if Contains(key, names[0]) then row[names[0] := Text(value)] else row;
      ApplyFalsySets(next, key, value, names[1..]);
    }
  }

  /** A column not named in `names` is left alone. */
  lemma {:induction false} ApplyMissing(row: Record, key: string, value: string, names: seq<string>)
    requires key in row && key !in names
    ensures key in Apply(row, key, value, names) && Apply(row, key, value, names)[key] == row[key]
    decreases |names|
  {
    if names != [] {
      var next := if Contains(key, names[0]) && !Truthy(Lookup(row, key)) then row[names[0] := Text(value)] else row;
      ApplyMissing(next, key, value, names[1..]);
    }
  }

  /** A key that is not a column of the row never passes the guard's lookup,
      so every column whose name it contains is overwritten by each such line:
      the last line wins. */
  lemma {:induction false} ApplyForeign(row: Record, key: string, value: string, names: seq<string>)
    requires key !in row && key !in names
    ensures forall n :: Lookup(Apply(row, key, value, names), n) ==
              if n in names && Contains(key, n) then Text(value) else Lookup(row, n)
    decreases |names|
  {
    if names != [] {
      var next := if Contains(key, names[0]) then row[names[0] := Text(value)] else row;
      assert key !in names[1..] && key !in next;
      ApplyForeign(next, key, value, names[1..]);
      forall n ensures n in names <==> n == names[0] || n in names[1..] {
        assert names == [names[0]] + names[1..];
      }
    }
  }

  /** A row whose columns include every name keeps exactly its columns. */
  lemma {:induction false} ApplyKeys(row: Record, key: string, value: string, names: seq<string>)
    requires forall n :: n in names ==> n in row
    ensures Apply(row, key, value, names).Keys == row.Keys
    decreases |names|
  {
    if names != [] {
      var next := if Contains(key, names[0]) && !Truthy(Lookup(row, key)) then row[names[0] := Text(value)] else row;
      ApplyKeys(next, key, value, names[1..]);
    }
  }

  /** Reading the lines into a seeded row keeps its sixteen columns ... */
  lemma {:induction false} FillKeys(row: Record, lines: seq<string>)
    requires row.Keys == set k | k in Interested
    ensures Fill(row, lines).Ok? ==> Fill(row, lines).value.Keys == row.Keys
    decreases |lines|
  {
    if lines != [] {
      match ParseLine(lines[0])
      case Err(_) =>
      case Ok(None) =>
        FillKeys(row, lines[1..]);
      case Ok(Some((key, value))) =>
        ApplyKeys(row, key, value, Interested);
        FillKeys(Apply(row, key, value, Interested), lines[1..]);
    }
  }

  /** ... and fails exactly when some line is neither skipped nor a
      `key:\tvalue` pair, whatever the row. */
  lemma {:induction false} FillFails(row: Record, lines: seq<string>)
    ensures Fill(row, lines).Err? <==> exists i :: 0 <= i < |lines| && ParseLine(lines[i]).Err?
    decreases |lines|
  {
    if lines != [] {
      match ParseLine(lines[0])
      case Err(_) =>
      case Ok(None) =>
        FillFails(row, lines[1..]);
        ShiftExists(lines);
      case Ok(Some((key, value))) =>
        FillFails(Apply(row, key, value, Interested), lines[1..]);
        ShiftExists(lines);
    }
  }

  lemma ShiftExists(lines: seq<string>)
    requires lines != [] && ParseLine(lines[0]).Ok?
    ensures (exists i :: 0 <= i < |lines| && ParseLine(lines[i]).Err?) <==>
            (exists i :: 0 <= i < |lines| - 1 && ParseLine(lines[1..][i]).Err?)
  {
    if exists i :: 0 <= i < |lines| && ParseLine(lines[i]).Err? {
      var i :| 0 <= i < |lines| && ParseLine(lines[i]).Err?;
      assert lines[1..][i - 1] == lines[i];
    }
    if exists i :: 0 <= i < |lines| - 1 && ParseLine(lines[1..][i]).Err? {
      var i :| 0 <= i < |lines| - 1 && ParseLine(lines[1..][i]).Err?;
      assert lines[1..][i] == lines[i + 1];
    }
  }

  /** A `key:\tvalue` line with neither part holding a tab-colon is read back
      as that pair, the value right-stripped. */
  lemma ParseKeyValue(key: string, value: string)
    requires !Contains(key, ":\t") && !Contains(value, ":\t") && !Contains(key + ":\t" + value, "-----")
    ensures ParseLine(key + ":\t" + value) == Ok(Some((key, RStrip(value))))
  {
    var line := key + ":\t" + value;
    assert line != "\n" by { assert |line| >= 2; }
    FindContains(key, ":\t");
    FindContains(value, ":\t");
    FindTabColon(key, value);
    SplitTwo(key, ":\t", value);
  }

  /** The first ":\t" of `a + ":\t" + b` is the one after `a`, when `a` holds
      none: no occurrence can straddle, since ':' is not '\t'. */
  lemma {:induction false} FindTabColon(a: string, b: string)
    requires !Contains(a, ":\t")
    ensures Find(a + ":\t" + b, ":\t") == Some(|a|)
    decreases |a|
  {
    var s := a + ":\t" + b;
    if a == [] {
      assert s[..2] == ":\t";
    } else {
      assert s[..2] != ":\t" by {
        if |a| >= 2 { assert s[..2] == a[..2]; } else { assert s[1] == ':'; }
      }
      assert s[1..] == a[1..] + ":\t" + b;
      FindTabColon(a[1..], b);
    }
  }

  /** `(k + sep + v).split(sep) == [k, v]` when neither side holds `sep`. */
  lemma SplitTwo(k: string, sep: string, v: string)
    requires |sep| > 0 && Find(k, sep) == None && Find(v, sep) == None
    requires Find(k + sep + v, sep) == Some(|k|)
    ensures Split(k + sep + v, sep) == [k, v]
  {
    var s := k + sep + v;
    assert s[..|k|] == k;
    assert s[|k| + |sep|..] == v;
  }

  // ---------------------------------------------------------------------------
  // Directory scans

  /** The `.log` entries of a listing, in listing order. */
  function LogFiles(entries: seq<string>): (r: seq<string>)
  {
    if entries == [] then []
    else (if Contains(entries[0], ".log") then [entries[0]] else []) + LogFiles(entries[1..])
  }

  /** The list-building loop shared by `get_logs_list` and `getLogsList`. */
  method CollectLogs(entries: seq<string>) returns (logs: seq<string>)
    ensures logs == LogFiles(entries)
  {
    logs := [];
    for i := 0 to |entries|
      invariant LogFiles(entries) == logs + LogFiles(entries[i..])
    {
      assert entries[i..][1..] == entries[i + 1..];
      if Contains(entries[i], ".log") {
        logs := logs + [entries[i]];
      }
    }
    assert entries[|entries|..] == [];
  }

  /** The log files are exactly the entries holding ".log", in listing order. */
  lemma {:induction false} LogFilesExact(entries: seq<string>)
    ensures forall x :: x in LogFiles(entries) <==> x in entries && Contains(x, ".log")
    ensures IsSubsequence(LogFiles(entries), entries)
    decreases |entries|
  {
    if entries != [] {
      LogFilesExact(entries[1..]);
      var rest := LogFiles(entries[1..]);
      if Contains(entries[0], ".log") {
        var xs := [entries[0]] + rest;
        assert xs[0] == entries[0] && xs[1..] == rest;
        assert IsSubsequence(xs, entries);
      } else {
        assert LogFiles(entries) == rest;
        assert IsSubsequence(rest, entries);
      }
    }
  }

  /** `xs` is `ys` with some elements left out, the order kept. */
  predicate IsSubsequence<T(==)>(xs: seq<T>, ys: seq<T>)
    decreases |ys|
  {
    xs == [] ||
    (ys != [] && ((xs[0] == ys[0] && IsSubsequence(xs[1..], ys[1..])) || IsSubsequence(xs, ys[1..])))
  }

  /** `re.sub('[^a-zA-Z ]+', '', name)`: the letters and spaces of a name. The
      `.replace('.log', '')` before it never changes anything, since entries
      holding ".log" were skipped one line earlier. */
  function Sanitize(name: string): (r: string)
    ensures forall i :: 0 <= i < |r| ==> IsAsciiLetter(r[i]) || r[i] == ' '
  {
    if name == [] then []
    else (if IsAsciiLetter(name[0]) || name[0] == ' ' then [name[0]] else []) + Sanitize(name[1..])
  }

  /** A log folder candidate: not a `.log` file, and its letters-and-spaces
      form holds the job name. */
  predicate FolderMatches(entry: string, job: string)
  {
    !Contains(entry, ".log") && Contains(Sanitize(entry), job)
  }

  /** The first entry of the listing that is a log folder of the job. */
  function FirstFolder(entries: seq<string>, job: string): (r: Option<string>)
    ensures r.Some? ==> r.value in entries && FolderMatches(r.value, job)
    ensures r.None? <==> forall e :: e in entries ==> !FolderMatches(e, job)
    decreases |entries|
  {
    if entries == [] then None
    else if FolderMatches(entries[0], job) then Some(entries[0])
    else FirstFolder(entries[1..], job)
  }

  /** The folder loop shared by `get_folder_log_path` and `getFolderLogPath`:
      `folder/entry` for the first match, the empty string when none. */
  method FolderSearch(folder: string, entries: seq<string>, job: string) returns (found: string)
    ensures found == match FirstFolder(entries, job) case None => "" case Some(e) => PathJoin(folder, e)
  {
    found := "";
    var i := 0;
    while i < |entries|
      invariant 0 <= i <= |entries|
      invariant found == "" ==> FirstFolder(entries, job) == FirstFolder(entries[i..], job)
      invariant found != "" ==> FirstFolder(entries, job).Some? && found == PathJoin(folder, FirstFolder(entries, job).value)
    {
      assert entries[i..][1..] == entries[i + 1..];
      if found != "" {
        break;
      }
      if Contains(entries[i], ".log") {
        i := i + 1;
        continue;
      }
      if !Contains(Sanitize(entries[i]), job) {
        i := i + 1;
        continue;
      }
      found := PathJoin(folder, entries[i]);
      i := i + 1;
    }
  }

  /** The chosen folder is the entry at some position, and every entry
      before that position fails the test. */
  lemma {:induction false} FirstFolderFirst(entries: seq<string>, job: string)
    requires FirstFolder(entries, job).Some?
    ensures exists k :: 0 <= k < |entries| && entries[k] == FirstFolder(entries, job).value &&
              forall j :: 0 <= j < k ==> !FolderMatches(entries[j], job)
    decreases |entries|
  {
    if FolderMatches(entries[0], job) {
      assert entries[0] == FirstFolder(entries, job).value;
    } else {
      var rest := entries[1..];
      FirstFolderFirst(rest, job);
      var k :| 0 <= k < |rest| && rest[k] == FirstFolder(rest, job).value &&
                forall j :: 0 <= j < k ==> !FolderMatches(rest[j], job);
      assert entries[k + 1] == rest[k];
      assert forall j :: 0 < j < k + 1 ==> entries[j] == rest[j - 1];
    }
  }

  /** A job name holding '_' never matches a folder: the letters-and-spaces
      form of a name has no underscore. */
  lemma UnderscoreNeverMatches(entries: seq<string>, job: string)
    requires '_' in job
    ensures FirstFolder(entries, job) == None
  {
    forall e | e in entries ensures !FolderMatches(e, job) {
      if Contains(Sanitize(e), job) {
        ContainsChars(Sanitize(e), job, '_');
      }
    }
  }

  /** The time-estimation file of a job: the first entry holding both the job
      name and "PrintSeq". */
  function TeFile(entries: seq<string>, job: string): (r: Option<string>)
    ensures r.Some? ==> r.value in entries && Contains(r.value, job) && Contains(r.value, "PrintSeq")
    ensures r.None? <==> forall e :: e in entries ==> !(Contains(e, job) && Contains(e, "PrintSeq"))
    decreases |entries|
  {
    if entries == [] then None
    else if Contains(entries[0], job) && Contains(entries[0], "PrintSeq") then Some(entries[0])
    else TeFile(entries[1..], job)
  }

  // ---------------------------------------------------------------------------
  // Elapsed time

  /** `datetime.strptime(row[key], '%Y-%m-%d__%H-%M-%S')`; a value that is not
      a string raises TypeError. */
  function LogTime(row: Record, key: string): (r: Result<DateTime>)
    ensures r.Ok? ==> Valid(r.value)
  {
    match Lookup(row, key)
    case Text(t) => Strptime(t, "__", "-")
    case _ => Err(TypeError)
  }

  /** `end - start` of a job with both times present. */
  function JobDuration(row: Record): (r: Result<Timedelta>)
    ensures r.Ok? ==> Normal(r.value)
  {
    match LogTime(row, "End Time")
    case Err(e) => Err(e)
    case Ok(end) =>
      match LogTime(row, "StartTime")
      case Err(e) => Err(e)
      case Ok(start) => Ok(Difference(end, start))
  }

  /** Both times present: the job can be timed. */
  predicate Timed(row: Record)
  {
    Truthy(Lookup(row, "End Time")) && Truthy(Lookup(row, "StartTime"))
  }

  /** Whether and how long a job ran depends on its two times alone. */
  lemma TimesFrame(a: Record, b: Record)
    requires Lookup(a, "End Time") == Lookup(b, "End Time") && Lookup(a, "StartTime") == Lookup(b, "StartTime")
    ensures Timed(a) == Timed(b) && JobDuration(a) == JobDuration(b)
  {
  }

  /** For a job whose end is not before its start, the increment is exactly
      its length in seconds. */
  lemma ForwardIncrement(end: DateTime, start: DateTime)
    requires Valid(end) && Valid(start) && !Before(end, start)
    ensures Increment(Difference(end, start)) == Seconds(end) - Seconds(start)
  {
    if end != start {
      SecondsOrder(start, end);
    }
  }

  /** What a job adds to `total_time`: the increment of its `end - start`;
      nothing for a row whose times cannot be read. */
  function RowIncrement(row: Record): nat
  {
    match JobDuration(row)
    case Ok(td) => Increment(td)
    case Err(_) => 0
  }

  // ---------------------------------------------------------------------------
  // Slice counts

  /** `int(x)` of a value: a string is parsed, a float truncated toward zero,
      None raises TypeError. */
  function IntOf(c: Cell): (r: Result<int>)
    ensures r.Err? ==> r.error == ValueError || r.error == TypeError
  {
    match c
    case Text(t) => ParseInt(t)
    case Null => Err(TypeError)
    case Percent(x) => Ok(if x >= 0.0 then x.Floor else -((-x).Floor))
  }

  // ---------------------------------------------------------------------------
  // The summary row

  /** The summary's value of a column: 'Time spent' holds
      `str(timedelta(seconds=total))`, every other column is emptied. */
  function SummaryCell(column: string, total: nat): Cell
  {
    if column == "Time spent" then Text(TimedeltaStr(FromSeconds(total))) else Text("")
  }

  /** The last row after the summary loop over `names`: each of them
      rewritten, other keys of the row kept. */
  function Summary(row: Record, total: nat, names: seq<string>): (r: Record)
    ensures r.Keys == row.Keys + (set k | k in names)
  {
    map k | k in row.Keys + (set k | k in names) :: if k in names then SummaryCell(k, total) else row[k]
  }

  /** The summary loop, writing into the last job's row in place. */
  method SummaryRow(row0: Record, total: nat, names: seq<string>) returns (row: Record)
    ensures row == Summary(row0, total, names)
  {
    row := row0;
    for j := 0 to |names|
      invariant row == Summary(row0, total, names[..j])
    {
      SummaryStep(row0, total, names, j);
      if names[j] == "Time spent" {
        row := row[names[j] := Text(TimedeltaStr(FromSeconds(total)))];
        continue;
      }
      row := row[names[j] := Text("")];
    }
    assert names[..|names|] == names;
  }

  lemma SummaryStep(row0: Record, total: nat, names: seq<string>, j: nat)
    requires j < |names|
    ensures Summary(row0, total, names[..j])[names[j] := SummaryCell(names[j], total)] == Summary(row0, total, names[..j + 1])
  {
    assert forall k :: k in names[..j + 1] <==> k in names[..j] || k == names[j] by {
      assert names[..j + 1] == names[..j] + [names[j]];
    }
  }

  /** The summary's time reads back as the total it was made from. */
  lemma SummaryTime(row: Record, total: nat)
    ensures "Time spent" in Summary(row, total, Interested)
    ensures Summary(row, total, Interested)["Time spent"].Text?
    ensures DurationSeconds(Summary(row, total, Interested)["Time spent"].text) == Some(total)
  {
    assert "Time spent" in Interested;
    DurationRoundTrip(total);
  }

  // ---------------------------------------------------------------------------
  // The recipe list

  datatype RecipeEntry = RecipeEntry(name: Cell, job: Cell)

  /** `a in b`: a substring test between two strings; anything else raises
      TypeError. */
  function CellIn(a: Cell, b: Cell): (r: Result<bool>)
    ensures r.Ok? <==> a.Text? && b.Text?
  {
    if a.Text? && b.Text? then Ok(Contains(b.text, a.text)) else Err(TypeError)
  }

  function EntryOf(row: Record): RecipeEntry
  {
    RecipeEntry(Lookup(row, "Recipe"), Lookup(row, "File Name"))
  }

  /** The inner loop: is the recipe part of a name already kept? */
  function Seen(recipe: Cell, kept: seq<RecipeEntry>): Result<bool>
    decreases |kept|
  {
    if kept == [] then Ok(false)
    else
      match CellIn(recipe, kept[0].name)
      case Err(e) => Err(e)
      case Ok(true) => Ok(true)
      case Ok(false) => Seen(recipe, kept[1..])
  }

  function DedupFrom(rows: seq<Record>, kept: seq<RecipeEntry>): Result<seq<RecipeEntry>>
    decreases |rows|
  {
    if rows == [] then Ok(kept)
    else
      match Seen(Lookup(rows[0], "Recipe"), kept)
      case Err(e) => Err(e)
      case Ok(true) => DedupFrom(rows[1..], kept)
      case Ok(false) => DedupFrom(rows[1..], kept + [EntryOf(rows[0])])
  }

  /** The de-duplication part of `save_recipes` and `saveRecipes`. */
  function Dedup(rows: seq<Record>): Result<seq<RecipeEntry>>
  {
    DedupFrom(rows, [])
  }

  method DedupRecipes(rows: seq<Record>) returns (r: Result<seq<RecipeEntry>>)
    ensures r == Dedup(rows)
  {
    var recipes: seq<RecipeEntry> := [];
    for i := 0 to |rows|
      invariant Dedup(rows) == DedupFrom(rows[i..], recipes)
    {
      assert rows[i..][1..] == rows[i + 1..];
      var recipe := Lookup(rows[i], "Recipe");
      var exist := false;
      var j := 0;
      while j < |recipes|
        invariant 0 <= j <= |recipes|
        invariant !exist ==> Seen(recipe, recipes) == Seen(recipe, recipes[j..])
        invariant exist ==> Seen(recipe, recipes) == Ok(true)
      {
        assert recipes[j..][1..] == recipes[j + 1..];
        var found := CellIn(recipe, recipes[j].name);
        if found.Err? {
          return Err(found.error);
        }
        if found.value {
          exist := true;
          break;
        }
        j := j + 1;
      }
      if !exist {
        recipes := recipes + [EntryOf(rows[i])];
      }
    }
    return Ok(recipes);
  }

  predicate TextRecipes(rows: seq<Record>)
  {
    forall i :: 0 <= i < |rows| ==> Lookup(rows[i], "Recipe").Text?
  }

  lemma {:induction false} SeenText(recipe: Cell, kept: seq<RecipeEntry>)
    requires recipe.Text? && forall k :: 0 <= k < |kept| ==> kept[k].name.Text?
    ensures Seen(recipe, kept).Ok?
    ensures Seen(recipe, kept).value <==> exists k :: 0 <= k < |kept| && Contains(kept[k].name.text, recipe.text)
    decreases |kept|
  {
    if kept != [] {
      SeenText(recipe, kept[1..]);
      if !Contains(kept[0].name.text, recipe.text) {
        assert forall k :: 1 <= k < |kept| ==> kept[k] == kept[1..][k - 1];
        if exists k :: 0 <= k < |kept| && Contains(kept[k].name.text, recipe.text) {
          var k :| 0 <= k < |kept| && Contains(kept[k].name.text, recipe.text);
          assert kept[1..][k - 1] == kept[k];
        }
      }
    }
  }

  /** The entries the rows would contribute, in order. */
  function Entries(rows: seq<Record>): (r: seq<RecipeEntry>)
    ensures |r| == |rows|
  {
    if rows == [] then [] else [EntryOf(rows[0])] + Entries(rows[1..])
  }

  predicate TextNames(kept: seq<RecipeEntry>)
  {
    forall k :: 0 <= k < |kept| ==> kept[k].name.Text?
  }

  /** No kept name holds a later kept name. */
  predicate Unnested(kept: seq<RecipeEntry>)
    requires TextNames(kept)
  {
    forall a, b :: 0 <= a < b < |kept| ==> !Contains(kept[a].name.text, kept[b].name.text)
  }

  lemma TextRecipesTail(rows: seq<Record>)
    requires rows != [] && TextRecipes(rows)
    ensures TextRecipes(rows[1..]) && Lookup(rows[0], "Recipe").Text?
  {
    assert forall i :: 0 <= i < |rows| - 1 ==> rows[1..][i] == rows[i + 1];
  }

  lemma ContainsSelf(s: string)
    ensures Contains(s, s)
  {
    assert s[..|s|] == s;
  }

  /** With every recipe a string, the list is built without error: the kept
      entries stay in front, and what is added is the rows' entries in order
      with some left out. */
  lemma {:induction false} DedupShape(rows: seq<Record>, kept: seq<RecipeEntry>)
    requires TextRecipes(rows) && TextNames(kept)
    ensures DedupFrom(rows, kept).Ok?
    ensures var out := DedupFrom(rows, kept).value;
      |kept| <= |out| && out[..|kept|] == kept && TextNames(out) &&
      IsSubsequence(out[|kept|..], Entries(rows))
    decreases |rows|
  {
    if rows == [] {
      assert kept[..|kept|] == kept;
    } else {
      var recipe := Lookup(rows[0], "Recipe");
      TextRecipesTail(rows);
      SeenText(recipe, kept);
      var next := if Seen(recipe, kept).value then kept else kept + [EntryOf(rows[0])];
      DedupShape(rows[1..], next);
      var out := DedupFrom(rows, kept).value;
      assert out == DedupFrom(rows[1..], next).value;
      assert out[..|kept|] == kept by { assert out[..|next|][..|kept|] == next[..|kept|]; }
      var es := Entries(rows);
      assert es[0] == EntryOf(rows[0]) && es[1..] == Entries(rows[1..]);
      if Seen(recipe, kept).value {
        assert out[|kept|..] == out[|next|..];
      } else {
        var added := out[|kept|..];
        assert added[0] == EntryOf(rows[0]) by { assert out[|kept|] == next[|kept|]; }
        assert added[1..] == out[|next|..];
      }
    }
  }

  /** No kept name holds a later one. */
  lemma {:induction false} DedupUnnested(rows: seq<Record>, kept: seq<RecipeEntry>)
    requires TextRecipes(rows) && TextNames(kept) && Unnested(kept)
    ensures DedupFrom(rows, kept).Ok? && TextNames(DedupFrom(rows, kept).value)
    ensures Unnested(DedupFrom(rows, kept).value)
    decreases |rows|
  {
    DedupShape(rows, kept);
    if rows != [] {
      var recipe := Lookup(rows[0], "Recipe");
      TextRecipesTail(rows);
      SeenText(recipe, kept);
      if !Seen(recipe, kept).value {
        var next := kept + [EntryOf(rows[0])];
        assert forall k :: 0 <= k < |kept| ==> next[k] == kept[k];
        DedupUnnested(rows[1..], next);
      } else {
        DedupUnnested(rows[1..], kept);
      }
    }
  }

  /** Every row's recipe lies in some kept name: a row left out was covered
      by an earlier name, and a row kept covers itself. */
  lemma {:induction false} DedupCovers(rows: seq<Record>, kept: seq<RecipeEntry>)
    requires TextRecipes(rows) && TextNames(kept)
    ensures DedupFrom(rows, kept).Ok? && TextNames(DedupFrom(rows, kept).value)
    ensures var out := DedupFrom(rows, kept).value;
      forall i :: 0 <= i < |rows| ==>
        exists k :: 0 <= k < |out| && Contains(out[k].name.text, Lookup(rows[i], "Recipe").text)
    decreases |rows|
  {
    DedupShape(rows, kept);
    if rows != [] {
      var recipe := Lookup(rows[0], "Recipe");
      TextRecipesTail(rows);
      SeenText(recipe, kept);
      var next := if Seen(recipe, kept).value then kept else kept + [EntryOf(rows[0])];
      DedupShape(rows[1..], next);
      DedupCovers(rows[1..], next);
      var out := DedupFrom(rows, kept).value;
      assert out == DedupFrom(rows[1..], next).value;
      assert out[..|next|] == next;
      assert exists k :: 0 <= k < |out| && Contains(out[k].name.text, recipe.text) by {
        if Seen(recipe, kept).value {
          var k :| 0 <= k < |kept| && Contains(kept[k].name.text, recipe.text);
          assert out[k] == kept[k];
        } else {
          assert out[|kept|] == next[|kept|];
          ContainsSelf(recipe.text);
        }
      }
      forall i | 0 <= i < |rows|
        ensures exists k :: 0 <= k < |out| && Contains(out[k].name.text, Lookup(rows[i], "Recipe").text)
      {
        if i > 0 {
          assert rows[i] == rows[1..][i - 1];
        }
      }
    }
  }
}
