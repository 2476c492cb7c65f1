# NanoDimensionPrinters in Dafny

A model of three small desktop tools that operators of Nano Dimension
DragonFly printers use. Each tool exists in two variants, and both variants
of each are modelled, with their differences stated as lemmas.

- **Print-log loggers** (`Logger/Loger_mark_2.py`, "Mark 2", and
  `DF-IV-Logger/Logger_mark2_temp.py`, "Temp"). They read every `.log`
  file in the print-log folder into a row of sixteen columns. The job name
  comes from a regular expression. The initial time estimate comes from the
  time-estimation logs. The recipe comes from the job's log folder or its
  `.pcbjc` archive. The time spent is `End Time - StartTime`, and the
  slice percentage comes from the slice counts. A summary row holds the
  total time. The rows go to `statistics.csv` and the distinct recipes to an
  output folder. The global `log` list, the loop's running total and the
  Python aliasing of the last `log_dict` are modelled, so the summary row
  overwrites the last appended row in `log` exactly as in Python.
  - `Py`: Python built-ins.
  - `Clock`: `strptime`, datetime subtraction and `str(timedelta)`.
  - `JobName`: the job-name regular expression.
  - `LogScan` and `Jobs`: the shared row handling and the shared loop.
  - `LoggerMark2` and `LoggerTemp`: the two variants.
  - `LoggerCompare`: where the two variants differ.
- **Resolution changers** (`DF-IV-resolution-changer/main.py` and
  `resolution_changer/main.py`). `read_resolution` reads the project's
  print-axis resolution and the machine calibration file
  (`key=value` lines), and classifies the machine as 36 or 18 µm.
  `upgrade_resolution` multiplies or divides the coupon slice thicknesses by
  4 when the project and the machine disagree. It logs the change to
  `ST_changes.cfg` and writes the calibration file back.
  - `Calibration`: the shared file format, its round trip, the globals and
    the four-branch rule.
  - `ResolutionDF4`: the variant that scales both the conductor and the
    insulator thickness.
  - `ResolutionCI`: the variant that scales only the conductor thickness,
    with its differences from the other.
- **Manual registration** (`DF-IV-manual-registration/main.py` and
  `main_copy.py`). A job archive (`.pcbjc`, a zip holding `pcbj.info`) is
  loaded as the base. A second job is dragged over it. The offset in pixels
  becomes a new start position in millimetres (0.036 mm and 0.03525 mm per
  pixel). In `main.py` the top job is moved, its layers are restacked from
  the base job's height, and both archives are rewritten. `main_copy.py`
  only moves the base job, in memory.
  - `Pcbj`: the job, its layer stack and the archive rewrite.
  - `Image`: the pixel loops.
  - `Registration`: the on-screen offsets.
  - `RegistrationMain` and `RegistrationCopy`: the reader and viewer
    classes of the two variants.

Operations that update objects in place are classes with `modifies`
clauses, and each is proved against a specification function. The reader's
`info_dict` and archive are one example, the viewer's readers and start
positions another, and the global `log` list and the resolution globals are
two more. The loops of the source are methods with loop invariants. Files,
archives and clocks are values passed in.

## Model

| member | source | states |
|---|---|---|
| Py.Find | Logger/Loger_mark_2.py:24 | a position found is one where the needle occurs |
| Py.FindContains | Logger/Loger_mark_2.py:24 | `find` succeeds exactly when `in` holds |
| Py.Split | DF-IV-resolution-changer/main.py:108 | `split` on a non-empty separator gives at least one piece |
| Py.SplitJoin | DF-IV-resolution-changer/main.py:141 | splitting a one-character join gives the parts back, when no part holds the separator |
| Py.JoinSplit | DF-IV-resolution-changer/main.py:108 | joining the pieces of a split on one character gives the string back |
| Py.SplitCount | DF-IV-resolution-changer/main.py:110 | a split on one character has one more piece than separators, so unpacking into two names needs exactly one |
| Py.SplitFree | DF-IV-resolution-changer/main.py:110 | no piece of a split on one character holds the separator |
| Py.RStrip | Logger/Loger_mark_2.py:382 | `rstrip` gives a prefix that does not end in whitespace |
| Py.LStrip | DF-IV-resolution-changer/main.py:109 | `lstrip` gives a suffix that does not start with whitespace |
| Py.NatToStr | Logger/Loger_mark_2.py:393 | the decimal digits of a number, without a leading zero |
| Py.ParseInt | Logger/Loger_mark_2.py:204 | `int()` of a string fails only with ValueError |
| Py.NatRoundTrip | Logger/Loger_mark_2.py:204 | `int(str(n)) == n` for every natural number |
| Py.TwoDigits | Logger/Loger_mark_2.py:393 | two zero-padded digits whose value is the number |
| Py.PyIndex | DF-IV-manual-registration/main_copy.py:42 | list indexing with Python's negative indices: it succeeds exactly for -len <= i < len and gives element i counted from the end when i is negative |
| Calibration.Empty | DF-IV-resolution-changer/main.py:51 | `data = {}` is a well-formed dict with no keys |
| Calibration.Put | DF-IV-resolution-changer/main.py:55 | `data[key] = value`: the key now maps to the value, a new key goes to the end of the insertion order, a known key keeps its place, and no other key changes |
| Calibration.PutLaterWins | DF-IV-resolution-changer/main.py:52-55 | assigning a key twice leaves the later value, as a single assignment would |
| Calibration.FloatOf | DF-IV-resolution-changer/main.py:115 | `float(...)` of a value read from the file fails only with ValueError |
| Calibration.ParseLine | DF-IV-resolution-changer/main.py:53-55 | reading one line of the file fails only with ValueError |
| Calibration.ParseFrom | DF-IV-resolution-changer/main.py:52-55 | the parse loop, run from a well-formed dict, yields a well-formed dict |
| Calibration.ParseConfig | DF-IV-resolution-changer/main.py:50-55 | reading the whole file yields a well-formed dict |
| Calibration.ReadConfig | DF-IV-resolution-changer/main.py:107-111 | the loop over `split('\n')`, written as a method, computes exactly the parse `ParseConfig` specifies |
| Calibration.ParseLineShape | DF-IV-resolution-changer/main.py:53-54 | a non-blank line is accepted iff it holds exactly one '='; it is then key + "=" + value with no '=' on either side |
| Calibration.ParseLineOf | DF-IV-resolution-changer/main.py:54 | a `key=value` line is read as that key and that value, surrounding whitespace kept |
| Calibration.ParseFails | DF-IV-resolution-changer/main.py:52-55 | the parse raises ValueError iff some line is neither blank nor one `key=value` pair |
| Calibration.ParseLater | DF-IV-resolution-changer/main.py:52-55 | a line read after the others is one more `data[key] = value` on what they produced: later lines win |
| Calibration.Lines | DF-IV-resolution-changer/main.py:141 | the comprehension gives one line `key=value` per key, in insertion order, each with the value's `str` |
| Calibration.Stringify | DF-IV-resolution-changer/main.py:141 | reading a written dict back gives the same keys in the same order, each value as the text it was written as |
| Calibration.ParseRest | DF-IV-resolution-changer/main.py:105-111 | reading back the written lines of keys `i` onward, after the first `i`, gives the whole dict as text |
| Calibration.RoundTrip | DF-IV-resolution-changer/main.py:105-144 | the file `upgrade_resolution` writes, read back by the same parse loop, gives the same keys in the same order with every value as its text |
| Calibration.StringifyText | DF-IV-resolution-changer/main.py:141 | a dict of text values reads back as itself |
| Calibration.ParsedConfig | DF-IV-resolution-changer/main.py:49-55 | every dict read from a file holds text values, and keys and values without '=' or line breaks |
| Calibration.ParsedWrites | DF-IV-resolution-changer/main.py:105-144 | a dict read from a file can be written back and reads back as itself (the no-change branch rewrites the file without changing it) |
| Calibration.ReplacedWrites | DF-IV-resolution-changer/main.py:119-144 | a read dict with both thicknesses replaced by floats can be written back, and reads back with the two thicknesses as their text |
| Calibration.MachineResolution36 | DF-IV-resolution-changer/main.py:56-59 | the string comparison `< '1'` classifies the machine as 36 µm iff the thickness text is empty or starts with a character before '1' (so "10" and "1.5" read as 18) |
| Calibration.MachineResolution | DF-IV-resolution-changer/main.py:56-59 | the machine is '36' or '18' by the string comparison `< '1'`; `MachineResolution36` states exactly when it is '36' |
| Calibration.DecideCases | DF-IV-resolution-changer/main.py:115-138 | each of the four branches as a condition on thickness and axis, each as an iff; no branch runs at exactly 0.8 or on any other axis |
| Calibration.Decide | DF-IV-resolution-changer/main.py:115-138 | the branch a coupon thickness and a print-axis resolution select, None for the final `else: return`; `DecideCases` states each branch as an iff |
| Calibration.Branching | DF-IV-resolution-changer/main.py:115-128 | the `elif` chain as Python evaluates it: the axis is looked up only after a thickness test holds, so 0.8 never raises; otherwise the lookup's error, or the branch `Decide` picks |
| Calibration.Axis | DF-IV-resolution-changer/main.py:115 | `ci_resolution['PrintAxis']` fails only with NameError (global never assigned) or KeyError |
| Calibration.Carry | DF-IV-resolution-changer/main.py:122-144 | carrying out a decision keeps the calibration file in place |
| Calibration.CarryFiles | DF-IV-resolution-changer/main.py:122-144 | afterwards the calibration file holds the written dict, ST_changes.cfg holds its old text (or nothing) followed by the note, and every other file is unchanged; the `return` branch changes nothing |
| Calibration.CarryReadsBack | DF-IV-resolution-changer/main.py:141-144 | a rewritten calibration file reads back as the written dict with every value as text |
| Calibration.ReadSpec | DF-IV-resolution-changer/main.py:15-65 | `read_resolution`: when it completes, `path` is the calibration path, `ci_resolution` holds `PrintAxis` and the file parsed; when it stops early the machine resolution keeps its old value; each global keeps what was assigned before the exception; no KeyError ever escapes: one from opening `pcbj.info` reaches the handler before `data` is bound and becomes UnboundLocalError (main.py:37, 63-65) |
| Calibration.ReadClassifies | DF-IV-resolution-changer/main.py:48-59 | a completed `read_resolution` sets the machine resolution from the conductor thickness text of the calibration file, "36" iff that text is empty or starts below '1' |
| Calibration.Session.constructor | DF-IV-resolution-changer/main.py:162-177 | the application starts with none of the four globals assigned |
| Calibration.Session.ReadResolution | DF-IV-resolution-changer/main.py:15-65 | the method leaves the files as they were and the globals as `ReadSpec` says (the same function covers resolution_changer/main.py:17-64) |
| ResolutionDF4.UpgradeData | DF-IV-resolution-changer/main.py:113-138 | a rewrite decision always carries a well-formed dict |
| ResolutionDF4.UpgradeSpec | DF-IV-resolution-changer/main.py:86-144 | an `upgrade_resolution` that raises leaves every file as it was; one that completes read the calibration file at `path`, which is still there |
| ResolutionDF4.UpgradeResolution | DF-IV-resolution-changer/main.py:86-144 | the method leaves the globals as they were and the files and outcome exactly as `UpgradeSpec` says |
| ResolutionDF4.UpgradeWhen | DF-IV-resolution-changer/main.py:115-138 | with both thicknesses numbers and the axis known: the file is rewritten iff the thickness is not 0.8 and the axis is 18 or 36, and a note is logged iff the thickness is on the wrong side of 0.8 for the axis |
| ResolutionDF4.Note | DF-IV-resolution-changer/main.py:122-135 | one line of the ST_changes log, with a space before "changed to" only in the ×4 branch; `UpgradeSpec` states that a scaling branch appends the CI line and then the DI line with the old and new thicknesses |
| ResolutionDF4.UpgradeValues | DF-IV-resolution-changer/main.py:113-135 | the rewritten dict keeps its keys and order and every other value; a scaling branch replaces both thicknesses by ×4 or ÷4 and logs a CI line and a DI line, each with the old text and the new value |
| ResolutionDF4.UpgradeErrors | DF-IV-resolution-changer/main.py:113-128 | KeyError unless both coupon keys are present; then ValueError when the conductor thickness is not a number; a thickness of exactly 0.8 writes nothing and never looks at the axis; otherwise the axis lookup's error |
| ResolutionDF4.InsulatorReadWhenScaling | DF-IV-resolution-changer/main.py:118-135 | an insulator value that is not a number fails the call, with ValueError, exactly in the two scaling branches |
| ResolutionDF4.WrittenBack | DF-IV-resolution-changer/main.py:115-144 | the dict a branch writes can be written back and reads back as the old dict with a scaling branch's two thicknesses replaced by the text of their new values |
| ResolutionDF4.UpgradeReadsBack | DF-IV-resolution-changer/main.py:86-144 | after a branch runs, the calibration file reads back with the same keys in order and every value as before, except the two scaled thicknesses, which read back as their new values' text |
| ResolutionDF4.DownRestores | DF-IV-resolution-changer/main.py:128-144 | a file whose thicknesses read as 4t and 4x (t > 0.2), upgraded on a 36 µm project, reads back with the thicknesses as t and x |
| ResolutionDF4.UpThenDown | DF-IV-resolution-changer/main.py:115-144 | moving a file to 18 µm and then back to 36 µm restores both thicknesses (0.2 < t < 0.8, exact float text) and keeps every other entry and the key order |
| ResolutionCI.UpgradeData | resolution_changer/main.py:112-130 | a rewrite decision always carries a well-formed dict |
| ResolutionCI.UpgradeSpec | resolution_changer/main.py:85-136 | an `upgrade_resolution` that raises leaves every file as it was; one that completes read the calibration file at `path`, which is still there |
| ResolutionCI.UpgradeResolution | resolution_changer/main.py:85-136 | the method leaves the globals as they were and the files and outcome exactly as `UpgradeSpec` says |
| ResolutionCI.UpgradeWhen | resolution_changer/main.py:113-130 | with the conductor thickness a number and the axis known: rewritten iff the thickness is not 0.8 and the axis is 18 or 36; a note iff the thickness is on the wrong side of 0.8 |
| ResolutionCI.Note | resolution_changer/main.py:120-128 | the ST_changes line, the same in both scaling branches, with no space before "changed to"; `UpgradeSpec` states that a scaling branch appends it with the old and new conductor thickness |
| ResolutionCI.UpgradeValues | resolution_changer/main.py:112-128 | the rewritten dict keeps its keys and order and every value but the conductor thickness; a scaling branch replaces that by ×4 or ÷4 and logs one line with the old text and the new value |
| ResolutionCI.UpgradeErrors | resolution_changer/main.py:112-124 | KeyError without the conductor key (the insulator key is never needed); ValueError when it is not a number; 0.8 writes nothing and never looks at the axis; otherwise the lookup's error |
| ResolutionCI.ConductorReplacedWrites | resolution_changer/main.py:117-136 | a read dict with the conductor thickness replaced by a float can be written back and reads back with that thickness as its text |
| ResolutionCI.WrittenBack | resolution_changer/main.py:113-136 | the dict a branch writes can be written back and reads back as the old dict with a scaling branch's conductor thickness as its new value's text |
| ResolutionCI.UpgradeReadsBack | resolution_changer/main.py:85-136 | after a branch runs, the calibration file reads back unchanged except the scaled conductor thickness |
| ResolutionCI.DownRestores | resolution_changer/main.py:124-136 | a file whose conductor thickness reads as 4t (t > 0.2), upgraded on a 36 µm project, reads back with the thickness as t |
| ResolutionCI.UpThenDown | resolution_changer/main.py:113-136 | moving to 18 µm and back to 36 µm restores the conductor thickness and keeps every other entry and the key order |
| ResolutionCI.SameBranchAsDF4 | resolution_changer/main.py:113-130 | where both thicknesses are numbers the two variants take the same branch and write the same conductor thickness; this one leaves the insulator thickness alone and logs one line instead of two |
| ResolutionCI.NoInsulatorKey | resolution_changer/main.py:112-130 | without the insulator key the DF-IV variant raises KeyError, this one still decides |
| ResolutionCI.InsulatorNotANumber | resolution_changer/main.py:116-128 | with an insulator value that is not a number, a scaling branch fails with ValueError in the DF-IV variant and rewrites the file in this one |
| Clock.DaysInMonth | Logger/Loger_mark_2.py:325-326 | every month `strptime` accepts has 28 to 31 days |
| Clock.DaySeconds | Logger/Loger_mark_2.py:325-326 | the time of day of a valid datetime is under 86400 seconds |
| Clock.OrdinalOrder | Logger/Loger_mark_2.py:325-326 | a strictly later date has a strictly larger day ordinal |
| Clock.SecondsOrder | Logger/Loger_mark_2.py:325-326 | a later datetime is further from the epoch, so `end - start` is positive exactly when the end is later |
| Clock.SecondsInjective | Logger/Loger_mark_2.py:325-326 | two datetimes the same number of seconds from the epoch are the same datetime |
| Clock.FromSeconds | Logger/Loger_mark_2.py:397 | `timedelta(seconds=t)` is normalised (0 <= seconds < 86400) and totals t seconds |
| Clock.NormalUnique | Logger/Loger_mark_2.py:397 | `timedelta(seconds=...)` inverts the total: a normalised timedelta is rebuilt from its total |
| Clock.Difference | Logger/Loger_mark_2.py:325-326 | `end - start` is the normalised timedelta whose total is the seconds between the two datetimes |
| Clock.ZeroDifference | Logger/Loger_mark_2.py:389-391 | a difference is the zero timedelta, falsy in Python, exactly when start and end are the same datetime |
| Clock.ZeroStr | Logger/Loger_mark_2.py:393 | the zero timedelta prints as `0:00:00` |
| Clock.Increment | Logger/Loger_mark_2.py:328-331 | the running-total step `abs(days * 86400)` then `abs(seconds)` equals the length of the job when it is not negative, and otherwise the negated length plus twice the seconds part |
| Clock.NegativeIncrement | Logger/Loger_mark_2.py:328-331 | a job whose end precedes its start adds at least its length to the total, and exactly that only when the seconds part is 0 |
| Clock.HmsRoundTrip | Logger/Loger_mark_2.py:393 | the `H:MM:SS` part of `str(timedelta)` reads back as its seconds |
| Clock.DayCountRead | Logger/Loger_mark_2.py:393 | the day count `str(timedelta)` writes reads back as that count, negative counts included |
| Clock.TimedeltaRead | Logger/Loger_mark_2.py:393 | every normalised timedelta's `str()` (`H:MM:SS`, or `N day(s), H:MM:SS`) reads back as its total seconds |
| Clock.DifferenceRead | Logger/Loger_mark_2.py:393 | `str(end - start)` reads back as the seconds from start to end |
| Clock.DurationRoundTrip | Logger/Loger_mark_2.py:402 | `str(timedelta(seconds=t))` reads back as t, for every integer t |
| Clock.MatchFormat | Logger/Loger_mark_2.py:325-326 | matching a format from an index yields one value per field and ends inside the string |
| Clock.Strptime | Logger/Loger_mark_2.py:325-326 | `strptime` on the two stamp formats yields only valid datetimes, and fails only with ValueError (no match, data left over, a date or time out of range) |
| Clock.MatchSpell | Logger/Loger_mark_2.py:325-326 | the matcher reads back, field for field, what the zero-padded rendering of a format writes, whatever follows it |
| Clock.StrptimeRender | Logger/Loger_mark_2.py:325-326 | every valid datetime, written zero-padded in either stamp format, is parsed back to itself |
| Clock.SearchStamp | Logger/Loger_mark_2.py:175-178 | `re.search` of the stamp pattern finds the leftmost index where a stamp occurs, and None exactly when there is none |
| JobName.Span | Logger/Loger_mark_2.py:360-361 | a match found is a non-empty slice of the name |
| JobName.ExtractName | Logger/Loger_mark_2.py:360-361 | the job name from a log file name fails only with AttributeError (`re.search` gave None) |
| JobName.SpanLeftmost | Logger/Loger_mark_2.py:360-361 | the pattern `[a-zA-Z]+_* *[a-zA-Z]+\|[a-zA-Z]+` matches iff the name holds an ASCII letter; the span found is a match, and no match starts earlier |
| JobName.SpanLongest | Logger/Loger_mark_2.py:360-361 | among the matches starting where the span does, the span is the one the first alternative makes longest |
| JobName.ExampleDigits | Logger/Loger_mark_2.py:360-361 | "Foo_Bar123.log" names the job "Foo_Bar" |
| JobName.ExampleDate | Logger/Loger_mark_2.py:360-361 | "JobA_2024-01-01.log" names the job "JobA" |
| JobName.LogFileNamed | Logger/Loger_mark_2.py:24-27 | every file the log listing keeps holds ".log", so its job name is always found |
| LogScan.ListDir | Logger/Loger_mark_2.py:23 | `os.listdir` of a missing folder raises FileNotFoundError |
| LogScan.ReadLines | Logger/Loger_mark_2.py:355-356 | `open(...).readlines()` fails exactly when the file does not exist |
| LogScan.Seeded | Logger/Loger_mark_2.py:351-353 | a fresh row has exactly the sixteen interested columns |
| LogScan.SeedRecord | Logger/Loger_mark_2.py:351-353 | the seeding loop builds the fresh row, every column the empty string |
| LogScan.ParseLine | Logger/Loger_mark_2.py:379-382 | reading one print-log line fails only with ValueError (the unpacking of `split(':\t')`) |
| LogScan.FillRecord | Logger/Loger_mark_2.py:378-386 | the loop over the log's lines computes exactly the row `Fill` specifies, or the same error |
| LogScan.Fill | Logger/Loger_mark_2.py:378-386 | the line loop of one job fails only with ValueError, from the `key, value` unpacking; `FillKeys` and `FillFails` state the columns kept and exactly when it fails |
| LogScan.ApplyLine | Logger/Loger_mark_2.py:383-386 | the loop over the column names for one line computes exactly what `Apply` specifies |
| LogScan.Apply | Logger/Loger_mark_2.py:383-386 | every column whose name occurs in the key takes the value unless the row's entry under the raw key is already truthy; its properties are `ApplyTruthyKeeps`, `ApplyFalsySets`, `ApplyMissing`, `ApplyForeign` and `ApplyKeys` |
| LogScan.ApplyTruthyKeeps | Logger/Loger_mark_2.py:385-386 | a line whose exact key already holds a truthy value changes nothing: the first non-empty value of a column wins |
| LogScan.ApplyFalsySets | Logger/Loger_mark_2.py:383-386 | a column still empty takes the value of a line keyed by exactly its name |
| LogScan.ApplyMissing | Logger/Loger_mark_2.py:383-386 | a column whose name is not in the list is left alone |
| LogScan.ApplyForeign | Logger/Loger_mark_2.py:383-386 | a key that is not itself a column (`log_dict.get(key)` is None) overwrites every column whose name it contains, on every such line: the last line wins |
| LogScan.ApplyKeys | Logger/Loger_mark_2.py:383-386 | a line never adds or removes a column |
| LogScan.FillKeys | Logger/Loger_mark_2.py:378-386 | reading the log into a seeded row keeps exactly its sixteen columns |
| LogScan.FillFails | Logger/Loger_mark_2.py:378-386 | reading the log fails exactly when some line is neither skipped nor a `key:\tvalue` pair |
| LogScan.ParseKeyValue | Logger/Loger_mark_2.py:381-382 | a `key:\tvalue` line whose parts hold no ":\t" is read back as that key and the right-stripped value |
| LogScan.CollectLogs | Logger/Loger_mark_2.py:21-27 | the list-building loop computes exactly `LogFiles` of the listing |
| LogScan.LogFilesExact | Logger/Loger_mark_2.py:23-27 | the kept names are exactly the entries holding ".log", in listing order |
| LogScan.Sanitize | Logger/Loger_mark_2.py:141 | `re.sub('[^a-zA-Z ]+', '', ...)` leaves only ASCII letters and spaces |
| LogScan.FirstFolder | Logger/Loger_mark_2.py:136-143 | the folder chosen is an entry that passes the test; none is chosen iff no entry passes it |
| LogScan.FolderSearch | Logger/Loger_mark_2.py:135-143 | the loop with its early `break` computes `folder/entry` for the first matching entry, and '' when none matches |
| LogScan.FirstFolderFirst | Logger/Loger_mark_2.py:136-143 | every entry before the chosen one fails the test |
| LogScan.UnderscoreNeverMatches | Logger/Loger_mark_2.py:141-142 | a job name holding '_' never finds its log folder, since the letters-and-spaces form of a name has no '_' |
| LogScan.TeFile | Logger/Loger_mark_2.py:103-108 | the time-estimation file is an entry holding both the job name and "PrintSeq", and none is found iff no entry holds both |
| LogScan.LogTime | Logger/Loger_mark_2.py:325-326 | a time read from a row is a valid datetime |
| LogScan.JobDuration | Logger/Loger_mark_2.py:325-326 | a job's duration is a normalised timedelta |
| LogScan.TimesFrame | Logger/Loger_mark_2.py:320-326 | whether and how long a job ran depends on its two time columns alone |
| LogScan.ForwardIncrement | Logger/Loger_mark_2.py:328-331 | a job whose end is not before its start adds exactly its length in seconds to the total |
| LogScan.IntOf | Logger/Loger_mark_2.py:204 | `int(...)` of a cell fails only with ValueError or TypeError |
| LogScan.Summary | Logger/Loger_mark_2.py:400-404 | the summary row has the last row's columns plus every name written |
| LogScan.SummaryRow | Logger/Loger_mark_2.py:400-404 | the summary loop writing into the last row in place computes exactly `Summary` |
| LogScan.SummaryTime | Logger/Loger_mark_2.py:400-403 | the summary's "Time spent" is text that reads back as the total seconds |
| LogScan.CellIn | Logger/Loger_mark_2.py:236 | `a in b` succeeds exactly when both cells are strings (TypeError otherwise) |
| LogScan.DedupRecipes | Logger/Loger_mark_2.py:231-242 | the dedup loop computes exactly `Dedup` of the rows |
| LogScan.Dedup | Logger/Loger_mark_2.py:231-242 | the de-duplicated recipe list; `DedupShape`, `DedupUnnested` and `DedupCovers` state its order, that no kept name is contained in an earlier one, and that every recipe is covered |
| LogScan.SeenText | Logger/Loger_mark_2.py:235-238 | with strings throughout, a recipe counts as seen iff some kept name contains it |
| LogScan.Entries | Logger/Loger_mark_2.py:240-241 | one candidate entry per row |
| LogScan.DedupShape | Logger/Loger_mark_2.py:231-242 | with every recipe a string the dedup succeeds; earlier entries stay in front and the new ones are the rows' entries in order, some left out |
| LogScan.DedupUnnested | Logger/Loger_mark_2.py:231-242 | no kept name is contained in an earlier kept name |
| LogScan.DedupCovers | Logger/Loger_mark_2.py:231-242 | every row's recipe is contained in some kept name: a row left out was covered by an earlier name |
| LoggerMark2.LogsList | Logger/Loger_mark_2.py:12-30 | `get_logs_list` of a missing folder is the empty list |
| LoggerMark2.TeFileOf | Logger/Loger_mark_2.py:92-111 | `get_te_file` of a missing folder is None |
| LoggerMark2.GetFolderLogPath | Logger/Loger_mark_2.py:134-149 | the method computes exactly `FolderLogPath`: the first matching folder, 'Log file not found.' or 'no such folder' |
| LoggerMark2.FolderLogPathTruthy | Logger/Loger_mark_2.py:368-370 | `get_folder_log_path` never returns an empty string, so `if not log_older: continue` never skips a job |
| LoggerMark2.TimeEstimation | Logger/Loger_mark_2.py:152-186 | `time_estimation_calc` fails only with TypeError (the handler's string concatenation on a missing file), IndexError or ValueError |
| LoggerMark2.EstimateLines | Logger/Loger_mark_2.py:171-183 | the estimate from the lines read fails only with IndexError or ValueError |
| LoggerMark2.Estimate | Logger/Loger_mark_2.py:181-183 | `str(end - start)` of two stamps fails only with ValueError |
| LoggerMark2.EstimateValue | Logger/Loger_mark_2.py:171-183 | with the first and last lines stamped and parsable, the estimate is computed and reads back as the seconds between the two stamps |
| LoggerMark2.EstimateRead | Logger/Loger_mark_2.py:181-183 | two parsable stamps give an estimate that reads back as the seconds between them |
| LoggerMark2.EstimateErrors | Logger/Loger_mark_2.py:171-182 | fewer than two lines raise IndexError; a first or last line without a stamp, or a last stamp that does not parse, raises ValueError |
| LoggerMark2.FindRecipe | Logger/Loger_mark_2.py:279-305 | `find_recipe` on a folder that does not exist (the texts 'Log file not found.' and 'no such folder' included) raises FileNotFoundError |
| LoggerMark2.FindRecipeFirst | Logger/Loger_mark_2.py:289-300 | the scan answers from the first entry that is a recipe folder or an archive; earlier entries have no effect |
| LoggerMark2.RecipeCell | Logger/Loger_mark_2.py:372-375 | the Recipe column always ends up truthy |
| LoggerMark2.PercentageOfText | Logger/Loger_mark_2.py:189-218 | with the counts as text: computed iff one count is blank, the other and the total are integers and the total is not 0, and then it is the other count over the total; two non-blank counts give TypeError; a zero total gives ZeroDivisionError |
| LoggerMark2.CalculatePercentage | Logger/Loger_mark_2.py:189-218 | `calculate_percentage` fails only with ValueError, TypeError or ZeroDivisionError; `PercentageOfText` and `PercentageFrame` state when it succeeds and with what value |
| LoggerMark2.RealTimeCalculation | Logger/Loger_mark_2.py:308-332 | the total never shrinks, and the time wasted is a normalised timedelta |
| LoggerMark2.RealTimeForward | Logger/Loger_mark_2.py:325-332 | a job that ends no earlier than it starts grows the total by exactly its length in seconds |
| LoggerMark2.RealTimeOf | Logger/Loger_mark_2.py:325-332 | with both times readable the result is the duration, and the total grown by its increment |
| LoggerMark2.ZeroLengthDropped | Logger/Loger_mark_2.py:389-391 | a job whose two times are equal is not appended and adds nothing to the total |
| LoggerMark2.StampedKept | Logger/Loger_mark_2.py:392-393 | writing Percentage and 'Time spent' leaves the columns the row is judged by untouched |
| LoggerMark2.PercentageFrame | Logger/Loger_mark_2.py:202-204 | the percentage depends on the three slice counts alone |
| LoggerMark2.CloseDone | Logger/Loger_mark_2.py:389-395 | an appended row is a kept row and adds its increment to the total; a row not appended has length zero and adds nothing |
| LoggerMark2.Close | Logger/Loger_mark_2.py:389-395 | the end of one job: TypeError with no times, a zero-length job not appended, any other job stamped and appended; `CloseDone` and `ZeroLengthDropped` state what it keeps and adds |
| LoggerMark2.TailDone | Logger/Loger_mark_2.py:378-395 | the same for a job from its log lines onward |
| LoggerMark2.ProcessJob | Logger/Loger_mark_2.py:351-395 | the loop body, as a method, computes exactly `JobDone` |
| LoggerMark2.JobDone | Logger/Loger_mark_2.py:351-395 | one job from its log file's name: the row's head, the lines folded in, then the time; `TailDone` and `StepAppends` state what it appends |
| LoggerMark2.HeadRecord | Logger/Loger_mark_2.py:351-376 | the row built before the log lines are read in, as a method, is exactly `Head` |
| LoggerMark2.StepAppends | Logger/Loger_mark_2.py:350-395 | one job appends at most its own row, a kept row whose increment is what the total grows by |
| LoggerMark2.RunAppends | Logger/Loger_mark_2.py:350-395 | the loop of `logic()` only appends to `log`, every appended row is kept, and the total grows by exactly the increments of the appended rows |
| LoggerMark2.Run | Logger/Loger_mark_2.py:350-395 | the loop of `logic()` over the log files, stopping at the first exception; `RunAppends` states that it only appends kept rows and sums their increments |
| LoggerMark2.FinishRows | Logger/Loger_mark_2.py:397-410 | the statistics saved are the rows `log` held, then the appended rows, with the last one replaced by the summary when it was appended (the summary aliases the last row); the recipes are those of the saved rows |
| LoggerMark2.Finish | Logger/Loger_mark_2.py:397-410 | after the loop the last `log_dict` is overwritten by the summary and saved, or UnboundLocalError with no file; `FinishRows` and `FinishTotal` state the rows saved and the total |
| LoggerMark2.FinishTotal | Logger/Loger_mark_2.py:400-403 | the summary's 'Time spent' reads back as the total |
| LoggerMark2.LogicKeepsLog | Logger/Loger_mark_2.py:335-413 | whatever happens, the rows `log` held before are kept, and what is saved is the new `log` and its recipes |
| LoggerMark2.Logger.constructor | Logger/Loger_mark_2.py:424 | `log` starts empty |
| LoggerMark2.Logger.Logic | Logger/Loger_mark_2.py:335-413 | the method leaves `log` and the output exactly as `LogicSpec` says |
| LoggerMark2.LogicSpec | Logger/Loger_mark_2.py:335-413 | the new `log` and the outcome of one click; `LogicKeepsLog` states that the rows held before are kept and the new `log` and its recipes are saved |
| Jobs.Stamped | Logger/Loger_mark_2.py:392-393 | the row gets Percentage and 'Time spent', and every other column stays |
| Jobs.LoopAppends | Logger/Loger_mark_2.py:350-395 | a loop whose every job only appends a kept row and grows the total by its increment does so as a whole |
| Jobs.OverwrittenRows | Logger/Loger_mark_2.py:400-404 | the summary loop writes into the row last built; when that row was appended, the summary takes the place of the last row of `log` and every earlier row stays |
| LoggerTemp.LogsList | DF-IV-Logger/Logger_mark2_temp.py:11-22 | `getLogsList` is exactly the `.log` entries of the listing in order, and the empty list when the listing fails in any way |
| LoggerTemp.TeFileOf | DF-IV-Logger/Logger_mark2_temp.py:51-57 | `getTEfile` fails exactly when the listing does: it is not guarded |
| LoggerTemp.GetFolderLogPath | DF-IV-Logger/Logger_mark2_temp.py:58-72 | the method computes exactly `FolderLogPath` |
| LoggerTemp.FolderLogPathSkips | DF-IV-Logger/Logger_mark2_temp.py:149-151 | the job is skipped exactly when the folder can be listed and no entry matches; a job name holding '_' is then always skipped |
| LoggerTemp.TimeEstimation | DF-IV-Logger/Logger_mark2_temp.py:73-81 | `TimeEstimationCalc` fails only with FileNotFoundError, IndexError, AttributeError or ValueError |
| LoggerTemp.EstimateLines | DF-IV-Logger/Logger_mark2_temp.py:76-81 | the estimate from the lines read fails only with IndexError, AttributeError or ValueError |
| LoggerTemp.EstimateStamps | DF-IV-Logger/Logger_mark2_temp.py:78-81 | the estimate from the two searches fails only with AttributeError (`None.regs`) or ValueError |
| LoggerTemp.EstimateValue | DF-IV-Logger/Logger_mark2_temp.py:76-81 | with the first and last lines stamped and parsable, the estimate reads back as the seconds between the two stamps |
| LoggerTemp.EstimateStampsOk | DF-IV-Logger/Logger_mark2_temp.py:80-81 | two parsable stamps give `str(end - start)` |
| LoggerTemp.EstimateOneLine | DF-IV-Logger/Logger_mark2_temp.py:76-81 | a file of one stamped line is both first and last line and estimates no time at all |
| LoggerTemp.EstimateErrors | DF-IV-Logger/Logger_mark2_temp.py:74-80 | the errors in the order they are met: an empty file gives IndexError; a last line without a stamp AttributeError; its stamp not parsing ValueError; then the same for the first line |
| LoggerTemp.ArchiveCell | DF-IV-Logger/Logger_mark2_temp.py:158-165 | any failure reading an archive sets the Recipe column to 'no pcbjc file' |
| LoggerTemp.Recipe | DF-IV-Logger/Logger_mark2_temp.py:152 | the unguarded listing of the log folder propagates its error |
| LoggerTemp.ScanRecipe | DF-IV-Logger/Logger_mark2_temp.py:152-165 | the recipe loop, as a method, computes exactly `Recipe` |
| LoggerTemp.RecipeFrom | DF-IV-Logger/Logger_mark2_temp.py:152-165 | the recipe loop: a recipe folder ends it with its first entry, every archive writes the Recipe column; `RecipeLastWins` states that the last archive wins |
| LoggerTemp.RecipeLastWins | DF-IV-Logger/Logger_mark2_temp.py:152-165 | with no recipe folder among the entries, the loop does not stop at an archive: the Recipe column is the last archive's, it is left as it was when there is none, and no other column changes |
| LoggerTemp.CountOfText | DF-IV-Logger/Logger_mark2_temp.py:84-90 | a count given as text converts as `0` when blank and as `int(text)` otherwise |
| LoggerTemp.PercentageOfText | DF-IV-Logger/Logger_mark2_temp.py:83-91 | with the counts as text, the percentage is computed exactly when each non-blank count and the total are integers and the total is not 0 |
| LoggerTemp.Percentage | DF-IV-Logger/Logger_mark2_temp.py:83-91 | `percentage` fails only with ValueError, TypeError or ZeroDivisionError; `PercentageOfCounts` and `PercentageOfSum` state when it succeeds and with what value |
| LoggerTemp.PercentageOfCounts | DF-IV-Logger/Logger_mark2_temp.py:83-91 | computed exactly when all three conversions succeed and the total is not 0, and it is then the sum of the two counts over the total |
| LoggerTemp.PercentageOfSum | DF-IV-Logger/Logger_mark2_temp.py:90 | two counts and a non-zero total that convert give their sum over the total |
| LoggerTemp.PercentageFrame | DF-IV-Logger/Logger_mark2_temp.py:84-90 | the percentage depends on the three slice counts alone |
| LoggerTemp.StampedKept | DF-IV-Logger/Logger_mark2_temp.py:184-185 | writing Percentage and 'Time spent' leaves the columns the row is judged by untouched |
| LoggerTemp.CloseDone | DF-IV-Logger/Logger_mark2_temp.py:177-187 | an appended row is a kept row whose increment is what the total grew by; a skipped job (a time missing) leaves the total alone |
| LoggerTemp.Close | DF-IV-Logger/Logger_mark2_temp.py:177-187 | the end of one job: skipped with a blank time, otherwise timed, stamped and appended; `CloseDone` and `ZeroLengthKept` state what it keeps and adds |
| LoggerTemp.ZeroLengthKept | DF-IV-Logger/Logger_mark2_temp.py:180-187 | a job whose two times are equal is appended, with 'Time spent' "0:00:00", and adds nothing to the total |
| LoggerTemp.TailDone | DF-IV-Logger/Logger_mark2_temp.py:167-187 | the same for a job from its log lines onward |
| LoggerTemp.HeadRecord | DF-IV-Logger/Logger_mark2_temp.py:134-165 | the row built before the log lines are read in, as a method, is exactly `Head` |
| LoggerTemp.ProcessJob | DF-IV-Logger/Logger_mark2_temp.py:134-187 | the loop body, as a method, computes exactly `JobDone` |
| LoggerTemp.StepAppends | DF-IV-Logger/Logger_mark2_temp.py:133-187 | one job appends at most its own row, a kept row whose increment is what the total grows by |
| LoggerTemp.RunAppends | DF-IV-Logger/Logger_mark2_temp.py:133-187 | the loop only appends to `log`, every appended row is kept, and the total grows by exactly the increments of the appended rows |
| LoggerTemp.FinishStatistics | DF-IV-Logger/Logger_mark2_temp.py:189-201 | with `log` not empty, the statistics file holds every row of `log` as saved before the summary, then the summary row, whose 'Time spent' reads back as the total |
| LoggerTemp.FinishRows | DF-IV-Logger/Logger_mark2_temp.py:189-202 | with `log` not empty, in memory the rows `log` held are kept, and the last job's row, when appended, is replaced by the summary (aliasing); the recipes are those of the new `log` |
| LoggerTemp.Finish | DF-IV-Logger/Logger_mark2_temp.py:189-202 | after the loop: FileNotFoundError without the output folder; ValueError (pandas' EmptyDataError) when `log` is empty, since `read_csv` cannot parse a frame with no columns; UnboundLocalError with no file; otherwise the summary saved after `log`; `FinishStatistics` and `FinishRows` state the file and the rows |
| LoggerTemp.EmptyLogUnread | DF-IV-Logger/Logger_mark2_temp.py:190-191 | when `log` is still empty after the loop, `read_csv` fails with ValueError before any summary row or recipe export, whether or not a job was read |
| LoggerTemp.FirstClickNoLogs | DF-IV-Logger/Logger_mark2_temp.py:133-191 | a first click with no `.log` file ends at `read_csv` with ValueError, not with the UnboundLocalError of `log_dict` |
| LoggerTemp.LogicKeepsLog | DF-IV-Logger/Logger_mark2_temp.py:126-204 | whatever happens, the rows `log` held before are kept, and the recipes saved are those of the new `log` |
| LoggerTemp.Logger.constructor | DF-IV-Logger/Logger_mark2_temp.py:213 | `log` starts empty |
| LoggerTemp.Logger.Logic | DF-IV-Logger/Logger_mark2_temp.py:126-204 | the method leaves `log` and the output exactly as `LogicSpec` says |
| LoggerCompare.EstimatesAgree | DF-IV-Logger/Logger_mark2_temp.py:73-81 | on two lines or more the two estimates (here and Logger/Loger_mark_2.py:152-186) succeed together and agree; only the error for a missing stamp differs |
| LoggerCompare.OneLineDiffers | DF-IV-Logger/Logger_mark2_temp.py:76-77 | a single stamped line: Mark 2 raises IndexError, this variant estimates no time |
| LoggerCompare.MissingEstimateFile | DF-IV-Logger/Logger_mark2_temp.py:74-75 | an estimation file that cannot be read: Mark 2's handler raises TypeError, this variant FileNotFoundError |
| LoggerCompare.ZeroLengthDiffers | DF-IV-Logger/Logger_mark2_temp.py:180-187 | a job whose times are equal: Mark 2 leaves it out, this variant appends it; neither adds to the total |
| LoggerCompare.BothCountsDiffer | DF-IV-Logger/Logger_mark2_temp.py:83-91 | both slice counts given: Mark 2 raises TypeError, this variant gives their sum over the total |
| LoggerCompare.RecipeDiffers | DF-IV-Logger/Logger_mark2_temp.py:152-165 | two archives and no recipe folder: Mark 2 takes the first archive's recipe, this variant the last's |
| LoggerCompare.UnderscoreDiffers | DF-IV-Logger/Logger_mark2_temp.py:149-151 | a job name holding '_': this variant skips the job, Mark 2 goes on with 'Log file not found.' as a folder and raises FileNotFoundError |
| Pcbj.Thickness | DF-IV-manual-registration/main.py:241-244 | the thickness a layer adds: under main.py the first separation's when it has a `File`, else the second's; under main_copy.py:52 always the first's; IndexError exactly when the separation needed is missing |
| Pcbj.Height | DF-IV-manual-registration/main.py:61-68 | the height of a stack fails only with IndexError |
| Pcbj.HeightFails | DF-IV-manual-registration/main.py:63-67 | the height fails exactly when some layer lacks the separation it needs |
| Pcbj.HeightSnoc | DF-IV-manual-registration/main.py:63-67 | one more layer on top adds exactly its thickness |
| Pcbj.Restack | DF-IV-manual-registration/main.py:237-244 | restacking keeps the number of layers and fails only with IndexError |
| Pcbj.RestackKeeps | DF-IV-manual-registration/main.py:240 | restacking touches only a layer's `LayerStartPosZInUM` |
| Pcbj.RestackHeight | DF-IV-manual-registration/main.py:237-244 | restacking succeeds exactly when the stack has a height, and ends at z plus that height |
| Pcbj.RestackShape | DF-IV-manual-registration/main.py:237-244 | restacking changes only start positions, and succeeds exactly when the stack has a height, which it adds to z |
| Pcbj.RestackStartAt | DF-IV-manual-registration/main.py:238-244 | layer i of a successful restack starts at z plus the height of the layers below it, and nothing else about it changes |
| Pcbj.RestackStarts | DF-IV-manual-registration/main.py:238-244 | the same for every layer at once |
| Pcbj.RestackAppend | DF-IV-manual-registration/main.py:239-244 | restacking two parts: the upper part starts where the lower part ended; when the lower part fails, the upper part is left as it was |
| Pcbj.RestackOne | DF-IV-manual-registration/main.py:240-244 | a single layer starts at z and ends its thickness higher |
| Pcbj.RestackNext | DF-IV-manual-registration/main.py:239-244 | one more layer starts where the layers below it ended; when it lacks its separation the restack stops there with the layers above untouched |
| Pcbj.PlaceLayers | DF-IV-manual-registration/main.py:237-244 | the loop, writing each start into the layer before reading its thickness, leaves the layers and the running height exactly as `Restack` does, the partial restack on IndexError included |
| Pcbj.RestackStops | DF-IV-manual-registration/main.py:239-244 | at the first layer without its separation the restack raises IndexError; every layer up to it has a start and the layers above keep theirs |
| Pcbj.LastData | DF-IV-manual-registration/main.py:261 | reading a name from the archive finds nothing exactly when no entry has that name |
| Pcbj.Copied | DF-IV-manual-registration/main.py:258-262 | the copying loop writes no `pcbj.info`, and each entry it writes carries the data the archive reads under that name |
| Pcbj.SavedDistinct | DF-IV-manual-registration/main.py:247-266 | on an archive with distinct names `save` keeps every other entry as it was, in order |
| Pcbj.SavedShape | DF-IV-manual-registration/main.py:255-263 | the saved archive ends in the new `pcbj.info` and holds no other |
| Pcbj.DuplicateCopiedTwice | DF-IV-manual-registration/main.py:258-262 | two entries named alike are both written with the data of the later one |
| Pcbj.SaveTwice | DF-IV-manual-registration/main.py:247-266 | saving twice is saving once with the later text: the archive keeps no trace of the first save |
| Pcbj.SecondToLastSaved | DF-IV-manual-registration/main_copy.py:42 | `filelist[len(filelist) - 2]` of a saved archive is the last entry copied, or the new `pcbj.info` when nothing else was copied |
| Pcbj.ReadValues | DF-IV-manual-registration/main.py:72-86 | `read_values` fails exactly when `PositionInMM` is missing, and then with KeyError |
| Pcbj.SetPosition | DF-IV-manual-registration/main.py:96-97 | `update_start_pos` on the job fails exactly without `PositionInMM`; otherwise it changes only GroupAxis and PrintAxis, keeping the layers and every other key |
| Pcbj.SetThenRead | DF-IV-manual-registration/main.py:72-97 | `read_values` after `update_start_pos` gives back the two values set |
| Image.RecolorIdempotent | DF-IV-manual-registration/main.py:46-51 | recolouring white pixels is idempotent, changes only white pixels, and gives the new colour or the old pixel |
| Image.Recolor | DF-IV-manual-registration/main.py:46-51 | what `change_white_pixels` makes of one pixel; `RecolorIdempotent` states that it is idempotent and changes only white pixels |
| Image.ChangeWhitePixels | DF-IV-manual-registration/main.py:35-52 | every white pixel of the image becomes the new colour and every other stays; the image itself is returned |
| Image.Combine | DF-IV-manual-registration/main.py:101-149 | the new picture has `image1`'s size: yellow where `image2` is not black, otherwise green where `image1` is not black, otherwise black (state 1) |
| Registration.Offsets | DF-IV-manual-registration/main.py:745-750 | the pixel offsets of the top picture's bottom-left corner from the base's are non-negative, each the distance on its axis |
| Registration.Moved | DF-IV-manual-registration/main.py:757-761 | the start moved by 0.036 mm per pixel on the group axis and 0.03525 mm per pixel on the print axis; `RegistrationMain.Registered` states both jobs end at this start |
| RegistrationMain.UpdateStartSpec | DF-IV-manual-registration/main.py:88-98 | succeeds exactly when `PositionInMM` exists; on KeyError nothing changes; otherwise the layers stay, `read_values` gives the new axes, and the archive holds the job as saved |
| RegistrationMain.UpdateZSpec | DF-IV-manual-registration/main.py:230-245 | the layers restacked from z whatever happens, the axes untouched; the archive saved only when every layer had its separation, else IndexError and the archive as it was |
| RegistrationMain.UpdateZWhen | DF-IV-manual-registration/main.py:230-245 | `update_z_start_pos` succeeds exactly when the job has a height, and then each layer starts at z plus the height of the layers below it |
| RegistrationMain.SetNewSpec | DF-IV-manual-registration/main.py:757-771 | `set_new_start_position` never changes the two starts, and never loads or unloads a job |
| RegistrationMain.Registered | DF-IV-manual-registration/main.py:721-771 | after loading the base job, registering succeeds exactly when the top job has a `PositionInMM` and both jobs have a height; both jobs then get GroupAxis = old PrintAxis + 0.036 dx and PrintAxis = old GroupAxis + 0.03525 dy (the starts are unpacked swapped), the top job's layers start on the base job's height, and each archive holds its job as last set |
| RegistrationMain.LastImageData | DF-IV-manual-registration/main.py:150-188 | `read_last_image` up to decoding fails only with IndexError or KeyError, and reads at least one picture |
| RegistrationMain.LastImageWhen | DF-IV-manual-registration/main.py:158-186 | it reads `Layers[len - 2]` (the only layer of a one-layer job); IndexError exactly when there is no layer or it has fewer than two separations; otherwise it succeeds exactly when every `File` it reads names an entry (the second alone when the first is empty, the first alone when only the second is), and each picture is the data under its `File` |
| RegistrationMain.ZipFileReader.constructor | DF-IV-manual-registration/main.py:12-26 | a new reader holds the job and archive given, no axes read and no picture |
| RegistrationMain.ZipFileReader.Open | DF-IV-manual-registration/main.py:24-26 | opening propagates the archive's error; no `pcbj.info` is KeyError, an undecodable one ArchiveError; otherwise a fresh reader holding the decoded job of the last `pcbj.info` entry |
| RegistrationMain.ZipFileReader.GetHeight | DF-IV-manual-registration/main.py:54-68 | the loop computes exactly the height of the stack, a layer's thickness taken from its first separation when that has a `File`, else from its second |
| RegistrationMain.ZipFileReader.ReadValues | DF-IV-manual-registration/main.py:72-86 | returns `Pcbj.ReadValues` of the job, stores the two axes when it succeeds, and changes nothing else |
| RegistrationMain.ZipFileReader.UpdateStartPos | DF-IV-manual-registration/main.py:88-98 | the new reader state and result are exactly `UpdateStartSpec` |
| RegistrationMain.ZipFileReader.UpdateZStartPos | DF-IV-manual-registration/main.py:230-245 | the new reader state and result are exactly `UpdateZSpec` |
| RegistrationMain.ZipFileReader.Save | DF-IV-manual-registration/main.py:247-266 | only the archive changes, to `Saved` of the old one with the job as `json.dumps(..., indent=4)` |
| RegistrationMain.ZipFileReader.ReadLastImage | DF-IV-manual-registration/main.py:150-188 | the reader's `read_last_image`, up to decoding, computes exactly `LastImageData` |
| RegistrationMain.ZipFileReader.CombineImages | DF-IV-manual-registration/main.py:101-149 | the reader keeps its job and archive, and its last image is a new overlay of the two pictures |
| RegistrationMain.ImageViewer.constructor | DF-IV-manual-registration/main.py:721-731 | the viewer starts with no job loaded and no starts |
| RegistrationMain.ImageViewer.BaseFileLoad | DF-IV-manual-registration/main.py:721-731 | loading the base job: KeyError without `PositionInMM`, the starts untouched; otherwise the viewer is `Loaded` (the axes unpacked swapped into the starts) and the result is what `read_last_image` reads, with its IndexError or KeyError |
| RegistrationMain.ImageViewer.LoadTopFile | DF-IV-manual-registration/main.py:842-847 | loading the top job replaces the top reader and leaves the base reader and the starts alone |
| RegistrationMain.ImageViewer.SetNewStartPosition | DF-IV-manual-registration/main.py:757-771 | the new viewer state and result are exactly `SetNewSpec` |
| RegistrationMain.ImageViewer.Update | DF-IV-manual-registration/main.py:742-754 | with no top picture nothing happens; otherwise it is `set_new_start_position` with the offsets of the top picture's bottom-left corner |
| RegistrationCopy.UpdateZSpec | DF-IV-manual-registration/main_copy.py:47-55 | the layers restacked from z on their first separations whatever happens; the archive saved only when every layer has one, else IndexError |
| RegistrationCopy.UpdateZWhen | DF-IV-manual-registration/main_copy.py:47-55 | succeeds exactly when every layer has a separation; layer i then starts at z plus the first-separation thicknesses below it |
| RegistrationCopy.SetNewSpec | DF-IV-manual-registration/main_copy.py:554-563 | `set_new_start_position` moves the base job's axes in memory only: its archive and layers stay as they were |
| RegistrationCopy.Registered | DF-IV-manual-registration/main_copy.py:517-563 | after loading the base job, registering always succeeds and gives it GroupAxis = old PrintAxis + 0.036 dx and PrintAxis = old GroupAxis + 0.03525 dy, its layers and archive unchanged |
| RegistrationCopy.RegisteredAlike | DF-IV-manual-registration/main_copy.py:554-563 | this tool moves the base job to the same start main.py:757-771 moves both jobs to, but saves nothing |
| RegistrationCopy.StackingDiffers | DF-IV-manual-registration/main_copy.py:52 | the two tools stack a layer alike when its first separation has a `File`; without one, main.py takes the second separation's thickness and this tool the first's |
| RegistrationCopy.StackingAgrees | DF-IV-manual-registration/main_copy.py:47-55 | on a job whose every layer has an image in its first separation, both tools restack alike |
| RegistrationCopy.ZipFileReader.constructor | DF-IV-manual-registration/main_copy.py:11-19 | a new reader holds the job and archive given, with the archive's entry list kept as opened |
| RegistrationCopy.ZipFileReader.Open | DF-IV-manual-registration/main_copy.py:17-19 | opening propagates the archive's error; no `pcbj.info` is KeyError, an undecodable one ArchiveError; otherwise a fresh reader of the decoded job |
| RegistrationCopy.ZipFileReader.ReadValues | DF-IV-manual-registration/main_copy.py:25-33 | returns `Pcbj.ReadValues` of the job, stores the two axes when it succeeds, and changes nothing else |
| RegistrationCopy.ZipFileReader.UpdateStartPos | DF-IV-manual-registration/main_copy.py:35-37 | KeyError exactly without `PositionInMM`, changing nothing; otherwise the two axes set; the archive is never saved |
| RegistrationCopy.ZipFileReader.ReadLastImage | DF-IV-manual-registration/main_copy.py:40-45 | the data of the entry second from the end of the archive as opened; with a single entry index -1 picks that entry; IndexError only on an empty archive |
| RegistrationCopy.ZipFileReader.UpdateZStartPos | DF-IV-manual-registration/main_copy.py:47-55 | the new reader state and result are exactly `UpdateZSpec` |
| RegistrationCopy.ZipFileReader.Save | DF-IV-manual-registration/main_copy.py:57-73 | only the archive changes, to `Saved` of the old one with the job as `json.dumps` without indent |
| RegistrationCopy.ImageViewer.constructor | DF-IV-manual-registration/main_copy.py:517-527 | the viewer starts with no job loaded and no starts |
| RegistrationCopy.ImageViewer.BaseFileLoad | DF-IV-manual-registration/main_copy.py:517-527 | loading the base job: KeyError without `PositionInMM`, the starts untouched; otherwise the viewer is `Loaded` (axes swapped into the starts) whatever `read_last_image` then does, and the picture is the entry second from the end of the list as opened, the only entry of a one-entry archive, or IndexError on an empty one |
| RegistrationCopy.ImageViewer.SetNewStartPosition | DF-IV-manual-registration/main_copy.py:554-563 | the new viewer state and result are exactly `SetNewSpec` |
| RegistrationCopy.ImageViewer.Update | DF-IV-manual-registration/main_copy.py:539-551 | with no top picture nothing happens; otherwise it is `set_new_start_position` with the offsets of the top picture's bottom-left corner |

## Left out

- The Qt user interface is not modelled. That covers windows, text-browser messages, file dialogs, `OutputDialog`, the ruler, grid, zoom and drag handling, `browse_files`, `finish` and `choose_file_and_read_resolution`. The chosen files are parameters instead.
- Exceptions raised inside a Qt slot are not modelled as such. Under PyQt 5.5 and later an exception that leaves a slot aborts the application, and no program here installs `sys.excepthook`. Every `Err` the model returns is therefore a crash of the tool; the state it gives is the state at the moment of the crash.
- Reading a zip or JSON file is a parameter. `ZipFile`/`json.load`/`pd.read_json` become an archive value and a `decode` function. `json.dumps` is the parameter `dumps`. The only formatting difference between the variants, `indent=4` against none, is the value `JsonStyle`.
- Image decoding (`QImage.fromData`, `QPixmap`) is not modelled, so neither is `read_first_image`. `read_last_image` of `main.py` is modelled up to the data it reads (`LastImageData`); the pictures it decodes, combines and stores are not. In `main.py`, `ImageOverlap.load_top_file` is modelled only as replacing the top reader. In `main_copy.py` that reader is a local variable, so the call changes no modelled state, and its `change_white_pixels` on the decoded picture is covered by `Image.ChangeWhitePixels`. Pixels are RGB triples, and QColor alpha and image formats are not modelled.
- `combine_images` is modelled only with `state == 1`, the only value its callers pass. The semi-transparent pens of the other branch are not modelled.
- In `RegistrationMain` the open `zip_file` handle of a reader and the archive on disk are one value; `RegistrationCopy` keeps the entry list as opened (`fileList`) apart from the archive on disk. Two readers of the same path share nothing, and the temporary file and `shutil.move` of `save` are one step. `ImageViewer.Valid` assumes the base and top readers are distinct objects.
- A job's JSON keys (`Layers`, `Separations`, `LayerThicknessUM`, `File`) are assumed present with the right types. `PositionInMM` and the separation indices are modelled with their KeyError/IndexError paths. A `File` that is null is read as the empty string. This changes `read_last_image` of `main.py`: with one `File` null and the other set, Python takes its first branch (`not None == ''` holds) and `zip_file.read(None)` raises KeyError, where `LastImageData` takes a one-picture branch and succeeds.
- Floating point is modelled as real numbers. `float(text)` is the parameter `toFloat` and `str(float)` the parameter `show`. `round(p, 4) * 100` is modelled as the ratio `p` kept in a `Percent` cell.
- `pd.DataFrame`, `to_csv` and `read_csv` are modelled as the sequence of rows they carry, and `DataFrame.append` as concatenation (it exists up to pandas 1.x). Column order and CSV quoting are not modelled. The one case where `read_csv` does not carry the rows back, an empty `log` written as a frame with no columns, is modelled as its EmptyDataError, a ValueError.
- The recipe export (`save_recipes`/`saveRecipes`) is modelled up to the deduplicated recipe list. `get_source_path`/`get_source_Path`, `shutil.copytree`, `os.mkdir`/`shutil.rmtree` and `create_output_folder`/`createOutputfolder` are not modelled, because they only copy folders on disk. Whether the Temp output folder exists is the parameter `outputExists`.
- `ZipFileReader.__exit__` only closes the handle and is not modelled.
- A file system is a map from paths to contents. A path missing from it does not exist, so every failure to read a file is FileNotFoundError. IsADirectoryError, PermissionError and UnicodeDecodeError, which Mark 2's handlers would not catch, are not modelled.
- `open_file`/`Open_File` are not modelled, because no modelled code calls them.
- The clock (`datetime.now()` formatted by `strftime`) is the parameter `now`. `pd.read_json(...).to_dict()` of the project archive in `read_resolution` is a parameter giving the two separations' resolutions, or the error reading them raised. The value `read_resolution` returns from its KeyError handler is not used by its caller and is not modelled.
- `Clock.Strptime` matches a space in the format as exactly one space, where Python's `strptime` accepts any run of whitespace. The print-log format `%Y-%m-%d__%H-%M-%S` has no space, and the estimation format only ever receives text that `SearchStamp` matched with a single space, so the difference is never reached. Unpadded fields (`2024-1-5`) are accepted, as in Python.
- Digits are ASCII digits only. `Py.ParseInt` rejects what Python's `int()` also accepts, underscores between digits (`1_000`) and other Unicode decimal digits; `Clock.Strptime` likewise rejects the Unicode digits that `\d` in `strptime`'s patterns accepts.
- LoggerMark2.LogsList: the contract states only the missing-folder case. The model returns the listing's other errors, which Python would propagate. The `.log` filter is `LogScan.LogFilesExact`.
- LoggerMark2.TeFileOf: the contract states only the missing-folder case. The selection itself is `LogScan.TeFile`.
