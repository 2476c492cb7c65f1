/** Where the two loggers part ways: the same inputs given to
    `Logger/Loger_mark_2.py` (M2) and to `DF-IV-Logger/Logger_mark2_temp.py`
    (Temp). */
module LoggerCompare {
  import opened Py
  import opened Clock
  import opened JobName
  import opened LogScan
  import opened Jobs
  import M2 = LoggerMark2
  import Temp = LoggerTemp

  /** On a file of two lines or more the two estimates succeed together and
      agree; they differ only in the error a missing stamp raises. */
  lemma EstimatesAgree(lines: seq<string>)
    requires |lines| >= 2
    ensures M2.EstimateLines(lines).Ok? <==> Temp.EstimateLines(lines).Ok?
    ensures M2.EstimateLines(lines).Ok? ==> M2.EstimateLines(lines) == Temp.EstimateLines(lines)
  {
    var first, last := FoundStamp(lines[0]), FoundStamp(lines[|lines| - 1]);
    assert Temp.EstimateLines(lines) == Temp.EstimateStamps(first, last);
    if first.Some? && last.Some? {
      assert M2.EstimateLines(lines) == M2.Estimate(first.value, last.value);
    }
  }

  /** A single stamped line: M2 raises IndexError, Temp estimates no time. */
  lemma OneLineDiffers(line: string, d: DateTime)
    requires FoundStamp(line).Some? && Strptime(FoundStamp(line).value, " ", ":") == Ok(d)
    ensures M2.EstimateLines([line]) == Err(IndexError)
    ensures Temp.EstimateLines([line]).Ok? && DurationSeconds(Temp.EstimateLines([line]).value) == Some(0)
  {
    Temp.EstimateOneLine(line, d);
  }

  /** An estimation file that cannot be read: M2's handler turns it into
      TypeError, Temp lets FileNotFoundError through. */
  lemma MissingEstimateFile(fs: FileSystem, folder: string, file: string)
    requires PathJoin(folder, file) !in fs.files
    ensures M2.TimeEstimation(fs, folder, file) == Err(TypeError)
    ensures Temp.TimeEstimation(fs, folder, file) == Err(FileNotFoundError)
  {
  }

  /** A job whose two times are equal: M2 leaves it out, Temp appends it;
      neither adds to the total. */
  lemma ZeroLengthDiffers(filled: Record, total: nat)
    requires Timed(filled) && JobDuration(filled) == Ok(Timedelta(0, 0)) && Temp.Percentage(filled).Ok?
    ensures M2.Close(filled, total) == Ok(Done(filled, total, false))
    ensures Temp.Close(filled, total).Ok? && Temp.Close(filled, total).value.kept
    ensures Temp.Close(filled, total).value.total == total
  {
    M2.ZeroLengthDropped(filled, total);
    Temp.ZeroLengthKept(filled, total);
  }

  /** Both slice counts given as integers `x` and `y` over a non-zero total
      `z`: M2 fails with TypeError, Temp gives their sum over the total. */
  lemma BothCountsDiffer(row: Record, c: string, i: string, t: string, x: int, y: int, z: int)
    requires "Conductor Slices" in row && row["Conductor Slices"] == Text(c) && c != ""
    requires "Insulator Slices" in row && row["Insulator Slices"] == Text(i) && i != ""
    requires "Total Slices" in row && row["Total Slices"] == Text(t)
    requires ParseInt(c) == Ok(x) && ParseInt(i) == Ok(y) && ParseInt(t) == Ok(z) && z != 0
    ensures M2.CalculatePercentage(row) == Err(TypeError)
    ensures Temp.Percentage(row) == Ok(Ratio(x + y, z))
  {
    assert M2.CalculatePercentage(row) == Err(TypeError) by {
      M2.PercentageOfText(row, c, i, t);
    }
    assert Temp.CountOf(row, "Conductor Slices") == Ok(x) by {
      Temp.CountOfText(row, "Conductor Slices", c);
    }
    assert Temp.CountOf(row, "Insulator Slices") == Ok(y) by {
      Temp.CountOfText(row, "Insulator Slices", i);
    }
    assert IntOf(Lookup(row, "Total Slices")) == Ok(z);
    Temp.PercentageOfSum(row, x, y, z);
  }

  /** Two archives and no recipe folder: M2 takes the recipe of the first,
      Temp the recipe of the last. */
  lemma RecipeDiffers(fs: FileSystem, folder: string, x: string, y: string, rx: string, ry: string, row: Record)
    requires Contains(x, ".pcbjc") && !Contains(x, "Recipe") && Contains(y, ".pcbjc") && !Contains(y, "Recipe")
    requires OpenArchive(fs, PathJoin(folder, x)) == Ok(Some(rx)) && OpenArchive(fs, PathJoin(folder, y)) == Ok(Some(ry))
    ensures M2.FindRecipeIn(fs, folder, [x, y]) == Ok(Some(rx))
    ensures Temp.RecipeFrom(fs, folder, [x, y], row).Ok? && Lookup(Temp.RecipeFrom(fs, folder, [x, y], row).value, "Recipe") == Text(ry)
  {
    Temp.RecipeLastWins(fs, folder, [x, y], row);
    assert Temp.LastArchive(fs, folder, [x, y], Lookup(row, "Recipe")) == Text(ry) by {
      assert [x, y][1..] == [y];
      assert Temp.LastArchive(fs, folder, [y], Text(rx)) == Text(ry);
    }
  }

  /** A job name holding '_' matches no folder: Temp skips the job, M2 goes
      on with the text 'Log file not found.' as a folder and its recipe
      search raises FileNotFoundError. */
  lemma UnderscoreDiffers(fs: FileSystem, folder: string, job: string)
    requires '_' in job && ListDir(fs, folder).Ok? && "Log file not found." !in fs.dirs
    ensures Temp.FolderLogPath(fs, folder, job) == ""
    ensures M2.FolderLogPath(fs, folder, job) == Ok("Log file not found.")
    ensures M2.FindRecipe(fs, "Log file not found.") == Err(FileNotFoundError)
  {
    Temp.FolderLogPathSkips(fs, folder, job);
    UnderscoreNeverMatches(ListDir(fs, folder).value, job);
  }
}
