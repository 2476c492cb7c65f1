/** The loop both print-log loggers run over the log files: the state it
    carries from one file to the next, what one job may do to it, and the
    summary row written over the last job's row afterwards. */
module Jobs {
  import opened Py
  import opened Clock
  import opened LogScan

  /** How a job ends: its row, the new total, and whether it was appended. */
  datatype Done = Done(row: Record, total: nat, kept: bool)

  /** The row with its Percentage and its 'Time spent' written. */
  function Stamped(filled: Record, p: real, td: Timedelta): (r: Record)
    requires Normal(td)
    ensures Lookup(r, "Percentage") == Percent(p) && Lookup(r, "Time spent") == Text(TimedeltaStr(td))
    ensures forall k :: k != "Percentage" && k != "Time spent" ==> Lookup(r, k) == Lookup(filled, k)
  {
    filled["Percentage" := Percent(p)]["Time spent" := Text(TimedeltaStr(td))]
  }

  /** What the loop carries from one log file to the next: the global `log`,
      `total_time`, the lines `f` last read, the last `log_dict` and whether it
      was appended. */
  datatype Scan = Scan(log: seq<Record>, total: nat, lines: Option<seq<string>>, last: Option<Record>, kept: bool)

  datatype Step = Next(scan: Scan) | Crash(error: Error)

  /** `open(...).readlines()`; on FileNotFoundError the previous lines stay. */
  function FileLines(fs: FileSystem, filename: string, lines: Option<seq<string>>): Option<seq<string>>
  {
    match ReadLines(fs, PathJoin(PrintLogs, filename))
    case Ok(ls) => Some(ls)
    case Err(_) => lines
  }

  /** The loop over the log files with `body` as one iteration: the state
      after the files, and the exception that stopped it. */
  function Loop(body: (Scan, string) -> Step, files: seq<string>, sc: Scan): (Scan, Option<Error>)
    decreases |files|
  {
    if files == [] then (sc, None)
    else
      match body(sc, files[0])
      case Crash(e) => (sc, Some(e))
      case Next(sc') => Loop(body, files[1..], sc')
  }

  /** The last `log_dict` is the last row of `log` when it was appended. */
  predicate Aliased(sc: Scan)
  {
    sc.kept ==> sc.last.Some? && |sc.log| > 0 && sc.log[|sc.log| - 1] == sc.last.value
  }

  /** What one iteration may do to the loop state: append at most the row it
      built, one satisfying `kept`, while the total grows by that row's `inc`,
      and leave the rest alone. */
  predicate Appends(sc: Scan, n: Scan, kept: Record -> bool, inc: Record -> nat)
  {
    Aliased(n) && n.last.Some? &&
    (n.kept ==> n.log == sc.log + [n.last.value] && kept(n.last.value)) &&
    (!n.kept ==> n.log == sc.log) &&
    n.total == sc.total + (if n.kept then inc(n.last.value) else 0)
  }

  /** The state after one job whose outcome is `d`: its row appended when it
      is kept, and in any case the new `log_dict`, total and lines. */
  function After(sc: Scan, d: Done, lines: Option<seq<string>>): Scan
  {
    Scan(if d.kept then sc.log + [d.row] else sc.log, d.total, lines, Some(d.row), d.kept)
  }

  /** A job outcome that keeps only a row satisfying `kept` and adds that
      row's `inc` to the total, and adds nothing when it keeps no row. */
  predicate Grows(d: Done, total: nat, kept: Record -> bool, inc: Record -> nat)
  {
    (d.kept ==> kept(d.row) && d.total == total + inc(d.row)) && (!d.kept ==> d.total == total)
  }

  lemma AfterAppends(sc: Scan, d: Done, lines: Option<seq<string>>, kept: Record -> bool, inc: Record -> nat)
    requires Grows(d, sc.total, kept, inc)
    ensures Appends(sc, After(sc, d, lines), kept, inc)
  {
  }

  /** The sum of `inc` over a list of rows. */
  function SumOf(inc: Record -> nat, rows: seq<Record>): nat
  {
    if rows == [] then 0 else inc(rows[0]) + SumOf(inc, rows[1..])
  }

  /** The loop's effect on the state when every iteration only appends. */
  predicate Appended(sc: Scan, sc': Scan, kept: Record -> bool, inc: Record -> nat)
  {
    Aliased(sc') && |sc.log| <= |sc'.log| && sc'.log[..|sc.log|] == sc.log &&
    (sc'.kept ==> sc.kept || |sc.log| < |sc'.log|) &&
    (forall k :: |sc.log| <= k < |sc'.log| ==> kept(sc'.log[k])) &&
    sc'.total == sc.total + SumOf(inc, sc'.log[|sc.log|..])
  }

  /** A loop whose every iteration only appends only appends. */
  lemma {:induction false} LoopAppends(body: (Scan, string) -> Step, files: seq<string>, sc: Scan,
                                       kept: Record -> bool, inc: Record -> nat)
    requires forall s, f :: body(s, f).Next? ==> Appends(s, body(s, f).scan, kept, inc)
    requires Aliased(sc)
    ensures Appended(sc, Loop(body, files, sc).0, kept, inc)
    decreases |files|
  {
    if files == [] {
      assert sc.log[..|sc.log|] == sc.log;
      assert sc.log[|sc.log|..] == [];
    } else if body(sc, files[0]).Next? {
      var mid := body(sc, files[0]).scan;
      LoopAppends(body, files[1..], mid, kept, inc);
      var sc' := Loop(body, files[1..], mid).0;
      var later := sc'.log[|mid.log|..];
      if mid.kept {
        assert sc'.log[..|sc.log|] == mid.log[..|sc.log|];
        assert sc'.log[|sc.log|..] == [mid.last.value] + later;
        assert ([mid.last.value] + later)[1..] == later;
      } else {
        assert sc'.log[|sc.log|..] == later;
      }
    }
  }

  /** `log` after the summary loop has overwritten the last `log_dict`: when
      that dictionary is the last row of `log`, that row becomes the summary. */
  function Overwritten(sc: Scan, summary: Record): seq<Record>
  {
    if sc.kept && |sc.log| > 0 then sc.log[..|sc.log| - 1] + [summary] else sc.log
  }

  /** After a loop that only appends: the rows `log` held before stay, the
      rows appended before the last one satisfy `kept`, and the summary takes
      the place of the last row exactly when the last job was appended. */
  lemma OverwrittenRows(log0: seq<Record>, sc: Scan, summary: Record, kept: Record -> bool, inc: Record -> nat)
    requires Appended(Scan(log0, 0, None, None, false), sc, kept, inc)
    ensures var log := Overwritten(sc, summary);
      |log| == |sc.log| && log[..|log0|] == log0 &&
      (forall k :: |log0| <= k < |log| - (if sc.kept then 1 else 0) ==> kept(log[k])) &&
      (!sc.kept ==> log == sc.log) &&
      (sc.kept ==> |log0| < |log| && log[|log| - 1] == summary)
  {
    if sc.kept {
      var n := |sc.log|;
      var log := Overwritten(sc, summary);
      assert log[..n - 1] == sc.log[..n - 1];
      assert log[..|log0|] == sc.log[..n - 1][..|log0|] == sc.log[..|log0|];
    }
  }
}
