/** What `DF-IV-resolution-changer/main.py` and `resolution_changer/main.py`
    share: the `key=value` calibration file read into a dict and written
    back, the 36/18 µm classification of the machine, the four-branch
    slice-thickness rule, and the module globals `read_resolution` leaves
    for the upgrade button. */
module Calibration {
  import opened Py

  const CiKey: string := "ConductorSliceThicknessInUMCoupon"
  const DiKey: string := "InsulatorSliceThicknessInUMCoupon"
  const CalibrationPath: string := "C:\\DragonFly\\Conf\\MachineCalibration.cfg"
  const StChangesPath: string := "C:\\DragonFly\\Conf\\ST_changes.cfg"

  // ---------------------------------------------------------------------------
  // The `data` dict

  /** A value held in `data`: the text read from the file, or the float a
      scaling step stores in its place. */
  datatype Value = Str(s: string) | Float(x: real)

  /** A Python dict: its keys in insertion order and the value of each. */
  datatype Dict = Dict(keys: seq<string>, vals: map<string, Value>)

  /** The keys are distinct and are exactly the keys of the map. */
  ghost predicate Valid(d: Dict)
  {
    (forall i, j :: 0 <= i < j < |d.keys| ==> d.keys[i] != d.keys[j]) &&
    (forall k :: k in d.vals <==> k in d.keys)
  }

  /** `data = {}` */
  function Empty(): (d: Dict)
    ensures Valid(d) && d.keys == []
  {
    Dict([], map[])
  }

  /** `data[k] = v`: a new key goes to the end, a key already present keeps
      its place; either way it now maps to `v` and no other key changes. */
  function Put(d: Dict, k: string, v: Value): (r: Dict)
    requires Valid(d)
    ensures Valid(r) && k in r.vals && r.vals[k] == v
    ensures forall j :: j != k ==> (j in r.vals <==> j in d.vals) && (j in d.vals ==> r.vals[j] == d.vals[j])
    ensures k in d.vals ==> r.keys == d.keys
    ensures k !in d.vals ==> r.keys == d.keys + [k]
  {
    if k in d.vals then Dict(d.keys, d.vals[k := v]) else Dict(d.keys + [k], d.vals[k := v])
  }

  /** Assigning a key twice is assigning it the later value once. */
  lemma PutLaterWins(d: Dict, k: string, a: Value, b: Value)
    requires Valid(d)
    ensures Put(Put(d, k, a), k, b) == Put(d, k, b)
  {
    assert d.vals[k := a][k := b] == d.vals[k := b];
  }

  /** `str(v)`; the text of a float is the parameter `show`. */
  function Render(v: Value, show: real -> string): string
  {
    match v
    case Str(s) => s
    case Float(x) => show(x)
  }

  /** `float(v)`: text goes through the parameter `toFloat`, which gives None
      where Python raises ValueError; a float is itself. */
  function FloatOf(v: Value, toFloat: string -> Option<real>): (r: Result<real>)
    ensures r.Err? ==> r.error == ValueError
  {
    match v
    case Str(s) => if toFloat(s).Some? then Ok(toFloat(s).value) else Err(ValueError)
    case Float(x) => Ok(x)
  }

  // ---------------------------------------------------------------------------
  // Reading and writing the calibration file

  /** One line of the file: a line that `strip()` empties is skipped; any
      other must split on '=' into exactly two parts, kept unstripped. */
  function ParseLine(line: string): (r: Result<Option<(string, string)>>)
    ensures r.Err? ==> r.error == ValueError
  {
    if IsBlank(line) then Ok(None)
    else
      var parts := Split(line, "=");
      if |parts| == 2 then Ok(Some((parts[0], parts[1]))) else Err(ValueError)
  }

  /** The parse loop from a dict already holding the earlier lines. */
  function ParseFrom(d: Dict, lines: seq<string>): (r: Result<Dict>)
    requires Valid(d)
    ensures r.Ok? ==> Valid(r.value)
    ensures r.Err? ==> r.error == ValueError
    decreases |lines|
  {
    if lines == [] then Ok(d)
    else
      match ParseLine(lines[0])
      case Err(e) => Err(e)
      case Ok(None) => ParseFrom(d, lines[1..])
      case Ok(Some((k, v))) => ParseFrom(Put(d, k, Str(v)), lines[1..])
  }

  /** The file's text split on '\n' and parsed line by line into `data`. */
  function ParseConfig(text: string): (r: Result<Dict>)
    ensures r.Ok? ==> Valid(r.value)
    ensures r.Err? ==> r.error == ValueError
  {
    ParseFrom(Empty(), Split(text, "\n"))
  }

  /** The loop both `read_resolution` and `upgrade_resolution` run. */
  method ReadConfig(text: string) returns (r: Result<Dict>)
    ensures r == ParseConfig(text)
  {
    var lines := Split(text, "\n");
    var data := Empty();
    for i := 0 to |lines|
      invariant Valid(data)
      invariant ParseFrom(data, lines[i..]) == ParseConfig(text)
    {
      assert lines[i..][1..] == lines[i + 1..];
      var line := lines[i];
      if !IsBlank(line) {
        var parts := Split(line, "=");
        if |parts| != 2 {
          return Err(ValueError);
        }
        data := Put(data, parts[0], Str(parts[1]));
      }
    }
    assert lines[|lines|..] == [];
    return Ok(data);
  }

  /** A non-blank line is accepted exactly when it holds one '=', and it is
      then its key, the '=' and its value, neither holding an '='. */
  lemma ParseLineShape(line: string)
    ensures ParseLine(line).Ok? <==> IsBlank(line) || multiset(line)['='] == 1
    ensures ParseLine(line).Ok? && ParseLine(line).value.Some? ==>
      var (k, v) := ParseLine(line).value.value;
      line == k + "=" + v && '=' !in k && '=' !in v
  {
    SplitCount(line, '=');
    SplitFree(line, '=');
    JoinSplit(line, '=');
    var parts := Split(line, "=");
    if |parts| == 2 {
      assert parts[1..] == [parts[1]];
    }
  }

  /** A `key=value` line whose key and value hold no '=' is read as that key
      and that value, whitespace included. */
  lemma ParseLineOf(k: string, v: string)
    requires '=' !in k && '=' !in v
    ensures ParseLine(k + "=" + v) == Ok(Some((k, v)))
  {
    var line := k + "=" + v;
    assert line[|k|] == '=' && !IsSpace('=');
    SplitPair(k, '=', v);
  }

  /** The parse fails, with ValueError, exactly when some line is neither
      blank nor a single `key=value` pair. */
  lemma {:induction false} ParseFails(d: Dict, lines: seq<string>)
    requires Valid(d)
    ensures ParseFrom(d, lines).Err? <==> exists i :: 0 <= i < |lines| && ParseLine(lines[i]).Err?
    decreases |lines|
  {
    if lines != [] {
      var first := ParseLine(lines[0]);
      if first.Ok? {
        var next := if first.value.Some? then Put(d, first.value.value.0, Str(first.value.value.1)) else d;
        assert ParseFrom(d, lines) == ParseFrom(next, lines[1..]);
        ParseFails(next, lines[1..]);
        ShiftFails(lines);
      }
    }
  }

  lemma ShiftFails(lines: seq<string>)
    requires lines != [] && ParseLine(lines[0]).Ok?
    ensures (exists i :: 0 <= i < |lines| && ParseLine(lines[i]).Err?) <==>
            (exists i :: 0 <= i < |lines| - 1 && ParseLine(lines[1..][i]).Err?)
  {
    if exists i :: 0 <= i < |lines| && ParseLine(lines[i]).Err? {
      var i :| 0 <= i < |lines| && ParseLine(lines[i]).Err?;
      assert lines[1..][i - 1] == lines[i];
    }
    if exists i :: 0 <= i < |lines| - 1 && ParseLine(lines[1..][i]).Err? {
      var i :| 0 <= i < |lines| - 1 && ParseLine(lines[1..][i]).Err?;
      assert lines[i + 1] == lines[1..][i];
    }
  }

  /** A line read after the others overrides what they said about its key:
      the result is the earlier dict with that one assignment. */
  lemma {:induction false} ParseLater(d: Dict, lines: seq<string>, line: string, k: string, v: string)
    requires Valid(d) && ParseFrom(d, lines).Ok? && ParseLine(line) == Ok(Some((k, v)))
    ensures ParseFrom(d, lines + [line]) == Ok(Put(ParseFrom(d, lines).value, k, Str(v)))
    decreases |lines|
  {
    if lines == [] {
      assert [line][1..] == [];
    } else {
      assert (lines + [line])[0] == lines[0] && (lines + [line])[1..] == lines[1..] + [line];
      var first := ParseLine(lines[0]);
      var next := if first.value.Some? then Put(d, first.value.value.0, Str(first.value.value.1)) else d;
      assert ParseFrom(d, lines) == ParseFrom(next, lines[1..]);
      assert ParseFrom(d, lines + [line]) == ParseFrom(next, lines[1..] + [line]);
      ParseLater(next, lines[1..], line, k, v);
    }
  }

  /** The lines `f"{key}={value}"` of the dict's items, in order. */
  function Lines(keys: seq<string>, vals: map<string, Value>, show: real -> string): (ls: seq<string>)
    requires forall k :: k in keys ==> k in vals
    ensures |ls| == |keys|
    ensures forall i :: 0 <= i < |keys| ==> ls[i] == keys[i] + "=" + Render(vals[keys[i]], show)
  {
    if keys == [] then [] else [keys[0] + "=" + Render(vals[keys[0]], show)] + Lines(keys[1..], vals, show)
  }

  /** `'\n'.join(f"{key}={value}" for key, value in data.items())` */
  function Serialise(d: Dict, show: real -> string): string
    requires Valid(d)
  {
    Join("\n", Lines(d.keys, d.vals, show))
  }

  /** What reading a written dict back gives: the same keys in the same
      order, each value as the text it was written as. */
  function Stringify(d: Dict, show: real -> string): (r: Dict)
    requires Valid(d)
    ensures Valid(r) && r.keys == d.keys
    ensures forall k :: k in d.vals ==> r.vals[k] == Str(Render(d.vals[k], show))
  {
    Dict(d.keys, map k | k in d.vals :: Str(Render(d.vals[k], show)))
  }

  /** Keys and the text of values that the file format can carry: no '=' and
      no line break. */
  predicate Writable(d: Dict, show: real -> string)
  {
    forall k :: k in d.vals ==>
      '=' !in k && '\n' !in k && '=' !in Render(d.vals[k], show) && '\n' !in Render(d.vals[k], show)
  }

  /** The dict of the first `i` keys, as read back. */
  function Prefix(d: Dict, show: real -> string, i: nat): (r: Dict)
    requires Valid(d) && i <= |d.keys|
    ensures Valid(r)
  {
    var ks := d.keys[..i];
    assert forall a, b :: 0 <= a < b < |ks| ==> ks[a] == d.keys[a] && ks[b] == d.keys[b];
    Dict(ks, map k | k in ks :: Str(Render(d.vals[k], show)))
  }

  lemma PrefixStep(d: Dict, show: real -> string, i: nat)
    requires Valid(d) && i < |d.keys|
    ensures Put(Prefix(d, show, i), d.keys[i], Str(Render(d.vals[d.keys[i]], show))) == Prefix(d, show, i + 1)
  {
    var k := d.keys[i];
    assert k !in d.keys[..i];
    assert d.keys[..i] + [k] == d.keys[..i + 1];
    var p := Prefix(d, show, i);
    assert p.vals[k := Str(Render(d.vals[k], show))] == Prefix(d, show, i + 1).vals;
  }

  /** Reading back the lines of keys `i` onwards, after the first `i`. */
  lemma {:induction false} ParseRest(d: Dict, show: real -> string, i: nat)
    requires Valid(d) && Writable(d, show) && i <= |d.keys|
    ensures ParseFrom(Prefix(d, show, i), Lines(d.keys[i..], d.vals, show)) == Ok(Stringify(d, show))
    decreases |d.keys| - i
  {
    var ls := Lines(d.keys[i..], d.vals, show);
    if i == |d.keys| {
      assert d.keys[..i] == d.keys;
      assert Prefix(d, show, i) == Stringify(d, show);
    } else {
      var k := d.keys[i];
      var v := Render(d.vals[k], show);
      assert ls[0] == k + "=" + v;
      ParseLineOf(k, v);
      PrefixStep(d, show, i);
      assert d.keys[i..][1..] == d.keys[i + 1..];
      assert ls[1..] == Lines(d.keys[i + 1..], d.vals, show);
      ParseRest(d, show, i + 1);
    }
  }

  /** Writing a dict and reading the file back gives the same keys in the
      same order, each with the text it was written as. */
  lemma RoundTrip(d: Dict, show: real -> string)
    requires Valid(d) && Writable(d, show)
    ensures ParseConfig(Serialise(d, show)) == Ok(Stringify(d, show))
  {
    if d.keys == [] {
      EmptyTrip(d, show);
    } else {
      SerialisedLines(d, show);
      ParseAll(d, show);
    }
  }

  lemma EmptyTrip(d: Dict, show: real -> string)
    requires Valid(d) && d.keys == []
    ensures ParseConfig(Serialise(d, show)) == Ok(Stringify(d, show))
  {
    assert Serialise(d, show) == "";
    assert Split("", "\n") == [""];
    assert IsBlank("");
    assert Stringify(d, show) == Empty();
  }

  lemma SerialisedLines(d: Dict, show: real -> string)
    requires Valid(d) && Writable(d, show) && d.keys != []
    ensures Split(Serialise(d, show), "\n") == Lines(d.keys, d.vals, show)
  {
    var ls := Lines(d.keys, d.vals, show);
    assert forall j :: 0 <= j < |ls| ==> '\n' !in ls[j];
    SplitJoin(ls, '\n');
  }

  lemma ParseAll(d: Dict, show: real -> string)
    requires Valid(d) && Writable(d, show)
    ensures ParseFrom(Empty(), Lines(d.keys, d.vals, show)) == Ok(Stringify(d, show))
  {
    assert Prefix(d, show, 0) == Empty();
    assert d.keys[0..] == d.keys;
    ParseRest(d, show, 0);
  }

  /** A dict of text values reads back as itself. */
  lemma StringifyText(d: Dict, show: real -> string)
    requires Valid(d) && forall k :: k in d.vals ==> d.vals[k].Str?
    ensures Stringify(d, show) == d
  {
    assert Stringify(d, show).vals == d.vals;
  }

  /** What a parse produces can be written back: its values are text free
      of '=' and line breaks, and so are its keys. */
  predicate Parsed(d: Dict)
  {
    forall k :: k in d.vals ==>
      d.vals[k].Str? && '=' !in k && '\n' !in k && '=' !in d.vals[k].s && '\n' !in d.vals[k].s
  }

  lemma {:induction false} ParseFromParsed(d: Dict, lines: seq<string>)
    requires Valid(d) && Parsed(d) && forall j :: 0 <= j < |lines| ==> '\n' !in lines[j]
    requires ParseFrom(d, lines).Ok?
    ensures Parsed(ParseFrom(d, lines).value)
    decreases |lines|
  {
    if lines != [] {
      ParseLineShape(lines[0]);
      var first := ParseLine(lines[0]);
      var next := if first.value.Some? then Put(d, first.value.value.0, Str(first.value.value.1)) else d;
      assert ParseFrom(d, lines) == ParseFrom(next, lines[1..]);
      assert forall j :: 0 <= j < |lines| - 1 ==> lines[1..][j] == lines[j + 1];
      ParseFromParsed(next, lines[1..]);
    }
  }

  /** Every dict read from a file holds text values, and keys and values
      without '=' or line breaks. */
  lemma ParsedConfig(text: string)
    requires ParseConfig(text).Ok?
    ensures Parsed(ParseConfig(text).value)
  {
    SplitFree(text, '\n');
    ParseFromParsed(Empty(), Split(text, "\n"));
  }

  // ---------------------------------------------------------------------------
  // The machine and the decision

  /** `'36' if data[...] < '1' else '18'` on the coupon thickness text. */
  function MachineResolution(ci: string): string
  {
    if LexLess(ci, "1") then "36" else "18"
  }

  /** The text is below "1" exactly when it is empty or starts with a
      character before '1' (".9", "0.4"); "10" or "1.5" read as 18. */
  lemma MachineResolution36(ci: string)
    ensures MachineResolution(ci) == "36" <==> ci == [] || ci[0] < '1'
  {
    if ci != [] && ci[0] == '1' {
      assert !LexLess(ci[1..], "1"[1..]);
    }
  }

  /** The four branches of `upgrade_resolution`, in the order they are
      tested. */
  datatype Branch = Keep36 | Up18 | Keep18 | Down36

  /** Which branch a coupon thickness and a project print-axis resolution
      select; None is the final `else: return`. */
  function Decide(t: real, axis: real): Option<Branch>
  {
    if t < 0.8 && axis == 36.0 then Some(Keep36)
    else if t < 0.8 && axis == 18.0 then Some(Up18)
    else if t > 0.8 && axis == 18.0 then Some(Keep18)
    else if t > 0.8 && axis == 36.0 then Some(Down36)
    else None
  }

  /** The branches as conditions: some branch runs exactly when the thickness
      is not 0.8 and the axis is 18 or 36; it scales up for a thin coupon
      on an 18 µm project and down for a thick one on a 36 µm project. */
  lemma DecideCases(t: real, axis: real)
    ensures Decide(t, axis).Some? <==> t != 0.8 && (axis == 18.0 || axis == 36.0)
    ensures Decide(t, axis) == Some(Up18) <==> t < 0.8 && axis == 18.0
    ensures Decide(t, axis) == Some(Down36) <==> t > 0.8 && axis == 36.0
    ensures Decide(t, axis) == Some(Keep36) <==> t < 0.8 && axis == 36.0
    ensures Decide(t, axis) == Some(Keep18) <==> t > 0.8 && axis == 18.0
  {
  }

  /** The branch tests evaluated as Python does: each reads the thickness
      first, and `ci_resolution['PrintAxis']` only when the thickness test
      holds, so a thickness of exactly 0.8 never looks at the axis. */
  function Branching(t: real, axis: Result<real>): (r: Result<Option<Branch>>)
    ensures t == 0.8 ==> r == Ok(None)
    ensures t != 0.8 && axis.Err? ==> r == Err(axis.error)
    ensures axis.Ok? ==> r == Ok(Decide(t, axis.value))
  {
    if t == 0.8 then Ok(None)
    else
      match axis
      case Err(e) => Err(e)
      case Ok(a) => Ok(Decide(t, a))
  }

  /** A scaling branch multiplies by 4 on the way to 18 µm and divides by 4
      on the way to 36 µm; the other branches keep the value. */
  function Scale(x: real, b: Branch): real
  {
    match b
    case Up18 => x * 4.0
    case Down36 => x / 4.0
    case _ => x
  }

  predicate Scales(b: Branch)
  {
    b == Up18 || b == Down36
  }

  /** What an upgrade does to the files: nothing (`return`), or the dict to
      write back and, for a scaling branch, the text appended to the
      ST_changes log. */
  datatype Plan = NoWrite | Rewrite(data: Dict, note: Option<string>)

  /** The files once a plan is carried out: for a note, the ST_changes log
      opened for appending (created when missing) and the note added; then,
      for any rewrite, the calibration file at `p` replaced by the dict. */
  function Carry(files: map<string, string>, p: string, plan: Plan, show: real -> string): (r: map<string, string>)
    requires plan.Rewrite? ==> Valid(plan.data)
    ensures p in files ==> p in r
  {
    match plan
    case NoWrite => files
    case Rewrite(data, note) =>
      var logged :=
        (match note
         case None => files
         case Some(n) => files[StChangesPath := (if StChangesPath in files then files[StChangesPath] else "") + n]);
      logged[p := Serialise(data, show)]
  }

  /** What carrying out a plan leaves in the two files. */
  lemma CarryFiles(files: map<string, string>, plan: Plan, show: real -> string)
    requires plan.Rewrite? ==> Valid(plan.data)
    ensures var after := Carry(files, CalibrationPath, plan, show);
      (plan.NoWrite? ==> after == files) &&
      (plan.Rewrite? ==> after[CalibrationPath] == Serialise(plan.data, show)) &&
      (plan.Rewrite? && plan.note.Some? ==>
         after[StChangesPath] == (if StChangesPath in files then files[StChangesPath] else "") + plan.note.value) &&
      ((plan.NoWrite? || plan.note.None?) ==>
         (StChangesPath in after <==> StChangesPath in files) &&
         (StChangesPath in files ==> after[StChangesPath] == files[StChangesPath])) &&
      forall q :: q != CalibrationPath && q != StChangesPath ==> (q in after <==> q in files) && (q in files ==> after[q] == files[q])
  {
  }

  /** A parsed dict can be written back and reads back as itself. */
  lemma ParsedWrites(d: Dict, show: real -> string)
    requires Valid(d) && Parsed(d)
    ensures Writable(d, show) && Stringify(d, show) == d
  {
    StringifyText(d, show);
  }

  /** A parsed dict with the two coupon thicknesses replaced by floats whose
      text is clean can be written back, and reads back with the two
      thicknesses as that text. */
  lemma ReplacedWrites(d: Dict, ci: real, di: real, show: real -> string)
    requires Valid(d) && Parsed(d) && CiKey in d.vals && DiKey in d.vals
    requires '=' !in show(ci) && '\n' !in show(ci) && '=' !in show(di) && '\n' !in show(di)
    ensures Valid(Dict(d.keys, d.vals[CiKey := Float(ci)][DiKey := Float(di)]))
    ensures Writable(Dict(d.keys, d.vals[CiKey := Float(ci)][DiKey := Float(di)]), show)
    ensures Stringify(Dict(d.keys, d.vals[CiKey := Float(ci)][DiKey := Float(di)]), show) ==
      Dict(d.keys, d.vals[CiKey := Str(show(ci))][DiKey := Str(show(di))])
  {
    var d2 := Dict(d.keys, d.vals[CiKey := Float(ci)][DiKey := Float(di)]);
    var want := d.vals[CiKey := Str(show(ci))][DiKey := Str(show(di))];
    assert Valid(d2);
    var back := Stringify(d2, show);
    forall k | k in d2.vals
      ensures '=' !in k && '\n' !in k && '=' !in Render(d2.vals[k], show) && '\n' !in Render(d2.vals[k], show)
      ensures back.vals[k] == want[k]
    {
      assert k in d.vals;
      if k != CiKey && k != DiKey {
        assert d2.vals[k] == d.vals[k] && want[k] == d.vals[k];
      }
    }
    assert back.vals == want;
  }

  /** Writing a key again overrides the first write. */
  lemma UpdateOnce(m: map<string, Value>, k: string, a: Value, c: Value)
    ensures m[k := a][k := c] == m[k := c]
  {
  }

  /** Writing the same two keys again overrides the first writes. */
  lemma UpdateTwice(m: map<string, Value>, k1: string, k2: string, a: Value, b: Value, c: Value, e: Value)
    ensures m[k1 := a][k2 := b][k1 := c][k2 := e] == m[k1 := c][k2 := e]
  {
  }

  /** A rewritten file whose keys and values the format can carry reads back
      as the dict with every value turned to text. */
  lemma CarryReadsBack(files: map<string, string>, p: string, plan: Plan, show: real -> string)
    requires plan.Rewrite? && Valid(plan.data) && Writable(plan.data, show)
    ensures ParseConfig(Carry(files, p, plan, show)[p]) == Ok(Stringify(plan.data, show))
  {
    RoundTrip(plan.data, show);
  }

  // ---------------------------------------------------------------------------
  // The module globals and `read_resolution`

  /** `ResolutionInUM` of a separation: the value of each axis. */
  type Resolution = map<string, real>

  /** The module globals: None until first assigned. */
  datatype Globals = Globals(ci: Option<Resolution>, di: Option<Resolution>, path: Option<string>, machine: Option<string>)

  /** How a button handler ends: normally, in the `except KeyError` handler,
      or with an exception that escapes. */
  datatype Finish = Completed | Caught | Raised(error: Error)

  /** `ci_resolution['PrintAxis']`: NameError before `read_resolution` ever
      assigned it, KeyError when the axis is missing. */
  function Axis(g: Globals): (r: Result<real>)
    ensures r.Err? ==> r.error in {NameError, KeyError}
  {
    match g.ci
    case None => Err(NameError)
    case Some(res) => if "PrintAxis" in res then Ok(res["PrintAxis"]) else Err(KeyError)
  }

  /** `read_resolution`: the project's separations (None where one has no
      `ResolutionInUM`, Err when the archive cannot be read) and the files
      give the new globals; each global keeps what the steps before the
      first exception assigned. A KeyError from opening `pcbj.info` reaches
      the handler before `data` is bound, so its `return data` raises
      UnboundLocalError instead: no KeyError ever leaves the function. */
  function ReadSpec(g: Globals, files: map<string, string>, project: Result<seq<Option<Resolution>>>): (r: (Globals, Finish))
    ensures r.1 == Completed ==> r.0.path == Some(CalibrationPath) && r.0.ci.Some? && "PrintAxis" in r.0.ci.value
    ensures r.1 == Completed ==> CalibrationPath in files && ParseConfig(files[CalibrationPath]).Ok?
    ensures r.1 != Completed ==> r.0.machine == g.machine
    ensures g.path.Some? ==> r.0.path == g.path || r.0.path == Some(CalibrationPath)
    ensures r.1 != Raised(KeyError)
    ensures project == Err(KeyError) ==> r == (g, Raised(UnboundLocalError))
  {
    match project
    case Err(e) => (g, Raised(if e == KeyError then UnboundLocalError else e))
    case Ok(seps) =>
      if |seps| == 0 then (g, Raised(IndexError))
      else if seps[0].None? then (g, Caught)
      else
        var g1 := g.(ci := seps[0]);
        if |seps| < 2 then (g1, Raised(IndexError))
        else if seps[1].None? then (g1, Caught)
        else
          var g2 := g1.(di := seps[1]);
          if "PrintAxis" !in seps[0].value then (g2, Caught)
          else
            var g3 := g2.(path := Some(CalibrationPath));
            if CalibrationPath !in files then (g3, Raised(FileNotFoundError))
            else
              match ParseConfig(files[CalibrationPath])
              case Err(e) => (g3, Raised(e))
              case Ok(data) =>
                if CiKey !in data.vals then (g3, Caught)
                else
                  match data.vals[CiKey]
                  case Float(_) => (g3, Raised(TypeError))
                  case Str(s) => (g3.(machine := Some(MachineResolution(s))), Completed)
  }

  /** When `read_resolution` completes, the machine is classified from the
      coupon thickness text of the calibration file: 36 exactly when that
      text is empty or starts below '1'. */
  lemma ReadClassifies(g: Globals, files: map<string, string>, project: Result<seq<Option<Resolution>>>)
    requires ReadSpec(g, files, project).1 == Completed
    ensures var data := ParseConfig(files[CalibrationPath]).value;
      CiKey in data.vals && data.vals[CiKey].Str? &&
      ReadSpec(g, files, project).0.machine == Some(MachineResolution(data.vals[CiKey].s)) &&
      (ReadSpec(g, files, project).0.machine == Some("36") <==> data.vals[CiKey].s == [] || data.vals[CiKey].s[0] < '1')
  {
    var data := ParseConfig(files[CalibrationPath]).value;
    MachineResolution36(data.vals[CiKey].s);
  }

  /** The globals of one resolution changer, and the files it reads and
      writes. */
  class Session {
    var files: map<string, string>
    var ci: Option<Resolution>
    var di: Option<Resolution>
    var path: Option<string>
    var machine: Option<string>

    function State(): Globals
      reads this
    {
      Globals(ci, di, path, machine)
    }

    /** `path` is only ever assigned the calibration file's path. */
    predicate Valid()
      reads this
    {
      path.Some? ==> path.value == CalibrationPath
    }

    /** The application starts with no global assigned. */
    constructor (files0: map<string, string>)
      ensures Valid() && files == files0
      ensures ci.None? && di.None? && path.None? && machine.None?
    {
      files := files0;
      ci, di, path, machine := None, None, None, None;
    }

    /** `read_resolution`, step by step. */
    method ReadResolution(project: Result<seq<Option<Resolution>>>) returns (r: Finish)
      requires Valid()
      modifies this
      ensures Valid() && files == old(files)
      ensures (State(), r) == ReadSpec(old(State()), files, project)
    {
      if project.Err? {
        return Raised(if project.error == KeyError then UnboundLocalError else project.error);
      }
      var seps := project.value;
      if |seps| == 0 {
        return Raised(IndexError);
      }
      if seps[0].None? {
        return Caught;
      }
      ci := seps[0];
      if |seps| < 2 {
        return Raised(IndexError);
      }
      if seps[1].None? {
        return Caught;
      }
      di := seps[1];
      if "PrintAxis" !in seps[0].value {
        return Caught;
      }
      path := Some(CalibrationPath);
      if CalibrationPath !in files {
        return Raised(FileNotFoundError);
      }
      var data := ReadConfig(files[CalibrationPath]);
      if data.Err? {
        return Raised(data.error);
      }
      if CiKey !in data.value.vals {
        return Caught;
      }
      var v := data.value.vals[CiKey];
      if v.Float? {
        return Raised(TypeError);
      }
      machine := Some(MachineResolution(v.s));
      return Completed;
    }
  }
}
