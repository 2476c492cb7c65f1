/** `upgrade_resolution` of `resolution_changer/main.py`: a scaling branch
    changes only the conductor coupon thickness and logs the change on one
    line; the insulator thickness is neither read nor written. */
module ResolutionCI {
  import opened Py
  import opened Calibration
  import DF4 = ResolutionDF4

  /** The ST_changes line; both scaling branches write no space before
      "changed to" and name no layer. */
  function Note(now: string, before: string, after: string): string
  {
    "\nOn " + now + " changed from " + before + "changed to " + after
  }

  /** The decision on a parsed file: KeyError without the conductor key,
      ValueError when its value is not a number, the axis lookup's error
      when the branch tests reach it; otherwise no write, the dict written
      back as it is, or the conductor thickness scaled with a one-line
      note. */
  function UpgradeData(d: Dict, axis: Result<real>, now: string, toFloat: string -> Option<real>, show: real -> string): (r: Result<Plan>)
    requires Valid(d)
    ensures r.Ok? && r.value.Rewrite? ==> Valid(r.value.data)
  {
    if CiKey !in d.vals then Err(KeyError)
    else
      var oldCi := d.vals[CiKey];
      match FloatOf(oldCi, toFloat)
      case Err(e) => Err(e)
      case Ok(t) =>
        match Branching(t, axis)
        case Err(e) => Err(e)
        case Ok(None) => Ok(NoWrite)
        case Ok(Some(b)) =>
          if !Scales(b) then Ok(Rewrite(d, None))
          else
            var ci := Scale(t, b);
            Ok(Rewrite(Put(d, CiKey, Float(ci)), Some(Note(now, Render(oldCi, show), show(ci)))))
  }

  /** `upgrade_resolution`: the files afterwards and how it ended. The
      globals are only read. */
  function UpgradeSpec(g: Globals, files: map<string, string>, now: string, toFloat: string -> Option<real>, show: real -> string): (r: (map<string, string>, Finish))
    ensures r.1 != Completed ==> r.0 == files
    ensures r.1 == Completed ==> g.path.Some? && g.path.value in files && g.path.value in r.0
  {
    match g.path
    case None => (files, Raised(NameError))
    case Some(p) =>
      if p !in files then (files, Raised(FileNotFoundError))
      else
        match ParseConfig(files[p])
        case Err(e) => (files, Raised(e))
        case Ok(d) =>
          match UpgradeData(d, Axis(g), now, toFloat, show)
          case Err(e) => (files, Raised(e))
          case Ok(plan) => (Carry(files, p, plan, show), Completed)
  }

  /** `upgrade_resolution`, step by step: `now` is the clock's reading, as
      `strftime` formats it. */
  method UpgradeResolution(s: Session, now: string, toFloat: string -> Option<real>, show: real -> string) returns (r: Finish)
    requires s.Valid()
    modifies s
    ensures s.Valid() && s.State() == old(s.State())
    ensures (s.files, r) == UpgradeSpec(old(s.State()), old(s.files), now, toFloat, show)
  {
    ghost var spec := UpgradeSpec(s.State(), s.files, now, toFloat, show);
    if s.path.None? {
      return Raised(NameError);
    }
    var p := s.path.value;
    if p !in s.files {
      return Raised(FileNotFoundError);
    }
    var parsed := ReadConfig(s.files[p]);
    if parsed.Err? {
      return Raised(parsed.error);
    }
    var data := parsed.value;
    ghost var d0 := data;
    var axis := Axis(s.State());
    ghost var planned := UpgradeData(d0, axis, now, toFloat, show);
    assert spec == if planned.Err? then (s.files, Raised(planned.error)) else (Carry(s.files, p, planned.value, show), Completed);
    if CiKey !in data.vals {
      return Raised(KeyError);
    }
    var oldCi := data.vals[CiKey];
    var t := FloatOf(oldCi, toFloat);
    if t.Err? {
      return Raised(t.error);
    }
    var b: Branch;
    if t.value < 0.8 {
      if axis.Err? {
        return Raised(axis.error);
      }
      if axis.value == 36.0 {
        b := Keep36;
      } else if axis.value == 18.0 {
        b := Up18;
      } else {
        return Completed;
      }
    } else if t.value > 0.8 {
      if axis.Err? {
        return Raised(axis.error);
      }
      if axis.value == 18.0 {
        b := Keep18;
      } else if axis.value == 36.0 {
        b := Down36;
      } else {
        return Completed;
      }
    } else {
      return Completed;
    }
    assert Branching(t.value, axis) == Ok(Some(b));
    if b == Up18 || b == Down36 {
      var ci := Scale(t.value, b);
      data := Put(data, CiKey, Float(ci));
      var note := Note(now, Render(oldCi, show), show(ci));
      assert planned == Ok(Rewrite(data, Some(note)));
      var log := if StChangesPath in s.files then s.files[StChangesPath] else "";
      s.files := s.files[StChangesPath := log + note];
    } else {
      assert planned == Ok(Rewrite(data, None));
    }
    s.files := s.files[p := Serialise(data, show)];
    return Completed;
  }

  // ---------------------------------------------------------------------------
  // Properties of the decision

  /** With the conductor thickness readable and the axis known: the file is
      rewritten exactly when the thickness is not 0.8 and the axis is 18 or
      36, and a note is logged exactly when the thickness is on the wrong
      side of 0.8 for the axis. */
  lemma UpgradeWhen(d: Dict, a: real, now: string, toFloat: string -> Option<real>, show: real -> string, t: real)
    requires Valid(d) && CiKey in d.vals && FloatOf(d.vals[CiKey], toFloat) == Ok(t)
    ensures var r := UpgradeData(d, Ok(a), now, toFloat, show);
      r.Ok? && (r.value.Rewrite? <==> t != 0.8 && (a == 18.0 || a == 36.0)) &&
      (r.value.Rewrite? ==> (r.value.note.Some? <==> (t < 0.8 && a == 18.0) || (t > 0.8 && a == 36.0)))
  {
    DecideCases(t, a);
  }

  /** The dict written back keeps its keys in their order and every value
      but the conductor thickness; a scaling branch replaces that by its
      scaled float and logs one line with the old text and the new value. */
  lemma UpgradeValues(d: Dict, a: real, now: string, toFloat: string -> Option<real>, show: real -> string, t: real, b: Branch)
    requires Valid(d) && CiKey in d.vals && FloatOf(d.vals[CiKey], toFloat) == Ok(t)
    requires Decide(t, a) == Some(b)
    ensures var r := UpgradeData(d, Ok(a), now, toFloat, show);
      r.Ok? && r.value.Rewrite? && r.value.data.keys == d.keys &&
      r.value.data.vals == (if Scales(b) then d.vals[CiKey := Float(Scale(t, b))] else d.vals) &&
      r.value.note == (if Scales(b) then Some(Note(now, Render(d.vals[CiKey], show), show(Scale(t, b)))) else None)
  {
    if Scales(b) {
      var d2 := Put(d, CiKey, Float(Scale(t, b)));
      assert d2.vals == d.vals[CiKey := Float(Scale(t, b))];
    }
  }

  /** The failures: KeyError without the conductor key, whatever else the
      file holds, then ValueError when its value is not a number; a
      thickness of exactly 0.8 ends the call before the axis is looked up,
      any other meets the lookup's error. */
  lemma UpgradeErrors(d: Dict, axis: Result<real>, now: string, toFloat: string -> Option<real>, show: real -> string)
    requires Valid(d)
    ensures CiKey !in d.vals ==> UpgradeData(d, axis, now, toFloat, show) == Err(KeyError)
    ensures CiKey in d.vals && FloatOf(d.vals[CiKey], toFloat).Err? ==>
      UpgradeData(d, axis, now, toFloat, show) == Err(ValueError)
    ensures CiKey in d.vals && FloatOf(d.vals[CiKey], toFloat) == Ok(0.8) ==>
      UpgradeData(d, axis, now, toFloat, show) == Ok(NoWrite)
    ensures (CiKey in d.vals && FloatOf(d.vals[CiKey], toFloat).Ok? &&
             FloatOf(d.vals[CiKey], toFloat).value != 0.8 && axis.Err?) ==>
      UpgradeData(d, axis, now, toFloat, show) == Err(axis.error)
  {
  }

  // ---------------------------------------------------------------------------
  // Properties of the files

  /** The values of a rewritten file as a later parse reads them: the
      conductor thickness of a scaling branch becomes the text of its
      scaled value. */
  function ReadBack(vals: map<string, Value>, t: real, b: Branch, show: real -> string): map<string, Value>
  {
    if Scales(b) then vals[CiKey := Str(show(Scale(t, b)))] else vals
  }

  /** A parsed dict with the conductor thickness replaced by a float whose
      text is clean can be written back, and reads back with the thickness
      as that text. */
  lemma ConductorReplacedWrites(d: Dict, ci: real, show: real -> string)
    requires Valid(d) && Parsed(d) && CiKey in d.vals
    requires '=' !in show(ci) && '\n' !in show(ci)
    ensures Valid(Dict(d.keys, d.vals[CiKey := Float(ci)]))
    ensures Writable(Dict(d.keys, d.vals[CiKey := Float(ci)]), show)
    ensures Stringify(Dict(d.keys, d.vals[CiKey := Float(ci)]), show) == Dict(d.keys, d.vals[CiKey := Str(show(ci))])
  {
    var d2 := Dict(d.keys, d.vals[CiKey := Float(ci)]);
    var want := d.vals[CiKey := Str(show(ci))];
    assert Valid(d2);
    var back := Stringify(d2, show);
    forall k | k in d2.vals
      ensures '=' !in k && '\n' !in k && '=' !in Render(d2.vals[k], show) && '\n' !in Render(d2.vals[k], show)
      ensures back.vals[k] == want[k]
    {
      assert k in d.vals;
      if k != CiKey {
        assert d2.vals[k] == d.vals[k] && want[k] == d.vals[k];
      }
    }
    assert back.vals == want;
  }

  /** The rewritten dict of a parsed file can be written back, and reads
      back as the old dict with the conductor thickness of a scaling branch
      replaced by its text. */
  lemma WrittenBack(d: Dict, a: real, now: string, toFloat: string -> Option<real>, show: real -> string, t: real, b: Branch)
    requires Valid(d) && Parsed(d) && CiKey in d.vals && FloatOf(d.vals[CiKey], toFloat) == Ok(t)
    requires Decide(t, a) == Some(b)
    requires forall y :: '=' !in show(y) && '\n' !in show(y)
    ensures var r := UpgradeData(d, Ok(a), now, toFloat, show);
      r.Ok? && r.value.Rewrite? && Writable(r.value.data, show) &&
      Stringify(r.value.data, show) == Dict(d.keys, ReadBack(d.vals, t, b, show))
  {
    UpgradeValues(d, a, now, toFloat, show, t, b);
    if Scales(b) {
      ConductorReplacedWrites(d, Scale(t, b), show);
    } else {
      ParsedWrites(d, show);
    }
  }

  /** After an upgrade that rewrites the calibration file, the file reads
      back with the same keys in the same order and every value as it was
      read, except the conductor thickness of a scaling branch, which reads
      back as the text of its scaled value. */
  lemma UpgradeReadsBack(g: Globals, files: map<string, string>, now: string, toFloat: string -> Option<real>, show: real -> string,
                         d: Dict, t: real, b: Branch)
    requires g.path == Some(CalibrationPath) && CalibrationPath in files && ParseConfig(files[CalibrationPath]) == Ok(d)
    requires CiKey in d.vals && FloatOf(d.vals[CiKey], toFloat) == Ok(t)
    requires Axis(g).Ok? && Decide(t, Axis(g).value) == Some(b)
    requires forall y :: '=' !in show(y) && '\n' !in show(y)
    ensures UpgradeSpec(g, files, now, toFloat, show).1 == Completed
    ensures ParseConfig(UpgradeSpec(g, files, now, toFloat, show).0[CalibrationPath]) == Ok(Dict(d.keys, ReadBack(d.vals, t, b, show)))
  {
    var a := Axis(g).value;
    ParsedConfig(files[CalibrationPath]);
    WrittenBack(d, a, now, toFloat, show, t, b);
    var plan := UpgradeData(d, Ok(a), now, toFloat, show).value;
    var spec := UpgradeSpec(g, files, now, toFloat, show);
    assert spec.0 == Carry(files, CalibrationPath, plan, show) && spec.1 == Completed;
    CarryReadsBack(files, CalibrationPath, plan, show);
  }

  /** The second half of a round trip: a file whose conductor thickness
      reads as four times `t`, with `t` above 0.2, upgraded on a 36 µm axis
      reads back with the thickness as the text of `t`. */
  lemma DownRestores(g36: Globals, f: map<string, string>, now: string, toFloat: string -> Option<real>, show: real -> string,
                     d: Dict, t: real)
    requires g36.path == Some(CalibrationPath) && Axis(g36) == Ok(36.0)
    requires CiKey in d.vals && 0.2 < t
    requires CalibrationPath in f
    requires ParseConfig(f[CalibrationPath]) == Ok(Dict(d.keys, d.vals[CiKey := Str(show(t * 4.0))]))
    requires forall y :: toFloat(show(y)) == Some(y) && '=' !in show(y) && '\n' !in show(y)
    ensures UpgradeSpec(g36, f, now, toFloat, show).1 == Completed
    ensures ParseConfig(UpgradeSpec(g36, f, now, toFloat, show).0[CalibrationPath]) == Ok(Dict(d.keys, d.vals[CiKey := Str(show(t))]))
  {
    var t4 := t * 4.0;
    var d1 := Dict(d.keys, d.vals[CiKey := Str(show(t4))]);
    assert FloatOf(d1.vals[CiKey], toFloat) == Ok(t4);
    DecideCases(t4, 36.0);
    UpgradeReadsBack(g36, f, now, toFloat, show, d1, t4, Down36);
    assert ReadBack(d1.vals, t4, Down36, show) == d.vals[CiKey := Str(show(t))] by {
      assert Scale(t4, Down36) == t;
      UpdateOnce(d.vals, CiKey, Str(show(t4)), Str(show(t)));
    }
  }

  /** Moving a file to 18 µm and back to 36 µm: with a conductor thickness
      between 0.2 and 0.8 and a `show` whose text `toFloat` reads back
      exactly, the second run restores the thickness, as text, and keeps
      every other entry and the order of the keys. */
  lemma UpThenDown(g18: Globals, g36: Globals, files: map<string, string>, now1: string, now2: string,
                   toFloat: string -> Option<real>, show: real -> string, d: Dict, t: real)
    requires g18.path == Some(CalibrationPath) && g36.path == Some(CalibrationPath)
    requires Axis(g18) == Ok(18.0) && Axis(g36) == Ok(36.0)
    requires CalibrationPath in files && ParseConfig(files[CalibrationPath]) == Ok(d)
    requires CiKey in d.vals && FloatOf(d.vals[CiKey], toFloat) == Ok(t) && 0.2 < t < 0.8
    requires forall y :: toFloat(show(y)) == Some(y) && '=' !in show(y) && '\n' !in show(y)
    ensures var first := UpgradeSpec(g18, files, now1, toFloat, show);
      var second := UpgradeSpec(g36, first.0, now2, toFloat, show);
      first.1 == Completed && second.1 == Completed &&
      ParseConfig(second.0[CalibrationPath]) == Ok(Dict(d.keys, d.vals[CiKey := Str(show(t))]))
  {
    DecideCases(t, 18.0);
    UpgradeReadsBack(g18, files, now1, toFloat, show, d, t, Up18);
    DownRestores(g36, UpgradeSpec(g18, files, now1, toFloat, show).0, now2, toFloat, show, d, t);
  }

  // ---------------------------------------------------------------------------
  // Against the DF-IV variant

  /** On a file where both thicknesses are numbers, the two variants take
      the same branch and write the same conductor thickness; this one
      leaves the insulator thickness as it was read and logs one line where
      the DF-IV variant logs two. */
  lemma SameBranchAsDF4(d: Dict, a: real, now: string, toFloat: string -> Option<real>, show: real -> string, t: real, x: real)
    requires Valid(d) && CiKey in d.vals && DiKey in d.vals
    requires FloatOf(d.vals[CiKey], toFloat) == Ok(t) && FloatOf(d.vals[DiKey], toFloat) == Ok(x)
    ensures var mine, theirs := UpgradeData(d, Ok(a), now, toFloat, show), DF4.UpgradeData(d, Ok(a), now, toFloat, show);
      mine.Ok? && theirs.Ok? && (mine.value.Rewrite? <==> theirs.value.Rewrite?) &&
      (mine.value.Rewrite? ==>
         mine.value.data.keys == theirs.value.data.keys &&
         mine.value.data.vals[CiKey] == theirs.value.data.vals[CiKey] &&
         mine.value.data.vals[DiKey] == d.vals[DiKey] &&
         (mine.value.note.Some? <==> theirs.value.note.Some?))
  {
    UpgradeWhen(d, a, now, toFloat, show, t);
    DF4.UpgradeWhen(d, a, now, toFloat, show, t, x);
    if Decide(t, a).Some? {
      var b := Decide(t, a).value;
      UpgradeValues(d, a, now, toFloat, show, t, b);
      DF4.UpgradeValues(d, a, now, toFloat, show, t, x, b);
    } else {
      DecideCases(t, a);
    }
  }

  /** A file without the insulator key: the DF-IV variant raises KeyError
      before any test, this one decides on the conductor thickness alone. */
  lemma NoInsulatorKey(d: Dict, a: real, now: string, toFloat: string -> Option<real>, show: real -> string, t: real)
    requires Valid(d) && CiKey in d.vals && DiKey !in d.vals && FloatOf(d.vals[CiKey], toFloat) == Ok(t)
    ensures DF4.UpgradeData(d, Ok(a), now, toFloat, show) == Err(KeyError)
    ensures UpgradeData(d, Ok(a), now, toFloat, show).Ok?
  {
    DF4.UpgradeErrors(d, Ok(a), now, toFloat, show);
    UpgradeWhen(d, a, now, toFloat, show, t);
  }

  /** An insulator value that is not a number: in a scaling branch the
      DF-IV variant raises ValueError and writes nothing, this one rewrites
      the file. */
  lemma InsulatorNotANumber(d: Dict, a: real, now: string, toFloat: string -> Option<real>, show: real -> string, t: real)
    requires Valid(d) && CiKey in d.vals && DiKey in d.vals
    requires FloatOf(d.vals[CiKey], toFloat) == Ok(t) && FloatOf(d.vals[DiKey], toFloat).Err?
    requires (t < 0.8 && a == 18.0) || (t > 0.8 && a == 36.0)
    ensures DF4.UpgradeData(d, Ok(a), now, toFloat, show) == Err(ValueError)
    ensures UpgradeData(d, Ok(a), now, toFloat, show).Ok? && UpgradeData(d, Ok(a), now, toFloat, show).value.Rewrite?
  {
    DF4.InsulatorReadWhenScaling(d, a, now, toFloat, show, t);
    UpgradeWhen(d, a, now, toFloat, show, t);
  }
}
