/** `upgrade_resolution` of `DF-IV-resolution-changer/main.py`: a scaling
    branch changes both coupon thicknesses and logs each change on its own
    line. */
module ResolutionDF4 {
  import opened Py
  import opened Calibration

  /** One line of the ST_changes log; the ÷4 branch writes no space before
      "changed to". */
  function Note(now: string, which: string, before: string, after: string, b: Branch): string
  {
    "\nOn " + now + " " + which + " ST changed from " + before + (if b == Up18 then " " else "") + "changed to " + after
  }

  /** The decision on a parsed file: KeyError when either coupon key is
      missing, ValueError when a thickness is not a number, the axis lookup's
      error when the branch tests reach it; otherwise no write, the dict
      written back as it is, or both thicknesses scaled with a two-line
      note. */
  function UpgradeData(d: Dict, axis: Result<real>, now: string, toFloat: string -> Option<real>, show: real -> string): (r: Result<Plan>)
    requires Valid(d)
    ensures r.Ok? && r.value.Rewrite? ==> Valid(r.value.data)
  {
    if CiKey !in d.vals || DiKey !in d.vals then Err(KeyError)
    else
      var oldCi, oldDi := d.vals[CiKey], d.vals[DiKey];
      match FloatOf(oldCi, toFloat)
      case Err(e) => Err(e)
      case Ok(t) =>
        match Branching(t, axis)
        case Err(e) => Err(e)
        case Ok(None) => Ok(NoWrite)
        case Ok(Some(b)) =>
          if !Scales(b) then Ok(Rewrite(d, None))
          else
            match FloatOf(oldDi, toFloat)
            case Err(e) => Err(e)
            case Ok(x) =>
              var ci, di := Scale(t, b), Scale(x, b);
              Ok(Rewrite(Put(Put(d, CiKey, Float(ci)), DiKey, Float(di)),
                         Some(Note(now, "CI", Render(oldCi, show), show(ci), b) + Note(now, "DI", Render(oldDi, show), show(di), b))))
  }

  /** `upgrade_resolution`: the files afterwards and how it ended. The
      globals are only read. */
  function UpgradeSpec(g: Globals, files: map<string, string>, now: string, toFloat: string -> Option<real>, show: real -> string): (r: (map<string, string>, Finish))
    ensures r.1 != Completed ==> r.0 == files
    ensures r.1 == Completed ==> g.path.Some? && g.path.value in files && g.path.value in r.0
  {
    match g.path
    case None => (files, Raised(NameError))
    case Some(p) =>
      if p !in files then (files, Raised(FileNotFoundError))
      else
        match ParseConfig(files[p])
        case Err(e) => (files, Raised(e))
        case Ok(d) =>
          match UpgradeData(d, Axis(g), now, toFloat, show)
          case Err(e) => (files, Raised(e))
          case Ok(plan) => (Carry(files, p, plan, show), Completed)
  }

  /** `upgrade_resolution`, step by step: `now` is the clock's reading, as
      `strftime` formats it. */
  method UpgradeResolution(s: Session, now: string, toFloat: string -> Option<real>, show: real -> string) returns (r: Finish)
    requires s.Valid()
    modifies s
    ensures s.Valid() && s.State() == old(s.State())
    ensures (s.files, r) == UpgradeSpec(old(s.State()), old(s.files), now, toFloat, show)
  {
    ghost var spec := UpgradeSpec(s.State(), s.files, now, toFloat, show);
    if s.path.None? {
      return Raised(NameError);
    }
    var p := s.path.value;
    if p !in s.files {
      return Raised(FileNotFoundError);
    }
    var parsed := ReadConfig(s.files[p]);
    if parsed.Err? {
      return Raised(parsed.error);
    }
    var data := parsed.value;
    ghost var d0 := data;
    var axis := Axis(s.State());
    ghost var planned := UpgradeData(d0, axis, now, toFloat, show);
    assert spec == if planned.Err? then (s.files, Raised(planned.error)) else (Carry(s.files, p, planned.value, show), Completed);
    if CiKey !in data.vals || DiKey !in data.vals {
      return Raised(KeyError);
    }
    var oldCi, oldDi := data.vals[CiKey], data.vals[DiKey];
    var t := FloatOf(oldCi, toFloat);
    if t.Err? {
      return Raised(t.error);
    }
    var b: Branch;
    if t.value < 0.8 {
      if axis.Err? {
        return Raised(axis.error);
      }
      if axis.value == 36.0 {
        b := Keep36;
      } else if axis.value == 18.0 {
        b := Up18;
      } else {
        return Completed;
      }
    } else if t.value > 0.8 {
      if axis.Err? {
        return Raised(axis.error);
      }
      if axis.value == 18.0 {
        b := Keep18;
      } else if axis.value == 36.0 {
        b := Down36;
      } else {
        return Completed;
      }
    } else {
      return Completed;
    }
    assert Branching(t.value, axis) == Ok(Some(b));
    if b == Up18 || b == Down36 {
      var ci := Scale(t.value, b);
      data := Put(data, CiKey, Float(ci));
      var x := FloatOf(oldDi, toFloat);
      if x.Err? {
        return Raised(x.error);
      }
      var di := Scale(x.value, b);
      data := Put(data, DiKey, Float(di));
      var note := Note(now, "CI", Render(oldCi, show), show(ci), b) + Note(now, "DI", Render(oldDi, show), show(di), b);
      assert planned == Ok(Rewrite(data, Some(note)));
      var log := if StChangesPath in s.files then s.files[StChangesPath] else "";
      s.files := s.files[StChangesPath := log + note];
    } else {
      assert planned == Ok(Rewrite(data, None));
    }
    s.files := s.files[p := Serialise(data, show)];
    return Completed;
  }

  // ---------------------------------------------------------------------------
  // Properties of the decision

  /** With both thicknesses readable and the axis known: the file is
      rewritten exactly when the conductor thickness is not 0.8 and the axis
      is 18 or 36, and a note is logged exactly when the thickness is on the
      wrong side of 0.8 for the axis. */
  lemma UpgradeWhen(d: Dict, a: real, now: string, toFloat: string -> Option<real>, show: real -> string, t: real, x: real)
    requires Valid(d) && CiKey in d.vals && DiKey in d.vals
    requires FloatOf(d.vals[CiKey], toFloat) == Ok(t) && FloatOf(d.vals[DiKey], toFloat) == Ok(x)
    ensures var r := UpgradeData(d, Ok(a), now, toFloat, show);
      r.Ok? && (r.value.Rewrite? <==> t != 0.8 && (a == 18.0 || a == 36.0)) &&
      (r.value.Rewrite? ==> (r.value.note.Some? <==> (t < 0.8 && a == 18.0) || (t > 0.8 && a == 36.0)))
  {
    DecideCases(t, a);
  }

  /** The dict written back keeps its keys in their order and every value
      but the two thicknesses; a scaling branch replaces both thicknesses by
      their scaled floats and logs a CI line then a DI line, each with the
      old text and the new value. */
  lemma UpgradeValues(d: Dict, a: real, now: string, toFloat: string -> Option<real>, show: real -> string, t: real, x: real, b: Branch)
    requires Valid(d) && CiKey in d.vals && DiKey in d.vals
    requires FloatOf(d.vals[CiKey], toFloat) == Ok(t) && FloatOf(d.vals[DiKey], toFloat) == Ok(x)
    requires Decide(t, a) == Some(b)
    ensures var r := UpgradeData(d, Ok(a), now, toFloat, show);
      r.Ok? && r.value.Rewrite? && r.value.data.keys == d.keys &&
      r.value.data.vals == (if Scales(b) then d.vals[CiKey := Float(Scale(t, b))][DiKey := Float(Scale(x, b))] else d.vals) &&
      r.value.note == (if Scales(b) then Some(Note(now, "CI", Render(d.vals[CiKey], show), show(Scale(t, b)), b) +
                                              Note(now, "DI", Render(d.vals[DiKey], show), show(Scale(x, b)), b))
                       else None)
  {
    if Scales(b) {
      var d2 := Put(Put(d, CiKey, Float(Scale(t, b))), DiKey, Float(Scale(x, b)));
      assert d2.vals == d.vals[CiKey := Float(Scale(t, b))][DiKey := Float(Scale(x, b))];
    }
  }

  /** The failures: KeyError unless both coupon keys are present, then
      ValueError when the conductor thickness is not a number; a thickness
      of exactly 0.8 ends the call before the axis is looked up, any other
      meets the lookup's error. */
  lemma UpgradeErrors(d: Dict, axis: Result<real>, now: string, toFloat: string -> Option<real>, show: real -> string)
    requires Valid(d)
    ensures CiKey !in d.vals || DiKey !in d.vals ==> UpgradeData(d, axis, now, toFloat, show) == Err(KeyError)
    ensures CiKey in d.vals && DiKey in d.vals && FloatOf(d.vals[CiKey], toFloat).Err? ==>
      UpgradeData(d, axis, now, toFloat, show) == Err(ValueError)
    ensures CiKey in d.vals && DiKey in d.vals && FloatOf(d.vals[CiKey], toFloat) == Ok(0.8) ==>
      UpgradeData(d, axis, now, toFloat, show) == Ok(NoWrite)
    ensures (CiKey in d.vals && DiKey in d.vals && FloatOf(d.vals[CiKey], toFloat).Ok? &&
             FloatOf(d.vals[CiKey], toFloat).value != 0.8 && axis.Err?) ==>
      UpgradeData(d, axis, now, toFloat, show) == Err(axis.error)
  {
  }

  /** The insulator thickness is read only by a scaling branch: when it is
      not a number the call fails exactly in those branches. */
  lemma InsulatorReadWhenScaling(d: Dict, a: real, now: string, toFloat: string -> Option<real>, show: real -> string, t: real)
    requires Valid(d) && CiKey in d.vals && DiKey in d.vals
    requires FloatOf(d.vals[CiKey], toFloat) == Ok(t) && FloatOf(d.vals[DiKey], toFloat).Err?
    ensures UpgradeData(d, Ok(a), now, toFloat, show).Err? <==> (t < 0.8 && a == 18.0) || (t > 0.8 && a == 36.0)
    ensures UpgradeData(d, Ok(a), now, toFloat, show).Err? ==> UpgradeData(d, Ok(a), now, toFloat, show).error == ValueError
  {
    DecideCases(t, a);
  }

  // ---------------------------------------------------------------------------
  // Properties of the files

  /** The values of a rewritten file as a later parse reads them: the
      thicknesses of a scaling branch become the text of their scaled
      values. */
  function ReadBack(vals: map<string, Value>, t: real, x: real, b: Branch, show: real -> string): map<string, Value>
  {
    if Scales(b) then vals[CiKey := Str(show(Scale(t, b)))][DiKey := Str(show(Scale(x, b)))] else vals
  }

  /** The text of the new thicknesses and every value a parse produced
      can be written back, and read back they give the old dict with the
      two thicknesses of a scaling branch replaced by their text. */
  lemma WrittenBack(d: Dict, a: real, now: string, toFloat: string -> Option<real>, show: real -> string, t: real, x: real, b: Branch)
    requires Valid(d) && Parsed(d) && CiKey in d.vals && DiKey in d.vals
    requires FloatOf(d.vals[CiKey], toFloat) == Ok(t) && FloatOf(d.vals[DiKey], toFloat) == Ok(x)
    requires Decide(t, a) == Some(b)
    requires forall y :: '=' !in show(y) && '\n' !in show(y)
    ensures var r := UpgradeData(d, Ok(a), now, toFloat, show);
      r.Ok? && r.value.Rewrite? && Writable(r.value.data, show) &&
      Stringify(r.value.data, show) ==
        Dict(d.keys, ReadBack(d.vals, t, x, b, show))
  {
    UpgradeValues(d, a, now, toFloat, show, t, x, b);
    if Scales(b) {
      ReplacedWrites(d, Scale(t, b), Scale(x, b), show);
    } else {
      ParsedWrites(d, show);
    }
  }

  /** After an upgrade that rewrites the calibration file, the file reads
      back with the same keys in the same order and every value as it was
      read, except the two thicknesses of a scaling branch, which read back
      as the text of their scaled values. */
  lemma UpgradeReadsBack(g: Globals, files: map<string, string>, now: string, toFloat: string -> Option<real>, show: real -> string,
                         d: Dict, t: real, x: real, b: Branch)
    requires g.path == Some(CalibrationPath) && CalibrationPath in files && ParseConfig(files[CalibrationPath]) == Ok(d)
    requires CiKey in d.vals && DiKey in d.vals
    requires FloatOf(d.vals[CiKey], toFloat) == Ok(t) && FloatOf(d.vals[DiKey], toFloat) == Ok(x)
    requires Axis(g).Ok? && Decide(t, Axis(g).value) == Some(b)
    requires forall y :: '=' !in show(y) && '\n' !in show(y)
    ensures UpgradeSpec(g, files, now, toFloat, show).1 == Completed
    ensures ParseConfig(UpgradeSpec(g, files, now, toFloat, show).0[CalibrationPath]) ==
      Ok(Dict(d.keys, ReadBack(d.vals, t, x, b, show)))
  {
    var a := Axis(g).value;
    ParsedConfig(files[CalibrationPath]);
    WrittenBack(d, a, now, toFloat, show, t, x, b);
    var plan := UpgradeData(d, Ok(a), now, toFloat, show).value;
    var spec := UpgradeSpec(g, files, now, toFloat, show);
    assert spec.0 == Carry(files, CalibrationPath, plan, show) && spec.1 == Completed;
    CarryReadsBack(files, CalibrationPath, plan, show);
  }

  /** The second half of a round trip: a file whose thicknesses read as
      four times `t` and `x`, with `t` above 0.2, upgraded on a 36 µm axis
      reads back with the thicknesses as the text of `t` and `x`. */
  lemma DownRestores(g36: Globals, f: map<string, string>, now: string, toFloat: string -> Option<real>, show: real -> string,
                     d: Dict, t: real, x: real)
    requires g36.path == Some(CalibrationPath) && Axis(g36) == Ok(36.0)
    requires CiKey in d.vals && DiKey in d.vals && 0.2 < t
    requires CalibrationPath in f
    requires ParseConfig(f[CalibrationPath]) == Ok(Dict(d.keys, d.vals[CiKey := Str(show(t * 4.0))][DiKey := Str(show(x * 4.0))]))
    requires forall y :: toFloat(show(y)) == Some(y) && '=' !in show(y) && '\n' !in show(y)
    ensures UpgradeSpec(g36, f, now, toFloat, show).1 == Completed
    ensures ParseConfig(UpgradeSpec(g36, f, now, toFloat, show).0[CalibrationPath]) ==
      Ok(Dict(d.keys, d.vals[CiKey := Str(show(t))][DiKey := Str(show(x))]))
  {
    var t4, x4 := t * 4.0, x * 4.0;
    var d1 := Dict(d.keys, d.vals[CiKey := Str(show(t4))][DiKey := Str(show(x4))]);
    assert FloatOf(d1.vals[CiKey], toFloat) == Ok(t4);
    assert FloatOf(d1.vals[DiKey], toFloat) == Ok(x4);
    DecideCases(t4, 36.0);
    UpgradeReadsBack(g36, f, now, toFloat, show, d1, t4, x4, Down36);
    assert ReadBack(d1.vals, t4, x4, Down36, show) == d.vals[CiKey := Str(show(t))][DiKey := Str(show(x))] by {
      assert Scale(t4, Down36) == t && Scale(x4, Down36) == x;
      UpdateTwice(d.vals, CiKey, DiKey, Str(show(t4)), Str(show(x4)), Str(show(t)), Str(show(x)));
    }
  }

  /** Moving a file to 18 µm and back to 36 µm: with a conductor thickness
      between 0.2 and 0.8 and a `show` whose text `toFloat` reads back
      exactly, the second run restores both thicknesses, as text, and keeps
      every other entry and the order of the keys. */
  lemma UpThenDown(g18: Globals, g36: Globals, files: map<string, string>, now1: string, now2: string,
                   toFloat: string -> Option<real>, show: real -> string, d: Dict, t: real, x: real)
    requires g18.path == Some(CalibrationPath) && g36.path == Some(CalibrationPath)
    requires Axis(g18) == Ok(18.0) && Axis(g36) == Ok(36.0)
    requires CalibrationPath in files && ParseConfig(files[CalibrationPath]) == Ok(d)
    requires CiKey in d.vals && DiKey in d.vals
    requires FloatOf(d.vals[CiKey], toFloat) == Ok(t) && FloatOf(d.vals[DiKey], toFloat) == Ok(x) && 0.2 < t < 0.8
    requires forall y :: toFloat(show(y)) == Some(y) && '=' !in show(y) && '\n' !in show(y)
    ensures var first := UpgradeSpec(g18, files, now1, toFloat, show);
      var second := UpgradeSpec(g36, first.0, now2, toFloat, show);
      first.1 == Completed && second.1 == Completed &&
      ParseConfig(second.0[CalibrationPath]) == Ok(Dict(d.keys, d.vals[CiKey := Str(show(t))][DiKey := Str(show(x))]))
  {
    DecideCases(t, 18.0);
    UpgradeReadsBack(g18, files, now1, toFloat, show, d, t, x, Up18);
    DownRestores(g36, UpgradeSpec(g18, files, now1, toFloat, show).0, now2, toFloat, show, d, t, x);
  }
}
