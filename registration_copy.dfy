/** `DF-IV-manual-registration/main_copy.py`: the earlier registration
    tool. Its reader changes the start position without saving, stacks
    every layer on its first separation, and shows the archive's second to
    last entry as the picture; its viewer only moves the base job's start,
    in memory. */
module RegistrationCopy {
  import opened Py
  import opened Pcbj
  import opened Registration
  import Main = RegistrationMain

  /** `save` writes `json.dumps(info_dict)`, on one line. */
  const Style := Compact

  /** Everything a reader holds that its methods change: the decoded job,
      the archive on disk at its path, and the axes `read_values` stored
      (None before it ran). */
  datatype Reader = Reader(info: Info, disk: seq<Entry>, groupAxis: Option<real>, printAxis: Option<real>)

  /** `update_z_start_pos`: the layers restacked from `z` on their first
      separations; the archive is saved only when every layer has one. */
  function UpdateZSpec(s: Reader, z: real, dumps: (Info, JsonStyle) -> string): (r: (Reader, Result<()>))
    ensures r.0.info == s.info.(layers := Restack(s.info.layers, z, FirstSeparation).0)
    ensures r.0.groupAxis == s.groupAxis && r.0.printAxis == s.printAxis
    ensures r.1.Err? ==> r.0.disk == s.disk && r.1.error == IndexError
    ensures r.1.Ok? ==> r.0.disk == Saved(s.disk, dumps(r.0.info, Style))
  {
    var restacked := Restack(s.info.layers, z, FirstSeparation);
    var info := s.info.(layers := restacked.0);
    match restacked.1
    case Err(e) => (s.(info := info), Err(e))
    case Ok(_) => (s.(info := info, disk := Saved(s.disk, dumps(info, Style))), Ok(()))
  }

  /** The reader as `update_z_start_pos` leaves it, given the restack: the
      placed layers kept, and the archive saved only on success. */
  lemma UpdateZLeaves(s: Reader, z: real, dumps: (Info, JsonStyle) -> string, layers: seq<Layer>, t: Result<real>)
    requires Restack(s.info.layers, z, FirstSeparation) == (layers, t)
    ensures var info := s.info.(layers := layers);
      UpdateZSpec(s, z, dumps) ==
        if t.Ok? then (s.(info := info, disk := Saved(s.disk, dumps(info, Style))), Ok(()))
        else (s.(info := info), Err(IndexError))
  {
  }

  /** `update_z_start_pos` succeeds exactly when every layer has a
      separation; layer `i` then starts at `z` plus the first-separation
      thicknesses of the layers below it. */
  lemma UpdateZWhen(s: Reader, z: real, dumps: (Info, JsonStyle) -> string)
    ensures UpdateZSpec(s, z, dumps).1.Ok? <==> forall i :: 0 <= i < |s.info.layers| ==> |s.info.layers[i].separations| > 0
    ensures UpdateZSpec(s, z, dumps).1.Ok? ==> forall i :: 0 <= i < |s.info.layers| ==>
      Height(s.info.layers[..i], FirstSeparation).Ok? &&
      UpdateZSpec(s, z, dumps).0.info.layers[i] ==
        s.info.layers[i].(startZ := Some(z + Height(s.info.layers[..i], FirstSeparation).value))
  {
    RestackHeight(s.info.layers, z, FirstSeparation);
    HeightFails(s.info.layers, FirstSeparation);
    if Height(s.info.layers, FirstSeparation).Ok? {
      RestackStarts(s.info.layers, z, FirstSeparation);
    }
  }

  /** The viewer's state: the base job's reader (`file_reader`), None
      before it was loaded, and the start position read from it. */
  datatype Viewer = Viewer(base: Option<Reader>, groupStart: Option<real>, printStart: Option<real>)

  /** `set_new_start_position`: the base job's start moved by the offsets,
      in memory only. AttributeError stands for a job not loaded yet. */
  function SetNewSpec(v: Viewer, dx: real, dy: real): (r: (Viewer, Result<()>))
    ensures r.0.groupStart == v.groupStart && r.0.printStart == v.printStart
    ensures r.0.base.Some? <==> v.base.Some?
    ensures r.0.base.Some? ==> (r.0.base.value.disk == v.base.value.disk &&
      r.0.base.value.info.layers == v.base.value.info.layers)
  {
    if v.groupStart.None? || v.printStart.None? || v.base.None? then (v, Err(AttributeError))
    else
      var moved := Moved(v.groupStart.value, v.printStart.value, dx, dy);
      match SetPosition(v.base.value.info, moved.0, moved.1)
      case Err(e) => (v, Err(e))
      case Ok(info) => (v.(base := Some(v.base.value.(info := info))), Ok(()))
  }

  /** The base job loaded as `base_file_load` loads it: the same swapped
      unpacking of `read_values` as in the later tool. */
  function Loaded(base: Reader): Viewer
    requires base.info.position.Some?
  {
    var axes := Main.Axes(base.info);
    Viewer(Some(base.(groupAxis := Some(axes.0), printAxis := Some(axes.1))), Some(axes.1), Some(axes.0))
  }

  /** Registering after loading the base job always succeeds and gives the
      base job GroupAxis = its old PrintAxis + 0.036 dx and PrintAxis = its
      old GroupAxis + 0.03525 dy, leaving its layers and its archive as
      they were. */
  lemma Registered(base: Reader, dx: real, dy: real)
    requires base.info.position.Some?
    ensures var r := SetNewSpec(Loaded(base), dx, dy);
      var axes := Main.Axes(base.info);
      r.1 == Ok(()) &&
      Pcbj.ReadValues(r.0.base.value.info) == Ok((axes.1 + dx * 0.036, axes.0 + dy * 0.03525)) &&
      r.0.base.value.info.layers == base.info.layers && r.0.base.value.disk == base.disk
  {
    var axes := Main.Axes(base.info);
    var moved := Moved(axes.1, axes.0, dx, dy);
    SetThenRead(base.info, moved.0, moved.1);
  }

  /** Both tools move a job to the same start; the later one moves the top
      job and the base job there and saves them, the earlier one moves only
      the base job and saves nothing. */
  lemma RegisteredAlike(base: Main.Reader, top: Main.Reader, dx: real, dy: real, dumps: (Info, JsonStyle) -> string)
    requires base.info.position.Some? && top.info.position.Some?
    requires Height(base.info.layers, ByFile).Ok? && Height(top.info.layers, ByFile).Ok?
    ensures var later := Main.SetNewSpec(Main.Loaded(base, Some(top)), dx, dy, dumps);
      var earlier := SetNewSpec(Loaded(Reader(base.info, base.disk, base.groupAxis, base.printAxis)), dx, dy);
      later.1.Ok? && earlier.1.Ok? &&
      Pcbj.ReadValues(later.0.top.value.info) == Pcbj.ReadValues(earlier.0.base.value.info) &&
      Pcbj.ReadValues(later.0.base.value.info) == Pcbj.ReadValues(earlier.0.base.value.info) &&
      earlier.0.base.value.disk == base.disk
  {
    Main.Registered(base, top, dx, dy, dumps);
    Registered(Reader(base.info, base.disk, base.groupAxis, base.printAxis), dx, dy);
  }

  /** The two tools stack a layer alike when its first separation has a
      `File`, and differently when it has none and a second separation
      follows: the later tool takes the second one's thickness. */
  lemma StackingDiffers(l: Layer)
    ensures |l.separations| > 0 && l.separations[0].file != "" ==>
      Thickness(l, ByFile) == Thickness(l, FirstSeparation) == Ok(l.separations[0].thickness)
    ensures |l.separations| > 1 && l.separations[0].file == "" ==>
      Thickness(l, ByFile) == Ok(l.separations[1].thickness) &&
      Thickness(l, FirstSeparation) == Ok(l.separations[0].thickness)
  {
  }

  /** On a job whose every layer has an image in its first separation both
      tools give the same restack. */
  lemma {:induction false} StackingAgrees(ls: seq<Layer>, z: real)
    requires forall i :: 0 <= i < |ls| ==> |ls[i].separations| > 0 && ls[i].separations[0].file != ""
    ensures Restack(ls, z, ByFile) == Restack(ls, z, FirstSeparation)
  {
    if ls != [] {
      assert Thickness(ls[0], ByFile) == Thickness(ls[0], FirstSeparation);
      StackingAgrees(ls[1..], z + ls[0].separations[0].thickness);
    }
  }

  /** The job archive reader: `info_dict`, the archive on disk at
      `file_path`, which `save` rewrites, and `zip_file.filelist`, the
      entries as they were when the reader opened the archive. */
  class ZipFileReader {
    const path: string
    const fileList: seq<Entry>
    var info: Info
    var disk: seq<Entry>
    var groupAxis: Option<real>
    var printAxis: Option<real>

    function State(): Reader
      reads this
    {
      Reader(info, disk, groupAxis, printAxis)
    }

    constructor (path0: string, disk0: seq<Entry>, info0: Info)
      ensures path == path0 && fileList == disk0 && State() == Reader(info0, disk0, None, None)
    {
      path := path0;
      fileList := disk0;
      info, disk := info0, disk0;
      groupAxis, printAxis := None, None;
    }

    /** `ZipFileReader(file_path)`, as in the later tool. */
    static method Open(path: string, archive: Result<seq<Entry>>, decode: string -> Option<Info>) returns (r: Result<ZipFileReader>)
      ensures archive.Err? ==> r == Err(archive.error)
      ensures archive.Ok? && LastData(archive.value, InfoName).None? ==> r == Err(KeyError)
      ensures archive.Ok? && LastData(archive.value, InfoName).Some? && decode(LastData(archive.value, InfoName).value).None? ==>
        r == Err(ArchiveError)
      ensures r.Ok? ==> (archive.Ok? && LastData(archive.value, InfoName).Some? &&
        decode(LastData(archive.value, InfoName).value).Some? && fresh(r.value) && r.value.path == path &&
        r.value.fileList == archive.value &&
        r.value.State() == Reader(decode(LastData(archive.value, InfoName).value).value, archive.value, None, None))
    {
      if archive.Err? {
        return Err(archive.error);
      }
      var text := LastData(archive.value, InfoName);
      if text.None? {
        return Err(KeyError);
      }
      var info := decode(text.value);
      if info.None? {
        return Err(ArchiveError);
      }
      var reader := new ZipFileReader(path, archive.value, info.value);
      return Ok(reader);
    }

    /** `read_values`: (GroupAxis, PrintAxis), each 0.0 when absent, also
      stored in the reader; KeyError without `PositionInMM`. */
    method ReadValues() returns (r: Result<(real, real)>)
      modifies this
      ensures r == Pcbj.ReadValues(info)
      ensures info == old(info) && disk == old(disk)
      ensures r.Ok? ==> groupAxis == Some(r.value.0) && printAxis == Some(r.value.1)
      ensures r.Err? ==> groupAxis == old(groupAxis) && printAxis == old(printAxis)
    {
      if info.position.None? {
        return Err(KeyError);
      }
      var p := info.position.value;
      groupAxis := Some(if "GroupAxis" in p then p["GroupAxis"] else 0.0);
      printAxis := Some(if "PrintAxis" in p then p["PrintAxis"] else 0.0);
      return Ok((groupAxis.value, printAxis.value));
    }

    /** `update_start_pos`: GroupAxis then PrintAxis set, and nothing
      saved. */
    method UpdateStartPos(groupPos: real, printPos: real) returns (r: Result<()>)
      modifies this
      ensures r == (if old(info).position.Some? then Ok(()) else Err(KeyError))
      ensures r.Err? ==> info == old(info)
      ensures r.Ok? ==> info == SetPosition(old(info), groupPos, printPos).value
      ensures disk == old(disk) && groupAxis == old(groupAxis) && printAxis == old(printAxis)
    {
      if info.position.None? {
        return Err(KeyError);
      }
      info := info.(position := Some(info.position.value["GroupAxis" := groupPos]));
      info := info.(position := Some(info.position.value["PrintAxis" := printPos]));
      return Ok(());
    }

    /** `read_last_image`: the data of the entry second from the end of the
      archive as it was opened, `filelist[len(filelist) - 2]`; with a
      single entry that index is -1, the entry itself. */
    method ReadLastImage() returns (r: Result<string>)
      ensures |fileList| > 0 ==> r.Ok?
      ensures r.Ok? <==> |fileList| > 0
      ensures |fileList| > 1 ==> r == Ok(fileList[|fileList| - 2].data)
      ensures |fileList| == 1 ==> r == Ok(fileList[0].data)
      ensures |fileList| == 0 ==> r == Err(IndexError)
    {
      var entry := PyIndex(fileList, |fileList| - 2);
      if entry.Err? {
        return Err(entry.error);
      }
      return Ok(entry.value.data);
    }

    /** `update_z_start_pos`: the layers placed by the loop, on their first
      separations, are the job's own dictionaries, so `info` keeps every
      start written so far even when a layer has no separation; `save` once
      every layer is done. */
    method UpdateZStartPos(z: real, dumps: (Info, JsonStyle) -> string) returns (r: Result<()>)
      modifies this
      ensures (State(), r) == UpdateZSpec(old(State()), z, dumps)
    {
      var layers, t := PlaceLayers(info.layers, z, FirstSeparation);
      UpdateZLeaves(old(State()), z, dumps, layers, t);
      info := info.(layers := layers);
      if t.Err? {
        return Err(t.error);
      }
      Save(dumps);
      return Ok(());
    }

    /** `save`: every entry not named `pcbj.info` copied, in order, with the
      data the archive reads under its name, then the job written as
      `pcbj.info`. */
    method Save(dumps: (Info, JsonStyle) -> string)
      modifies this
      ensures State() == old(State()).(disk := Saved(old(disk), dumps(info, Style)))
    {
      var written: seq<Entry> := [];
      for i := 0 to |disk|
        invariant written == Copied(disk, i)
      {
        var name := disk[i].name;
        if name != InfoName {
          var data := LastData(disk, name);
          written := written + [Entry(name, data.value)];
        }
      }
      disk := written + [Entry(InfoName, dumps(info, Style))];
    }
  }

  /** The registration window: the base job's reader and the start
      position read from it. */
  class ImageViewer {
    var fileReader: ZipFileReader?
    var printStartPos: Option<real>
    var groupStartPos: Option<real>

    function StateOf(reader: ZipFileReader?): Option<Reader>
      reads reader
    {
      if reader == null then None else Some(reader.State())
    }

    function State(): Viewer
      reads this, fileReader
    {
      Viewer(StateOf(fileReader), groupStartPos, printStartPos)
    }

    constructor ()
      ensures State() == Viewer(None, None, None)
    {
      fileReader := null;
      printStartPos, groupStartPos := None, None;
    }

    /** `base_file_load` with the chosen archive opened as `reader`: its
      axes read and unpacked swapped into the two starts, then the picture
      read as `read_last_image` picks it. */
    method BaseFileLoad(reader: ZipFileReader) returns (r: Result<string>)
      modifies this, reader
      ensures fileReader == reader
      ensures r.Ok? ==> old(reader.info).position.Some?
      ensures old(reader.info).position.None? ==> (r == Err(KeyError) && reader.State() == old(reader.State()) &&
        printStartPos == old(printStartPos) && groupStartPos == old(groupStartPos))
      ensures old(reader.info).position.Some? ==> State() == Loaded(old(reader.State()))
      ensures old(reader.info).position.Some? && |reader.fileList| > 1 ==> r == Ok(reader.fileList[|reader.fileList| - 2].data)
      ensures old(reader.info).position.Some? && |reader.fileList| == 1 ==> r == Ok(reader.fileList[0].data)
      ensures old(reader.info).position.Some? && |reader.fileList| == 0 ==> r == Err(IndexError)
    {
      fileReader := reader;
      var values := reader.ReadValues();
      if values.Err? {
        return Err(values.error);
      }
      printStartPos, groupStartPos := Some(values.value.0), Some(values.value.1);
      r := reader.ReadLastImage();
    }

    /** `set_new_start_position`: the base job's start moved, nothing
      saved. */
    method SetNewStartPosition(dx: real, dy: real) returns (r: Result<()>)
      modifies fileReader
      ensures (State(), r) == SetNewSpec(old(State()), dx, dy)
    {
      if groupStartPos.None? || printStartPos.None? || fileReader == null {
        return Err(AttributeError);
      }
      ghost var v := State();
      var newX := groupStartPos.value + dx * 0.036;
      var newY := printStartPos.value + dy * 0.03525;
      ghost var spec := SetNewSpec(v, dx, dy);
      r := fileReader.UpdateStartPos(newX, newY);
      assert spec == (State(), r);
    }

    /** `update` with the top picture at `top` (None when no top job is
      shown) over a base picture `baseHeight` high. */
    method Update(top: Option<Placement>, baseHeight: real) returns (r: Result<()>)
      modifies fileReader
      ensures top.None? ==> r == Ok(()) && State() == old(State())
      ensures top.Some? ==> var d := Offsets(top.value, baseHeight);
        (State(), r) == SetNewSpec(old(State()), d.0, d.1)
    {
      if top.None? {
        return Ok(());
      }
      var d := Offsets(top.value, baseHeight);
      r := SetNewStartPosition(d.0, d.1);
    }
  }
}
