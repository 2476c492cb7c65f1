/** `DF-IV-manual-registration/main.py`: the job archive reader, which
    saves the archive after every change to the job, and the viewer that
    registers a top job onto a base job: it moves the top job's start to
    where its picture was dragged, stacks its layers on the base job's, and
    moves the base job's start too. */
module RegistrationMain {
  import opened Py
  import opened Pcbj
  import opened Image
  import opened Registration

  /** `save` writes `json.dumps(info_dict, indent=4)`. */
  const Style := Indented(4)

  /** Everything a reader holds that its methods change: the decoded job,
      the archive on disk at its path, and the axes `read_values` stored
      (None before it ran). */
  datatype Reader = Reader(info: Info, disk: seq<Entry>, groupAxis: Option<real>, printAxis: Option<real>)

  /** `update_start_pos`: both axes set, then the archive saved; KeyError
      without `PositionInMM`, before anything changes. */
  function UpdateStartSpec(s: Reader, groupPos: real, printPos: real, dumps: (Info, JsonStyle) -> string): (r: (Reader, Result<()>))
    ensures r.1.Ok? <==> s.info.position.Some?
    ensures r.1.Err? ==> r.0 == s && r.1.error == KeyError
    ensures r.1.Ok? ==> r.0.info.layers == s.info.layers && Pcbj.ReadValues(r.0.info) == Ok((groupPos, printPos))
    ensures r.1.Ok? ==> r.0.disk == Saved(s.disk, dumps(r.0.info, Style))
  {
    match SetPosition(s.info, groupPos, printPos)
    case Err(e) => (s, Err(e))
    case Ok(info) => (s.(info := info, disk := Saved(s.disk, dumps(info, Style))), Ok(()))
  }

  /** `update_z_start_pos`: the layers restacked from `z`, each thickness
      chosen by whether the first separation has a `File`; the archive is
      saved only when every layer had the separation it needs. */
  function UpdateZSpec(s: Reader, z: real, dumps: (Info, JsonStyle) -> string): (r: (Reader, Result<()>))
    ensures r.0.info == s.info.(layers := Restack(s.info.layers, z, ByFile).0)
    ensures r.0.groupAxis == s.groupAxis && r.0.printAxis == s.printAxis
    ensures r.1.Err? ==> r.0.disk == s.disk && r.1.error == IndexError
    ensures r.1.Ok? ==> r.0.disk == Saved(s.disk, dumps(r.0.info, Style))
  {
    var restacked := Restack(s.info.layers, z, ByFile);
    var info := s.info.(layers := restacked.0);
    match restacked.1
    case Err(e) => (s.(info := info), Err(e))
    case Ok(_) => (s.(info := info, disk := Saved(s.disk, dumps(info, Style))), Ok(()))
  }

  /** The reader as `update_z_start_pos` leaves it, given the restack: the
      placed layers kept, and the archive saved only on success. */
  lemma UpdateZLeaves(s: Reader, z: real, dumps: (Info, JsonStyle) -> string, layers: seq<Layer>, t: Result<real>)
    requires Restack(s.info.layers, z, ByFile) == (layers, t)
    ensures var info := s.info.(layers := layers);
      UpdateZSpec(s, z, dumps) ==
        if t.Ok? then (s.(info := info, disk := Saved(s.disk, dumps(info, Style))), Ok(()))
        else (s.(info := info), Err(IndexError))
  {
  }

  /** `update_z_start_pos` succeeds exactly when the job has a height; it
      then puts every layer on the running height from `z`. */
  lemma UpdateZWhen(s: Reader, z: real, dumps: (Info, JsonStyle) -> string)
    ensures UpdateZSpec(s, z, dumps).1.Ok? <==> Height(s.info.layers, ByFile).Ok?
    ensures Height(s.info.layers, ByFile).Ok? ==> forall i :: 0 <= i < |s.info.layers| ==>
      Height(s.info.layers[..i], ByFile).Ok? &&
      UpdateZSpec(s, z, dumps).0.info.layers[i] == s.info.layers[i].(startZ := Some(z + Height(s.info.layers[..i], ByFile).value))
  {
    RestackHeight(s.info.layers, z, ByFile);
    if Height(s.info.layers, ByFile).Ok? {
      RestackStarts(s.info.layers, z, ByFile);
    }
  }

  /** The viewer's state: the base job's reader (`file_reader`), the top
      job's reader (`viewer.zip_reader`), each None before it was loaded,
      and the start position read from the base job. */
  datatype Viewer = Viewer(base: Option<Reader>, top: Option<Reader>, groupStart: Option<real>, printStart: Option<real>)

  /** `set_new_start_position`: the top job moved and saved, its layers
      stacked on the base job's height and saved, then the base job moved
      and saved; an exception stops the steps where it is raised.
      AttributeError stands for a job not loaded yet. */
  function SetNewSpec(v: Viewer, dx: real, dy: real, dumps: (Info, JsonStyle) -> string): (r: (Viewer, Result<()>))
    ensures r.0.groupStart == v.groupStart && r.0.printStart == v.printStart
    ensures r.0.top.Some? <==> v.top.Some?
    ensures r.0.base.Some? <==> v.base.Some?
  {
    if v.groupStart.None? || v.printStart.None? then (v, Err(AttributeError))
    else
      var moved := Moved(v.groupStart.value, v.printStart.value, dx, dy);
      if v.top.None? then (v, Err(AttributeError))
      else
        var top1 := UpdateStartSpec(v.top.value, moved.0, moved.1, dumps);
        if top1.1.Err? then (v.(top := Some(top1.0)), top1.1)
        else if v.base.None? then (v.(top := Some(top1.0)), Err(AttributeError))
        else
          match Height(v.base.value.info.layers, ByFile)
          case Err(e) => (v.(top := Some(top1.0)), Err(e))
          case Ok(z) =>
            var top2 := UpdateZSpec(top1.0, z, dumps);
            if top2.1.Err? then (v.(top := Some(top2.0)), top2.1)
            else
              var base1 := UpdateStartSpec(v.base.value, moved.0, moved.1, dumps);
              (v.(top := Some(top2.0), base := Some(base1.0)), base1.1)
  }

  /** `read_values` on a job with a `PositionInMM`. */
  function Axes(info: Info): (real, real)
    requires info.position.Some?
  {
    Pcbj.ReadValues(info).value
  }

  /** The base job loaded as `base_file_load` loads it: `read_values`
      gives (GroupAxis, PrintAxis) and the tuple is unpacked into
      `(print_start_pos, group_start_pos)`, so each start holds the other
      axis. */
  function Loaded(base: Reader, top: Option<Reader>): Viewer
    requires base.info.position.Some?
  {
    var axes := Axes(base.info);
    Viewer(Some(base.(groupAxis := Some(axes.0), printAxis := Some(axes.1))), top, Some(axes.1), Some(axes.0))
  }

  /** `zip_file.read(name)`: the data of the last entry so named; KeyError
      when no entry has that name. */
  function ReadEntry(disk: seq<Entry>, name: string): Result<string>
  {
    match LastData(disk, name)
    case None => Err(KeyError)
    case Some(d) => Ok(d)
  }

  /** What `read_last_image` reads for the two pictures it combines: the
      `File`s of the first two separations of `Layers[len(Layers) - 2]`,
      each read from the archive, or None for an empty `File`, which
      becomes a black picture of the other's size. When both are empty it
      reads the entry named ''. */
  function LastImageData(info: Info, disk: seq<Entry>): (r: Result<(Option<string>, Option<string>)>)
    ensures r.Err? ==> r.error == IndexError || r.error == KeyError
    ensures r.Ok? ==> r.value.0.Some? || r.value.1.Some?
  {
    match PyIndex(info.layers, |info.layers| - 2)
    case Err(e) => Err(e)
    case Ok(layer) =>
      if |layer.separations| < 2 then Err(IndexError)
      else
        var f1, f2 := layer.separations[0].file, layer.separations[1].file;
        if f1 != "" && f2 != "" then
          match ReadEntry(disk, f1)
          case Err(e) => Err(e)
          case Ok(d1) =>
            match ReadEntry(disk, f2)
            case Err(e) => Err(e)
            case Ok(d2) => Ok((Some(d1), Some(d2)))
        else if f1 == "" then
          match ReadEntry(disk, f2)
          case Err(e) => Err(e)
          case Ok(d2) => Ok((None, Some(d2)))
        else
          match ReadEntry(disk, f1)
          case Err(e) => Err(e)
          case Ok(d1) => Ok((Some(d1), None))
  }

  /** `read_last_image` reads the second-to-last layer, or the only layer
      of a one-layer job. It fails with IndexError exactly when there is no
      layer or that layer has fewer than two separations, and otherwise
      succeeds exactly when every `File` it reads names an entry: the
      second's alone when the first's is empty, the first's alone when only
      the second's is, both otherwise. Each picture is then the data the
      archive holds under its `File`. */
  lemma LastImageWhen(info: Info, disk: seq<Entry>)
    ensures |info.layers| == 0 ==> LastImageData(info, disk) == Err(IndexError)
    ensures |info.layers| > 0 ==>
      var layer := info.layers[if |info.layers| == 1 then 0 else |info.layers| - 2];
      var r := LastImageData(info, disk);
      (r == Err(IndexError) <==> |layer.separations| < 2) &&
      (|layer.separations| >= 2 ==>
        var f1, f2 := layer.separations[0].file, layer.separations[1].file;
        (r.Ok? <==> (f1 != "" ==> LastData(disk, f1).Some?) && (f1 == "" || f2 != "" ==> LastData(disk, f2).Some?)) &&
        (r.Ok? ==> r.value == (if f1 == "" then None else LastData(disk, f1),
                               if f1 != "" && f2 == "" then None else LastData(disk, f2))))
  {
    if |info.layers| > 0 {
      assert PyIndex(info.layers, |info.layers| - 2) == Ok(info.layers[if |info.layers| == 1 then 0 else |info.layers| - 2]);
    }
  }

  /** Registering the top job after loading the base job: it succeeds
      exactly when the top job has a `PositionInMM` and both jobs have a
      height. Then both jobs get GroupAxis = the base job's old PrintAxis +
      0.036 dx and PrintAxis = its old GroupAxis + 0.03525 dy, the top
      job's layers start on the base job's height, and each archive holds
      its job as last set. */
  lemma Registered(base: Reader, top: Reader, dx: real, dy: real, dumps: (Info, JsonStyle) -> string)
    requires base.info.position.Some?
    ensures var r := SetNewSpec(Loaded(base, Some(top)), dx, dy, dumps);
      r.1.Ok? <==> top.info.position.Some? && Height(base.info.layers, ByFile).Ok? && Height(top.info.layers, ByFile).Ok?
    ensures var r := SetNewSpec(Loaded(base, Some(top)), dx, dy, dumps);
      var axes := Axes(base.info);
      var moved := (axes.1 + dx * 0.036, axes.0 + dy * 0.03525);
      r.1.Ok? ==>
        Pcbj.ReadValues(r.0.top.value.info) == Ok(moved) &&
        Pcbj.ReadValues(r.0.base.value.info) == Ok(moved) &&
        r.0.top.value.info.layers == Restack(top.info.layers, Height(base.info.layers, ByFile).value, ByFile).0 &&
        r.0.top.value.disk == Saved(top.disk, dumps(r.0.top.value.info, Style)) &&
        r.0.base.value.info.layers == base.info.layers &&
        r.0.base.value.disk == Saved(base.disk, dumps(r.0.base.value.info, Style))
  {
    var v := Loaded(base, Some(top));
    var axes := Axes(base.info);
    var moved := Moved(axes.1, axes.0, dx, dy);
    var top1 := UpdateStartSpec(top, moved.0, moved.1, dumps);
    if top1.1.Ok? {
      assert top1.0.info.layers == top.info.layers;
      if Height(base.info.layers, ByFile).Ok? {
        var z := Height(base.info.layers, ByFile).value;
        var top2 := UpdateZSpec(top1.0, z, dumps);
        UpdateZWhen(top1.0, z, dumps);
        if top2.1.Ok? {
          SaveTwice(top.disk, dumps(top1.0.info, Style), dumps(top2.0.info, Style));
          assert Pcbj.ReadValues(top2.0.info) == Pcbj.ReadValues(top1.0.info);
        }
      }
    }
  }

  /** The job archive reader: `info_dict` and the archive on disk at
      `file_path`, which `save` rewrites. */
  class ZipFileReader {
    const path: string
    var info: Info
    var disk: seq<Entry>
    var groupAxis: Option<real>
    var printAxis: Option<real>
    /** The overlay `combine_images` made last, None before. */
    var lastImage: array2?<Rgb>

    function State(): Reader
      reads this
    {
      Reader(info, disk, groupAxis, printAxis)
    }

    constructor (path0: string, disk0: seq<Entry>, info0: Info)
      ensures path == path0 && State() == Reader(info0, disk0, None, None) && lastImage == null
    {
      path := path0;
      info, disk := info0, disk0;
      groupAxis, printAxis := None, None;
      lastImage := null;
    }

    /** `ZipFileReader(file_path)`: the archive opened (or the error opening
      it raised), its `pcbj.info` read, as `ZipFile.open` reads a name, from
      the last entry so named, and decoded by `decode`. */
    static method Open(path: string, archive: Result<seq<Entry>>, decode: string -> Option<Info>) returns (r: Result<ZipFileReader>)
      ensures archive.Err? ==> r == Err(archive.error)
      ensures archive.Ok? && LastData(archive.value, InfoName).None? ==> r == Err(KeyError)
      ensures archive.Ok? && LastData(archive.value, InfoName).Some? && decode(LastData(archive.value, InfoName).value).None? ==>
        r == Err(ArchiveError)
      ensures r.Ok? ==> (archive.Ok? && LastData(archive.value, InfoName).Some? &&
        decode(LastData(archive.value, InfoName).value).Some? && fresh(r.value) && r.value.path == path &&
        r.value.State() == Reader(decode(LastData(archive.value, InfoName).value).value, archive.value, None, None) &&
        r.value.lastImage == null)
    {
      if archive.Err? {
        return Err(archive.error);
      }
      var text := LastData(archive.value, InfoName);
      if text.None? {
        return Err(KeyError);
      }
      var info := decode(text.value);
      if info.None? {
        return Err(ArchiveError);
      }
      var reader := new ZipFileReader(path, archive.value, info.value);
      return Ok(reader);
    }

    /** `get_height`: the height of the stack, each layer adding its first
      separation's thickness when that separation has a `File`, the
      second's otherwise. */
    method GetHeight() returns (r: Result<real>)
      ensures r == Height(info.layers, ByFile)
    {
      var layers := info.layers;
      var currentZ := 0.0;
      assert layers[..0] == [];
      for i := 0 to |layers|
        invariant Height(layers[..i], ByFile) == Ok(currentZ)
      {
        var t := Thickness(layers[i], ByFile);
        if t.Err? {
          HeightFails(layers, ByFile);
          return Err(t.error);
        }
        HeightSnoc(layers[..i], layers[i], ByFile);
        assert layers[..i + 1] == layers[..i] + [layers[i]];
        currentZ := currentZ + t.value;
      }
      assert layers[..|layers|] == layers;
      return Ok(currentZ);
    }

    /** `read_values`: (GroupAxis, PrintAxis), each 0.0 when absent, also
      stored in the reader; KeyError without `PositionInMM`. */
    method ReadValues() returns (r: Result<(real, real)>)
      modifies this
      ensures r == Pcbj.ReadValues(info)
      ensures info == old(info) && disk == old(disk) && lastImage == old(lastImage)
      ensures r.Ok? ==> groupAxis == Some(r.value.0) && printAxis == Some(r.value.1)
      ensures r.Err? ==> groupAxis == old(groupAxis) && printAxis == old(printAxis)
    {
      if info.position.None? {
        return Err(KeyError);
      }
      var p := info.position.value;
      groupAxis := Some(if "GroupAxis" in p then p["GroupAxis"] else 0.0);
      printAxis := Some(if "PrintAxis" in p then p["PrintAxis"] else 0.0);
      return Ok((groupAxis.value, printAxis.value));
    }

    /** `update_start_pos`: GroupAxis then PrintAxis set, then `save`. */
    method UpdateStartPos(groupPos: real, printPos: real, dumps: (Info, JsonStyle) -> string) returns (r: Result<()>)
      modifies this
      ensures (State(), r) == UpdateStartSpec(old(State()), groupPos, printPos, dumps)
      ensures lastImage == old(lastImage)
    {
      if info.position.None? {
        return Err(KeyError);
      }
      info := info.(position := Some(info.position.value["GroupAxis" := groupPos]));
      info := info.(position := Some(info.position.value["PrintAxis" := printPos]));
      Save(dumps);
      return Ok(());
    }

    /** `update_z_start_pos`: the layers placed by the loop are the job's
      own dictionaries, so `info` keeps every start written so far even when
      a layer's thickness cannot be read; `save` once every layer is done. */
    method UpdateZStartPos(z: real, dumps: (Info, JsonStyle) -> string) returns (r: Result<()>)
      modifies this
      ensures (State(), r) == UpdateZSpec(old(State()), z, dumps)
      ensures lastImage == old(lastImage)
    {
      var layers, t := PlaceLayers(info.layers, z, ByFile);
      UpdateZLeaves(old(State()), z, dumps, layers, t);
      info := info.(layers := layers);
      if t.Err? {
        return Err(t.error);
      }
      Save(dumps);
      return Ok(());
    }

    /** `save`: every entry not named `pcbj.info` copied, in order, with the
      data the archive reads under its name, then the job written as
      `pcbj.info`. */
    method Save(dumps: (Info, JsonStyle) -> string)
      modifies this
      ensures State() == old(State()).(disk := Saved(old(disk), dumps(info, Style)))
      ensures lastImage == old(lastImage)
    {
      var written: seq<Entry> := [];
      for i := 0 to |disk|
        invariant written == Copied(disk, i)
      {
        var name := disk[i].name;
        if name != InfoName {
          var data := LastData(disk, name);
          written := written + [Entry(name, data.value)];
        }
      }
      disk := written + [Entry(InfoName, dumps(info, Style))];
    }

    /** `read_last_image` up to decoding: the data of the two pictures it
      combines, None for the black one. */
    method ReadLastImage() returns (r: Result<(Option<string>, Option<string>)>)
      ensures r == LastImageData(info, disk)
    {
      var layer := PyIndex(info.layers, |info.layers| - 2);
      if layer.Err? {
        return Err(layer.error);
      }
      var seps := layer.value.separations;
      if |seps| < 2 {
        return Err(IndexError);
      }
      var f1, f2 := seps[0].file, seps[1].file;
      var d1: Option<string> := None;
      var d2: Option<string> := None;
      if f1 != "" {
        d1 := LastData(disk, f1);
        if d1.None? {
          return Err(KeyError);
        }
      }
      if f1 == "" || f2 != "" {
        d2 := LastData(disk, f2);
        if d2.None? {
          return Err(KeyError);
        }
      }
      return Ok((d1, d2));
    }

    /** `combine_images(image1, image2, 1)`: the overlay kept as the last
      image. */
    method CombineImages(image1: array2<Rgb>, image2: array2<Rgb>)
      modifies this
      ensures State() == old(State())
      ensures lastImage != null && fresh(lastImage) && Overlaid(lastImage, image1, image2)
    {
      lastImage := Combine(image1, image2);
    }
  }

  /** The registration window: the base job's reader, the top job's reader
      and the start position read from the base job. */
  class ImageViewer {
    var fileReader: ZipFileReader?
    var zipReader: ZipFileReader?
    var printStartPos: Option<real>
    var groupStartPos: Option<real>

    /** Each load makes a reader of its own. */
    predicate Valid()
      reads this
    {
      fileReader == null || fileReader != zipReader
    }

    function StateOf(reader: ZipFileReader?): Option<Reader>
      reads reader
    {
      if reader == null then None else Some(reader.State())
    }

    function State(): Viewer
      reads this, fileReader, zipReader
    {
      Viewer(StateOf(fileReader), StateOf(zipReader), groupStartPos, printStartPos)
    }

    constructor ()
      ensures Valid() && State() == Viewer(None, None, None, None)
    {
      fileReader, zipReader := null, null;
      printStartPos, groupStartPos := None, None;
    }

    /** `base_file_load` with the chosen archive opened as `reader`: its
      axes read and unpacked swapped into the two starts, then the two
      pictures read as `read_last_image` picks them. */
    method BaseFileLoad(reader: ZipFileReader) returns (r: Result<(Option<string>, Option<string>)>)
      requires Valid() && reader != zipReader
      modifies this, reader
      ensures Valid() && fileReader == reader && zipReader == old(zipReader)
      ensures old(reader.info).position.None? ==> (r == Err(KeyError) && reader.State() == old(reader.State()) &&
        printStartPos == old(printStartPos) && groupStartPos == old(groupStartPos))
      ensures old(reader.info).position.Some? ==>
        State() == Loaded(old(reader.State()), old(StateOf(zipReader))) && r == LastImageData(old(reader.info), old(reader.disk))
      ensures reader.lastImage == old(reader.lastImage)
    {
      fileReader := reader;
      var values := reader.ReadValues();
      if values.Err? {
        return Err(values.error);
      }
      printStartPos, groupStartPos := Some(values.value.0), Some(values.value.1);
      r := reader.ReadLastImage();
    }

    /** `viewer.load_top_file` with the chosen archive opened as
      `reader`. */
    method LoadTopFile(reader: ZipFileReader)
      requires Valid() && reader != fileReader
      modifies this
      ensures Valid() && zipReader == reader && fileReader == old(fileReader)
      ensures printStartPos == old(printStartPos) && groupStartPos == old(groupStartPos)
    {
      zipReader := reader;
    }

    /** `set_new_start_position`, step by step. */
    method SetNewStartPosition(dx: real, dy: real, dumps: (Info, JsonStyle) -> string) returns (r: Result<()>)
      requires Valid()
      modifies fileReader, zipReader
      ensures (State(), r) == SetNewSpec(old(State()), dx, dy, dumps)
      ensures fileReader != null ==> fileReader.lastImage == old(fileReader.lastImage)
      ensures zipReader != null ==> zipReader.lastImage == old(zipReader.lastImage)
    {
      ghost var v := State();
      ghost var spec := SetNewSpec(v, dx, dy, dumps);
      if groupStartPos.None? || printStartPos.None? {
        return Err(AttributeError);
      }
      var newX := groupStartPos.value + dx * 0.036;
      var newY := printStartPos.value + dy * 0.03525;
      if zipReader == null {
        return Err(AttributeError);
      }
      var moved := zipReader.UpdateStartPos(newX, newY, dumps);
      ghost var top1 := UpdateStartSpec(v.top.value, newX, newY, dumps);
      assert zipReader.State() == top1.0 && moved == top1.1;
      if moved.Err? {
        assert spec == (State(), moved);
        return moved;
      }
      if fileReader == null {
        assert spec == (State(), Err(AttributeError));
        return Err(AttributeError);
      }
      var z := fileReader.GetHeight();
      if z.Err? {
        assert spec == (State(), Err(z.error));
        return Err(z.error);
      }
      var stacked := zipReader.UpdateZStartPos(z.value, dumps);
      if stacked.Err? {
        assert spec == (State(), stacked);
        return stacked;
      }
      r := fileReader.UpdateStartPos(newX, newY, dumps);
      assert spec == (State(), r);
    }

    /** `update` with the top picture at `top` (None when no top job is
      shown) over a base picture `baseHeight` high. */
    method Update(top: Option<Placement>, baseHeight: real, dumps: (Info, JsonStyle) -> string) returns (r: Result<()>)
      requires Valid()
      modifies fileReader, zipReader
      ensures top.None? ==> r == Ok(()) && State() == old(State())
      ensures top.Some? ==> var d := Offsets(top.value, baseHeight);
        (State(), r) == SetNewSpec(old(State()), d.0, d.1, dumps)
      ensures fileReader != null ==> fileReader.lastImage == old(fileReader.lastImage)
      ensures zipReader != null ==> zipReader.lastImage == old(zipReader.lastImage)
    {
      if top.None? {
        return Ok(());
      }
      var d := Offsets(top.value, baseHeight);
      r := SetNewStartPosition(d.0, d.1, dumps);
    }
  }
}
