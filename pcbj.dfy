/** The print job archive (`.pcbjc`) as the registration tool sees it: a
    sequence of named entries, one of them `pcbj.info`, the JSON job
    description whose layers and start position the tool rewrites. */
module Pcbj {
  import opened Py

  const InfoName := "pcbj.info"

  /** One separation of a layer: its image `File` (empty or null when the
      layer has no image for it) and its `LayerThicknessUM`; the other keys
      are carried along unread. */
  datatype Separation = Separation(file: string, thickness: real, rest: map<string, string>)

  /** A layer: `LayerStartPosZInUM` (absent until first set), its
      `Separations` and the keys the tool does not touch. */
  datatype Layer = Layer(startZ: Option<real>, separations: seq<Separation>, rest: map<string, string>)

  /** The decoded `pcbj.info`: `Layers`, the `PositionInMM` object (None
      when the key is missing) and the other keys. */
  datatype Info = Info(layers: seq<Layer>, position: Option<map<string, real>>, rest: map<string, string>)

  /** One archive member: its name and its data. */
  datatype Entry = Entry(name: string, data: string)

  // ---------------------------------------------------------------------------
  // Layer thickness, stack height and z start positions

  /** Which separation gives a layer its thickness: the first when its
      `File` is set and the second otherwise, or always the first. */
  datatype Stacking = ByFile | FirstSeparation

  /** The thickness a layer adds to the stack; IndexError when the
      separation it needs is missing. */
  function Thickness(l: Layer, how: Stacking): (r: Result<real>)
    ensures r.Err? ==> r.error == IndexError
    ensures r.Ok? ==> |l.separations| > 0 && (how == ByFile && l.separations[0].file == "" ==> |l.separations| > 1)
    ensures r.Ok? && (how == FirstSeparation || l.separations[0].file != "") ==> r.value == l.separations[0].thickness
    ensures r.Ok? && how == ByFile && l.separations[0].file == "" ==> r.value == l.separations[1].thickness
    ensures r.Err? <==> |l.separations| == 0 || (how == ByFile && l.separations[0].file == "" && |l.separations| == 1)
  {
    if |l.separations| == 0 then Err(IndexError)
    else if how == ByFile && l.separations[0].file == "" then
      if |l.separations| < 2 then Err(IndexError) else Ok(l.separations[1].thickness)
    else Ok(l.separations[0].thickness)
  }

  /** The sum of the layers' thicknesses, taken from the first layer on;
      the first layer without the separation it needs raises IndexError. */
  function Height(ls: seq<Layer>, how: Stacking): (r: Result<real>)
    ensures r.Err? ==> r.error == IndexError
  {
    if ls == [] then Ok(0.0)
    else
      match Thickness(ls[0], how)
      case Err(e) => Err(e)
      case Ok(t) =>
        match Height(ls[1..], how)
        case Err(e) => Err(e)
        case Ok(h) => Ok(t + h)
  }

  /** `acc` added to a height, errors passed on. */
  function Plus(acc: real, r: Result<real>): Result<real>
  {
    match r
    case Ok(h) => Ok(acc + h)
    case Err(e) => Err(e)
  }

  /** The stack fails exactly when some layer lacks the separation it
      needs. */
  lemma {:induction false} HeightFails(ls: seq<Layer>, how: Stacking)
    ensures Height(ls, how).Err? <==> exists i :: 0 <= i < |ls| && Thickness(ls[i], how).Err?
  {
    if ls != [] {
      HeightFails(ls[1..], how);
      if Thickness(ls[0], how).Ok? {
        if exists i :: 0 <= i < |ls| && Thickness(ls[i], how).Err? {
          var i :| 0 <= i < |ls| && Thickness(ls[i], how).Err?;
          assert ls[1..][i - 1] == ls[i];
        }
        forall i | 0 <= i < |ls| - 1 && Thickness(ls[1..][i], how).Err?
          ensures exists i :: 0 <= i < |ls| && Thickness(ls[i], how).Err?
        {
          assert ls[1..][i] == ls[i + 1];
        }
      }
    }
  }

  /** Extending a stack by one layer on top adds that layer's thickness. */
  lemma {:induction false} HeightSnoc(ls: seq<Layer>, l: Layer, how: Stacking)
    requires Height(ls, how).Ok? && Thickness(l, how).Ok?
    ensures Height(ls + [l], how) == Ok(Height(ls, how).value + Thickness(l, how).value)
  {
    if ls != [] {
      assert (ls + [l])[1..] == ls[1..] + [l];
      HeightSnoc(ls[1..], l, how);
    }
  }

  /** `update_z_start_pos`: each layer's `LayerStartPosZInUM` set to the
      running height, starting at `z`; the layers as left and the final
      height. On IndexError the layers up to and including the failing one
      already carry their new start. */
  function Restack(ls: seq<Layer>, z: real, how: Stacking): (r: (seq<Layer>, Result<real>))
    ensures |r.0| == |ls|
    ensures r.1.Err? ==> r.1.error == IndexError
  {
    if ls == [] then ([], Ok(z))
    else
      var first := ls[0].(startZ := Some(z));
      match Thickness(ls[0], how)
      case Err(e) => ([first] + ls[1..], Err(e))
      case Ok(t) =>
        var rest := Restack(ls[1..], z + t, how);
        ([first] + rest.0, rest.1)
  }

  /** Restacking touches only the start position of layer `i`. */
  lemma {:induction false} RestackKeeps(ls: seq<Layer>, z: real, how: Stacking, i: nat)
    requires i < |ls|
    ensures Restack(ls, z, how).0[i].separations == ls[i].separations
    ensures Restack(ls, z, how).0[i].rest == ls[i].rest
  {
    if i > 0 {
      assert ls[1..][i - 1] == ls[i];
      if Thickness(ls[0], how).Ok? {
        RestackKeeps(ls[1..], z + Thickness(ls[0], how).value, how, i - 1);
      }
    }
  }

  /** Restacking succeeds exactly when the stack has a height, and ends at
      `z` plus that height. */
  lemma {:induction false} RestackHeight(ls: seq<Layer>, z: real, how: Stacking)
    ensures Restack(ls, z, how).1 == Plus(z, Height(ls, how))
  {
    if ls != [] && Thickness(ls[0], how).Ok? {
      RestackHeight(ls[1..], z + Thickness(ls[0], how).value, how);
    }
  }

  /** Restacking touches only the start positions, and succeeds exactly
      when the stack has a height, which it then adds to `z`. */
  lemma RestackShape(ls: seq<Layer>, z: real, how: Stacking)
    ensures forall i :: 0 <= i < |ls| ==>
      Restack(ls, z, how).0[i].separations == ls[i].separations && Restack(ls, z, how).0[i].rest == ls[i].rest
    ensures Restack(ls, z, how).1 == Plus(z, Height(ls, how))
  {
    forall i | 0 <= i < |ls|
      ensures Restack(ls, z, how).0[i].separations == ls[i].separations && Restack(ls, z, how).0[i].rest == ls[i].rest
    {
      RestackKeeps(ls, z, how, i);
    }
    RestackHeight(ls, z, how);
  }

  /** Layer `i` of a successful restack starts at `z` plus the height of
      the layers below it, and nothing else about it changes. */
  lemma {:induction false} RestackStartAt(ls: seq<Layer>, z: real, how: Stacking, i: nat)
    requires Height(ls, how).Ok? && i < |ls|
    ensures Height(ls[..i], how).Ok?
    ensures Restack(ls, z, how).0[i] == ls[i].(startZ := Some(z + Height(ls[..i], how).value))
  {
    if i == 0 {
      assert ls[..0] == [];
    } else {
      var t := Thickness(ls[0], how).value;
      RestackStartAt(ls[1..], z + t, how, i - 1);
      assert ls[..i][1..] == ls[1..][..i - 1];
      assert ls[1..][i - 1] == ls[i];
    }
  }

  /** Every layer of a successful restack, as `RestackStartAt` gives it. */
  lemma RestackStarts(ls: seq<Layer>, z: real, how: Stacking)
    requires Height(ls, how).Ok?
    ensures forall i :: 0 <= i < |ls| ==>
      Height(ls[..i], how).Ok? && Restack(ls, z, how).0[i] == ls[i].(startZ := Some(z + Height(ls[..i], how).value))
  {
    forall i | 0 <= i < |ls|
      ensures Height(ls[..i], how).Ok? && Restack(ls, z, how).0[i] == ls[i].(startZ := Some(z + Height(ls[..i], how).value))
    {
      RestackStartAt(ls, z, how, i);
    }
  }

  /** Restacking a stack in two parts: the upper part starts where the
      lower part ended; when the lower part fails, the upper part is left
      as it was. */
  lemma {:induction false} RestackAppend(lower: seq<Layer>, upper: seq<Layer>, z: real, how: Stacking)
    ensures Restack(lower + upper, z, how) == Resume(Restack(lower, z, how), upper, how)
  {
    if lower == [] {
      assert lower + upper == upper;
      var r := Restack(upper, z, how);
      assert [] + r.0 == r.0;
    } else {
      assert (lower + upper)[0] == lower[0];
      assert (lower + upper)[1..] == lower[1..] + upper;
      var first := lower[0].(startZ := Some(z));
      if Thickness(lower[0], how).Ok? {
        var t := Thickness(lower[0], how).value;
        RestackAppend(lower[1..], upper, z + t, how);
        ResumeCons(first, Restack(lower[1..], z + t, how), upper, how);
      } else {
        ResumeCons(first, (lower[1..], Thickness(lower[0], how)), upper, how);
      }
    }
  }

  lemma ResumeCons(first: Layer, r: (seq<Layer>, Result<real>), upper: seq<Layer>, how: Stacking)
    ensures Resume(([first] + r.0, r.1), upper, how) == ([first] + Resume(r, upper, how).0, Resume(r, upper, how).1)
  {
    if r.1.Ok? {
      var u := Restack(upper, r.1.value, how).0;
      assert [first] + (r.0 + u) == ([first] + r.0) + u;
    } else {
      assert [first] + (r.0 + upper) == ([first] + r.0) + upper;
    }
  }

  /** The restack of `upper` put after the restack `r` of the layers below
      it. */
  function Resume(r: (seq<Layer>, Result<real>), upper: seq<Layer>, how: Stacking): (seq<Layer>, Result<real>)
  {
    if r.1.Ok? then
      var u := Restack(upper, r.1.value, how);
      (r.0 + u.0, u.1)
    else (r.0 + upper, r.1)
  }

  /** A single layer starts at `z` and ends `z` plus its thickness up. */
  lemma RestackOne(l: Layer, z: real, how: Stacking)
    ensures Restack([l], z, how) == ([l.(startZ := Some(z))], Plus(z, Thickness(l, how)))
  {
    var ls := [l];
    assert ls[0] == l && ls[1..] == [];
    match Thickness(l, how)
    case Err(e) =>
      assert Restack(ls, z, how) == ([l.(startZ := Some(z))] + ls[1..], Err(e));
      assert [l.(startZ := Some(z))] + ls[1..] == [l.(startZ := Some(z))];
      assert Plus(z, Thickness(l, how)) == Err(e);
    case Ok(t) =>
      assert Restack(ls[1..], z + t, how) == ([], Ok(z + t));
      assert Restack(ls, z, how) == ([l.(startZ := Some(z))] + Restack(ls[1..], z + t, how).0, Ok(z + t));
      assert [l.(startZ := Some(z))] + [] == [l.(startZ := Some(z))];
      assert Plus(z, Thickness(l, how)) == Ok(z + t);
  }

  /** One more layer of a restack in progress: it starts where the layers
      below it ended; when it lacks its separation the restack stops there
      and the layers above it stay as they were. */
  lemma RestackNext(ls: seq<Layer>, i: nat, z: real, how: Stacking)
    requires i < |ls| && Restack(ls[..i], z, how).1.Ok?
    ensures var r := Restack(ls[..i], z, how); var placed := ls[i].(startZ := Some(r.1.value));
      Restack(ls[..i + 1], z, how) == (r.0 + [placed], Plus(r.1.value, Thickness(ls[i], how))) &&
      (Thickness(ls[i], how).Err? ==> Restack(ls, z, how) == (r.0 + [placed] + ls[i + 1..], Thickness(ls[i], how)))
  {
    var r := Restack(ls[..i], z, how);
    var placed := ls[i].(startZ := Some(r.1.value));
    assert ls[..i + 1] == ls[..i] + [ls[i]];
    assert [ls[i]][1..] == [];
    RestackOne(ls[i], r.1.value, how);
    RestackAppend(ls[..i], [ls[i]], z, how);
    if Thickness(ls[i], how).Err? {
      assert ls == ls[..i + 1] + ls[i + 1..];
      RestackAppend(ls[..i + 1], ls[i + 1..], z, how);
    }
  }

  /** The loop of `update_z_start_pos` before layer `i`, on the list it
      updates in place: the layers below `i` restacked from `z`, ending at
      `current`, and the others as they were. */
  predicate RestackedBelow(ls: seq<Layer>, i: nat, z: real, how: Stacking, layers: seq<Layer>, current: real)
  {
    i <= |ls| && Restack(ls[..i], z, how).1 == Ok(current) && layers == Restack(ls[..i], z, how).0 + ls[i..]
  }

  /** Before the loop nothing is restacked. */
  lemma RestackedNone(ls: seq<Layer>, z: real, how: Stacking)
    ensures RestackedBelow(ls, 0, z, how, ls, z)
  {
    assert ls[..0] == [] && ls[0..] == ls;
  }

  /** Layer `i` gets start `current`; then either the loop goes on from
      `current` plus its thickness, or the restack stops with this list. */
  lemma RestackedNext(ls: seq<Layer>, i: nat, z: real, how: Stacking, layers: seq<Layer>, current: real)
    requires i < |ls| && RestackedBelow(ls, i, z, how, layers, current)
    ensures var placed := layers[i].(startZ := Some(current)); var t := Thickness(placed, how);
      t == Thickness(ls[i], how) &&
      (t.Ok? ==> RestackedBelow(ls, i + 1, z, how, layers[i := placed], current + t.value)) &&
      (t.Err? ==> Restack(ls, z, how) == (layers[i := placed], t))
  {
    var below := Restack(ls[..i], z, how).0;
    var placed := layers[i].(startZ := Some(current));
    assert layers[i] == ls[i];
    RestackNext(ls, i, z, how);
    assert layers[i := placed] == below + [placed] + ls[i + 1..];
  }

  /** After the last layer the list is the restack. */
  lemma RestackedAll(ls: seq<Layer>, z: real, how: Stacking, layers: seq<Layer>, current: real)
    requires RestackedBelow(ls, |ls|, z, how, layers, current)
    ensures Restack(ls, z, how) == (layers, Ok(current))
  {
    assert ls[..|ls|] == ls && ls[|ls|..] == [];
    assert Restack(ls, z, how).0 + [] == Restack(ls, z, how).0;
  }

  /** The loop of `update_z_start_pos` over the job's layers: each layer
      given the running height as its start before its thickness is read,
      stopping at the first layer without the separation it needs. */
  method PlaceLayers(ls: seq<Layer>, z: real, how: Stacking) returns (layers: seq<Layer>, t: Result<real>)
    ensures (layers, t) == Restack(ls, z, how)
  {
    layers := ls;
    var currentZ := z;
    RestackedNone(ls, z, how);
    for i := 0 to |ls|
      invariant RestackedBelow(ls, i, z, how, layers, currentZ)
    {
      var placed := layers[i].(startZ := Some(currentZ));
      RestackedNext(ls, i, z, how, layers, currentZ);
      layers := layers[i := placed];
      t := Thickness(placed, how);
      if t.Err? {
        return;
      }
      currentZ := currentZ + t.value;
    }
    RestackedAll(ls, z, how, layers, currentZ);
    t := Ok(currentZ);
  }

  /** The index of the first layer without the separation it needs. */
  lemma {:induction false} RestackStops(ls: seq<Layer>, z: real, how: Stacking, k: nat)
    requires k < |ls| && Thickness(ls[k], how).Err?
    requires forall j :: 0 <= j < k ==> Thickness(ls[j], how).Ok?
    ensures Restack(ls, z, how).1 == Err(IndexError)
    ensures forall i :: 0 <= i <= k ==> Restack(ls, z, how).0[i].startZ.Some?
    ensures Restack(ls, z, how).0[k + 1..] == ls[k + 1..]
  {
    if k > 0 {
      var t := Thickness(ls[0], how).value;
      forall j | 0 <= j < k - 1
        ensures Thickness(ls[1..][j], how).Ok?
      {
        assert ls[1..][j] == ls[j + 1];
      }
      assert ls[1..][k - 1] == ls[k];
      RestackStops(ls[1..], z + t, how, k - 1);
      var r := Restack(ls, z, how);
      forall i | 0 < i <= k
        ensures r.0[i].startZ.Some?
      {
        assert r.0[i] == Restack(ls[1..], z + t, how).0[i - 1];
      }
      assert r.0[k + 1..] == Restack(ls[1..], z + t, how).0[k..];
      assert ls[1..][k..] == ls[k + 1..];
    }
  }

  // ---------------------------------------------------------------------------
  // `save`: the archive rewritten with a new `pcbj.info`

  /** The data `ZipFile.open(name)` reads: that of the last entry so
      named. */
  function LastData(es: seq<Entry>, name: string): (d: Option<string>)
    ensures d.None? <==> forall i :: 0 <= i < |es| ==> es[i].name != name
  {
    if es == [] then None
    else if es[|es| - 1].name == name then Some(es[|es| - 1].data)
    else LastData(es[..|es| - 1], name)
  }

  /** How `json.dumps` lays the job description out: `indent=4`, or on one
      line. The text itself is a parameter of the model. */
  datatype JsonStyle = Indented(spaces: nat) | Compact

  /** What the copying loop of `save` has written after the first `n`
      names: each name other than `pcbj.info`, in order, with the data the
      archive holds under it. */
  function Copied(all: seq<Entry>, n: nat): (out: seq<Entry>)
    requires n <= |all|
    ensures forall i :: 0 <= i < |out| ==> out[i].name != InfoName
    ensures forall i :: 0 <= i < |out| ==> LastData(all, out[i].name) == Some(out[i].data)
  {
    if n == 0 then []
    else
      var e := all[n - 1];
      Copied(all, n - 1) + (if e.name != InfoName then [Entry(e.name, LastData(all, e.name).value)] else [])
  }

  /** The archive `save` leaves behind: the copied entries, then one
      `pcbj.info` holding `text`. */
  function Saved(all: seq<Entry>, text: string): seq<Entry>
  {
    Copied(all, |all|) + [Entry(InfoName, text)]
  }

  /** The entries other than `pcbj.info`, in order. */
  function Others(es: seq<Entry>): seq<Entry>
  {
    if es == [] then []
    else Others(es[..|es| - 1]) + (if es[|es| - 1].name != InfoName then [es[|es| - 1]] else [])
  }

  predicate DistinctNames(es: seq<Entry>)
  {
    forall i, j :: 0 <= i < j < |es| ==> es[i].name != es[j].name
  }

  /** With distinct names each copied entry is the entry itself. */
  lemma LastDataDistinct(es: seq<Entry>, k: nat)
    requires DistinctNames(es) && k < |es|
    ensures LastData(es, es[k].name) == Some(es[k].data)
  {
    if k < |es| - 1 {
      LastDataDistinct(es[..|es| - 1], k);
    }
  }

  /** On an archive with distinct names `save` keeps every other entry as it
      was, in order, and puts exactly one `pcbj.info` at the end. */
  lemma {:induction false} SavedDistinct(all: seq<Entry>, n: nat)
    requires DistinctNames(all) && n <= |all|
    ensures Copied(all, n) == Others(all[..n])
  {
    if n > 0 {
      SavedDistinct(all, n - 1);
      LastDataDistinct(all, n - 1);
      assert all[..n][..n - 1] == all[..n - 1];
    }
  }

  /** Whatever the archive, the saved one ends in the new `pcbj.info` and
      holds no other; its other names are the old ones in order. */
  lemma SavedShape(all: seq<Entry>, text: string)
    ensures var s := Saved(all, text);
      s[|s| - 1] == Entry(InfoName, text) && forall i :: 0 <= i < |s| - 1 ==> s[i].name != InfoName
  {
  }

  /** Two entries named alike: `save` writes the name twice, both times
      with the data of the later one. */
  lemma DuplicateCopiedTwice(a: string, b: string)
    requires a != b
    ensures Saved([Entry("img", a), Entry("img", b)], "{}") ==
      [Entry("img", b), Entry("img", b), Entry(InfoName, "{}")]
  {
    var all := [Entry("img", a), Entry("img", b)];
    assert all[..1] == [Entry("img", a)];
    assert LastData(all, "img") == Some(b);
    assert Copied(all, 1) == [Entry("img", b)];
  }

  /** A `pcbj.info` entry appended after the copied ones changes nothing
      in what the copying loop writes for them. */
  lemma {:induction false} CopiedBeforeInfo(es: seq<Entry>, text: string, n: nat)
    requires n <= |es|
    ensures Copied(es + [Entry(InfoName, text)], n) == Copied(es, n)
  {
    if n > 0 {
      CopiedBeforeInfo(es, text, n - 1);
      var e := es[n - 1];
      assert (es + [Entry(InfoName, text)])[n - 1] == e;
      if e.name != InfoName {
        assert (es + [Entry(InfoName, text)])[..|es|] == es;
      }
    }
  }

  /** In a sequence whose every entry holds the data its name is given in
      `all`, looking a name up gives that data. */
  lemma {:induction false} LastDataAgrees(all: seq<Entry>, es: seq<Entry>, k: nat)
    requires forall i :: 0 <= i < |es| ==> LastData(all, es[i].name) == Some(es[i].data)
    requires k < |es|
    ensures LastData(es, es[k].name) == Some(es[k].data)
  {
    if es[|es| - 1].name != es[k].name {
      var front := es[..|es| - 1];
      assert front[k] == es[k];
      LastDataAgrees(all, front, k);
    }
  }

  /** Copying entries that are already copies gives them back. */
  lemma {:induction false} CopiedCopies(es: seq<Entry>, n: nat)
    requires forall i :: 0 <= i < |es| ==> es[i].name != InfoName && LastData(es, es[i].name) == Some(es[i].data)
    requires n <= |es|
    ensures Copied(es, n) == es[..n]
  {
    if n > 0 {
      CopiedCopies(es, n - 1);
      assert es[..n] == es[..n - 1] + [es[n - 1]];
    }
  }

  /** Saving twice leaves what saving once with the later text leaves:
      the first save's copies are copied unchanged and its `pcbj.info`
      is dropped. */
  lemma SaveTwice(all: seq<Entry>, first: string, second: string)
    ensures Saved(Saved(all, first), second) == Saved(all, second)
  {
    var copies := Copied(all, |all|);
    forall k | 0 <= k < |copies|
      ensures copies[k].name != InfoName && LastData(copies, copies[k].name) == Some(copies[k].data)
    {
      LastDataAgrees(all, copies, k);
    }
    CopiedCopies(copies, |copies|);
    CopiedBeforeInfo(copies, first, |copies|);
    var once := Saved(all, first);
    assert once[|once| - 1].name == InfoName;
    assert Copied(once, |once|) == Copied(once, |copies|);
    assert copies[..|copies|] == copies;
  }

  /** The entry second from the end of a saved archive, as
      `filelist[len(filelist) - 2]` picks it: the last copied entry, or the
      new `pcbj.info` itself when nothing else was copied. */
  lemma SecondToLastSaved(all: seq<Entry>, text: string)
    ensures var s := Saved(all, text); var copies := Copied(all, |all|);
      PyIndex(s, |s| - 2) == Ok(if copies == [] then Entry(InfoName, text) else copies[|copies| - 1])
  {
  }

  // ---------------------------------------------------------------------------
  // `PositionInMM`

  /** `read_values`: (GroupAxis, PrintAxis), each 0.0 when absent;
      KeyError without `PositionInMM`. */
  function ReadValues(info: Info): (r: Result<(real, real)>)
    ensures r.Err? <==> info.position.None?
    ensures r.Err? ==> r.error == KeyError
  {
    match info.position
    case None => Err(KeyError)
    case Some(p) =>
      Ok(((if "GroupAxis" in p then p["GroupAxis"] else 0.0), (if "PrintAxis" in p then p["PrintAxis"] else 0.0)))
  }

  /** `update_start_pos` on the dict: GroupAxis and PrintAxis set, nothing
      else in the job changed; KeyError without `PositionInMM`. */
  function SetPosition(info: Info, groupAxis: real, printAxis: real): (r: Result<Info>)
    ensures r.Err? <==> info.position.None?
    ensures r.Ok? ==> r.value.layers == info.layers && r.value.rest == info.rest && r.value.position.Some?
    ensures r.Ok? ==> forall k :: k != "GroupAxis" && k != "PrintAxis" ==>
      (k in r.value.position.value <==> k in info.position.value) &&
      (k in info.position.value ==> r.value.position.value[k] == info.position.value[k])
  {
    match info.position
    case None => Err(KeyError)
    case Some(p) => Ok(info.(position := Some(p["GroupAxis" := groupAxis]["PrintAxis" := printAxis])))
  }

  /** Reading back what was set gives it. */
  lemma SetThenRead(info: Info, groupAxis: real, printAxis: real)
    requires info.position.Some?
    ensures ReadValues(SetPosition(info, groupAxis, printAxis).value) == Ok((groupAxis, printAxis))
  {
  }
}
