/** The arithmetic both registration viewers share: where the top picture
    was dragged to, as pixel offsets, and the start position those offsets
    move a job to. */
module Registration {

  /** Millimetres per pixel along the group axis and along the print
      axis. */
  const GroupMmPerPixel := 0.036
  const PrintMmPerPixel := 0.03525

  /** Where the top picture sits in the scene: the position of its top-left
      corner and the height of its bounding rectangle. */
  datatype Placement = Placement(x: real, y: real, height: real)

  /** `update`: how far the bottom-left corner of the top picture lies from
      the bottom-left corner of the base picture `(0, baseHeight)`, per axis,
      as distances. */
  function Offsets(top: Placement, baseHeight: real): (r: (real, real))
    ensures r.0 >= 0.0 && (r.0 == top.x || r.0 == -top.x)
    ensures var dy := top.y + top.height - baseHeight; r.1 >= 0.0 && (r.1 == dy || r.1 == -dy)
  {
    var dx := top.x - 0.0;
    var dy := top.y + top.height - baseHeight;
    (if dx < 0.0 then -dx else dx, if dy < 0.0 then -dy else dy)
  }

  /** `set_new_start_position`: the start (GroupAxis, PrintAxis) moved by
      the offsets. */
  function Moved(groupStart: real, printStart: real, dx: real, dy: real): (real, real)
  {
    (groupStart + dx * GroupMmPerPixel, printStart + dy * PrintMmPerPixel)
  }
}
