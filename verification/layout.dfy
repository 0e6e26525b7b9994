/** The saved record of one window and the layout, an ordered sequence of them. */
module Layout {
  import opened Environment

  /** One saved window. The collector always fills in the four geometry
      fields; a record read back from a layout file may lack any of them,
      hence the options. A missing workspace is -1. */
  datatype WindowRecord = WindowRecord(
    title: string,
    workspace: int,
    monitor: int,
    wmClass: string,
    x: Option<int>,
    y: Option<int>,
    width: Option<int>,
    height: Option<int>)

  type Layout = seq<WindowRecord>

  /** The frame a record asks for, present only when all four fields are. */
  function FrameOf(r: WindowRecord): Option<Rect> {
    if r.x.Some? && r.y.Some? && r.width.Some? && r.height.Some?
    then Some(Rect(r.x.value, r.y.value, r.width.value, r.height.value))
    else None
  }
}
