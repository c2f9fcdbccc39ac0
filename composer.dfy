/** The composite view of one tick: which image is copied into which tile. */
module FrameComposer {
  import opened Wrappers
  import opened Decimal
  import opened Frames
  import opened GraphRenderer
  import opened Layout
  import opened ViewState

  /** An image copied into the canvas: an annotated camera view, the
      difference view, or the history chart. */
  datatype Panel =
    | Annotated(frame: Frame, text: string)
    | Difference(frame: Frame)
    | Chart(graph: GraphImage)

  function PanelSize(p: Panel): Size {
    match p
    case Annotated(f, _) => Size(f.rows, f.cols)
    case Difference(f) => Size(f.rows, f.cols)
    case Chart(g) => Size(g.rows, g.cols)
  }

  datatype Placement = Placement(rect: Rect, panel: Panel)

  /** The canvas shown for a tick and the panels copied into it, in order. */
  datatype Composite = Composite(size: Size, placements: seq<Placement>)

  /** The overlay text of a feed: its percentage and a percent sign. */
  function Label(pct: int): (text: string)
    ensures |text| >= 2 && text[|text| - 1] == '%'
    ensures pct < 0 <==> text[0] == '-'
  {
    IntToString(pct) + "%"
  }

  /** The overlay reads back as the percentage it shows. */
  lemma LabelShowsPercent(pct: int)
    ensures ParseInt(Label(pct)) == Some((pct, "%"))
  {
    ParseIntRoundTrip(pct, "%");
  }

  /** The canvas of `mode` with the panels in their tiles: both feeds in
      either layout, the difference and the chart only with four quadrants. */
  function Compose(mode: ViewMode, w: nat, h: nat,
                   view0: Panel, view1: Panel, diff: Panel, chart: Panel): (c: Composite)
    ensures c.size == CanvasSize(mode, w, h)
    ensures |c.placements| == |Tiles(mode, w, h)|
    ensures forall i :: 0 <= i < |c.placements| ==> c.placements[i].rect == Tiles(mode, w, h)[i]
  {
    var t := Tiles(mode, w, h);
    match mode
    case Analytics4Q =>
      Composite(CanvasSize(mode, w, h),
        [Placement(t[0], view0), Placement(t[1], view1), Placement(t[2], diff), Placement(t[3], chart)])
    case SideBySide =>
      Composite(CanvasSize(mode, w, h), [Placement(t[0], view0), Placement(t[1], view1)])
  }

  /** The panel shown at a canvas pixel: feed 0 on the top left, feed 1 on
      the top right, the difference on the bottom left and the chart on the
      bottom right; side by side, only the two feeds appear. */
  lemma ComposeQuadrants(mode: ViewMode, w: nat, h: nat,
                         view0: Panel, view1: Panel, diff: Panel, chart: Panel,
                         px: int, py: int, i: int)
    requires var c := Compose(mode, w, h, view0, view1, diff, chart);
      0 <= i < |c.placements| && c.placements[i].rect.Contains(px, py)
    ensures var c := Compose(mode, w, h, view0, view1, diff, chart);
      c.placements[i].panel ==
        if py < h then (if px < w then view0 else view1)
        else (if px < w then diff else chart)
    ensures mode == SideBySide ==> py < h
  {
  }

  /** When every panel has the capture size, each copy fills its tile
      exactly, so the tiles, and with them the whole canvas, are painted. */
  lemma ComposeFits(mode: ViewMode, w: nat, h: nat,
                    view0: Panel, view1: Panel, diff: Panel, chart: Panel)
    requires PanelSize(view0) == PanelSize(view1) == PanelSize(diff) == PanelSize(chart) == Size(h, w)
    ensures var c := Compose(mode, w, h, view0, view1, diff, chart);
      forall i :: 0 <= i < |c.placements| ==>
        PanelSize(c.placements[i].panel) == Size(c.placements[i].rect.height, c.placements[i].rect.width)
  {
  }
}
