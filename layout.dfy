/** Canvas sizes and tile rectangles of the two layouts. */
module Layout {
  import opened ViewState

  /** An axis-aligned rectangle of pixels: columns x .. x+width-1, rows
      y .. y+height-1. */
  datatype Rect = Rect(x: int, y: int, width: nat, height: nat) {
    predicate Contains(px: int, py: int) {
      x <= px < x + width && y <= py < y + height
    }
  }

  /** An image size, rows first as OpenCV gives it. */
  datatype Size = Size(rows: nat, cols: nat)

  /** The canvas of a layout for captures `w` wide and `h` high. */
  function CanvasSize(mode: ViewMode, w: nat, h: nat): (c: Size)
    ensures c.cols == 2 * w
    ensures c.rows * c.cols == |Tiles(mode, w, h)| * (w * h)
  {
    match mode
    case Analytics4Q => Size(2 * h, 2 * w)
    case SideBySide => Size(h, 2 * w)
  }

  /** The tiles, in copy order: feed 0, feed 1, then (four-quadrant layout
      only) the difference frame and the chart. */
  function Tiles(mode: ViewMode, w: nat, h: nat): (ts: seq<Rect>)
    ensures |ts| == if mode == Analytics4Q then 4 else 2
    ensures forall i :: 0 <= i < |ts| ==> ts[i].width == w && ts[i].height == h
    ensures ts[0].x == 0 && ts[0].y == 0
  {
    match mode
    case Analytics4Q => [Rect(0, 0, w, h), Rect(w, 0, w, h), Rect(0, h, w, h), Rect(w, h, w, h)]
    case SideBySide => [Rect(0, 0, w, h), Rect(w, 0, w, h)]
  }

  /** The tile a canvas pixel falls in: left or right by column, and in the
      four-quadrant layout top or bottom by row. */
  function TileIndex(mode: ViewMode, w: nat, h: nat, px: int, py: int): nat {
    (if px < w then 0 else 1) + (if mode == Analytics4Q && py >= h then 2 else 0)
  }

  predicate InCanvas(r: Rect, c: Size) {
    0 <= r.x && r.x + r.width <= c.cols && 0 <= r.y && r.y + r.height <= c.rows
  }

  /** Canvas sizes as the window sets them up: twice the capture width in
      both layouts, twice the capture height only with four quadrants. */
  lemma CanvasSizes(w: nat, h: nat)
    ensures CanvasSize(Analytics4Q, w, h) == Size(2 * h, 2 * w)
    ensures CanvasSize(SideBySide, w, h) == Size(h, 2 * w)
    ensures |Tiles(Analytics4Q, w, h)| == 4 && |Tiles(SideBySide, w, h)| == 2
  {
  }

  /** The tiles partition the canvas: each is a capture-sized rectangle
      inside it, and each canvas pixel lies in exactly one tile, the one
      `TileIndex` names. */
  lemma TilesPartitionCanvas(mode: ViewMode, w: nat, h: nat)
    ensures var ts := Tiles(mode, w, h);
      var c := CanvasSize(mode, w, h);
      (forall i :: 0 <= i < |ts| ==> InCanvas(ts[i], c) && ts[i].width == w && ts[i].height == h) &&
      (forall px, py, i :: 0 <= px < c.cols && 0 <= py < c.rows && 0 <= i < |ts| ==>
        (ts[i].Contains(px, py) <==> i == TileIndex(mode, w, h, px, py))) &&
      (forall px, py :: 0 <= px < c.cols && 0 <= py < c.rows ==>
        TileIndex(mode, w, h, px, py) < |ts|) &&
      (forall px, py, i :: 0 <= i < |ts| && ts[i].Contains(px, py) ==>
        0 <= px < c.cols && 0 <= py < c.rows)
  {
  }
}
