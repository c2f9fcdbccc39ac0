/** Camera frames, reduced to what the tick logic looks at: their shape. */
module Frames {
  /** A frame of `rows` x `cols` pixels with `channels` samples each. */
  datatype Frame = Frame(rows: nat, cols: nat, channels: nat)

  /** A frame with no pixels, which is how a failed capture shows up. */
  predicate IsEmpty(f: Frame) {
    f.rows == 0 || f.cols == 0
  }

  /** The channel counts the BGR-to-gray conversion accepts. */
  predicate Convertible(f: Frame) {
    f.channels == 1 || f.channels == 3 || f.channels == 4
  }

  /** A one-channel frame of the same size; a frame that already has one
      channel is returned as it is. */
  function EnsureGray(f: Frame): (g: Frame)
    requires Convertible(f)
    ensures g.channels == 1 && g.rows == f.rows && g.cols == f.cols
    ensures f.channels == 1 ==> g == f
  {
    if f.channels == 1 then f else BgrToGray(f)
  }

  /** The BGR-to-gray conversion, which accepts three or four channels only. */
  function BgrToGray(f: Frame): (g: Frame)
    requires f.channels == 3 || f.channels == 4
    ensures g.rows == f.rows && g.cols == f.cols && g.channels == 1
  {
    Frame(f.rows, f.cols, 1)
  }

  /** Resamples to `w` x `h` only when the size differs. */
  function FitToCapture(g: Frame, w: nat, h: nat): (r: Frame)
    ensures r.rows == h && r.cols == w && r.channels == g.channels
    ensures g.rows == h && g.cols == w ==> r == g
  {
    if g.cols != w || g.rows != h then Frame(h, w, g.channels) else g
  }

  /** Gray-to-BGR conversion for display. */
  function GrayToBgr(g: Frame): (r: Frame)
    requires g.channels == 1
    ensures r.rows == g.rows && r.cols == g.cols && r.channels == 3
  {
    Frame(g.rows, g.cols, 3)
  }

  /** The per-pixel absolute difference of two frames of one shape. */
  function AbsDiff(a: Frame, b: Frame): (d: Frame)
    requires a == b
    ensures d == a
  {
    a
  }

  /** A frame on its way into scoring: gray, at the capture size. */
  function Normalized(f: Frame, w: nat, h: nat): (g: Frame)
    requires Convertible(f)
    ensures g.rows == h && g.cols == w && g.channels == 1
    ensures f.rows == h && f.cols == w && f.channels == 1 ==> g == f
  {
    FitToCapture(EnsureGray(f), w, h)
  }
}
