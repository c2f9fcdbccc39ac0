/** The window's per-tick logic and its state across ticks: the score
    history and the three flags the keyboard flips. */
module Window {
  import opened Wrappers
  import opened ScoreNormalizer
  import opened ScoreHistory
  import opened Frames
  import opened GraphRenderer
  import opened Layout
  import opened ViewState
  import opened FrameComposer

  /** The capture parameters the window is built with (the window's own
      record, distinct from the capture backend's). */
  datatype CaptureParams = CaptureParams(width: int, height: int, fps: int)

  class MainWindow {
    const p0: CaptureParams
    const p1: CaptureParams
    /** Capture size, taken from the first camera's parameters. */
    const capW: nat
    const capH: nat
    /** Window size: twice the capture size in both directions. */
    const dispW: nat
    const dispH: nat

    /** Score pairs, oldest first. */
    var history: seq<ScorePair>
    var freezeHistory: bool
    var showGraph: bool
    var mode: ViewMode

    ghost predicate Valid()
      reads this
    {
      && capW > 0 && capH > 0
      && dispW == 2 * capW && dispH == 2 * capH
      && |history| <= MaxHistory && InRange(history)
    }

    /** The flags a key press can change. */
    function Flags(): Toggles
      reads this
    {
      Toggles(freezeHistory, showGraph, mode)
    }

    /** Sizes from the first camera's parameters; empty history, recording
        on, chart hidden, four-quadrant layout. */
    constructor (p0: CaptureParams, p1: CaptureParams)
      requires p0.width > 0 && p0.height > 0
      ensures Valid()
      ensures this.p0 == p0 && this.p1 == p1
      ensures capW == p0.width && capH == p0.height
      ensures history == [] && Flags() == DefaultToggles
    {
      this.p0 := p0;
      this.p1 := p1;
      capW := p0.width;
      capH := p0.height;
      dispW := p0.width * 2;
      dispH := p0.height * 2;
      history := [];
      freezeHistory := false;
      showGraph := false;
      mode := Analytics4Q;
    }

    /** F toggles freezing, T the chart, S the layout; Escape asks to close
        the window; any other key leaves the flags alone. */
    method KeyPressEvent(k: Key) returns (close: bool)
      modifies this`freezeHistory, this`showGraph, this`mode
      ensures Flags() == OnKey(old(Flags()), k)
      ensures close <==> k == KeyEscape
    {
      close := false;
      match k {
        case KeyF => freezeHistory := !freezeHistory;
        case KeyT => showGraph := !showGraph;
        case KeyS => mode := if mode == Analytics4Q then SideBySide else Analytics4Q;
        case KeyEscape => close := true;
        case OtherKey(_) =>
      }
    }

    /** The chart of the current history, `h` rows by `w` columns: blank for
        fewer than two entries, else two lines per step. */
    method MakeGraphImage(w: nat, h: nat) returns (img: GraphImage)
      ensures img == GraphOf(history, w, h)
    {
      if |history| < 2 {
        return Blank(w, h);
      }
      var lines: seq<Segment> := [];
      var i := 1;
      while i < |history|
        invariant 1 <= i <= |history|
        invariant lines == Lines(history[..i], h)
      {
        var y0 := PlotY(history[i - 1].first, h);
        var y1 := PlotY(history[i].first, h);
        var y0b := PlotY(history[i - 1].second, h);
        var y1b := PlotY(history[i].second, h);
        assert history[..i + 1][..i] == history[..i];
        lines := lines + [Segment(i, y0, y1, Green), Segment(i, y0b, y1b, Red)];
        i := i + 1;
      }
      assert history[..i] == history;
      img := GraphImage(h, w, lines);
    }

    /** The history-append block of a tick: nothing while frozen or when
        the pair repeats the newest entry, else append and drop the oldest
        entry once over capacity. */
    method AppendScores(p: ScorePair)
      requires Valid() && 0 <= p.first <= 100 && 0 <= p.second <= 100
      modifies this`history
      ensures Valid()
      ensures history == Record(old(history), freezeHistory, p)
    {
      RecordKeepsRange(history, freezeHistory, p);
      if !freezeHistory {
        if history == []
          || Abs(p.first - history[|history| - 1].first) >= 1
          || Abs(p.second - history[|history| - 1].second) >= 1
        {
          history := history + [p];
          if |history| > MaxHistory {
            history := history[1..];
          }
        }
      }
    }

    /** One timer tick. `f0` and `f1` are the captured frames; `s0` and `s1`
        are the sharpness values of the two frames once gray and at the
        capture size. An empty frame skips the tick with nothing changed;
        otherwise the scores are normalised, the history records them, and
        the composite of the current layout is produced. */
    method UpdateFrame(f0: Frame, f1: Frame, s0: Sharpness, s1: Sharpness)
      returns (shown: Option<Composite>)
      requires Valid()
      requires !IsEmpty(f0) && !IsEmpty(f1) ==> Convertible(f0) && Convertible(f1)
      modifies this`history
      ensures Valid()
      ensures IsEmpty(f0) || IsEmpty(f1) ==> shown == None && history == old(history)
      ensures !IsEmpty(f0) && !IsEmpty(f1) ==>
        var p := Normalize(s0, s1);
        var g0, g1 := Normalized(f0, capW, capH), Normalized(f1, capW, capH);
        && history == Record(old(history), freezeHistory, p)
        && shown == Some(Compose(mode, capW, capH,
             Annotated(GrayToBgr(g0), Label(p.first)),
             Annotated(GrayToBgr(g1), Label(p.second)),
             Difference(GrayToBgr(AbsDiff(g0, g1))),
             Chart(if showGraph then GraphOf(history, capW, capH) else Blank(capW, capH))))
      ensures shown.Some? ==>
        shown.value.size == (if mode == Analytics4Q then Size(dispH, dispW) else Size(capH, 2 * capW))
      ensures shown.Some? ==> forall i :: 0 <= i < |shown.value.placements| ==>
        var pl := shown.value.placements[i];
        PanelSize(pl.panel) == Size(pl.rect.height, pl.rect.width)
    {
      if IsEmpty(f0) || IsEmpty(f1) {
        return None;
      }
      var gray0 := FitToCapture(EnsureGray(f0), capW, capH);
      var gray1 := FitToCapture(EnsureGray(f1), capW, capH);
      var p := Normalize(s0, s1);
      AppendScores(p);
      var disp0 := Annotated(GrayToBgr(gray0), Label(p.first));
      var disp1 := Annotated(GrayToBgr(gray1), Label(p.second));
      var diffC := Difference(GrayToBgr(AbsDiff(gray0, gray1)));
      var graph;
      if showGraph {
        graph := MakeGraphImage(capW, capH);
      } else {
        graph := Blank(capW, capH);
      }
      TickPanelsFit(mode, capW, capH, f0, f1, p, graph);
      shown := Some(Compose(mode, capW, capH, disp0, disp1, diffC, Chart(graph)));
    }
  }

  /** Every panel of a tick has the capture size, so in either layout each
      copy fills its tile and the tiles cover the canvas. */
  lemma TickPanelsFit(mode: ViewMode, w: nat, h: nat, f0: Frame, f1: Frame,
                      p: ScorePair, chart: GraphImage)
    requires Convertible(f0) && Convertible(f1)
    requires chart.rows == h && chart.cols == w
    ensures var g0, g1 := Normalized(f0, w, h), Normalized(f1, w, h);
      var c := Compose(mode, w, h,
        Annotated(GrayToBgr(g0), Label(p.first)),
        Annotated(GrayToBgr(g1), Label(p.second)),
        Difference(GrayToBgr(AbsDiff(g0, g1))),
        Chart(chart));
      forall i :: 0 <= i < |c.placements| ==>
        PanelSize(c.placements[i].panel) == Size(c.placements[i].rect.height, c.placements[i].rect.width)
  {
    var g0, g1 := Normalized(f0, w, h), Normalized(f1, w, h);
    ComposeFits(mode, w, h,
      Annotated(GrayToBgr(g0), Label(p.first)),
      Annotated(GrayToBgr(g1), Label(p.second)),
      Difference(GrayToBgr(AbsDiff(g0, g1))),
      Chart(chart));
  }
}
