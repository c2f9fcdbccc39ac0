/** The history chart: where the two polylines of the score history go. */
module GraphRenderer {
  import opened ScoreNormalizer
  import opened ScoreHistory

  /** C++ integer division, which truncates towards zero. */
  function TruncDiv(a: int, b: int): (q: int)
    requires b > 0
    ensures var r := a - q * b; -b < r < b && (a >= 0 ==> r >= 0) && (a < 0 ==> r <= 0)
  {
    if a >= 0 then a / b else -((-a) / b)
  }

  /** The row of percentage `pct` on a chart `h` rows high: 0% on the bottom
      edge, 100% on the top edge. */
  function PlotY(pct: int, h: int): (y: int)
    ensures pct == 0 ==> y == h
    ensures pct == 100 ==> y == 0
  {
    h - TruncDiv(pct * h, 100)
  }

  /** The colour of a polyline: the first series is green, the second red. */
  datatype Colour = Green | Red

  /** A line from history entry `index - 1` to entry `index`, with the rows of
      its two ends. */
  datatype Segment = Segment(index: nat, y0: int, y1: int, colour: Colour)

  /** A black chart image carrying the lines drawn on it, in drawing order. */
  datatype GraphImage = GraphImage(rows: nat, cols: nat, lines: seq<Segment>)

  function Blank(w: nat, h: nat): GraphImage {
    GraphImage(h, w, [])
  }

  /** The two lines drawn for step `i`, first series then second. */
  function StepLines(hist: seq<ScorePair>, i: nat, h: int): seq<Segment>
    requires 1 <= i < |hist|
  {
    [Segment(i, PlotY(hist[i - 1].first, h), PlotY(hist[i].first, h), Green),
     Segment(i, PlotY(hist[i - 1].second, h), PlotY(hist[i].second, h), Red)]
  }

  /** All lines of the chart: step by step along the history. */
  function Lines(hist: seq<ScorePair>, h: int): (r: seq<Segment>)
    ensures |r| == if |hist| < 2 then 0 else 2 * (|hist| - 1)
    ensures forall i :: 1 <= i < |hist| ==>
      r[2 * i - 2] == Segment(i, PlotY(hist[i - 1].first, h), PlotY(hist[i].first, h), Green) &&
      r[2 * i - 1] == Segment(i, PlotY(hist[i - 1].second, h), PlotY(hist[i].second, h), Red)
  {
    if |hist| < 2 then []
    else
      var front := hist[..|hist| - 1];
      assert forall i :: 0 <= i < |front| ==> front[i] == hist[i];
      Lines(front, h) + StepLines(hist, |hist| - 1, h)
  }

  /** The chart `makeGraphImage` draws for a history, `h` rows by `w` columns. */
  function GraphOf(hist: seq<ScorePair>, w: nat, h: nat): (g: GraphImage)
    ensures g.rows == h && g.cols == w
    ensures |g.lines| == if |hist| < 2 then 0 else 2 * (|hist| - 1)
  {
    if |hist| < 2 then Blank(w, h) else GraphImage(h, w, Lines(hist, h))
  }

  /** With fewer than two entries there is nothing to connect. */
  lemma GraphBlankWhenShort(hist: seq<ScorePair>, w: nat, h: nat)
    requires |hist| < 2
    ensures GraphOf(hist, w, h) == GraphImage(h, w, [])
  {
  }

  /** A percentage in [0, 100] lands on a row of the chart, 0% on row `h`
      and 100% on row 0. */
  lemma PlotYBounds(pct: int, h: nat)
    requires 0 <= pct <= 100
    ensures 0 <= PlotY(pct, h) <= h
    ensures PlotY(0, h) == h && PlotY(100, h) == 0
  {
    assert 0 <= pct * h <= 100 * h;
  }

  /** A higher percentage is never drawn lower. */
  lemma PlotYMonotone(p: int, q: int, h: nat)
    requires 0 <= p <= q
    ensures PlotY(q, h) <= PlotY(p, h)
  {
    assert 0 <= p * h <= q * h;
    DivByHundredMonotone(p * h, q * h);
  }

  lemma DivByHundredMonotone(a: nat, b: nat)
    requires a <= b
    ensures a / 100 <= b / 100
  {
  }

  /** For a history of percentages, every line the chart holds stays inside
      the chart's rows and joins two neighbouring entries. */
  lemma GraphInsideChart(hist: seq<ScorePair>, w: nat, h: nat)
    requires InRange(hist)
    ensures var g := GraphOf(hist, w, h);
      g.rows == h && g.cols == w &&
      forall k :: 0 <= k < |g.lines| ==>
        1 <= g.lines[k].index < |hist| &&
        0 <= g.lines[k].y0 <= h && 0 <= g.lines[k].y1 <= h
  {
    var g := GraphOf(hist, w, h);
    forall k | 0 <= k < |g.lines|
      ensures 1 <= g.lines[k].index < |hist|
      ensures 0 <= g.lines[k].y0 <= h && 0 <= g.lines[k].y1 <= h
    {
      LineInsideChart(hist, h, k);
    }
  }

  lemma LineInsideChart(hist: seq<ScorePair>, h: nat, k: nat)
    requires InRange(hist) && k < |Lines(hist, h)|
    ensures var l := Lines(hist, h)[k];
      1 <= l.index < |hist| && 0 <= l.y0 <= h && 0 <= l.y1 <= h
  {
    var r := Lines(hist, h);
    var i := k / 2 + 1;
    assert 1 <= i < |hist|;
    var a, b := hist[i - 1], hist[i];
    PlotYBounds(a.first, h);
    PlotYBounds(b.first, h);
    PlotYBounds(a.second, h);
    PlotYBounds(b.second, h);
    if k % 2 == 0 {
      assert k == 2 * i - 2;
    } else {
      assert k == 2 * i - 1;
    }
  }
}
