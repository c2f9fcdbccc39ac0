# DualCamQt focus comparison: a verified model of the tick logic

DualCamQt shows two live camera feeds side by side so that their focus can
be compared. On every timer tick the window (`MainWindow`) does the following:
- It grabs one frame per camera and skips the tick if either frame is empty.
- It makes both frames gray and brings them to the capture size.
- It scores their sharpness and turns the two scores into percentages of
  the larger one.
- It records the pair in a rolling history of at most 100 entries, unless
  recording is frozen or the pair repeats the newest entry.
- It lays the annotated feeds out in one of two layouts. The
  four-quadrant layout also shows a difference frame and a chart of the
  history.

The keys F, T and S toggle freezing, the chart and the layout. A separate
header builds the GStreamer pipeline string for a libcamera source from
capture parameters.

This project models that logic in Dafny and proves what it promises:
- `scores.dfy` (`ScoreNormalizer`): percentage normalisation of the two raw
  sharpness values.
- `history.dfy` (`ScoreHistory`): the bounded history with its change
  filter, as a specification function (`Record`) and its properties over
  one tick and over runs of ticks.
- `graph.dfy` (`GraphRenderer`): where the chart's lines go, row-wise.
- `layout.dfy` (`Layout`): canvas sizes and the tile rectangles of both
  layouts.
- `view_state.dfy` (`ViewState`): the view mode, the flags, and what a key
  does to them.
- `frames.dfy` (`Frames`): frames by shape, the gray shortcut and the
  resize guard.
- `composer.dfy` (`FrameComposer`): which panel goes into which tile, and
  the overlay text.
- `main_window.dfy` (`Window`): the `MainWindow` class. Its fields
  `history`, `freezeHistory`, `showGraph` and `mode` are updated in place
  by `UpdateFrame`, `AppendScores` and `KeyPressEvent`. `MakeGraphImage`
  builds the chart with a loop and is proved equal to `GraphOf`.
- `capture_backend.dfy` (`CaptureBackend`) and `decimal.dfy` (`Decimal`):
  the pipeline string builder, the decimal rendering of integers it uses,
  and a parser for the string. The round-trip through that parser proves
  that the string keeps every parameter.
- `wrappers.dfy`: an `Option` type.

Note that `MainWindow.cpp` does not use the pipeline builder. It hard-codes
its two pipelines, and `MainWindow.h` declares its own `CaptureParams` (width,
height, fps). The model keeps the two records apart: `Window.CaptureParams`
and `CaptureBackend.CaptureParams`.

Sharpness scores are inputs. `UpdateFrame` takes `s0` and `s1`, the values
that the Laplacian-and-mask scorer gives for the two normalised frames. The
only thing the model assumes about them is that they are not negative.

## Model

| member | source | states |
|---|---|---|
| ScoreNormalizer.Percent | MainWindow.cpp:136-137 | for 0 < m and s <= m the result is the floor of s/m·100. It lies in [0,100] and equals 100 exactly when s is the maximum. |
| ScoreNormalizer.Normalize | MainWindow.cpp:135-137 | both percentages lie in [0,100]. Both are 0 when the larger score is 0. Otherwise pct_i = floor(s_i/max·100), and a percentage is 100 iff its score is the larger one. The order of the two scores is kept. |
| ScoreNormalizer.NormalizeScaleInvariant | MainWindow.cpp:135-137 | multiplying both raw scores by any k > 0 leaves both percentages unchanged |
| ScoreNormalizer.NormalizeOneSided | MainWindow.cpp:135-137 | a positive score against 0 gives (100, 0), and (0, 100) the other way round |
| ScoreHistory.Newest | MainWindow.cpp:145-146 | the newest min(n, 100) entries of a sequence, in their original order |
| ScoreHistory.Record | MainWindow.cpp:139-148 | the history after the append block. If it held at most 100 entries, it still does. It is either unchanged or its newest entry is the new pair. |
| ScoreHistory.RecordFrozen | MainWindow.cpp:139 | while frozen, the history after a tick equals the history before it |
| ScoreHistory.Changed | MainWindow.cpp:141-143 | the |Δ| >= 1 filter on either component holds iff the history is empty or the pair differs from the newest entry |
| ScoreHistory.RecordWhenRecording | MainWindow.cpp:141-146 | when recording, a pair that differs from the newest entry (or meets an empty history) is appended, and the result is the newest 100 entries of old history + [pair]. Otherwise the history is unchanged. |
| ScoreHistory.RecordEvictsOldest | MainWindow.cpp:145-146 | appending to a full history removes exactly the oldest entry, keeps the others in order, and the size stays 100 |
| ScoreHistory.RecordKeepsRange | MainWindow.cpp:135-146 | if every stored percentage and the new pair lie in [0,100], so do all entries afterwards |
| ScoreHistory.RecordAllFrozen | MainWindow.cpp:139 | any number of ticks while frozen leave the history unchanged |
| ScoreHistory.RecordAllChanging | MainWindow.cpp:139-148 | a run of pairs, each different from the one before, recorded onto the window of s gives the newest 100 entries of s + run (FIFO) |
| ScoreHistory.RecordAllFills | MainWindow.cpp:139-148 | from a history within capacity, such a run gives the newest 100 entries of history + run. After 100 or more such pairs the history holds exactly 100. |
| Frames.EnsureGray | MainWindow.cpp:75-81 | the result has one channel and the same size. A one-channel frame is returned as it is, without the conversion, which would reject it. |
| Frames.BgrToGray | MainWindow.cpp:79 | the conversion accepts only 3 or 4 channels and gives a one-channel frame of the same size |
| Frames.FitToCapture | MainWindow.cpp:128-131 | the result has the capture size and the same channel count. A frame already at that size is left as it is. |
| Frames.Normalized | MainWindow.cpp:125-131 | the frame that is scored is gray and at the capture size. A gray frame at that size passes unchanged. |
| Frames.GrayToBgr | MainWindow.cpp:151-152 | display conversion keeps the size and gives three channels |
| Frames.AbsDiff | MainWindow.cpp:157 | the difference of two frames of one shape has that shape |
| GraphRenderer.TruncDiv | MainWindow.cpp:106-110 | C++ integer division: the remainder a − q·b is smaller than b in magnitude and has the sign of a (or is 0), which is truncation toward zero |
| GraphRenderer.PlotY | MainWindow.cpp:106-110 | the row of a percentage: 0% maps to row h and 100% to row 0 |
| GraphRenderer.Lines | MainWindow.cpp:104-112 | for n >= 2 entries there are 2·(n−1) lines. Line 2i−2 joins entry i−1 to entry i in the first series (green). Line 2i−1 does the same in the second series (red). Each line's rows are h − pct·h/100. |
| GraphRenderer.GraphOf | MainWindow.cpp:99-114 | the chart is h rows by w columns, with no lines for fewer than 2 entries and 2·(n−1) lines otherwise |
| GraphRenderer.GraphBlankWhenShort | MainWindow.cpp:101-102 | with fewer than 2 entries the chart is an h×w image with no lines |
| GraphRenderer.PlotYBounds | MainWindow.cpp:106-110 | for pct in [0,100] the row h − pct·h/100 lies in [0,h]. 0% maps to row h and 100% to row 0. |
| GraphRenderer.PlotYMonotone | MainWindow.cpp:106-110 | a higher percentage is never drawn on a lower row |
| GraphRenderer.GraphInsideChart | MainWindow.cpp:101-112 | for a history of percentages the chart is h×w. Every line joins two neighbouring entries and has both ends inside [0,h]. |
| Window.MainWindow.MakeGraphImage | MainWindow.cpp:99-114 | the loop builds exactly `GraphOf(history, w, h)` |
| ViewState.Toggled | MainWindow.cpp:190-191 | S always changes the view mode |
| ViewState.ViewModeTwoValues | MainWindow.h:51 | a view mode is SideBySide or Analytics4Q, and toggling twice is the identity |
| ViewState.OnKey | MainWindow.cpp:185-195 | F changes freezeHistory, T changes showGraph and S changes mode, each and only that flag. Escape and other keys change no flag. |
| ViewState.OnKeyInvolution | MainWindow.cpp:187-191 | pressing the same key twice restores all flags |
| Layout.CanvasSize | MainWindow.cpp:163-177 | the canvas is twice the capture width, and its area equals the number of tiles times the capture area |
| Layout.Tiles | MainWindow.cpp:166-176 | four tiles with four quadrants, two side by side, each CAP_W×CAP_H, the first anchored at the origin |
| Layout.CanvasSizes | MainWindow.cpp:163-177 | Analytics4Q has a canvas of 2·CAP_H × 2·CAP_W with 4 tiles. SideBySide has CAP_H × 2·CAP_W with 2 tiles. |
| Layout.TilesPartitionCanvas | MainWindow.cpp:163-177 | every tile is CAP_W×CAP_H and inside the canvas. Every canvas pixel lies in exactly one tile (left/right by column, top/bottom by row with four quadrants). No tile reaches outside. |
| FrameComposer.Compose | MainWindow.cpp:163-177 | the composite has the layout's canvas size and one placement per tile, in copy order |
| FrameComposer.ComposeQuadrants | MainWindow.cpp:167-176 | feed 0 is shown top left, feed 1 top right, the difference bottom left and the chart bottom right. Side by side, only the top row (the two feeds) exists. |
| FrameComposer.ComposeFits | MainWindow.cpp:160-177 | when all panels have the capture size, every copy exactly fills its tile |
| FrameComposer.Label | MainWindow.cpp:153-154 | the overlay text ends with '%' and starts with '-' exactly for a negative percentage |
| FrameComposer.LabelShowsPercent | MainWindow.cpp:153-154 | the overlay text reads back as the percentage, followed by "%" |
| Window.TickPanelsFit | MainWindow.cpp:125-177 | the panels a tick builds (annotated feeds, difference, chart of h×w) fill their tiles exactly in either layout |
| Window.MainWindow.constructor | MainWindow.cpp:11-22 | the capture size comes from the first camera's parameters and the window size is twice that. The history starts empty. freezeHistory and showGraph start false and the mode starts as Analytics4Q (MainWindow.h:46-52). |
| Window.MainWindow.KeyPressEvent | MainWindow.cpp:183-196 | the flags become `OnKey` of the old flags. Close is requested iff the key is Escape. The history is not touched. |
| Window.MainWindow.AppendScores | MainWindow.cpp:139-148 | the history becomes `Record(old history, freezeHistory, pair)` and stays within capacity and in range |
| Window.MainWindow.UpdateFrame | MainWindow.cpp:116-177 | an empty frame skips the tick: no composite and no history change. Otherwise the history records `Normalize(s0, s1)`. The composite of the current mode is produced, with labels, the difference and the chart of the new history (blank when hidden). Its canvas is DISP_H×DISP_W with four quadrants and CAP_H×2·CAP_W side by side, and every panel exactly fills its tile. |
| Decimal.IntToString | capture_backend.h:24-27 | the decimal rendering is non-empty and starts with '-' exactly for negative numbers |
| Decimal.ParseIntRoundTrip | capture_backend.h:24-27 | reading back a rendered integer that is followed by a non-digit gives the integer and the rest |
| Decimal.IntToStringInjective | capture_backend.h:24-27 | distinct integers render differently |
| CaptureBackend.MakeLibcameraPipeline | capture_backend.h:19-35 | the result starts with "libcamerasrc camera-id=" and ends with " ! appsink drop=true max-buffers=1 sync=false" |
| CaptureBackend.PipelineRoundTrip | capture_backend.h:19-35 | parsing the pipeline gives back all five parameters, including the gray/colour choice |
| CaptureBackend.PipelineInjective | capture_backend.h:19-35 | the pipeline string determines the parameters |
| CaptureBackend.PipelineFormatSegment | capture_backend.h:29-33 | right before the sink comes " ! video/x-raw,format=GRAY8" if forceGray, else " ! video/x-raw,format=BGR" |
| CaptureBackend.PipelineVideoRequest | capture_backend.h:24-28 | after the camera id comes the YUV420 request with width, height and framerate/1 in that order, then " ! videoconvert" |
| CaptureBackend.DefaultPipelineIsGray | capture_backend.h:10-17 | the default parameters (camera 0, 640×480 at 30 fps, forceGray) give a pipeline for camera 0 that asks for GRAY8 |

## Left out

- Camera I/O is not modelled, because it is device and GStreamer plumbing. This covers:
  - opening and closing the cameras and the two hard-coded pipelines (MainWindow.cpp:60-73);
  - grab, retrieve and read (MainWindow.cpp:119-122);
  - the `LibcameraCapture` class with its fallback and warm-up (capture_backend.h:37-105).
  `UpdateFrame` takes the two frames as parameters.
- Qt plumbing is not modelled: widget setup, the timer and its interval, the error dialog, the pixmap display, and `close()` itself. `KeyPressEvent` only reports that Escape asks to close.
- The sharpness score (Gaussian mask, Laplacian, weighting and sum, MainWindow.cpp:32-35, 83-90) is floating-point OpenCV numerics. `UpdateFrame` takes the two non-negative scores as parameters.
- Pixel contents are not modelled. Frames, panels and the chart are described by shape, overlay text and line endpoints. This leaves out the luma conversion, resampling, absdiff, text rendering, line rasterisation and the colour values.
- The graph's x-coordinates `int(i*dx)` with `dx = w/99` (MainWindow.cpp:103-107) are double-precision rounding. A `Segment` records the history index it joins instead.
- ScoreNormalizer.Percent: computes the floor of s/max·100 in exact real arithmetic, while the program computes `s/max*100` in doubles. The double result can fall just below an integer: with s = 29 and max = 100, `29.0/100.0*100` is 28.999999999999996, so the program shows 28 where the model gives 29 (57 and 58 out of 100 behave the same way). Rounding cannot push a smaller score up to 100, so the 100-iff-larger clause holds for the program too.
- ScoreNormalizer.Normalize: inherits the exact-real percentages of `Percent`, so it can be one above the program for scores such as 29 out of 100.
- C++ 32-bit `int` overflow is not modelled. Percentages are at most 100, so `pct*h` overflows only for charts over 21 million rows. Pipeline parameters are rendered as unbounded integers.
- Window.MainWindow.constructor: requires a positive capture size. With a zero or negative size, the Gaussian mask construction and the OpenCV buffers fail inside OpenCV, which is not modelled.
- Frames.EnsureGray: requires 1, 3 or 4 channels. The BGR-to-gray conversion rejects other channel counts by throwing inside OpenCV, which is not modelled.
- The program is single-threaded: ticks and key events run on one event loop, so no concurrency is modelled.
- main.cpp (argument parsing with `std::stoi`) is not part of this model.
