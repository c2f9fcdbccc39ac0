/** The GStreamer pipeline description that the libcamera capture backend
    hands to OpenCV, built from the capture parameters, and a reader for it
    that proves the description loses none of them. */
module CaptureBackend {
  import opened Wrappers
  import opened Decimal

  /** The backend's capture parameters, with their default values below. */
  datatype CaptureParams = CaptureParams(
    cameraId: int, width: int, height: int, fps: int, forceGray: bool)

  const DefaultParams: CaptureParams := CaptureParams(0, 640, 480, 30, true)

  const SourceHead := "libcamerasrc camera-id="
  const WidthField := " ! video/x-raw,format=YUV420,width="
  const HeightField := ",height="
  const RateField := ",framerate="
  const ConvertTail := "/1 ! videoconvert"
  const GraySegment := " ! video/x-raw,format=GRAY8"
  const BgrSegment := " ! video/x-raw,format=BGR"
  const SinkTail := " ! appsink drop=true max-buffers=1 sync=false"

  /** The pipeline string, depending on the five fields of `p` and nothing else. */
  function MakeLibcameraPipeline(p: CaptureParams): (r: string)
    ensures |r| >= |SourceHead| && r[..|SourceHead|] == SourceHead
    ensures |r| >= |SinkTail| && r[|r| - |SinkTail|..] == SinkTail
  {
    SourceHead + IntToString(p.cameraId)
      + WidthField + IntToString(p.width)
      + HeightField + IntToString(p.height)
      + RateField + IntToString(p.fps)
      + ConvertTail
      + (if p.forceGray then GraySegment else BgrSegment)
      + SinkTail
  }

  /** `s` with the literal `lit` removed from its front, if it starts so. */
  function Expect(lit: string, s: string): (r: Option<string>)
    ensures r.Some? <==> |s| >= |lit| && s[..|lit|] == lit
    ensures r.Some? ==> s == lit + r.value
  {
    if |s| >= |lit| && s[..|lit|] == lit then Some(s[|lit|..]) else None
  }

  /** The literal `lit` followed by a decimal integer. */
  function ParseField(lit: string, s: string): Option<(int, string)> {
    match Expect(lit, s)
    case None => None
    case Some(rest) => ParseInt(rest)
  }

  /** Reads back the parameters from a pipeline string of the shape that
      `MakeLibcameraPipeline` builds; anything else is rejected. */
  function ParsePipeline(s: string): Option<CaptureParams> {
    match ParseField(SourceHead, s)
    case None => None
    case Some((id, s1)) =>
      match ParseField(WidthField, s1)
      case None => None
      case Some((w, s2)) =>
        match ParseField(HeightField, s2)
        case None => None
        case Some((h, s3)) =>
          match ParseField(RateField, s3)
          case None => None
          case Some((f, s4)) =>
            if s4 == ConvertTail + GraySegment + SinkTail then Some(CaptureParams(id, w, h, f, true))
            else if s4 == ConvertTail + BgrSegment + SinkTail then Some(CaptureParams(id, w, h, f, false))
            else None
  }

  lemma ParseFieldRoundTrip(lit: string, n: int, rest: string)
    requires EndsNumber(rest)
    ensures ParseField(lit, lit + IntToString(n) + rest) == Some((n, rest))
  {
    var s := lit + IntToString(n) + rest;
    assert s == lit + (IntToString(n) + rest);
    assert s[..|lit|] == lit;
    assert s[|lit|..] == IntToString(n) + rest;
    ParseIntRoundTrip(n, rest);
  }

  /** Every parameter, the gray/colour choice included, can be read back
      from the pipeline string: the string determines the parameters. */
  lemma PipelineRoundTrip(p: CaptureParams)
    ensures ParsePipeline(MakeLibcameraPipeline(p)) == Some(p)
  {
    var seg := if p.forceGray then GraySegment else BgrSegment;
    var tail := ConvertTail + seg + SinkTail;
    var s4 := RateField + IntToString(p.fps) + tail;
    var s3 := HeightField + IntToString(p.height) + s4;
    var s2 := WidthField + IntToString(p.width) + s3;
    PipelineShape(p);
    StartsNonDigit(WidthField, IntToString(p.width) + s3);
    StartsNonDigit(HeightField, IntToString(p.height) + s4);
    StartsNonDigit(RateField, IntToString(p.fps) + tail);
    StartsNonDigit(ConvertTail, seg + SinkTail);
    ParseFieldRoundTrip(SourceHead, p.cameraId, s2);
    ParseFieldRoundTrip(WidthField, p.width, s3);
    ParseFieldRoundTrip(HeightField, p.height, s4);
    ParseFieldRoundTrip(RateField, p.fps, tail);
    ParseFromFields(MakeLibcameraPipeline(p), p, s2, s3, s4, tail);
  }

  /** Reading the four numeric fields in turn, then the tail. */
  lemma ParseFromFields(s: string, p: CaptureParams, s2: string, s3: string, s4: string, tail: string)
    requires ParseField(SourceHead, s) == Some((p.cameraId, s2))
    requires ParseField(WidthField, s2) == Some((p.width, s3))
    requires ParseField(HeightField, s3) == Some((p.height, s4))
    requires ParseField(RateField, s4) == Some((p.fps, tail))
    requires tail == ConvertTail + (if p.forceGray then GraySegment else BgrSegment) + SinkTail
    ensures ParsePipeline(s) == Some(p)
  {
    assert p.forceGray <==> tail == ConvertTail + GraySegment + SinkTail by {
      assert |GraySegment| != |BgrSegment|;
    }
  }

  lemma StartsNonDigit(lit: string, rest: string)
    requires |lit| > 0 && !IsDigit(lit[0])
    ensures EndsNumber(lit + rest)
  {
    assert (lit + rest)[0] == lit[0];
  }

  /** The pipeline regrouped field by field, as the reader consumes it. */
  lemma PipelineShape(p: CaptureParams)
    ensures var seg := if p.forceGray then GraySegment else BgrSegment;
      var tail := ConvertTail + seg + SinkTail;
      var s4 := RateField + IntToString(p.fps) + tail;
      var s3 := HeightField + IntToString(p.height) + s4;
      var s2 := WidthField + IntToString(p.width) + s3;
      MakeLibcameraPipeline(p) == SourceHead + IntToString(p.cameraId) + s2
  {
    var seg := if p.forceGray then GraySegment else BgrSegment;
    var a, b, c, d := IntToString(p.cameraId), IntToString(p.width), IntToString(p.height), IntToString(p.fps);
    var tail := ConvertTail + seg + SinkTail;
    Assoc(SourceHead + a + WidthField + b + HeightField + c + RateField + d, ConvertTail + seg, SinkTail);
    Assoc(SourceHead + a + WidthField + b + HeightField + c + RateField + d, ConvertTail, seg);
    Assoc(SourceHead + a + WidthField + b + HeightField + c + RateField + d, ConvertTail + seg, SinkTail);
    var s4 := RateField + d + tail;
    Assoc(SourceHead + a + WidthField + b + HeightField + c + RateField, d, tail);
    Assoc(SourceHead + a + WidthField + b + HeightField + c, RateField, d + tail);
    Assoc(RateField, d, tail);
    var s3 := HeightField + c + s4;
    Assoc(SourceHead + a + WidthField + b + HeightField, c, s4);
    Assoc(SourceHead + a + WidthField + b, HeightField, c + s4);
    Assoc(HeightField, c, s4);
    var s2 := WidthField + b + s3;
    Assoc(SourceHead + a + WidthField, b, s3);
    Assoc(SourceHead + a, WidthField, b + s3);
    Assoc(WidthField, b, s3);
  }

  lemma Assoc(x: string, y: string, z: string)
    ensures x + y + z == x + (y + z)
  {
  }

  /** Distinct parameters give distinct pipelines. */
  lemma PipelineInjective(p: CaptureParams, q: CaptureParams)
    requires MakeLibcameraPipeline(p) == MakeLibcameraPipeline(q)
    ensures p == q
  {
    PipelineRoundTrip(p);
    PipelineRoundTrip(q);
  }

  /** Just before the sink, the pipeline asks for GRAY8 when `forceGray`
      holds and for BGR otherwise. */
  lemma PipelineFormatSegment(p: CaptureParams)
    ensures var r := MakeLibcameraPipeline(p);
      var seg := if p.forceGray then GraySegment else BgrSegment;
      |r| >= |seg| + |SinkTail|
      && r[|r| - |SinkTail| - |seg|..|r| - |SinkTail|] == seg
  {
    var r := MakeLibcameraPipeline(p);
    var seg := if p.forceGray then GraySegment else BgrSegment;
    var front := SourceHead + IntToString(p.cameraId)
      + WidthField + IntToString(p.width)
      + HeightField + IntToString(p.height)
      + RateField + IntToString(p.fps)
      + ConvertTail;
    assert r == front + seg + SinkTail;
    assert r[|front|..|front| + |seg|] == seg;
  }

  /** The video format request follows the camera id, with width, height
      and frame rate in that order. */
  lemma PipelineVideoRequest(p: CaptureParams)
    ensures var r := MakeLibcameraPipeline(p);
      var head := SourceHead + IntToString(p.cameraId);
      var req := WidthField + IntToString(p.width) + HeightField + IntToString(p.height)
        + RateField + IntToString(p.fps) + ConvertTail;
      |r| >= |head| + |req| && r[|head|..|head| + |req|] == req
  {
    var head := SourceHead + IntToString(p.cameraId);
    var b, c, d := IntToString(p.width), IntToString(p.height), IntToString(p.fps);
    var seg := if p.forceGray then GraySegment else BgrSegment;
    var q1 := WidthField + b;
    var q2 := q1 + HeightField;
    var q3 := q2 + c;
    var q4 := q3 + RateField;
    var q5 := q4 + d;
    var req := q5 + ConvertTail;
    Assoc(head, WidthField, b);
    Assoc(head, q1, HeightField);
    Assoc(head, q2, c);
    Assoc(head, q3, RateField);
    Assoc(head, q4, d);
    Assoc(head, q5, ConvertTail);
    assert MakeLibcameraPipeline(p) == head + req + seg + SinkTail;
    Assoc(head + req, seg, SinkTail);
    SliceOfConcat(head, req, seg + SinkTail);
  }

  lemma SliceOfConcat(x: string, y: string, z: string)
    ensures (x + y + z)[|x|..|x| + |y|] == y
  {
  }

  /** With the default parameters the pipeline opens camera 0 and asks for
      GRAY8 frames. */
  lemma DefaultPipelineIsGray()
    ensures var r := MakeLibcameraPipeline(DefaultParams);
      |r| >= |SourceHead| + 1
      && r[..|SourceHead| + 1] == SourceHead + "0"
      && r[|r| - |SinkTail| - |GraySegment|..|r| - |SinkTail|] == GraySegment
  {
    var p := DefaultParams;
    PipelineFormatSegment(p);
    PipelineShape(p);
    var tail := ConvertTail + GraySegment + SinkTail;
    var s4 := RateField + IntToString(p.fps) + tail;
    var s3 := HeightField + IntToString(p.height) + s4;
    var s2 := WidthField + IntToString(p.width) + s3;
    assert IntToString(0) == "0";
    PrefixOfConcat(SourceHead + "0", s2);
  }

  lemma PrefixOfConcat(x: string, y: string)
    ensures (x + y)[..|x|] == x
  {
  }
}
