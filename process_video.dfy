/**
 * The offline decoder script: the `iou` helper and the per-frame decoding of
 * the detector's output (class selection by argmax, the confidence
 * threshold, and the scale-back of the centre-format box to frame pixels).
 *
 * The predictions of one frame are an input (the inference engine, OpenCV
 * and the non-maximum suppression library call are not modelled). Every
 * prediction row holds the four box values and at least one class score.
 *
 * In the script the threshold test is indented at the level of the `for`
 * loop, so it runs once, after the loop, on whatever the loop variables
 * hold then. `DecodeFrameAsWritten` models that; `DecodeFrame` models the
 * evidently intended test inside the loop.
 */
module ProcessVideo {
  import opened Optional
  import ArrayOps

  /** A box as `[x, y, w, h]`: top-left corner and size. */
  datatype Box = Box(x: real, y: real, w: real, h: real)

  function Max(a: real, b: real): real { if a >= b then a else b }
  function Min(a: real, b: real): real { if a <= b then a else b }

  function Area(b: Box): real { b.w * b.h }

  /** The intersection area, each side clamped at 0. */
  function Intersection(a: Box, b: Box): real
  {
    var x1 := Max(a.x, b.x);
    var y1 := Max(a.y, b.y);
    var x2 := Min(a.x + a.w, b.x + b.w);
    var y2 := Min(a.y + a.h, b.y + b.h);
    Max(0.0, x2 - x1) * Max(0.0, y2 - y1)
  }

  function Union(a: Box, b: Box): real
  {
    Area(a) + Area(b) - Intersection(a, b)
  }

  /** Intersection over union; 0 instead of a division when the union is 0. */
  function Iou(a: Box, b: Box): (r: real)
    ensures Union(a, b) == 0.0 ==> r == 0.0
    ensures Intersection(a, b) == 0.0 ==> r == 0.0
    ensures Union(a, b) != 0.0 ==> r * Union(a, b) == Intersection(a, b)
  {
    var union := Union(a, b);
    if union == 0.0 then 0.0 else Intersection(a, b) / union
  }

  /** `iou` does not depend on the order of its arguments. */
  lemma IouSymmetric(a: Box, b: Box)
    ensures Iou(a, b) == Iou(b, a)
  {
    assert Intersection(a, b) == Intersection(b, a);
  }

  /** Boxes that do not overlap on some axis (touching edges included) have `iou` 0. */
  lemma IouDisjoint(a: Box, b: Box)
    requires a.x + a.w <= b.x || b.x + b.w <= a.x || a.y + a.h <= b.y || b.y + b.h <= a.y
    ensures Iou(a, b) == 0.0
  {
    var x1 := Max(a.x, b.x);
    var y1 := Max(a.y, b.y);
    var x2 := Min(a.x + a.w, b.x + b.w);
    var y2 := Min(a.y + a.h, b.y + b.h);
    assert x2 - x1 <= 0.0 || y2 - y1 <= 0.0;
  }

  /** A box with positive area overlaps itself completely. */
  lemma IouSelf(a: Box)
    requires a.w > 0.0 && a.h > 0.0
    ensures Iou(a, a) == 1.0
  {
    assert Max(0.0, (a.x + a.w) - a.x) == a.w;
    assert Max(0.0, (a.y + a.h) - a.y) == a.h;
    assert Intersection(a, a) == Area(a);
    assert Union(a, a) == Area(a);
    assert Area(a) > 0.0;
    assert Area(a) / Area(a) == 1.0;
  }

  /** For boxes with non-negative sizes `iou` lies in [0, 1]. */
  lemma IouInUnitRange(a: Box, b: Box)
    requires a.w >= 0.0 && a.h >= 0.0 && b.w >= 0.0 && b.h >= 0.0
    ensures 0.0 <= Iou(a, b) <= 1.0
  {
    var dx := Max(0.0, Min(a.x + a.w, b.x + b.w) - Max(a.x, b.x));
    var dy := Max(0.0, Min(a.y + a.h, b.y + b.h) - Max(a.y, b.y));
    assert Intersection(a, b) == dx * dy;
    ProductBelow(dx, dy, a.w, a.h);
    ProductBelow(dx, dy, b.w, b.h);
    var i := Intersection(a, b);
    var u := Union(a, b);
    assert 0.0 <= i <= u;
    if u != 0.0 {
      assert i / u <= 1.0;
    }
  }

  /** Clamped sides no longer than a box's sides give an area no larger than the box's. */
  lemma ProductBelow(dx: real, dy: real, w: real, h: real)
    requires 0.0 <= dx && 0.0 <= dy && 0.0 <= w && 0.0 <= h
    requires (dx <= w && dy <= h) || dx * dy == 0.0
    ensures 0.0 <= dx * dy <= w * h
  {
    if dx * dy != 0.0 {
      assert dx * dy <= w * dy;
      assert w * dy <= w * h;
    }
  }

  /** One row of the transposed output: `x_center, y_center, w, h`, then the class scores. */
  type Prediction = p: seq<real> | |p| >= 5 witness [0.0, 0.0, 0.0, 0.0, 0.0]

  /** `np.argmax`: the first index holding the largest value. */
  function ArgMaxFirst(s: seq<real>): (r: nat)
    requires |s| > 0
    ensures r < |s|
    ensures forall j :: 0 <= j < |s| ==> s[j] <= s[r]
    ensures forall j :: 0 <= j < r ==> s[j] < s[r]
    decreases |s|
  {
    if |s| == 1 then 0
    else
      var k := ArgMaxFirst(s[..|s| - 1]);
      if s[|s| - 1] > s[k] then |s| - 1 else k
  }

  /** What the loop body leaves in `pred`, `class_id` and `confidence`. */
  datatype Pick = Pick(pred: Prediction, classId: nat, confidence: real)

  /** The class with the highest score and that score. */
  function PickOf(pred: Prediction): (p: Pick)
    ensures p.pred == pred && 4 + p.classId < |pred| && p.confidence == pred[4 + p.classId]
    ensures forall j :: 4 <= j < |pred| ==> pred[j] <= p.confidence
    ensures forall j :: 4 <= j < 4 + p.classId ==> pred[j] < p.confidence
  {
    var scores := pred[4..];
    var classId := ArgMaxFirst(scores);
    assert forall j :: 4 <= j < |pred| ==> pred[j] == scores[j - 4];
    Pick(pred, classId, scores[classId])
  }

  /** The confidence threshold (strict). */
  const ConfidenceThreshold: real := 0.25

  predicate Accepts(p: Pick)
  {
    p.confidence > ConfidenceThreshold
  }

  /** Python's `int()` of a float: truncation toward zero. */
  function Trunc(v: real): (r: int)
    ensures Near(r, v)
  {
    if v >= 0.0 then v.Floor else -((-v).Floor)
  }

  /** The frame size and the model's input size; the input size is positive. */
  datatype Geometry = Geometry(width: int, height: int, inputWidth: int, inputHeight: int)

  predicate ValidGeometry(g: Geometry)
  {
    g.inputWidth > 0 && g.inputHeight > 0
  }

  function XScale(g: Geometry): real
    requires ValidGeometry(g)
  {
    g.width as real / g.inputWidth as real
  }

  function YScale(g: Geometry): real
    requires ValidGeometry(g)
  {
    g.height as real / g.inputHeight as real
  }

  /** A box in frame pixels, truncated to integers. */
  datatype PixelBox = PixelBox(x: int, y: int, w: int, h: int)

  /** The centre-format box of `pred` scaled back to the frame. */
  function ScaleBack(pred: Prediction, g: Geometry): PixelBox
    requires ValidGeometry(g)
  {
    var xScale := XScale(g);
    var yScale := YScale(g);
    var xc, yc, w, h := pred[0], pred[1], pred[2], pred[3];
    PixelBox(Trunc(Scale(xc - w / 2.0, xScale)), Trunc(Scale(yc - h / 2.0, yScale)), Trunc(Scale(w, xScale)), Trunc(Scale(h, yScale)))
  }

  /** A length in model-input pixels times a scale factor. */
  function Scale(v: real, factor: real): real
  {
    v * factor
  }

  /** Each scaled-back value is within one pixel of the exact value, on the side of zero. */
  lemma ScaleBackWithinOnePixel(pred: Prediction, g: Geometry)
    requires ValidGeometry(g)
    ensures var b := ScaleBack(pred, g);
      && Near(b.x, Scale(pred[0] - pred[2] / 2.0, XScale(g)))
      && Near(b.y, Scale(pred[1] - pred[3] / 2.0, YScale(g)))
      && Near(b.w, Scale(pred[2], XScale(g)))
      && Near(b.h, Scale(pred[3], YScale(g)))
  {
  }

  /** `n` is `v` truncated: no farther from zero, and less than 1 away. */
  predicate Near(n: int, v: real)
  {
    (v >= 0.0 ==> 0.0 <= n as real <= v < n as real + 1.0)
    && (v < 0.0 ==> n as real - 1.0 < v <= n as real <= 0.0)
  }

  /** One kept detection: its box in frame pixels, its confidence and its class. */
  datatype Detection = Detection(box: PixelBox, confidence: real, classId: nat)

  /** The three parallel lists of one frame: `boxes`, `confidences` and `class_ids`. */
  datatype Frame = Frame(boxes: seq<PixelBox>, confidences: seq<real>, classIds: seq<nat>)

  /** The lists of a sequence of detections, entry `i` of each list from detection `i`. */
  function ToFrame(ds: seq<Detection>): (f: Frame)
    ensures |f.boxes| == |f.confidences| == |f.classIds| == |ds|
    ensures forall i :: 0 <= i < |ds| ==>
      f.boxes[i] == ds[i].box && f.confidences[i] == ds[i].confidence && f.classIds[i] == ds[i].classId
  {
    Frame(ArrayOps.Map((d: Detection) => d.box, ds),
          ArrayOps.Map((d: Detection) => d.confidence, ds),
          ArrayOps.Map((d: Detection) => d.classId, ds))
  }

  /** Appending one detection appends to each of the three lists. */
  lemma ToFrameAppend(ds: seq<Detection>, more: seq<Detection>)
    requires |more| <= 1
    ensures var f := ToFrame(ds);
      ToFrame(ds + more) == Frame(f.boxes + ToFrame(more).boxes, f.confidences + ToFrame(more).confidences, f.classIds + ToFrame(more).classIds)
  {
  }

  /** What a frame leaves behind: its lists, and the loop variables for the next frame. */
  datatype Step = Step(frame: Frame, carried: Pick)

  /** The loop variables after the `for` loop: the last prediction's pick, or the previous frame's. */
  function LastPick(predictions: seq<Prediction>, carried: Option<Pick>): Option<Pick>
  {
    if predictions == [] then carried else Some(PickOf(predictions[|predictions| - 1]))
  }

  /** The detection a pick appends. */
  function DetectionOf(p: Pick, g: Geometry): Detection
    requires ValidGeometry(g)
  {
    Detection(ScaleBack(p.pred, g), p.confidence, p.classId)
  }

  /** The detections a pick contributes: its own when it passes the threshold, none otherwise. */
  function Appended(p: Pick, g: Geometry): seq<Detection>
    requires ValidGeometry(g)
  {
    if Accepts(p) then [DetectionOf(p, g)] else []
  }

  /**
   * The frame as the script is written: the threshold runs once on the last
   * pick. With no predictions the loop variables are the previous frame's,
   * and on the first frame they are unbound, which raises `NameError`.
   */
  function AsWritten(predictions: seq<Prediction>, carried: Option<Pick>, g: Geometry): Result<Step, string>
    requires ValidGeometry(g)
  {
    match LastPick(predictions, carried)
    case None => Failure("NameError")
    case Some(p) => Success(Step(ToFrame(Appended(p, g)), p))
  }

  /** The per-frame decode as written: argmax in the loop, the threshold after it. */
  method DecodeFrameAsWritten(predictions: seq<Prediction>, carried: Option<Pick>, g: Geometry)
    returns (result: Result<Step, string>)
    requires ValidGeometry(g)
    ensures result == AsWritten(predictions, carried, g)
  {
    var boxes: seq<PixelBox> := [];
    var confidences: seq<real> := [];
    var classIds: seq<nat> := [];
    var last := carried;
    var i := 0;
    while i < |predictions|
      invariant 0 <= i <= |predictions|
      invariant last == LastPick(predictions[..i], carried)
    {
      var pred := predictions[i];
      var scores := pred[4..];
      var classId := ArgMaxFirst(scores);
      var confidence := scores[classId];
      last := Some(Pick(pred, classId, confidence));
      assert last == Some(PickOf(pred));
      assert predictions[..i + 1][i] == pred;
      i := i + 1;
    }
    assert predictions[..i] == predictions;
    if last.None? {
      return Failure("NameError");
    }
    var p := last.value;
    if p.confidence > ConfidenceThreshold {
      boxes := boxes + [ScaleBack(p.pred, g)];
      confidences := confidences + [p.confidence];
      classIds := classIds + [p.classId];
    }
    assert Frame(boxes, confidences, classIds) == ToFrame(Appended(p, g));
    result := Success(Step(Frame(boxes, confidences, classIds), p));
  }

  /** The detections each prediction contributes when the threshold is tested inside the loop. */
  function Kept(g: Geometry): Prediction -> seq<Detection>
    requires ValidGeometry(g)
  {
    (pred: Prediction) => Appended(PickOf(pred), g)
  }

  /** The detections the script evidently intends: every accepted prediction's, in order. */
  function Detections(predictions: seq<Prediction>, g: Geometry): seq<Detection>
    requires ValidGeometry(g)
  {
    ArrayOps.FlatMap(Kept(g), predictions)
  }

  /** The frame the script evidently intends. */
  function Intended(predictions: seq<Prediction>, g: Geometry): Frame
    requires ValidGeometry(g)
  {
    ToFrame(Detections(predictions, g))
  }

  /**
   * The intended per-frame decode: the threshold inside the loop, one
   * append to each list per accepted prediction.
   */
  method DecodeFrame(predictions: seq<Prediction>, g: Geometry) returns (frame: Frame)
    requires ValidGeometry(g)
    ensures frame == Intended(predictions, g)
  {
    var boxes: seq<PixelBox> := [];
    var confidences: seq<real> := [];
    var classIds: seq<nat> := [];
    var i := 0;
    while i < |predictions|
      invariant 0 <= i <= |predictions|
      invariant Frame(boxes, confidences, classIds) == Intended(predictions[..i], g)
    {
      var pred := predictions[i];
      var scores := pred[4..];
      var classId := ArgMaxFirst(scores);
      var confidence := scores[classId];
      IntendedAppend(predictions[..i], pred, g);
      if confidence > ConfidenceThreshold {
        boxes := boxes + [ScaleBack(pred, g)];
        confidences := confidences + [confidence];
        classIds := classIds + [classId];
      }
      assert predictions[..i + 1] == predictions[..i] + [pred];
      i := i + 1;
    }
    assert predictions[..i] == predictions;
    frame := Frame(boxes, confidences, classIds);
  }

  /** One more prediction at the end appends its detection when it is accepted. */
  lemma IntendedAppend(predictions: seq<Prediction>, pred: Prediction, g: Geometry)
    requires ValidGeometry(g)
    ensures Detections(predictions + [pred], g) == Detections(predictions, g) + Appended(PickOf(pred), g)
    ensures var f := Intended(predictions, g);
      Intended(predictions + [pred], g)
      == if Accepts(PickOf(pred)) then Frame(f.boxes + [ScaleBack(pred, g)], f.confidences + [PickOf(pred).confidence], f.classIds + [PickOf(pred).classId])
         else f
  {
    ArrayOps.FlatMapAppend(Kept(g), predictions, pred);
    ToFrameAppend(Detections(predictions, g), Appended(PickOf(pred), g));
  }

  /**
   * The intended frame keeps exactly the detections of the predictions above
   * the threshold: each of theirs is kept, and every kept one is one of theirs.
   */
  lemma IntendedKeepsAccepted(predictions: seq<Prediction>, g: Geometry, d: Detection)
    requires ValidGeometry(g)
    ensures d in Detections(predictions, g) <==>
      exists i :: 0 <= i < |predictions| && Accepts(PickOf(predictions[i])) && d == DetectionOf(PickOf(predictions[i]), g)
    ensures d in Detections(predictions, g) ==> d.confidence > ConfidenceThreshold
  {
    ArrayOps.FlatMapMembers(Kept(g), predictions, d);
  }

  /** As written, a frame keeps at most one detection; it fails exactly on a first frame with no predictions. */
  lemma AsWrittenKeepsAtMostOne(predictions: seq<Prediction>, carried: Option<Pick>, g: Geometry)
    requires ValidGeometry(g)
    ensures AsWritten(predictions, carried, g).Success? ==>
      |AsWritten(predictions, carried, g).value.frame.boxes| <= 1
    ensures AsWritten(predictions, carried, g).Failure? <==> predictions == [] && carried == None
  {
  }

  /**
   * As written, a frame with predictions decodes only its last prediction:
   * the result is the intended decode of that one prediction.
   */
  lemma AsWrittenDecodesLastOnly(predictions: seq<Prediction>, carried: Option<Pick>, g: Geometry)
    requires ValidGeometry(g) && predictions != []
    ensures AsWritten(predictions, carried, g).Success?
    ensures AsWritten(predictions, carried, g).value.frame == Intended(predictions[|predictions| - 1..], g)
  {
    var last := predictions[|predictions| - 1];
    assert predictions[|predictions| - 1..] == [] + [last];
    IntendedAppend([], last, g);
  }

  /**
   * Two confident predictions in one frame: the intended decode keeps both,
   * the script as written keeps only the second.
   */
  lemma AsWrittenDropsEarlierDetections()
    ensures var g := Geometry(640, 640, 640, 640);
      var pred: Prediction := [100.0, 100.0, 20.0, 20.0, 0.9];
      && |AsWritten([pred, pred], None, g).value.frame.boxes| == 1
      && |Intended([pred, pred], g).boxes| == 2
  {
    var g := Geometry(640, 640, 640, 640);
    var pred: Prediction := [100.0, 100.0, 20.0, 20.0, 0.9];
    assert pred[4..] == [0.9];
    assert Accepts(PickOf(pred));
    IntendedAppend([], pred, g);
    IntendedAppend([pred], pred, g);
    assert [] + [pred] == [pred];
    assert [pred] + [pred] == [pred, pred];
  }
}
