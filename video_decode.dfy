/**
 * The decoding half of `detectAccident` in the browser video panel: the raw
 * output tensor of the detection network, given by its `dims` and its flat
 * `data`, is turned into an accident verdict, the confidence shown with it,
 * and at most five boxes in image pixels.
 *
 * The network itself is not modelled: `(dims, data)` is an input. The image
 * size `W` x `H` is that of the uploaded image. Tensor values are `real`s;
 * Float32 rounding is not modelled.
 */
module VideoDecode {
  import opened Optional
  import ArrayOps

  /** A detection in image pixels, origin top-left; `label` is drawn next to it. */
  datatype Box = Box(x: real, y: real, width: real, height: real, confidence: real, caption: string)

  /** What a decode produces: the verdict, the confidence reported with it, and the boxes. */
  datatype Outcome = Outcome(isAccident: bool, confidence: real, detections: seq<Box>)

  const Label: string := "Accident Detected"
  /** A whole-image score above this is an accident. */
  const ClassificationThreshold: real := 0.5
  /** An anchor whose clamped confidence is above this is kept. */
  const AnchorThreshold: real := 0.3
  /** The side of the synthesised box, as a fraction of the shorter image side. */
  const CentreBoxFraction: real := 0.6
  /** Kept detections must be wider and taller than this many pixels. */
  const MinSide: real := 10.0
  /** At most this many detections are kept. */
  const MaxDetections: nat := 5

  function Min(a: real, b: real): real { if a <= b then a else b }
  function Max(a: real, b: real): real { if a >= b then a else b }

  /** `outputData[i]`: a read past the end of the tensor is `undefined`. */
  function At(data: seq<real>, i: nat): (r: Option<real>)
    ensures r.Some? <==> i < |data|
    ensures r.Some? ==> r.value == data[i]
  {
    if i < |data| then Some(data[i]) else None
  }

  /**
   * `clampConfidence`: a value above 1 is read as a percentage; the result
   * always lies in [0, 1].
   */
  function ClampConfidence(v: real): (r: real)
    ensures 0.0 <= r <= 1.0
    ensures 0.0 <= v <= 1.0 ==> r == v
    ensures 1.0 < v <= 100.0 ==> r == v / 100.0
    ensures v < 0.0 ==> r == 0.0
    ensures v >= 100.0 ==> r == 1.0
  {
    if v > 1.0 then Min(1.0, Max(0.0, v / 100.0)) else Min(1.0, Max(0.0, v))
  }

  /**
   * `normalizeCoord`: a value above 1 is read as pixels and divided by the
   * image side; any other value is already a fraction and is returned as is.
   */
  function NormalizeCoord(v: real, dimension: real): (r: real)
    requires dimension > 0.0
    ensures v <= 1.0 ==> r == v
    ensures v > 1.0 ==> r * dimension == v
  {
    if v > 1.0 then v / dimension else v
  }

  /**
   * A coordinate in pixels: `normalizeCoord(v, dimension) * dimension`, which
   * keeps a raw value above 1 as it is and scales any other value up by the
   * image side (see `ToPixelsScalesNormalized`).
   */
  function ToPixels(v: real, dimension: real): real
  {
    if v > 1.0 then v else v * dimension
  }

  /** Normalising and then multiplying back by the same side gives `ToPixels`. */
  lemma ToPixelsScalesNormalized(v: real, dimension: real)
    requires dimension > 0.0
    ensures NormalizeCoord(v, dimension) * dimension == ToPixels(v, dimension)
    ensures v > 1.0 ==> ToPixels(v, dimension) == v
  {
  }

  /** `b` lies inside the `W` x `H` image and has a positive size. */
  ghost predicate InImage(b: Box, W: real, H: real)
  {
    && 0.0 <= b.x && 0.0 <= b.y
    && b.width > 0.0 && b.height > 0.0
    && b.x + b.width <= W && b.y + b.height <= H
  }

  // ---------------------------------------------------------------------
  // Output layout dispatch

  /** The output layouts the decoder distinguishes, in the order it tests them. */
  datatype Layout =
    | SingleScore                         // dims [batch, 1]
    | TwoClass                            // dims [batch, 2]: [no accident, accident]
    | Anchors(count: nat, stride: nat)    // dims [batch, count, stride]
    | Flattened(step: nat)                // dims [batch, n] with n > 4
    | Fallback                            // anything else

  /** The branch `detectAccident` takes for output dims `dims`. */
  function LayoutOf(dims: seq<nat>): (l: Layout)
    ensures l.SingleScore? <==> |dims| == 2 && dims[1] == 1
    ensures l.TwoClass? <==> |dims| == 2 && dims[1] == 2
    ensures l.Anchors? <==> |dims| == 3 && dims[1] > 0
    ensures l.Anchors? ==> l.count == dims[1] && l.stride == dims[2]
    ensures l.Flattened? <==> |dims| == 2 && dims[1] > 4
    ensures l.Flattened? ==> l.step == (if dims[1] >= 6 then 6 else dims[1])
    ensures l.Flattened? ==> l.step == 5 || l.step == 6
  {
    if |dims| == 2 && dims[1] == 1 then SingleScore
    else if |dims| == 2 && dims[1] == 2 then TwoClass
    else if |dims| == 3 && dims[1] > 0 then Anchors(dims[1], dims[2])
    else if |dims| == 2 && dims[1] > 4 then Flattened(if dims[1] >= 6 then 6 else dims[1])
    else Fallback
  }

  // ---------------------------------------------------------------------
  // Whole-image classification branches

  /** The square synthesised for a whole-image verdict. */
  function CentreBox(confidence: real, W: real, H: real): (b: Box)
    requires W > 0.0 && H > 0.0
    ensures b.width == b.height == CentreBoxFraction * Min(W, H)
    ensures b.x + b.width / 2.0 == W / 2.0 && b.y + b.height / 2.0 == H / 2.0
    ensures InImage(b, W, H)
    ensures b.confidence == confidence && b.caption == Label
  {
    var side := Min(W, H) * 0.6;
    Box((W - side) / 2.0, (H - side) / 2.0, side, side, confidence, Label)
  }

  /**
   * The single-score, two-class and fallback branches, given the score they
   * read. A missing score is `undefined`, so the clamp yields NaN and the
   * test `> 0.5` fails; the confidence, never shown then, is taken as 0.
   */
  function Classify(raw: Option<real>, W: real, H: real): (o: Outcome)
    requires W > 0.0 && H > 0.0
    ensures o.isAccident <==> raw.Some? && ClampConfidence(raw.value) > ClassificationThreshold
    ensures o.isAccident ==> o.confidence == ClampConfidence(raw.value)
    ensures o.isAccident ==> o.detections == [CentreBox(o.confidence, W, H)]
    ensures !o.isAccident ==> o.detections == []
    ensures o.isAccident ==> o.confidence == MaxConfidence(o.detections)
    ensures forall i :: 0 <= i < |o.detections| ==> CandidateOk(o.detections[i], W, H)
  {
    match raw
    case None => Outcome(false, 0.0, [])
    case Some(v) =>
      var c := ClampConfidence(v);
      if c > 0.5 then Outcome(true, c, [CentreBox(c, W, H)]) else Outcome(false, c, [])
  }

  // ---------------------------------------------------------------------
  // Anchor branches

  /** The test an anchor passes to yield a box (pixel centre, pixel size, clamped confidence). */
  predicate Accepted(conf: real, xc: real, yc: real, w: real, h: real, W: real, H: real)
  {
    conf > AnchorThreshold && w > 0.0 && h > 0.0 && 0.0 <= xc < W && 0.0 <= yc < H
  }

  /**
   * The anchor whose values start at `data[base]`: `[cx, cy, w, h, conf, ...]`.
   * An accepted anchor gives a box whose top-left corner is clamped to the
   * image and whose size is cut at the right and bottom edges. The box covers
   * the part of the anchor inside the image, and is never larger than the anchor.
   */
  function AnchorAt(data: seq<real>, base: nat, W: real, H: real): (r: Option<Box>)
    requires base + 4 < |data| && W > 0.0 && H > 0.0
    ensures r.Some? <==> Accepted(ClampConfidence(data[base + 4]),
                                  ToPixels(data[base], W), ToPixels(data[base + 1], H),
                                  ToPixels(data[base + 2], W), ToPixels(data[base + 3], H), W, H)
    ensures r.Some? ==> AnchorBoxOk(r.value, W, H) && r.value.confidence == ClampConfidence(data[base + 4])
  {
    var xc := ToPixels(data[base], W);
    var yc := ToPixels(data[base + 1], H);
    var w := ToPixels(data[base + 2], W);
    var h := ToPixels(data[base + 3], H);
    var conf := ClampConfidence(data[base + 4]);
    if Accepted(conf, xc, yc, w, h, W, H) then
      var x := Max(0.0, xc - w / 2.0);
      var y := Max(0.0, yc - h / 2.0);
      Some(Box(x, y, Min(w, W - x), Min(h, H - y), conf, Label))
    else
      None
  }

  /**
   * An accepted anchor's box covers the part of the anchor inside the image
   * and is never larger than the anchor.
   */
  lemma AnchorAtCovers(data: seq<real>, base: nat, W: real, H: real)
    requires base + 4 < |data| && W > 0.0 && H > 0.0
    requires AnchorAt(data, base, W, H).Some?
    ensures var b, xc, w := AnchorAt(data, base, W, H).value, ToPixels(data[base], W), ToPixels(data[base + 2], W);
      b.x <= Max(0.0, xc - w / 2.0) && Min(W, xc + w / 2.0) <= b.x + b.width && b.width <= w
    ensures var b, yc, h := AnchorAt(data, base, W, H).value, ToPixels(data[base + 1], H), ToPixels(data[base + 3], H);
      b.y <= Max(0.0, yc - h / 2.0) && Min(H, yc + h / 2.0) <= b.y + b.height && b.height <= h
  {
  }

  /** The anchor starting at `base` is read (its `guard`-th value exists) and accepted. */
  predicate Yields(data: seq<real>, base: nat, guard: nat, W: real, H: real)
    requires guard >= 4 && W > 0.0 && H > 0.0
  {
    base + guard < |data| && AnchorAt(data, base, W, H).Some?
  }

  /**
   * The box (if any) of the anchor starting at `base`; the anchor is skipped
   * when its `guard`-th value lies past the end of `data`.
   */
  function AnchorBoxes(data: seq<real>, base: nat, guard: nat, W: real, H: real): (r: seq<Box>)
    requires guard >= 4 && W > 0.0 && H > 0.0
    ensures |r| <= 1
    ensures r != [] <==> Yields(data, base, guard, W, H)
    ensures r != [] ==> r[0] == AnchorAt(data, base, W, H).value
  {
    if base + guard < |data| then
      match AnchorAt(data, base, W, H)
      case Some(b) => [b]
      case None => []
    else []
  }

  /** The boxes of the anchors starting at each offset. */
  function BoxesAt(data: seq<real>, guard: nat, W: real, H: real): nat -> seq<Box>
    requires guard >= 4 && W > 0.0 && H > 0.0
  {
    (base: nat) => AnchorBoxes(data, base, guard, W, H)
  }

  /** The boxes of the anchors starting at `starts`, in that order. */
  function ScanAnchors(data: seq<real>, starts: seq<nat>, guard: nat, W: real, H: real): (r: seq<Box>)
    requires guard >= 4 && W > 0.0 && H > 0.0
  {
    ArrayOps.FlatMap(BoxesAt(data, guard, W, H), starts)
  }

  /** What every candidate box satisfies: inside the image, a confidence in [0, 1], labelled. */
  ghost predicate CandidateOk(b: Box, W: real, H: real)
  {
    InImage(b, W, H) && 0.0 <= b.confidence <= 1.0 && b.caption == Label
  }

  /** What every anchor box satisfies: a candidate that passed the anchor threshold. */
  ghost predicate AnchorBoxOk(b: Box, W: real, H: real)
  {
    CandidateOk(b, W, H) && AnchorThreshold < b.confidence
  }

  /** Every box of a scan lies inside the image and passed the confidence threshold. */
  lemma {:induction false} ScanAnchorsValid(data: seq<real>, starts: seq<nat>, guard: nat, W: real, H: real)
    requires guard >= 4 && W > 0.0 && H > 0.0
    ensures forall i :: 0 <= i < |ScanAnchors(data, starts, guard, W, H)| ==>
      AnchorBoxOk(ScanAnchors(data, starts, guard, W, H)[i], W, H)
    decreases |starts|
  {
    if starts != [] {
      var front := starts[..|starts| - 1];
      var last := starts[|starts| - 1];
      ScanAnchorsValid(data, front, guard, W, H);
      assert starts == front + [last];
      ArrayOps.FlatMapAppend(BoxesAt(data, guard, W, H), front, last);
      var before := ScanAnchors(data, front, guard, W, H);
      var added := AnchorBoxes(data, last, guard, W, H);
      var r := before + added;
      forall i | 0 <= i < |r| ensures AnchorBoxOk(r[i], W, H) {
        if i >= |before| {
          assert r[i] == added[0];
        } else {
          assert r[i] == before[i];
        }
      }
    }
  }

  /** At least one box comes out exactly when at least one in-range anchor is accepted. */
  lemma ScanAnchorsNonEmpty(data: seq<real>, starts: seq<nat>, guard: nat, W: real, H: real)
    requires guard >= 4 && W > 0.0 && H > 0.0
    ensures ScanAnchors(data, starts, guard, W, H) != [] <==>
      exists i :: 0 <= i < |starts| && Yields(data, starts[i], guard, W, H)
  {
    var f := BoxesAt(data, guard, W, H);
    ArrayOps.FlatMapNonEmpty(f, starts);
    if exists i :: 0 <= i < |starts| && f(starts[i]) != [] {
      var i :| 0 <= i < |starts| && f(starts[i]) != [];
      assert Yields(data, starts[i], guard, W, H);
    }
    if exists i :: 0 <= i < |starts| && Yields(data, starts[i], guard, W, H) {
      var i :| 0 <= i < |starts| && Yields(data, starts[i], guard, W, H);
      assert f(starts[i]) != [];
    }
  }

  /** `Math.max(confidence, conf)` over the boxes, starting from 0. */
  function MaxConfidence(s: seq<Box>): (m: real)
    ensures m >= 0.0
    ensures forall i :: 0 <= i < |s| ==> s[i].confidence <= m
    ensures m == 0.0 || exists i :: 0 <= i < |s| && s[i].confidence == m
    decreases |s|
  {
    if s == [] then 0.0
    else
      var front := s[..|s| - 1];
      var m := MaxConfidence(front);
      assert forall i :: 0 <= i < |front| ==> s[i] == front[i];
      Max(m, s[|s| - 1].confidence)
  }

  /** Scanning one more start, at the end, appends that anchor's box, if any. */
  lemma ScanAppend(data: seq<real>, starts: seq<nat>, base: nat, guard: nat, W: real, H: real)
    requires guard >= 4 && W > 0.0 && H > 0.0
    ensures ScanAnchors(data, starts + [base], guard, W, H)
      == ScanAnchors(data, starts, guard, W, H) + AnchorBoxes(data, base, guard, W, H)
  {
    ArrayOps.FlatMapAppend(BoxesAt(data, guard, W, H), starts, base);
  }

  /** Appending at most one box updates the maximum as `Math.max` does. */
  lemma MaxConfidenceStep(before: seq<Box>, after: seq<Box>)
    requires after == before || (|after| == |before| + 1 && after[..|before|] == before)
    ensures after != before ==> MaxConfidence(after) == Max(MaxConfidence(before), after[|before|].confidence)
  {
  }

  /** The offsets of the anchors of a `[batch, count, stride]` tensor, in loop order. */
  function Rank3Starts(count: nat, stride: nat): (r: seq<nat>)
    ensures |r| == count
  {
    if count == 0 then [] else Rank3Starts(count - 1, stride) + [Offset(count - 1, stride)]
  }

  /** Where anchor `i` starts: `i * stride`. */
  function Offset(i: nat, stride: nat): nat
  {
    i * stride
  }

  /** Anchor `k` of a `[batch, count, stride]` tensor starts at `k * stride`. */
  lemma {:induction false} Rank3StartsOffsets(count: nat, stride: nat)
    ensures forall k :: 0 <= k < count ==> Rank3Starts(count, stride)[k] == k * stride
  {
    if count > 0 {
      Rank3StartsOffsets(count - 1, stride);
      var r := Rank3Starts(count, stride);
      assert forall k :: 0 <= k < count - 1 ==> r[k] == Rank3Starts(count - 1, stride)[k];
    }
  }

  /** The offsets `from, from + step, ...` below `n` that the flattened loop visits. */
  function FlatStarts(from: nat, step: nat, n: nat): (r: seq<nat>)
    requires step > 0
    ensures forall k :: 0 <= k < |r| ==> from <= r[k] < n
    decreases n - from
  {
    if from >= n then [] else [from] + FlatStarts(from + step, step, n)
  }

  /** The `k`-th visited offset is `from + k * step`, and the offsets run up to `n`. */
  lemma {:induction false} FlatStartsOffsets(from: nat, step: nat, n: nat)
    requires step > 0
    ensures var r := FlatStarts(from, step, n);
      (forall k :: 0 <= k < |r| ==> r[k] == from + k * step) && from + |r| * step >= n
    decreases n - from
  {
    if from < n {
      var rest := FlatStarts(from + step, step, n);
      FlatStartsOffsets(from + step, step, n);
      var r := [from] + rest;
      assert r == FlatStarts(from, step, n);
      forall k | 1 <= k < |r| ensures r[k] == from + k * step {
        assert r[k] == rest[k - 1] == from + step + (k - 1) * step;
      }
      assert from + |r| * step == from + step + |rest| * step;
    }
  }

  /**
   * The loop body both anchor branches share: the anchor at `base` is read
   * when its `guard`-th value exists, and an accepted anchor sets the verdict,
   * raises the confidence to its own if larger, and appends its box. `visited`
   * holds the offsets read before.
   */
  method VisitAnchor(data: seq<real>, base: nat, guard: nat, W: real, H: real, ghost visited: seq<nat>,
                     isAccident: bool, confidence: real, detections: seq<Box>)
    returns (accident: bool, best: real, boxes: seq<Box>)
    requires guard >= 4 && W > 0.0 && H > 0.0
    requires detections == ScanAnchors(data, visited, guard, W, H)
    requires isAccident <==> detections != []
    requires confidence == MaxConfidence(detections)
    ensures boxes == ScanAnchors(data, visited + [base], guard, W, H)
    ensures accident <==> boxes != []
    ensures best == MaxConfidence(boxes)
  {
    ScanAppend(data, visited, base, guard, W, H);
    accident, best, boxes := isAccident, confidence, detections;
    if base + guard < |data| {
      match AnchorAt(data, base, W, H)
      case Some(b) =>
        accident := true;
        best := Max(best, b.confidence);
        boxes := boxes + [b];
        MaxConfidenceStep(detections, boxes);
      case None =>
    }
  }

  /** The flattened loop's bookkeeping: offsets visited so far, then the offsets still to come. */
  lemma FlatStartsStep(visited: seq<nat>, i: nat, step: nat, n: nat)
    requires step > 0 && visited + FlatStarts(i, step, n) == FlatStarts(0, step, n)
    ensures i < n ==> (visited + [i]) + FlatStarts(i + step, step, n) == FlatStarts(0, step, n)
    ensures i >= n ==> visited == FlatStarts(0, step, n)
  {
    if i < n {
      var later := FlatStarts(i + step, step, n);
      assert FlatStarts(i, step, n) == [i] + later;
      assert visited + ([i] + later) == (visited + [i]) + later;
    } else {
      assert visited + [] == visited;
    }
  }

  /**
   * The rank-3 branch: one anchor per index below `count`, read at
   * `i * stride`; an anchor is read only when its sixth value (the class) is
   * inside the tensor.
   */
  method DecodeAnchors(data: seq<real>, count: nat, stride: nat, W: real, H: real)
    returns (isAccident: bool, confidence: real, detections: seq<Box>)
    requires W > 0.0 && H > 0.0
    ensures detections == ScanAnchors(data, Rank3Starts(count, stride), 5, W, H)
    ensures isAccident <==> detections != []
    ensures confidence == MaxConfidence(detections)
  {
    isAccident, confidence, detections := false, 0.0, [];
    var i: nat := 0;
    ghost var visited: seq<nat> := [];
    while i < count
      invariant i <= count
      invariant visited == Rank3Starts(i, stride)
      invariant detections == ScanAnchors(data, visited, 5, W, H)
      invariant isAccident <==> detections != []
      invariant confidence == MaxConfidence(detections)
    {
      var base := Offset(i, stride);
      isAccident, confidence, detections := VisitAnchor(data, base, 5, W, H, visited, isAccident, confidence, detections);
      visited := visited + [base];
      i := i + 1;
    }
  }

  /**
   * The flattened rank-2 branch: anchors every `step` values from offset 0,
   * each read only when its fifth value (the confidence) is inside the tensor.
   */
  method DecodeFlattened(data: seq<real>, step: nat, W: real, H: real)
    returns (isAccident: bool, confidence: real, detections: seq<Box>)
    requires step > 0 && W > 0.0 && H > 0.0
    ensures detections == ScanAnchors(data, FlatStarts(0, step, |data|), 4, W, H)
    ensures isAccident <==> detections != []
    ensures confidence == MaxConfidence(detections)
  {
    isAccident, confidence, detections := false, 0.0, [];
    var i: nat := 0;
    ghost var visited: seq<nat> := [];
    while i < |data|
      invariant visited + FlatStarts(i, step, |data|) == FlatStarts(0, step, |data|)
      invariant detections == ScanAnchors(data, visited, 4, W, H)
      invariant isAccident <==> detections != []
      invariant confidence == MaxConfidence(detections)
      decreases |data| - i
    {
      FlatStartsStep(visited, i, step, |data|);
      isAccident, confidence, detections := VisitAnchor(data, i, 4, W, H, visited, isAccident, confidence, detections);
      visited := visited + [i];
      i := i + step;
    }
    FlatStartsStep(visited, i, step, |data|);
  }

  // ---------------------------------------------------------------------
  // The whole decode

  /** The verdict, confidence and candidate boxes of each branch, before the final filter. */
  function Candidates(dims: seq<nat>, data: seq<real>, W: real, H: real): (o: Outcome)
    requires W > 0.0 && H > 0.0
    ensures o.isAccident <==> o.detections != []
    ensures o.isAccident ==> o.confidence == MaxConfidence(o.detections)
    ensures forall i :: 0 <= i < |o.detections| ==> CandidateOk(o.detections[i], W, H)
  {
    match LayoutOf(dims)
    case SingleScore => Classify(At(data, 0), W, H)
    case TwoClass => Classify(At(data, 1), W, H)
    case Fallback => Classify(At(data, 0), W, H)
    case Anchors(count, stride) =>
      var b := ScanAnchors(data, Rank3Starts(count, stride), 5, W, H);
      ScanAnchorsValid(data, Rank3Starts(count, stride), 5, W, H);
      Outcome(b != [], MaxConfidence(b), b)
    case Flattened(step) =>
      var b := ScanAnchors(data, FlatStarts(0, step, |data|), 4, W, H);
      ScanAnchorsValid(data, FlatStarts(0, step, |data|), 4, W, H);
      Outcome(b != [], MaxConfidence(b), b)
  }

  /**
   * The whole-image branches: the single score (and the fallback) read value
   * 0, the two-class output reads value 1 (the accident class); an accident is
   * a clamped score above 0.5 and yields the one centred box.
   */
  lemma ClassificationCandidates(dims: seq<nat>, data: seq<real>, W: real, H: real)
    requires W > 0.0 && H > 0.0
    requires LayoutOf(dims).SingleScore? || LayoutOf(dims).TwoClass? || LayoutOf(dims).Fallback?
    ensures var o, k := Candidates(dims, data, W, H), if LayoutOf(dims).TwoClass? then 1 else 0;
      && (o.isAccident <==> k < |data| && ClampConfidence(data[k]) > ClassificationThreshold)
      && (o.isAccident ==> o.confidence == ClampConfidence(data[k]))
      && (o.isAccident ==> o.detections == [CentreBox(o.confidence, W, H)])
      && (!o.isAccident ==> o.detections == [])
  {
  }

  /**
   * The anchor branches: the candidates are the boxes of the scanned anchors,
   * there is an accident exactly when some read anchor is accepted, and the
   * confidence is the largest box confidence.
   */
  lemma AnchorCandidates(dims: seq<nat>, data: seq<real>, W: real, H: real)
    requires W > 0.0 && H > 0.0
    requires LayoutOf(dims).Anchors? || LayoutOf(dims).Flattened?
    ensures var o, l := Candidates(dims, data, W, H), LayoutOf(dims);
      var starts := if l.Anchors? then Rank3Starts(l.count, l.stride) else FlatStarts(0, l.step, |data|);
      var guard := if l.Anchors? then 5 else 4;
      && o.detections == ScanAnchors(data, starts, guard, W, H)
      && (o.isAccident <==> exists i :: 0 <= i < |starts| && Yields(data, starts[i], guard, W, H))
      && o.confidence == MaxConfidence(o.detections)
  {
    var l := LayoutOf(dims);
    var starts := if l.Anchors? then Rank3Starts(l.count, l.stride) else FlatStarts(0, l.step, |data|);
    var guard := if l.Anchors? then 5 else 4;
    ScanAnchorsNonEmpty(data, starts, guard, W, H);
  }

  /** A candidate the panel keeps: confident enough and large enough to draw. */
  predicate Displayable(b: Box)
  {
    b.confidence > AnchorThreshold && b.width > MinSide && b.height > MinSide
  }

  function ConfidenceOf(b: Box): real { b.confidence }

  /** `filter(displayable).sort(by confidence, descending).slice(0, 5)`. */
  function FinalDetections(candidates: seq<Box>): (r: seq<Box>)
    ensures |r| <= MaxDetections
    ensures forall i :: 0 <= i < |r| ==> Displayable(r[i])
    ensures multiset(r) <= multiset(candidates)
    ensures ArrayOps.SortedDesc(r, ConfidenceOf)
  {
    var kept := ArrayOps.Filter(candidates, Displayable);
    var sorted := ArrayOps.SortDesc(kept, ConfidenceOf);
    ArrayOps.SortDescSorted(kept, ConfidenceOf);
    ArrayOps.TakeSorted(sorted, MaxDetections, ConfidenceOf);
    ArrayOps.FilterMembers(candidates, Displayable, ArrayOps.Take(sorted, MaxDetections));
    ArrayOps.Take(sorted, MaxDetections)
  }

  /**
   * The kept detections are the most confident ones: every displayable
   * candidate is kept, unless five are kept and it is no more confident than
   * the last of them. With at most five displayable candidates all are kept.
   */
  lemma FinalDetectionsAreTopFive(candidates: seq<Box>)
    ensures var kept, r := ArrayOps.Filter(candidates, Displayable), FinalDetections(candidates);
      forall i :: 0 <= i < |kept| ==>
        kept[i] in r || (|r| == MaxDetections && kept[i].confidence <= r[MaxDetections - 1].confidence)
    ensures var kept := ArrayOps.Filter(candidates, Displayable);
      |kept| <= MaxDetections ==> multiset(FinalDetections(candidates)) == multiset(kept)
  {
    var kept := ArrayOps.Filter(candidates, Displayable);
    var sorted := ArrayOps.SortDesc(kept, ConfidenceOf);
    ArrayOps.SortDescSorted(kept, ConfidenceOf);
    var r := FinalDetections(candidates);
    assert r == ArrayOps.Take(sorted, MaxDetections);
    forall i | 0 <= i < |kept|
      ensures kept[i] in r || (|r| == MaxDetections && kept[i].confidence <= r[MaxDetections - 1].confidence)
    {
      assert kept[i] in multiset(sorted);
      ArrayOps.TakeKeepsLargest(sorted, MaxDetections, ConfidenceOf, kept[i]);
    }
  }

  /** The kept detections keep what every candidate satisfies. */
  lemma KeptAreCandidates(candidates: seq<Box>, W: real, H: real)
    requires forall i :: 0 <= i < |candidates| ==> CandidateOk(candidates[i], W, H)
    ensures forall i :: 0 <= i < |FinalDetections(candidates)| ==> CandidateOk(FinalDetections(candidates)[i], W, H)
  {
    var r := FinalDetections(candidates);
    forall i | 0 <= i < |r| ensures CandidateOk(r[i], W, H) {
      assert r[i] in multiset(candidates);
      var j :| 0 <= j < |candidates| && candidates[j] == r[i];
    }
  }

  /**
   * `detectAccident` after inference: dispatch on the layout, run the
   * branch, then keep the best displayable boxes. The verdict and confidence
   * are those of the branch; the boxes are the filtered, sorted top five.
   */
  method DetectAccident(dims: seq<nat>, data: seq<real>, W: real, H: real)
    returns (isAccident: bool, confidence: real, detections: seq<Box>)
    requires W > 0.0 && H > 0.0
    ensures var c := Candidates(dims, data, W, H);
      isAccident == c.isAccident && confidence == c.confidence
      && detections == FinalDetections(c.detections)
    ensures |detections| <= MaxDetections
    ensures forall i :: 0 <= i < |detections| ==>
      InImage(detections[i], W, H) && Displayable(detections[i]) && detections[i].confidence <= 1.0
    ensures detections != [] ==> isAccident
  {
    var candidates: seq<Box>;
    match LayoutOf(dims) {
      case SingleScore =>
        var o := Classify(At(data, 0), W, H);
        isAccident, confidence, candidates := o.isAccident, o.confidence, o.detections;
      case TwoClass =>
        var o := Classify(At(data, 1), W, H);
        isAccident, confidence, candidates := o.isAccident, o.confidence, o.detections;
      case Anchors(count, stride) =>
        isAccident, confidence, candidates := DecodeAnchors(data, count, stride, W, H);
      case Flattened(step) =>
        isAccident, confidence, candidates := DecodeFlattened(data, step, W, H);
      case Fallback =>
        var o := Classify(At(data, 0), W, H);
        isAccident, confidence, candidates := o.isAccident, o.confidence, o.detections;
    }
    ghost var c := Candidates(dims, data, W, H);
    assert isAccident == c.isAccident && confidence == c.confidence && candidates == c.detections;
    detections := FinalDetections(candidates);
    KeptAreCandidates(candidates, W, H);
  }
}
