/**
 * The overlay of the browser video panel: the image is shown `object-contain`
 * inside its container, so the detection boxes, which are in the image's own
 * pixels, are scaled and shifted onto the displayed image before they are
 * stroked. Only the arithmetic is modelled; the canvas, the device pixel
 * ratio and the label text are drawing.
 */
module VideoOverlay {
  import ArrayOps
  import VideoDecode

  /** Where the image is displayed inside the container. */
  datatype Fit = Fit(displayWidth: real, displayHeight: real, offsetX: real, offsetY: real)

  /** A rectangle in the container's pixels. */
  datatype Rect = Rect(x: real, y: real, width: real, height: real)

  /** Natural image size and container size; both are positive for a loaded, laid-out image. */
  predicate Sizes(naturalWidth: real, naturalHeight: real, containerWidth: real, containerHeight: real)
  {
    naturalWidth > 0.0 && naturalHeight > 0.0 && containerWidth > 0.0 && containerHeight > 0.0
  }

  /**
   * The object-contain fit: an image relatively wider than the container
   * fills its width and is centred vertically; otherwise it fills the
   * height and is centred horizontally.
   */
  function ObjectContain(naturalWidth: real, naturalHeight: real, containerWidth: real, containerHeight: real): (f: Fit)
    requires Sizes(naturalWidth, naturalHeight, containerWidth, containerHeight)
    ensures 0.0 < f.displayWidth <= containerWidth && 0.0 < f.displayHeight <= containerHeight
    ensures f.displayWidth == containerWidth || f.displayHeight == containerHeight
  {
    var imgAspect := naturalWidth / naturalHeight;
    var containerAspect := containerWidth / containerHeight;
    if imgAspect > containerAspect then
      assert containerWidth / imgAspect < containerHeight by { WiderFitsHeight(imgAspect, containerWidth, containerHeight); }
      var displayHeight := containerWidth / imgAspect;
      Fit(containerWidth, displayHeight, 0.0, (containerHeight - displayHeight) / 2.0)
    else
      assert containerHeight * imgAspect <= containerWidth by { TallerFitsWidth(imgAspect, containerWidth, containerHeight); }
      var displayWidth := containerHeight * imgAspect;
      Fit(displayWidth, containerHeight, (containerWidth - displayWidth) / 2.0, 0.0)
  }

  lemma WiderFitsHeight(a: real, w: real, h: real)
    requires a > 0.0 && w > 0.0 && h > 0.0 && a > w / h
    ensures w / a < h
  {
    assert a * h > w;
  }

  lemma TallerFitsWidth(a: real, w: real, h: real)
    requires a > 0.0 && w > 0.0 && h > 0.0 && a <= w / h
    ensures h * a <= w
  {
  }

  /** Image pixels to display pixels, horizontally. */
  function ScaleX(f: Fit, naturalWidth: real): real
    requires naturalWidth > 0.0
  {
    f.displayWidth / naturalWidth
  }

  /** Image pixels to display pixels, vertically. */
  function ScaleY(f: Fit, naturalHeight: real): real
    requires naturalHeight > 0.0
  {
    f.displayHeight / naturalHeight
  }

  /** The fit keeps the image's aspect ratio: both axes are scaled by the same positive factor. */
  lemma ContainKeepsAspect(naturalWidth: real, naturalHeight: real, containerWidth: real, containerHeight: real)
    requires Sizes(naturalWidth, naturalHeight, containerWidth, containerHeight)
    ensures var f := ObjectContain(naturalWidth, naturalHeight, containerWidth, containerHeight);
      ScaleX(f, naturalWidth) == ScaleY(f, naturalHeight) > 0.0
  {
    var f := ObjectContain(naturalWidth, naturalHeight, containerWidth, containerHeight);
    var a := naturalWidth / naturalHeight;
    assert naturalWidth == a * naturalHeight;
    if a > containerWidth / containerHeight {
      assert f.displayHeight * a == containerWidth;
      assert f.displayWidth / naturalWidth == f.displayHeight * a / (a * naturalHeight);
    } else {
      assert f.displayWidth == containerHeight * a;
      assert f.displayWidth / naturalWidth == containerHeight * a / (a * naturalHeight);
    }
  }

  /**
   * The displayed image lies inside the container and is centred on both
   * axes; on the axis it fills the offset is therefore 0.
   */
  lemma ContainCentred(naturalWidth: real, naturalHeight: real, containerWidth: real, containerHeight: real)
    requires Sizes(naturalWidth, naturalHeight, containerWidth, containerHeight)
    ensures var f := ObjectContain(naturalWidth, naturalHeight, containerWidth, containerHeight);
      && f.offsetX == (containerWidth - f.displayWidth) / 2.0 >= 0.0
      && f.offsetY == (containerHeight - f.displayHeight) / 2.0 >= 0.0
      && f.offsetX + f.displayWidth + f.offsetX == containerWidth
      && f.offsetY + f.displayHeight + f.offsetY == containerHeight
      && (f.displayWidth == containerWidth ==> f.offsetX == 0.0)
      && (f.displayHeight == containerHeight ==> f.offsetY == 0.0)
  {
  }

  /** A detection box scaled and shifted onto the displayed image. */
  function Place(f: Fit, naturalWidth: real, naturalHeight: real, b: VideoDecode.Box): Rect
    requires naturalWidth > 0.0 && naturalHeight > 0.0
  {
    var sx := ScaleX(f, naturalWidth);
    var sy := ScaleY(f, naturalHeight);
    Rect(f.offsetX + b.x * sx, f.offsetY + b.y * sy, b.width * sx, b.height * sy)
  }

  /** The guard before stroking: a rectangle with a non-positive side is skipped. */
  predicate Drawn(r: Rect)
  {
    !(r.width <= 0.0 || r.height <= 0.0)
  }

  /** A detection is stroked exactly when its own width and height are positive. */
  lemma DrawnIffPositive(naturalWidth: real, naturalHeight: real, containerWidth: real, containerHeight: real, b: VideoDecode.Box)
    requires Sizes(naturalWidth, naturalHeight, containerWidth, containerHeight)
    ensures Drawn(Place(ObjectContain(naturalWidth, naturalHeight, containerWidth, containerHeight), naturalWidth, naturalHeight, b))
      <==> b.width > 0.0 && b.height > 0.0
  {
    var f := ObjectContain(naturalWidth, naturalHeight, containerWidth, containerHeight);
    ContainKeepsAspect(naturalWidth, naturalHeight, containerWidth, containerHeight);
    PositiveScale(b.width, ScaleX(f, naturalWidth));
    PositiveScale(b.height, ScaleY(f, naturalHeight));
  }

  lemma PositiveScale(v: real, s: real)
    requires s > 0.0
    ensures v * s > 0.0 <==> v > 0.0
  {
    if v > 0.0 {
      assert v * s > 0.0;
    } else {
      assert v * s <= 0.0;
    }
  }

  /** A box inside the image is drawn inside the container. */
  lemma PlacedInsideContainer(naturalWidth: real, naturalHeight: real, containerWidth: real, containerHeight: real, b: VideoDecode.Box)
    requires Sizes(naturalWidth, naturalHeight, containerWidth, containerHeight)
    requires 0.0 <= b.x && 0.0 <= b.width && b.x + b.width <= naturalWidth
    requires 0.0 <= b.y && 0.0 <= b.height && b.y + b.height <= naturalHeight
    ensures var r := Place(ObjectContain(naturalWidth, naturalHeight, containerWidth, containerHeight), naturalWidth, naturalHeight, b);
      0.0 <= r.x && r.x + r.width <= containerWidth && 0.0 <= r.y && r.y + r.height <= containerHeight
  {
    var f := ObjectContain(naturalWidth, naturalHeight, containerWidth, containerHeight);
    ContainKeepsAspect(naturalWidth, naturalHeight, containerWidth, containerHeight);
    ContainCentred(naturalWidth, naturalHeight, containerWidth, containerHeight);
    SpanInside(b.x, b.width, naturalWidth, f.displayWidth, f.offsetX, containerWidth);
    SpanInside(b.y, b.height, naturalHeight, f.displayHeight, f.offsetY, containerHeight);
  }

  /** One axis of `PlacedInsideContainer`. */
  lemma SpanInside(start: real, len: real, natural: real, display: real, offset: real, container: real)
    requires natural > 0.0 && display > 0.0
    requires 0.0 <= start && 0.0 <= len && start + len <= natural
    requires offset >= 0.0 && offset + display <= container
    ensures 0.0 <= offset + start * (display / natural)
    ensures offset + start * (display / natural) + len * (display / natural) <= container
  {
    var s := display / natural;
    assert s > 0.0;
    assert start * s >= 0.0;
    assert start * s + len * s == (start + len) * s;
    assert (start + len) * s <= natural * s;
    assert natural * s == display;
  }

  /** The rectangles the overlay strokes, in detection order: the placed boxes that pass the guard. */
  function Strokes(f: Fit, naturalWidth: real, naturalHeight: real, detections: seq<VideoDecode.Box>): (r: seq<Rect>)
    requires naturalWidth > 0.0 && naturalHeight > 0.0
    ensures |r| <= |detections|
    ensures forall i :: 0 <= i < |r| ==> Drawn(r[i])
  {
    if detections == [] then []
    else
      var rest := Strokes(f, naturalWidth, naturalHeight, detections[1..]);
      var placed := Place(f, naturalWidth, naturalHeight, detections[0]);
      if Drawn(placed) then [placed] + rest else rest
  }

  /** A detection has a positive width and height. */
  predicate HasArea(b: VideoDecode.Box)
  {
    b.width > 0.0 && b.height > 0.0
  }

  /** Exactly the detections with positive width and height are stroked, each once. */
  lemma {:induction false} StrokesCount(naturalWidth: real, naturalHeight: real, containerWidth: real, containerHeight: real, detections: seq<VideoDecode.Box>)
    requires Sizes(naturalWidth, naturalHeight, containerWidth, containerHeight)
    ensures |Strokes(ObjectContain(naturalWidth, naturalHeight, containerWidth, containerHeight), naturalWidth, naturalHeight, detections)|
      == ArrayOps.Count(detections, HasArea)
  {
    if detections != [] {
      StrokesCount(naturalWidth, naturalHeight, containerWidth, containerHeight, detections[1..]);
      DrawnIffPositive(naturalWidth, naturalHeight, containerWidth, containerHeight, detections[0]);
      assert detections == [detections[0]] + detections[1..];
      ArrayOps.CountCons(detections[0], detections[1..], HasArea);
    }
  }

  /** Strokes follow detection order: the strokes of a concatenation are those of each part, in turn. */
  lemma {:induction false} StrokesAppend(f: Fit, naturalWidth: real, naturalHeight: real, a: seq<VideoDecode.Box>, b: seq<VideoDecode.Box>)
    requires naturalWidth > 0.0 && naturalHeight > 0.0
    ensures Strokes(f, naturalWidth, naturalHeight, a + b)
      == Strokes(f, naturalWidth, naturalHeight, a) + Strokes(f, naturalWidth, naturalHeight, b)
    decreases |a|
  {
    if a == [] {
      assert a + b == b;
    } else {
      var placed := Place(f, naturalWidth, naturalHeight, a[0]);
      var h := if Drawn(placed) then [placed] else [];
      assert (a + b)[0] == a[0] && (a + b)[1..] == a[1..] + b;
      calc {
        Strokes(f, naturalWidth, naturalHeight, a + b);
        h + Strokes(f, naturalWidth, naturalHeight, a[1..] + b);
        { StrokesAppend(f, naturalWidth, naturalHeight, a[1..], b); }
        h + (Strokes(f, naturalWidth, naturalHeight, a[1..]) + Strokes(f, naturalWidth, naturalHeight, b));
        (h + Strokes(f, naturalWidth, naturalHeight, a[1..])) + Strokes(f, naturalWidth, naturalHeight, b);
        Strokes(f, naturalWidth, naturalHeight, a) + Strokes(f, naturalWidth, naturalHeight, b);
      }
    }
  }

  /** A single detection is stroked as its placed box, exactly when that box passes the guard. */
  lemma StrokesOne(f: Fit, naturalWidth: real, naturalHeight: real, d: VideoDecode.Box)
    requires naturalWidth > 0.0 && naturalHeight > 0.0
    ensures var placed := Place(f, naturalWidth, naturalHeight, d);
      Strokes(f, naturalWidth, naturalHeight, [d]) == if Drawn(placed) then [placed] else []
  {
    assert [d][1..] == [];
  }

  /** Every stroke is the placement of some detection. */
  lemma {:induction false} StrokesArePlacements(f: Fit, naturalWidth: real, naturalHeight: real, detections: seq<VideoDecode.Box>)
    requires naturalWidth > 0.0 && naturalHeight > 0.0
    ensures forall r :: r in Strokes(f, naturalWidth, naturalHeight, detections) ==>
      exists j :: 0 <= j < |detections| && r == Place(f, naturalWidth, naturalHeight, detections[j])
    decreases |detections|
  {
    if detections != [] {
      StrokesArePlacements(f, naturalWidth, naturalHeight, detections[1..]);
      forall r | r in Strokes(f, naturalWidth, naturalHeight, detections[1..])
        ensures exists j :: 0 <= j < |detections| && r == Place(f, naturalWidth, naturalHeight, detections[j])
      {
        var j :| 0 <= j < |detections[1..]| && r == Place(f, naturalWidth, naturalHeight, detections[1..][j]);
        assert detections[1..][j] == detections[j + 1];
      }
    }
  }

  /** A rectangle lies within a `containerWidth` x `containerHeight` container. */
  predicate Inside(r: Rect, containerWidth: real, containerHeight: real)
  {
    0.0 <= r.x && r.x + r.width <= containerWidth && 0.0 <= r.y && r.y + r.height <= containerHeight
  }

  /** A detection lies within the natural image. */
  predicate InNatural(b: VideoDecode.Box, naturalWidth: real, naturalHeight: real)
  {
    && 0.0 <= b.x && 0.0 <= b.width && b.x + b.width <= naturalWidth
    && 0.0 <= b.y && 0.0 <= b.height && b.y + b.height <= naturalHeight
  }

  /** When every detection lies in the image, every stroke lies in the container. */
  lemma StrokesInsideContainer(naturalWidth: real, naturalHeight: real, containerWidth: real, containerHeight: real, detections: seq<VideoDecode.Box>)
    requires Sizes(naturalWidth, naturalHeight, containerWidth, containerHeight)
    requires forall j :: 0 <= j < |detections| ==> InNatural(detections[j], naturalWidth, naturalHeight)
    ensures var strokes := Strokes(ObjectContain(naturalWidth, naturalHeight, containerWidth, containerHeight), naturalWidth, naturalHeight, detections);
      forall i :: 0 <= i < |strokes| ==> Inside(strokes[i], containerWidth, containerHeight)
  {
    var f := ObjectContain(naturalWidth, naturalHeight, containerWidth, containerHeight);
    forall j | 0 <= j < |detections|
      ensures Inside(Place(f, naturalWidth, naturalHeight, detections[j]), containerWidth, containerHeight)
    {
      PlacedInsideContainer(naturalWidth, naturalHeight, containerWidth, containerHeight, detections[j]);
    }
    StrokesInside(f, naturalWidth, naturalHeight, containerWidth, containerHeight, detections);
  }

  /** Strokes are drawn from the placed boxes, so a bound on every placed box bounds every stroke. */
  lemma {:induction false} StrokesInside(f: Fit, naturalWidth: real, naturalHeight: real, containerWidth: real, containerHeight: real, detections: seq<VideoDecode.Box>)
    requires naturalWidth > 0.0 && naturalHeight > 0.0
    requires forall j :: 0 <= j < |detections| ==> Inside(Place(f, naturalWidth, naturalHeight, detections[j]), containerWidth, containerHeight)
    ensures forall i :: 0 <= i < |Strokes(f, naturalWidth, naturalHeight, detections)| ==>
      Inside(Strokes(f, naturalWidth, naturalHeight, detections)[i], containerWidth, containerHeight)
    decreases |detections|
  {
    if detections != [] {
      StrokesInside(f, naturalWidth, naturalHeight, containerWidth, containerHeight, detections[1..]);
      var rest := Strokes(f, naturalWidth, naturalHeight, detections[1..]);
      var placed := Place(f, naturalWidth, naturalHeight, detections[0]);
      if Drawn(placed) {
        assert forall i :: 0 < i <= |rest| ==> ([placed] + rest)[i] == rest[i - 1];
      }
    }
  }
}
