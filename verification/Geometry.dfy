/** From the agent's pointer to the phone's raycast: the letterbox mapping, over exact reals. */
module Geometry {
  import opened Rooms

  /** A point of the video frame (u to the right, v down, both in 0..1), or of a screen in pixels. */
  datatype Point = Point(x: real, y: real)

  datatype Panel = Panel(width: real, height: real, sourceWidth: int, sourceHeight: int) {
    predicate Degenerate() {
      width <= 0.0 || height <= 0.0 || sourceWidth <= 0 || sourceHeight <= 0
    }
  }

  function Min(a: real, b: real): real {
    if a <= b then a else b
  }

  function Scale(p: Panel): real
    requires !p.Degenerate()
  {
    Min(p.width / p.sourceWidth as real, p.height / p.sourceHeight as real)
  }

  /** The displayed frame, in the panel's pixels. */
  datatype Rect = Rect(left: real, top: real, width: real, height: real)

  /** Uniform fit, centred: bars fill the remaining space. */
  function Displayed(p: Panel): Rect
    requires !p.Degenerate()
  {
    var w, h := p.sourceWidth as real * Scale(p), p.sourceHeight as real * Scale(p);
    Rect((p.width - w) / 2.0, (p.height - h) / 2.0, w, h)
  }

  lemma Quotient(a: real, b: real)
    requires a > 0.0 && b > 0.0
    ensures a / b > 0.0 && b * (a / b) == a
  {
  }

  lemma Grows(b: real, x: real, y: real)
    requires b > 0.0 && 0.0 < x <= y
    ensures 0.0 < b * x <= b * y
  {
  }

  /** The frame lies in the panel and fills it in at least one direction: no bar is negative, at least
      one pair of bars is empty, and the frame keeps its aspect ratio. */
  lemma OneBarPairIsEmpty(p: Panel)
    requires !p.Degenerate()
    ensures var d := Displayed(p);
            && 0.0 < d.width <= p.width && 0.0 < d.height <= p.height
            && d.left >= 0.0 && d.top >= 0.0 && (d.left == 0.0 || d.top == 0.0)
            && 2.0 * d.left + d.width == p.width && 2.0 * d.top + d.height == p.height
            && d.width * p.sourceHeight as real == d.height * p.sourceWidth as real
  {
    var w, h := p.sourceWidth as real, p.sourceHeight as real;
    Quotient(p.width, w);
    Quotient(p.height, h);
    Grows(w, Scale(p), p.width / w);
    Grows(h, Scale(p), p.height / h);
  }

  function InRect(d: Rect, pointer: Point): Option<Point>
    requires d.width > 0.0 && d.height > 0.0
  {
    var x, y := pointer.x - d.left, pointer.y - d.top;
    if x < 0.0 || y < 0.0 || x > d.width || y > d.height then None else Some(Point(x / d.width, y / d.height))
  }

  /** PointerToNormalized. */
  function ToNormalized(p: Panel, pointer: Point): Option<Point> {
    if p.Degenerate() then None else OneBarPairIsEmpty(p); InRect(Displayed(p), pointer)
  }

  /** Where the panel shows a point of the frame. */
  function ToPixel(d: Rect, n: Point): Point {
    Point(d.left + n.x * d.width, d.top + n.y * d.height)
  }

  predicate Covers(d: Rect, pointer: Point) {
    d.left <= pointer.x <= d.left + d.width && d.top <= pointer.y <= d.top + d.height
  }

  lemma Ratio(a: real, b: real)
    requires 0.0 <= a <= b && b > 0.0
    ensures 0.0 <= a / b <= 1.0 && (a / b) * b == a
  {
  }

  lemma Share(n: real, width: real)
    requires 0.0 <= n <= 1.0 && width > 0.0
    ensures 0.0 <= n * width <= width && (n * width) / width == n
  {
  }

  /** One coordinate of ToPixel, taken back. */
  lemma AlongAxis(left: real, n: real, width: real, at: real)
    requires 0.0 <= n <= 1.0 && width > 0.0 && at == left + n * width
    ensures 0.0 <= at - left <= width && (at - left) / width == n
  {
    Share(n, width);
    assert at - left == n * width;
  }

  lemma InRectUndoesToPixel(d: Rect, n: Point)
    requires d.width > 0.0 && d.height > 0.0 && 0.0 <= n.x <= 1.0 && 0.0 <= n.y <= 1.0
    ensures InRect(d, ToPixel(d, n)) == Some(n)
  {
    var at := ToPixel(d, n);
    AlongAxis(d.left, n.x, d.width, at.x);
    AlongAxis(d.top, n.y, d.height, at.y);
  }

  lemma ToPixelUndoesInRect(d: Rect, pointer: Point)
    requires d.width > 0.0 && d.height > 0.0
    ensures InRect(d, pointer).Some? <==> Covers(d, pointer)
    ensures var r := InRect(d, pointer);
            r.Some? ==> 0.0 <= r.value.x <= 1.0 && 0.0 <= r.value.y <= 1.0 && ToPixel(d, r.value) == pointer
  {
    if Covers(d, pointer) {
      Ratio(pointer.x - d.left, d.width);
      Ratio(pointer.y - d.top, d.height);
    }
  }

  /** Null exactly in the bars or on degenerate sizes; elsewhere a point of the frame, and the one that
      is shown at that pixel. */
  lemma NormalizedIsShown(p: Panel, pointer: Point)
    ensures ToNormalized(p, pointer).Some? <==> !p.Degenerate() && Covers(Displayed(p), pointer)
    ensures var r := ToNormalized(p, pointer);
            r.Some? ==> 0.0 <= r.value.x <= 1.0 && 0.0 <= r.value.y <= 1.0 && ToPixel(Displayed(p), r.value) == pointer
    ensures var r := ToNormalized(p, pointer);
            r.Some? ==> var d := Displayed(p);
                        r.value.x * d.width == pointer.x - d.left && r.value.y * d.height == pointer.y - d.top
  {
    if !p.Degenerate() {
      OneBarPairIsEmpty(p);
      ToPixelUndoesInRect(Displayed(p), pointer);
    }
  }

  /** ... and clicking where a frame point is shown gives that point back. */
  lemma ShownIsNormalized(p: Panel, n: Point)
    requires !p.Degenerate() && 0.0 <= n.x <= 1.0 && 0.0 <= n.y <= 1.0
    ensures ToNormalized(p, ToPixel(Displayed(p), n)) == Some(n)
  {
    OneBarPairIsEmpty(p);
    InRectUndoesToPixel(Displayed(p), n);
  }

  // ---------- the phone ----------

  /** The point of the screen, y up, from which the anchor manager casts its ray. */
  function RaycastPoint(screen: Point, n: Point): Point {
    Point(n.x * screen.x, (1.0 - n.y) * screen.y)
  }

  /** The ray is cast as far from the left edge of the screen, and as far from its top, as the point is from
      the frame's: the frame's top left corner is the screen's, with y up. */
  lemma RayIsCastAtTheShare(screen: Point, n: Point)
    requires screen.x > 0.0 && screen.y > 0.0
    ensures var at := RaycastPoint(screen, n); at.x == n.x * screen.x && screen.y - at.y == n.y * screen.y
    ensures RaycastPoint(screen, Point(0.0, 0.0)) == Point(0.0, screen.y)
    ensures RaycastPoint(screen, Point(1.0, 1.0)) == Point(screen.x, 0.0)
  {
    assert (1.0 - n.y) * screen.y == screen.y - n.y * screen.y;
  }

  /** The overlay's anchored position, from the canvas centre, y up. */
  function AnchoredPosition(canvas: Point, n: Point): Point {
    Point((n.x - 0.5) * canvas.x, (0.5 - n.y) * canvas.y)
  }

  /** The overlay marker on the screen, for a canvas that starts at the screen's corner. */
  function OverlayPoint(canvas: Point, n: Point): Point {
    Point(canvas.x / 2.0 + AnchoredPosition(canvas, n).x, canvas.y / 2.0 + AnchoredPosition(canvas, n).y)
  }

  /** The flat marker stands where the ray is cast, for every point of the frame, exactly when the
      canvas is as large as the screen. */
  lemma OverlayMatchesRaycast(screen: Point, canvas: Point)
    ensures (forall n: Point :: OverlayPoint(canvas, n) == RaycastPoint(screen, n)) <==> canvas == screen
  {
    assert forall n: Point :: OverlayPoint(canvas, n) == RaycastPoint(canvas, n) by {
      forall n: Point ensures OverlayPoint(canvas, n) == RaycastPoint(canvas, n) {}
    }
    if canvas != screen {
      var corner := Point(1.0, 0.0);
      assert RaycastPoint(canvas, corner) == canvas && RaycastPoint(screen, corner) == screen;
      assert OverlayPoint(canvas, corner) != RaycastPoint(screen, corner);
    }
  }
}
