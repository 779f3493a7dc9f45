/**
 * The `Circle` shape of the connection map: a disk that can be hit-tested,
 * grows while hovered, classifies its bounding-box corners into quarters
 * around a reference centre, and on click starts or completes a curve that
 * connects two circles.
 *
 * The diagram's root controller and the curve figures are collaborators whose
 * code is not part of this model; they appear as the small classes `Root` and
 * `CurveLineFigure`, holding only the state a circle reads or changes.
 */
module Shapes {
  import Animation
  import InsertionOrder

  datatype Point = Point(x: real, y: real)

  /** The quarter (quadrant) of a point relative to a reference centre. */
  datatype Quarter = TopLeft | TopRight | BottomLeft | BottomRight

  /** The argument of the shared quarter classifier: a point and the reference centre. */
  datatype QuarterQuery = QuarterQuery(x: real, y: real, centerX: real, centerY: real)

  function Square(a: real): real {
    a * a
  }

  function Abs(a: real): real {
    if a < 0.0 then -a else a
  }

  /** For non-negative reals, comparing squares is comparing the values. */
  lemma SquareMonotone(a: real, b: real)
    requires 0.0 <= a && 0.0 <= b
    ensures Square(a) <= Square(b) <==> a <= b
  {
    if a <= b {
      calc {
        a * a;
      <=
        a * b;
      <=
        b * b;
      }
    } else {
      calc {
        b * b;
      <=
        b * a;
      <
        a * a;
      }
    }
  }

  /**
   * The quarters of the four corners of the bounding box of a circle centred at
   * (x, y), in the order top-left, top-right, bottom-left, bottom-right.
   */
  function CornerQuarters(x: real, y: real, radius: real, centerX: real, centerY: real,
                          computeQuarter: QuarterQuery -> Quarter): seq<Quarter>
  {
    [ computeQuarter(QuarterQuery(x - radius, y - radius, centerX, centerY)),
      computeQuarter(QuarterQuery(x + radius, y - radius, centerX, centerY)),
      computeQuarter(QuarterQuery(x - radius, y + radius, centerX, centerY)),
      computeQuarter(QuarterQuery(x + radius, y + radius, centerX, centerY)) ]
  }

  /** A curve between two shapes: started at one circle, possibly ended at another. */
  class CurveLineFigure {
    var start: Circle
    var end: Circle?
    var deleted: bool

    /** Started and not yet ended: a second click on another circle may end it. */
    predicate IsOpen()
      reads this
    {
      end == null && !deleted
    }

    constructor (start: Circle)
      ensures this.start == start && end == null && !deleted
    {
      this.start := start;
      end := null;
      deleted := false;
    }

    method Delete()
      modifies this`deleted
      ensures deleted
    {
      deleted := true;
    }

    method SetEndPoint(shape: Circle)
      modifies this`end
      ensures end == shape
    {
      end := shape;
    }
  }

  /** The root controller of the diagram, as far as a circle uses it. */
  class Root {
    var figures: seq<CurveLineFigure>

    /** Some figure other than `except` is an open curve. */
    ghost predicate HasOpenCurve(except: CurveLineFigure?)
      reads this, set f | f in figures
    {
      exists f :: f in figures && f != except && f.IsOpen()
    }

    /** Report an open curve among the figures, or none when there is none. */
    method FindOpenCurve() returns (c: CurveLineFigure?)
      ensures c != null ==> c in figures && c.IsOpen()
      ensures c == null ==> forall f :: f in figures ==> !f.IsOpen()
    {
      if f :| f in figures && f.IsOpen() {
        c := f;
      } else {
        c := null;
      }
    }

    method AddFigure(f: CurveLineFigure)
      modifies this`figures
      ensures figures == old(figures) + [f]
    {
      figures := figures + [f];
    }
  }

  class Circle {
    var x: real
    var y: real
    var radius: real
    var isGrowing: bool
    var isDecreasing: bool
    var radiusIncreaseValue: int
    var curve: CurveLineFigure?

    /** The centre in canvas coordinates, maintained by the shape base class. */
    var relativeX: real
    var relativeY: real
    /** The quarters the bounding box spans, in first-occurrence order. */
    var quarters: seq<Quarter>
    /** The diagram this circle belongs to, when mounted. */
    var root: Root?
    /** Whether a re-render callback is installed. */
    var hasReRenderCallback: bool
    /** How many re-renders this circle has requested through that callback. */
    ghost var reRenderRequests: nat

    /** The extra radius never leaves [0, MaxIncrease]. */
    predicate Valid()
      reads this
    {
      Animation.InRange(radiusIncreaseValue)
    }

    function State(): Animation.AnimState
      reads this
    {
      Animation.AnimState(isGrowing, isDecreasing, radiusIncreaseValue)
    }

    constructor (x: real, y: real, radius: real)
      ensures this.x == x && this.y == y && this.radius == radius && curve == null
      ensures State() == Animation.Initial && Valid()
      ensures reRenderRequests == 0
    {
      this.x := x;
      this.y := y;
      this.radius := radius;
      isGrowing := false;
      isDecreasing := false;
      radiusIncreaseValue := 0;
      curve := null;
      reRenderRequests := 0;
    }

    /** Ask for one more frame, when a callback is installed. */
    method RequestReRender()
      modifies this`reRenderRequests
      ensures reRenderRequests == old(reRenderRequests) + (if hasReRenderCallback then 1 else 0)
    {
      if hasReRenderCallback {
        reRenderRequests := reRenderRequests + 1;
      }
    }

    /**
     * Drop any curve this circle holds, then either end an open curve of the
     * diagram here or start a new curve here and register it with the diagram.
     * Only the dropped curve's mark, the joined curve's end point and the
     * diagram's figure list change.
     */
    method OnClick()
      modifies this`curve, (if curve != null then {curve} else {})`deleted
      modifies (if root != null then {root} else {})`figures
      modifies (if root != null then set f | f in root.figures else {})`end
      ensures old(curve) != null ==> old(curve).deleted
      ensures root != null && old(root.HasOpenCurve(curve)) ==>
        var joined := curve;
        joined != null && joined != old(curve) && root.figures == old(root.figures) &&
        joined in old(root.figures) && old(allocated(joined)) && old(joined.IsOpen()) && joined.end == this
      ensures root == null || !old(root.HasOpenCurve(curve)) ==>
        curve != null && fresh(curve) && curve.start == this && curve.IsOpen()
      ensures root != null && !old(root.HasOpenCurve(curve)) ==>
        root.figures == old(root.figures) + [curve]
      ensures root != null ==> forall f :: f in old(root.figures) && f != curve ==> f.end == old(f.end)
    {
      if curve != null {
        curve.Delete();
      }
      var existing: CurveLineFigure? := null;
      if root != null {
        existing := root.FindOpenCurve();
      }
      if existing != null {
        curve := existing;
        existing.SetEndPoint(this);
      } else {
        var created := new CurveLineFigure(this);
        curve := created;
        if root != null {
          root.AddFigure(created);
        }
      }
    }

    method OnHover()
      requires Valid()
      modifies this`isGrowing, this`reRenderRequests
      ensures Valid()
      ensures State() == Animation.Hover(old(State()))
      ensures isGrowing && isDecreasing == old(isDecreasing)
      ensures radiusIncreaseValue == old(radiusIncreaseValue)
      ensures reRenderRequests == old(reRenderRequests) + (if hasReRenderCallback then 1 else 0)
    {
      isGrowing := true;
      RequestReRender();
    }

    method OnHoverOut()
      requires Valid()
      modifies this`isGrowing, this`isDecreasing, this`reRenderRequests
      ensures Valid()
      ensures State() == Animation.HoverOut(old(State()))
      ensures !isGrowing && isDecreasing
      ensures radiusIncreaseValue == old(radiusIncreaseValue)
      ensures reRenderRequests == old(reRenderRequests) + (if hasReRenderCallback then 1 else 0)
    {
      isGrowing := false;
      isDecreasing := true;
      RequestReRender();
    }

    /**
     * Record the distinct quarters of the four corners, top-left, top-right,
     * bottom-left, bottom-right, each kept at its first occurrence.
     */
    method ComputeQuarters(centerX: real, centerY: real, computeQuarter: QuarterQuery -> Quarter)
      modifies this`quarters
      ensures quarters == InsertionOrder.Dedup(CornerQuarters(relativeX, relativeY, radius, centerX, centerY, computeQuarter))
      ensures InsertionOrder.NoDuplicates(quarters)
      ensures 1 <= |quarters| <= 4
      ensures forall q :: q in quarters <==> q in CornerQuarters(relativeX, relativeY, radius, centerX, centerY, computeQuarter)
    {
      var corners := CornerQuarters(relativeX, relativeY, radius, centerX, centerY, computeQuarter);
      var found: seq<Quarter> := [];
      found := InsertionOrder.Insert(found, corners[0]);
      found := InsertionOrder.Insert(found, corners[1]);
      found := InsertionOrder.Insert(found, corners[2]);
      found := InsertionOrder.Insert(found, corners[3]);
      InsertionOrder.DedupOfFour(corners);
      quarters := found;
    }

    /**
     * Hit-test: the cursor is in the closed disk of the circle's own radius
     * (the hover growth is not part of it). The squared distance is compared
     * with the squared radius instead of taking a square root.
     */
    function InEvent(cursor: Point): (hit: bool)
      reads this
      ensures hit ==> 0.0 <= radius
      ensures hit ==> Abs(cursor.x - relativeX) <= radius && Abs(cursor.y - relativeY) <= radius
      ensures cursor == Point(relativeX, relativeY) ==> (hit <==> 0.0 <= radius)
    {
      var dx, dy := cursor.x - relativeX, cursor.y - relativeY;
      var hit := 0.0 <= radius && Square(dx) + Square(dy) <= Square(radius);
      assert Square(Abs(dx)) == Square(dx) && Square(Abs(dy)) == Square(dy);
      assert 0.0 <= Square(dx) && 0.0 <= Square(dy);
      if hit then
        SquareMonotone(Abs(dx), radius);
        SquareMonotone(Abs(dy), radius);
        hit
      else
        hit
    }

    /**
     * One frame's animation step, run after the disk is drawn: grow by one
     * below the cap (requesting another frame) or stop growing at the cap,
     * then shrink by one above zero (requesting another frame) or stop
     * shrinking at zero.
     */
    method OwnRender()
      requires Valid()
      modifies this`isGrowing, this`isDecreasing, this`radiusIncreaseValue, this`reRenderRequests
      ensures State() == Animation.Step(old(State())).next
      ensures reRenderRequests ==
        old(reRenderRequests) + (if hasReRenderCallback then Animation.Step(old(State())).requests else 0)
      ensures Valid()
    {
      if isGrowing && radiusIncreaseValue < Animation.MaxIncrease {
        radiusIncreaseValue := radiusIncreaseValue + 1;
        RequestReRender();
      } else if isGrowing {
        isGrowing := false;
      }

      if isDecreasing && radiusIncreaseValue > 0 {
        radiusIncreaseValue := radiusIncreaseValue - 1;
        RequestReRender();
      } else if isDecreasing {
        isDecreasing := false;
      }
    }
  }

  /**
   * Two clicks connect two circles: on a diagram with no open curve, clicking
   * `a` starts a curve at `a` and registers it, and clicking `b` then ends
   * that same curve at `b`, so both circles hold the curve from `a` to `b`.
   */
  method ConnectByTwoClicks(root: Root, a: Circle, b: Circle)
    requires a != b && a.root == root && b.root == root
    requires forall f :: f in root.figures ==> !f.IsOpen()
    modifies a, b, root, set f | f in root.figures
    modifies (if a.curve != null then {a.curve} else {}), (if b.curve != null then {b.curve} else {})
    ensures a.curve != null && a.curve == b.curve
    ensures a.curve.start == a && a.curve.end == b && !a.curve.deleted
    ensures root.figures == old(root.figures) + [a.curve]
  {
    a.OnClick();
    var started := a.curve;
    assert forall f :: f in root.figures && f.IsOpen() ==> f == started;
    b.OnClick();
  }

  /**
   * The hit-test is the source's comparison of the radius with the Euclidean
   * distance: for `d`, the square root of the squared distance, the cursor hits
   * exactly when `d` is at most the radius.
   */
  lemma InEventIsDistanceTest(c: Circle, cursor: Point, d: real)
    requires 0.0 <= d
    requires d * d == Square(cursor.x - c.relativeX) + Square(cursor.y - c.relativeY)
    ensures c.InEvent(cursor) <==> d <= c.radius
  {
    if 0.0 <= c.radius {
      SquareMonotone(d, c.radius);
    }
  }

  /** Two circles with the same centre and radius hit the same points, whatever their animation state. */
  lemma InEventIgnoresAnimation(c: Circle, e: Circle, cursor: Point)
    requires c.radius == e.radius && c.relativeX == e.relativeX && c.relativeY == e.relativeY
    ensures c.InEvent(cursor) == e.InEvent(cursor)
  {
  }

  /** A circle of radius 10 at the origin contains (6, 8), at distance 10, but not (7, 8). */
  lemma InEventExample(c: Circle)
    requires c.radius == 10.0 && c.relativeX == 0.0 && c.relativeY == 0.0
    ensures c.InEvent(Point(6.0, 8.0))
    ensures !c.InEvent(Point(7.0, 8.0))
  {
  }
}
