/**
 * Points and polygons in image pixel space, the closing-distance test used
 * when a click lands near the first vertex, Python's `round()` and the
 * axis-aligned bounding box written into the normalized text format.
 */
module Geometry {

  /** A click position in image pixel coordinates (app.py:291-292). */
  datatype Point = Point(x: real, y: real)

  /** One entry of `all_polygons`: a class label and its ordered vertices. */
  datatype Polygon = Polygon(className: string, points: seq<Point>)

  /** Distance below which a click closes the polygon being drawn. */
  const CloseRadius: real := 10.0

  /**
   * `math.hypot(x - start_x, y - start_y) < 10`, compared on squares so that
   * no square root is needed (both sides are non-negative).
   */
  predicate Near(p: Point, start: Point) {
    (p.x - start.x) * (p.x - start.x) + (p.y - start.y) * (p.y - start.y) < CloseRadius * CloseRadius
  }

  /**
   * Python 3 `round(x)` on a float: the nearest integer, ties going to the
   * even neighbour.
   */
  function Round(x: real): (r: int)
    ensures -0.5 <= x - r as real <= 0.5
    ensures (x - r as real == 0.5 || x - r as real == -0.5) ==> r % 2 == 0
  {
    var f := x.Floor;
    var d := x - f as real;
    if d < 0.5 then f
    else if d > 0.5 then f + 1
    else if f % 2 == 0 then f
    else f + 1
  }

  /** Rounding a coordinate that is already whole changes nothing. */
  lemma RoundWhole(n: int)
    ensures Round(n as real) == n
  {
    var r := Round(n as real);
    assert -0.5 <= (n - r) as real <= 0.5;
  }

  /** `min(xs)` of a non-empty list. */
  function Min(xs: seq<real>): real
    requires |xs| > 0
  {
    if |xs| == 1 then xs[0]
    else
      var rest := Min(xs[1..]);
      if xs[0] <= rest then xs[0] else rest
  }

  /** The minimum is an element and no element is smaller. */
  lemma {:induction false} MinIsLeast(xs: seq<real>)
    requires |xs| > 0
    ensures Min(xs) in xs
    ensures forall i :: 0 <= i < |xs| ==> Min(xs) <= xs[i]
  {
    if |xs| > 1 {
      MinIsLeast(xs[1..]);
      assert forall i :: 1 <= i < |xs| ==> xs[i] == xs[1..][i - 1];
    }
  }

  /** `max(xs)` of a non-empty list. */
  function Max(xs: seq<real>): real
    requires |xs| > 0
  {
    if |xs| == 1 then xs[0]
    else
      var rest := Max(xs[1..]);
      if xs[0] >= rest then xs[0] else rest
  }

  /** The maximum is an element and no element is larger. */
  lemma {:induction false} MaxIsGreatest(xs: seq<real>)
    requires |xs| > 0
    ensures Max(xs) in xs
    ensures forall i :: 0 <= i < |xs| ==> xs[i] <= Max(xs)
  {
    if |xs| > 1 {
      MaxIsGreatest(xs[1..]);
      assert forall i :: 1 <= i < |xs| ==> xs[i] == xs[1..][i - 1];
    }
  }

  /** `[x for x, y in polygon]` */
  function Xs(ps: seq<Point>): seq<real> {
    seq(|ps|, i requires 0 <= i < |ps| => ps[i].x)
  }

  /** `[y for x, y in polygon]` */
  function Ys(ps: seq<Point>): seq<real> {
    seq(|ps|, i requires 0 <= i < |ps| => ps[i].y)
  }

  datatype Box = Box(xMin: real, xMax: real, yMin: real, yMax: real)

  /** The axis-aligned box from the least to the greatest x and y of the vertices. */
  function BoundingBox(ps: seq<Point>): Box
    requires |ps| > 0
  {
    var xs, ys := Xs(ps), Ys(ps);
    Box(Min(xs), Max(xs), Min(ys), Max(ys))
  }

  /**
   * The bounding box is the smallest box holding every vertex: each vertex
   * lies inside it and each of its four sides touches some vertex.
   */
  lemma BoundingBoxTight(ps: seq<Point>)
    requires |ps| > 0
    ensures BoundingBox(ps).xMin <= BoundingBox(ps).xMax
    ensures BoundingBox(ps).yMin <= BoundingBox(ps).yMax
    ensures forall i :: 0 <= i < |ps| ==>
      BoundingBox(ps).xMin <= ps[i].x <= BoundingBox(ps).xMax
      && BoundingBox(ps).yMin <= ps[i].y <= BoundingBox(ps).yMax
    ensures exists i :: 0 <= i < |ps| && ps[i].x == BoundingBox(ps).xMin
    ensures exists i :: 0 <= i < |ps| && ps[i].x == BoundingBox(ps).xMax
    ensures exists i :: 0 <= i < |ps| && ps[i].y == BoundingBox(ps).yMin
    ensures exists i :: 0 <= i < |ps| && ps[i].y == BoundingBox(ps).yMax
  {
    var xs, ys := Xs(ps), Ys(ps);
    MinIsLeast(xs);
    MaxIsGreatest(xs);
    MinIsLeast(ys);
    MaxIsGreatest(ys);
    var a :| 0 <= a < |xs| && xs[a] == Min(xs);
    var b :| 0 <= b < |xs| && xs[b] == Max(xs);
    var c :| 0 <= c < |ys| && ys[c] == Min(ys);
    var d :| 0 <= d < |ys| && ys[d] == Max(ys);
    assert ps[a].x == Min(xs) && ps[b].x == Max(xs);
    assert ps[c].y == Min(ys) && ps[d].y == Max(ys);
    assert forall i :: 0 <= i < |ps| ==> xs[i] == ps[i].x && ys[i] == ps[i].y;
  }
}
