/**
 * The two on-disk forms of an image's committed polygons: the structured
 * JSON shape list (written by `save_annotation`, read back by `load_image`)
 * and the normalized one-line-per-polygon text form (written only).
 */
module Codec {
  import opened Common
  import opened Geometry
  import Registry

  type Positive = n: int | n > 0 witness 1

  /** Pixel size of the opened image. */
  datatype Size = Size(width: Positive, height: Positive)

  // ---------------------------------------------------------------------
  // Decoding (app.py:271-281)
  // ---------------------------------------------------------------------

  /**
   * An element of a shape's "points" list after `json.load`. A list or tuple
   * is `Coords` of its entries as `float()` reads them (so `"3"` is 3.0);
   * only the first two are ever read, so later entries stand for values of
   * any kind. Any other value is `NotAList`.
   */
  datatype RawPoint = Coords(values: seq<real>) | NotAList

  /** A shape object of the JSON file; a key that is absent is None. */
  datatype RawShape = RawShape(shapeType: Option<string>, className: Option<string>, points: Option<seq<RawPoint>>)

  /** The top-level JSON object; only its "shapes" key is read. */
  datatype RawDocument = RawDocument(shapes: Option<seq<RawShape>>)

  /** A point entry is kept when it is a list or tuple of at least two entries; it gives `float()` of the first two. */
  function DecodePoint(p: RawPoint): (r: Option<Point>)
    ensures r.Some? <==> p.Coords? && |p.values| >= 2
    ensures r.Some? ==> r.value == Point(p.values[0], p.values[1])
  {
    if p.Coords? && |p.values| >= 2 then Some(Point(p.values[0], p.values[1])) else None
  }

  /** `normalized_points`: the well-formed point entries, in order. */
  function DecodePoints(ps: seq<RawPoint>): (r: seq<Point>)
    ensures |r| <= |ps|
    ensures r == [] <==> forall i :: 0 <= i < |ps| ==> DecodePoint(ps[i]).None?
  {
    if ps == [] then []
    else
      var n := |ps| - 1;
      var front := DecodePoints(ps[..n]);
      assert forall i :: 0 <= i < n ==> ps[..n][i] == ps[i];
      match DecodePoint(ps[n])
      case None => front
      case Some(q) => front + [q]
  }

  /**
   * One shape: kept only when its "shape_type" is "polygon" and at least one
   * of its points is well formed; a missing label becomes `fallback`.
   */
  function DecodeShape(s: RawShape, fallback: string): (r: Option<Polygon>)
    ensures r.Some? <==> s.shapeType == Some("polygon") && DecodePoints(s.points.GetOr([])) != []
    ensures r.Some? ==> r.value.className == s.className.GetOr(fallback)
    ensures r.Some? ==> r.value.points == DecodePoints(s.points.GetOr([]))
  {
    if s.shapeType == Some("polygon") then
      var points := DecodePoints(s.points.GetOr([]));
      if points != [] then Some(Polygon(s.className.GetOr(fallback), points)) else None
    else None
  }

  /** A single entry decodes to its point when well formed and to nothing otherwise. */
  lemma DecodePointsSingle(p: RawPoint)
    ensures DecodePoints([p]) == if p.Coords? && |p.values| >= 2 then [Point(p.values[0], p.values[1])] else []
  {
    assert [p][..0] == [];
  }

  /** The last entry is decoded after all the others. */
  lemma DecodePointsSnoc(ps: seq<RawPoint>)
    requires ps != []
    ensures DecodePoints(ps) == DecodePoints(ps[..|ps| - 1]) + DecodePoints([ps[|ps| - 1]])
  {
    DecodePointsSingle(ps[|ps| - 1]);
  }

  /**
   * Decoding distributes over joining entry lists; with DecodePointsSingle
   * this says the result is exactly the well-formed entries' points, in order.
   */
  lemma {:induction false} DecodePointsAppend(a: seq<RawPoint>, b: seq<RawPoint>)
    ensures DecodePoints(a + b) == DecodePoints(a) + DecodePoints(b)
    decreases |b|
  {
    if b == [] {
      assert a + b == a;
    } else {
      var n := |b| - 1;
      var ab := a + b;
      DecodePointsSnoc(ab);
      DecodePointsSnoc(b);
      assert ab[..|ab| - 1] == a + b[..n];
      assert ab[|ab| - 1] == b[n];
      DecodePointsAppend(a, b[..n]);
    }
  }

  /** The polygons `load_image` appends to `all_polygons`, one per kept shape, in file order. */
  function DecodeShapes(shapes: seq<RawShape>, fallback: string): (r: seq<Polygon>)
    ensures |r| <= |shapes|
  {
    if shapes == [] then []
    else
      var n := |shapes| - 1;
      var front := DecodeShapes(shapes[..n], fallback);
      match DecodeShape(shapes[n], fallback)
      case None => front
      case Some(q) => front + [q]
  }

  /** A single shape decodes to its polygon when it is kept and to nothing otherwise. */
  lemma DecodeShapesSingle(s: RawShape, fallback: string)
    ensures DecodeShapes([s], fallback) == match DecodeShape(s, fallback) case Some(q) => [q] case None => []
  {
    assert [s][..0] == [];
  }

  /** The last shape of a list contributes what it decodes to on its own. */
  lemma DecodeShapesSnoc(shapes: seq<RawShape>, fallback: string)
    requires shapes != []
    ensures DecodeShapes(shapes, fallback)
      == DecodeShapes(shapes[..|shapes| - 1], fallback) + DecodeShapes([shapes[|shapes| - 1]], fallback)
  {
    DecodeShapesSingle(shapes[|shapes| - 1], fallback);
  }

  /**
   * Decoding distributes over joining shape lists; with DecodeShapesSingle
   * this says a file's polygons are exactly those of its kept shapes, in
   * file order, whatever other shapes lie between them.
   */
  lemma {:induction false} DecodeShapesAppend(a: seq<RawShape>, b: seq<RawShape>, fallback: string)
    ensures DecodeShapes(a + b, fallback) == DecodeShapes(a, fallback) + DecodeShapes(b, fallback)
    decreases |b|
  {
    if b == [] {
      assert a + b == a;
    } else {
      var n := |b| - 1;
      var ab := a + b;
      DecodeShapesSnoc(ab, fallback);
      DecodeShapesSnoc(b, fallback);
      assert ab[..|ab| - 1] == a + b[..n];
      assert ab[|ab| - 1] == b[n];
      DecodeShapesAppend(a, b[..n], fallback);
    }
  }

  /** Every decoded polygon has a vertex and is the decoding of some shape of the file. */
  lemma {:induction false} DecodeShapesSound(shapes: seq<RawShape>, fallback: string)
    ensures forall q :: q in DecodeShapes(shapes, fallback) ==> q.points != []
    ensures forall q :: q in DecodeShapes(shapes, fallback) ==>
      exists i :: 0 <= i < |shapes| && DecodeShape(shapes[i], fallback) == Some(q)
  {
    if shapes != [] {
      var n := |shapes| - 1;
      DecodeShapesSound(shapes[..n], fallback);
      assert forall i :: 0 <= i < n ==> shapes[..n][i] == shapes[i];
    }
  }

  /** A file whose shapes are all well-formed polygons is decoded whole, shape by shape. */
  lemma {:induction false} DecodeShapesComplete(shapes: seq<RawShape>, fallback: string)
    requires forall i :: 0 <= i < |shapes| ==> DecodeShape(shapes[i], fallback).Some?
    ensures |DecodeShapes(shapes, fallback)| == |shapes|
    ensures forall i :: 0 <= i < |shapes| ==> Some(DecodeShapes(shapes, fallback)[i]) == DecodeShape(shapes[i], fallback)
  {
    if shapes != [] {
      var n := |shapes| - 1;
      var front := shapes[..n];
      forall i | 0 <= i < n
        ensures DecodeShape(front[i], fallback).Some?
      {
        assert front[i] == shapes[i];
      }
      DecodeShapesComplete(front, fallback);
      var q := DecodeShape(shapes[n], fallback).value;
      var r := DecodeShapes(shapes, fallback);
      assert r == DecodeShapes(front, fallback) + [q];
      forall i | 0 <= i < |shapes|
        ensures Some(r[i]) == DecodeShape(shapes[i], fallback)
      {
        if i < n {
          assert front[i] == shapes[i];
        }
      }
    }
  }

  /** `data.get("shapes", [])` decoded. */
  function DecodeDocument(doc: RawDocument, fallback: string): (r: seq<Polygon>)
    ensures forall q :: q in r ==> q.points != []
  {
    DecodeShapesSound(doc.shapes.GetOr([]), fallback);
    DecodeShapes(doc.shapes.GetOr([]), fallback)
  }

  /** The decoding loop of `load_image`, appending as it goes. */
  method LoadShapes(shapes: seq<RawShape>, fallback: string) returns (polygons: seq<Polygon>)
    ensures polygons == DecodeShapes(shapes, fallback)
  {
    polygons := [];
    for i := 0 to |shapes|
      invariant polygons == DecodeShapes(shapes[..i], fallback)
    {
      var shape := shapes[i];
      if shape.shapeType == Some("polygon") {
        var points := shape.points.GetOr([]);
        var name := shape.className.GetOr(fallback);
        var normalized := [];
        for j := 0 to |points|
          invariant normalized == DecodePoints(points[..j])
        {
          var p := points[j];
          if p.Coords? && |p.values| >= 2 {
            normalized := normalized + [Point(p.values[0], p.values[1])];
          }
          assert points[..j + 1][..j] == points[..j];
        }
        assert points[..|points|] == points;
        if normalized != [] {
          polygons := polygons + [Polygon(name, normalized)];
        }
      }
      assert shapes[..i + 1][..i] == shapes[..i];
    }
    assert shapes[..|shapes|] == shapes;
  }

  // ---------------------------------------------------------------------
  // Encoding (app.py:363-406)
  // ---------------------------------------------------------------------

  /** One entry of `json_data["shapes"]`. */
  datatype ShapeRecord = ShapeRecord(className: string, points: seq<(int, int)>, shapeType: string)

  /** The JSON object written for an image. */
  datatype Annotation = Annotation(version: string, imagePath: string, imageWidth: int, imageHeight: int,
                                   shapes: seq<ShapeRecord>)

  /**
   * A number of the normalized text file: a pixel amount over the image
   * width or height. `Value()` is the number printed (to six decimals).
   */
  datatype Fraction = Fraction(amount: real, extent: Positive) {
    function Value(): real {
      amount / extent as real
    }
  }

  /**
   * One line of the normalized text file: class id, bounding-box centre and
   * size, then every vertex, each over the image width or height.
   */
  datatype TextLine = TextLine(classId: nat, xCenter: Fraction, yCenter: Fraction, width: Fraction, height: Fraction,
                               coords: seq<Fraction>)

  /** Everything one save writes: the JSON object and the text lines. */
  datatype Output = Output(json: Annotation, txt: seq<TextLine>)

  /** `[[round(float(x)), round(float(y))] for x, y in polygon]` */
  function RoundPoints(ps: seq<Point>): (r: seq<(int, int)>)
    ensures |r| == |ps|
    ensures forall i :: 0 <= i < |ps| ==> r[i] == (Round(ps[i].x), Round(ps[i].y))
  {
    seq(|ps|, i requires 0 <= i < |ps| => (Round(ps[i].x), Round(ps[i].y)))
  }

  function ShapeOf(poly: Polygon): ShapeRecord {
    ShapeRecord(poly.className, RoundPoints(poly.points), "polygon")
  }

  /** `polygon_norm`: x over W, y over H for every vertex, flattened in vertex order. */
  function Normalize(ps: seq<Point>, size: Size): (coords: seq<Fraction>)
    ensures |coords| == 2 * |ps|
  {
    if ps == [] then []
    else
      var n := |ps| - 1;
      Normalize(ps[..n], size) + [Fraction(ps[n].x, size.width), Fraction(ps[n].y, size.height)]
  }

  /** Vertex i of the polygon is the pair at positions 2i and 2i+1 of `polygon_norm`. */
  lemma {:induction false} NormalizeAt(ps: seq<Point>, size: Size, i: nat)
    requires i < |ps|
    ensures |Normalize(ps, size)| == 2 * |ps|
    ensures Normalize(ps, size)[2 * i] == Fraction(ps[i].x, size.width)
    ensures Normalize(ps, size)[2 * i + 1] == Fraction(ps[i].y, size.height)
  {
    var n := |ps| - 1;
    if i < n {
      NormalizeAt(ps[..n], size, i);
    }
  }

  /**
   * The text line of one polygon: the class id of its label, the centre and
   * size of its bounding box, and its vertices.
   */
  function LineOf(poly: Polygon, labels: seq<string>, size: Size): (line: TextLine)
    requires poly.points != []
    ensures line.classId == Registry.ClassId(labels, poly.className)
    ensures line.coords == Normalize(poly.points, size)
  {
    var b := BoundingBox(poly.points);
    TextLine(Registry.ClassId(labels, poly.className),
             Fraction(Mid(b.xMin, b.xMax), size.width), Fraction(Mid(b.yMin, b.yMax), size.height),
             Fraction(b.xMax - b.xMin, size.width), Fraction(b.yMax - b.yMin, size.height),
             Normalize(poly.points, size))
  }

  /** `(lo + hi) / 2` */
  function Mid(lo: real, hi: real): real {
    0.5 * (lo + hi)
  }

  /** `json_data["shapes"]`: one record per polygon, in order. */
  function Shapes(polys: seq<Polygon>): (r: seq<ShapeRecord>)
    ensures |r| == |polys|
  {
    seq(|polys|, i requires 0 <= i < |polys| => ShapeOf(polys[i]))
  }

  /** `txt_lines`: one line per polygon, in order. */
  function Lines(polys: seq<Polygon>, labels: seq<string>, size: Size): (r: seq<TextLine>)
    requires forall i :: 0 <= i < |polys| ==> polys[i].points != []
    ensures |r| == |polys|
  {
    seq(|polys|, i requires 0 <= i < |polys| => LineOf(polys[i], labels, size))
  }

  /**
   * What one save produces for the committed polygons: one shape record and
   * one text line per polygon, in order, with the label, the shape type
   * "polygon", the vertex count and the class id of each polygon.
   */
  function Encode(polys: seq<Polygon>, labels: seq<string>, size: Size, imageName: string): (out: Output)
    requires forall i :: 0 <= i < |polys| ==> polys[i].points != []
    ensures out.json.version == "1.0" && out.json.imagePath == imageName
    ensures out.json.imageWidth == size.width && out.json.imageHeight == size.height
    ensures |out.json.shapes| == |polys| && |out.txt| == |polys|
    ensures forall i :: 0 <= i < |polys| ==>
      && out.json.shapes[i].className == polys[i].className
      && out.json.shapes[i].shapeType == "polygon"
      && |out.json.shapes[i].points| == |polys[i].points|
      && out.txt[i].classId == Registry.ClassId(labels, polys[i].className)
      && |out.txt[i].coords| == 2 * |polys[i].points|
  {
    Output(Annotation("1.0", imageName, size.width, size.height, Shapes(polys)), Lines(polys, labels, size))
  }

  /** The accumulation loop of `save_annotation`, filling the shape list and the text lines. */
  method BuildAnnotation(polys: seq<Polygon>, labels: seq<string>, size: Size, imageName: string)
    returns (out: Output)
    requires forall i :: 0 <= i < |polys| ==> polys[i].points != []
    ensures out == Encode(polys, labels, size, imageName)
  {
    var shapes: seq<ShapeRecord> := [];
    var lines: seq<TextLine> := [];
    for i := 0 to |polys|
      invariant |shapes| == i && |lines| == i
      invariant forall k :: 0 <= k < i ==> shapes[k] == ShapeOf(polys[k])
      invariant forall k :: 0 <= k < i ==> lines[k] == LineOf(polys[k], labels, size)
    {
      var poly := polys[i];
      shapes := shapes + [ShapeRecord(poly.className, RoundPoints(poly.points), "polygon")];
      var line := PolygonLine(poly, labels, size);
      lines := lines + [line];
    }
    assert shapes == Shapes(polys);
    assert lines == Lines(polys, labels, size);
    out := Output(Annotation("1.0", imageName, size.width, size.height, shapes), lines);
  }

  /** The body of that loop for one polygon: its bounding box, class id and `polygon_norm`. */
  method PolygonLine(poly: Polygon, labels: seq<string>, size: Size) returns (line: TextLine)
    requires poly.points != []
    ensures line == LineOf(poly, labels, size)
  {
    var b := BoundingBox(poly.points);
    var norm: seq<Fraction> := [];
    for j := 0 to |poly.points|
      invariant norm == Normalize(poly.points[..j], size)
    {
      norm := norm + [Fraction(poly.points[j].x, size.width), Fraction(poly.points[j].y, size.height)];
      assert poly.points[..j + 1][..j] == poly.points[..j];
    }
    assert poly.points[..|poly.points|] == poly.points;
    line := TextLine(Registry.ClassId(labels, poly.className),
                     Fraction(Mid(b.xMin, b.xMax), size.width), Fraction(Mid(b.yMin, b.yMax), size.height),
                     Fraction(b.xMax - b.xMin, size.width), Fraction(b.yMax - b.yMin, size.height), norm);
  }

  // ---------------------------------------------------------------------
  // What a save means to the next load and to the text file's reader
  // ---------------------------------------------------------------------

  /** A saved `[x, y]` integer pair as `json.load` gives it back. */
  function AsRaw(pts: seq<(int, int)>): seq<RawPoint> {
    seq(|pts|, i requires 0 <= i < |pts| => Coords([pts[i].0 as real, pts[i].1 as real]))
  }

  /** Integer pairs as the float points `load_image` builds from them. */
  function AsPoints(pts: seq<(int, int)>): seq<Point> {
    seq(|pts|, i requires 0 <= i < |pts| => Point(pts[i].0 as real, pts[i].1 as real))
  }

  /** A saved shape record read back as a JSON shape object. */
  function Reload(r: ShapeRecord): RawShape {
    RawShape(Some(r.shapeType), Some(r.className), Some(AsRaw(r.points)))
  }

  /** A saved JSON object read back by `json.load`. */
  function ReloadDocument(a: Annotation): RawDocument {
    RawDocument(Some(seq(|a.shapes|, i requires 0 <= i < |a.shapes| => Reload(a.shapes[i]))))
  }

  /** A polygon with every coordinate rounded to the nearest integer, ties to even. */
  function Rounded(poly: Polygon): Polygon {
    Polygon(poly.className, AsPoints(RoundPoints(poly.points)))
  }

  function RoundedAll(polys: seq<Polygon>): seq<Polygon> {
    seq(|polys|, i requires 0 <= i < |polys| => Rounded(polys[i]))
  }

  /** Every saved point entry is well formed, so decoding keeps all of them. */
  lemma {:induction false} DecodeAsRaw(pts: seq<(int, int)>)
    ensures DecodePoints(AsRaw(pts)) == AsPoints(pts)
  {
    if pts != [] {
      var n := |pts| - 1;
      DecodeAsRaw(pts[..n]);
      assert AsRaw(pts)[..n] == AsRaw(pts[..n]);
      assert AsPoints(pts) == AsPoints(pts[..n]) + [AsPoints(pts)[n]];
    }
  }

  /**
   * Saving and then loading an image gives back the same polygons, in the
   * same order and with the same labels, each vertex rounded to integers.
   */
  lemma SaveLoadRoundTrip(polys: seq<Polygon>, labels: seq<string>, size: Size, imageName: string, fallback: string)
    requires forall i :: 0 <= i < |polys| ==> polys[i].points != []
    ensures DecodeDocument(ReloadDocument(Encode(polys, labels, size, imageName).json), fallback) == RoundedAll(polys)
  {
    var records := Encode(polys, labels, size, imageName).json.shapes;
    var raws := ReloadDocument(Encode(polys, labels, size, imageName).json).shapes.value;
    assert |raws| == |polys|;
    forall i | 0 <= i < |raws|
      ensures DecodeShape(raws[i], fallback) == Some(RoundedAll(polys)[i])
    {
      assert records[i] == ShapeOf(polys[i]);
      DecodeAsRaw(records[i].points);
    }
    DecodeShapesComplete(raws, fallback);
  }

  /** A loaded polygon saved again without edits is written exactly as before. */
  lemma ResaveStable(polys: seq<Polygon>)
    ensures Shapes(RoundedAll(polys)) == Shapes(polys)
  {
    forall i | 0 <= i < |polys|
      ensures ShapeOf(Rounded(polys[i])) == ShapeOf(polys[i])
    {
      var ps := polys[i].points;
      forall j | 0 <= j < |ps|
        ensures RoundPoints(AsPoints(RoundPoints(ps)))[j] == RoundPoints(ps)[j]
      {
        RoundWhole(Round(ps[j].x));
        RoundWhole(Round(ps[j].y));
      }
    }
  }

  /**
   * The box fields of a text line: width and height are non-negative, and
   * centre minus and plus half the size give the least and greatest
   * coordinate, over the image width or height.
   */
  lemma LineBox(poly: Polygon, labels: seq<string>, size: Size)
    requires poly.points != []
    ensures var line, b := LineOf(poly, labels, size), BoundingBox(poly.points);
      && line.width.Value() >= 0.0 && line.height.Value() >= 0.0
      && line.xCenter.Value() - line.width.Value() / 2.0 == b.xMin / size.width as real
      && line.xCenter.Value() + line.width.Value() / 2.0 == b.xMax / size.width as real
      && line.yCenter.Value() - line.height.Value() / 2.0 == b.yMin / size.height as real
      && line.yCenter.Value() + line.height.Value() / 2.0 == b.yMax / size.height as real
  {
    var b := BoundingBox(poly.points);
    BoundingBoxTight(poly.points);
    CentreAndSpan(b.xMin, b.xMax, size.width);
    CentreAndSpan(b.yMin, b.yMax, size.height);
  }

  /** On one axis: the centre and span of [lo, hi] over the extent give back lo and hi over the extent. */
  lemma CentreAndSpan(lo: real, hi: real, extent: Positive)
    requires lo <= hi
    ensures Fraction(hi - lo, extent).Value() >= 0.0
    ensures Fraction(Mid(lo, hi), extent).Value() - Fraction(hi - lo, extent).Value() / 2.0 == lo / extent as real
    ensures Fraction(Mid(lo, hi), extent).Value() + Fraction(hi - lo, extent).Value() / 2.0 == hi / extent as real
  {
    var e := extent as real;
    assert (hi - lo) / e == hi / e - lo / e;
    assert Mid(lo, hi) / e == 0.5 * (lo / e) + 0.5 * (hi / e);
  }

  /** A polygon drawn inside the image has every text-file number between 0 and 1. */
  lemma LineInUnitSquare(poly: Polygon, labels: seq<string>, size: Size)
    requires poly.points != []
    requires forall i :: 0 <= i < |poly.points| ==>
      0.0 <= poly.points[i].x <= size.width as real && 0.0 <= poly.points[i].y <= size.height as real
    ensures var line := LineOf(poly, labels, size);
      && 0.0 <= line.xCenter.Value() <= 1.0 && 0.0 <= line.yCenter.Value() <= 1.0
      && 0.0 <= line.width.Value() <= 1.0 && 0.0 <= line.height.Value() <= 1.0
      && forall k :: 0 <= k < |line.coords| ==> 0.0 <= line.coords[k].Value() <= 1.0
  {
    var ps := poly.points;
    BoundingBoxTight(ps);
    var line := LineOf(poly, labels, size);
    forall k | 0 <= k < |line.coords|
      ensures 0.0 <= line.coords[k].Value() <= 1.0
    {
      NormalizeAt(ps, size, k / 2);
      UnitFraction(line.coords[k]);
    }
    UnitFraction(line.xCenter);
    UnitFraction(line.yCenter);
    UnitFraction(line.width);
    UnitFraction(line.height);
  }

  lemma UnitFraction(f: Fraction)
    requires 0.0 <= f.amount <= f.extent as real
    ensures 0.0 <= f.Value() <= 1.0
  {
  }
}
