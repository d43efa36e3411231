/**
 * The polygon editor of one image: the polygon being drawn and the
 * committed polygons, changed by a canvas click, the undo key and the
 * reset key (app.py:290-325).
 */
module Editor {
  import opened Geometry

  /** `current_polygon` and `all_polygons` of the annotator. */
  datatype Editor = Editor(current: seq<Point>, committed: seq<Polygon>)

  /** Every committed polygon has a vertex, so saving can take its bounding box. */
  predicate Valid(e: Editor) {
    forall i :: 0 <= i < |e.committed| ==> e.committed[i].points != []
  }

  /** A click closes the polygon when it has three vertices and the click lands within 10 px of the first. */
  predicate Closes(current: seq<Point>, p: Point) {
    current != [] && Near(p, current[0]) && |current| >= 3
  }

  /**
   * `add_point`: a closing click commits the polygon under `name` and starts
   * a new one; any other click appends a vertex.
   */
  function AddPoint(e: Editor, p: Point, name: string): (r: Editor)
    ensures Closes(e.current, p) ==>
      r.current == [] && |r.committed| == |e.committed| + 1 && r.committed[..|e.committed|] == e.committed
      && r.committed[|e.committed|] == Polygon(name, e.current)
      && |r.committed[|e.committed|].points| >= 3
    ensures !Closes(e.current, p) ==>
      r.committed == e.committed && |r.current| == |e.current| + 1
      && r.current[..|e.current|] == e.current && r.current[|e.current|] == p
    ensures Valid(e) ==> Valid(r)
  {
    if Closes(e.current, p) then Editor([], e.committed + [Polygon(name, e.current)])
    else e.(current := e.current + [p])
  }

  /**
   * `undo_point`: drop the last vertex of the polygon being drawn, or, when
   * none is being drawn, the last committed polygon; with neither, nothing.
   */
  function Undo(e: Editor): (r: Editor)
    ensures e.current != [] ==> r.committed == e.committed && r.current == e.current[..|e.current| - 1]
    ensures e.current == [] && e.committed != [] ==>
      r.current == [] && r.committed == e.committed[..|e.committed| - 1]
    ensures e.current == [] && e.committed == [] ==> r == e
    ensures Valid(e) ==> Valid(r)
  {
    if e.current != [] then e.(current := e.current[..|e.current| - 1])
    else if e.committed != [] then e.(committed := e.committed[..|e.committed| - 1])
    else e
  }

  /** `reset_points`: a confirmed reset clears both; a declined one changes nothing. */
  function Reset(e: Editor, confirmed: bool): (r: Editor)
    ensures confirmed ==> r.current == [] && r.committed == []
    ensures !confirmed ==> r == e
    ensures Valid(e) ==> Valid(r)
  {
    if confirmed then Editor([], []) else e
  }

  /** Undo takes back a click that added a vertex. */
  lemma UndoAfterAppend(e: Editor, p: Point, name: string)
    requires !Closes(e.current, p)
    ensures Undo(AddPoint(e, p, name)) == e
  {
    var r := AddPoint(e, p, name);
    assert r.current[..|r.current| - 1] == e.current;
  }

  /** Undo right after a closing click discards the whole new polygon, not its last vertex. */
  lemma UndoAfterClose(e: Editor, p: Point, name: string)
    requires Closes(e.current, p)
    ensures Undo(AddPoint(e, p, name)) == Editor([], e.committed)
  {
    var r := AddPoint(e, p, name);
    assert r.committed[..|r.committed| - 1] == e.committed;
  }

  /** The editor after a sequence of clicks, all committed under `name`. */
  function Clicks(e: Editor, ps: seq<Point>, name: string): Editor {
    if ps == [] then e else AddPoint(Clicks(e, ps[..|ps| - 1], name), ps[|ps| - 1], name)
  }

  /** No click of `ps` after the first lands close enough to close the vertices clicked before it. */
  predicate NoEarlyClose(ps: seq<Point>) {
    forall k :: 1 <= k < |ps| ==> !Closes(ps[..k], ps[k])
  }

  /** A prefix of clicks without an early close has none either. */
  lemma NoEarlyClosePrefix(ps: seq<Point>, n: nat)
    requires n <= |ps| && NoEarlyClose(ps)
    ensures NoEarlyClose(ps[..n])
  {
    forall k | 1 <= k < n
      ensures !Closes(ps[..n][..k], ps[..n][k])
    {
      assert ps[..n][..k] == ps[..k];
    }
  }

  /** The last click of a sequence without an early close appends its vertex. */
  lemma LastClickAppends(ps: seq<Point>)
    requires ps != [] && NoEarlyClose(ps)
    ensures !Closes(ps[..|ps| - 1], ps[|ps| - 1])
  {
  }

  /** Clicks that never close the polygon lay down exactly those vertices and commit nothing. */
  lemma {:induction false} ClicksAppend(e: Editor, ps: seq<Point>, name: string)
    requires e.current == []
    requires NoEarlyClose(ps)
    ensures Clicks(e, ps, name) == Editor(ps, e.committed)
  {
    if ps != [] {
      var n := |ps| - 1;
      NoEarlyClosePrefix(ps, n);
      ClicksAppend(e, ps[..n], name);
      LastClickAppends(ps);
      var before := Editor(ps[..n], e.committed);
      assert Clicks(e, ps, name) == AddPoint(before, ps[n], name);
      assert ps[..n] + [ps[n]] == ps;
    }
  }

  /**
   * Drawing a polygon: vertices clicked one by one from an empty polygon,
   * with no early close, then a click near the first vertex, commit exactly
   * those vertices as one polygon and leave the polygon being drawn empty.
   */
  lemma DrawPolygon(e: Editor, ps: seq<Point>, closing: Point, name: string)
    requires e.current == []
    requires |ps| >= 3 && NoEarlyClose(ps) && Near(closing, ps[0])
    ensures Clicks(e, ps + [closing], name) == Editor([], e.committed + [Polygon(name, ps)])
  {
    ClicksAppend(e, ps, name);
    assert (ps + [closing])[..|ps|] == ps;
  }

  /** The editor after `n` presses of the undo key. */
  function Undos(e: Editor, n: nat): Editor
    decreases n
  {
    if n == 0 then e else Undos(Undo(e), n - 1)
  }

  /**
   * Pressing undo once per drawn vertex and once per committed polygon
   * empties the editor; every further press changes nothing.
   */
  lemma {:induction false} UndoEverything(e: Editor)
    ensures Undos(e, |e.current| + |e.committed|) == Editor([], [])
    ensures Undo(Editor([], [])) == Editor([], [])
    decreases |e.current| + |e.committed|
  {
    if |e.current| + |e.committed| > 0 {
      var u := Undo(e);
      assert |u.current| + |u.committed| == |e.current| + |e.committed| - 1;
      UndoEverything(u);
    }
  }
}
