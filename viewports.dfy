/**
 * The viewport: the world bounding box of the map's nodes, and the uniform
 * affine projection from world coordinates to screen coordinates.
 */
module Viewports {
  import opened Common
  import opened OrderedTable
  import opened LaneletMap

  /** A closed interval `[lo, hi]` (the source's two-element range arrays). */
  datatype Range = Range(lo: real, hi: real)

  datatype Viewport = Viewport(screenWidth: real, screenHeight: real, xRange: Range, yRange: Range)

  function Span(r: Range): real
  {
    r.hi - r.lo
  }

  /** `max(x_range / 2, y_range / 2)`, the divisor of the projection. */
  function HalfSpan(vp: Viewport): real
  {
    MaxReal(Span(vp.xRange) / 2.0, Span(vp.yRange) / 2.0)
  }

  /** The centre of the world bounding box. */
  function Centre(vp: Viewport): Point
  {
    Point(vp.xRange.lo + Span(vp.xRange) / 2.0, vp.yRange.lo + Span(vp.yRange) / 2.0)
  }

  /** The centre of the screen. */
  function Midpoint(vp: Viewport): Point
  {
    Point(vp.screenWidth / 2.0, vp.screenHeight / 2.0)
  }

  /** The one scale factor both axes share. */
  function Scale(vp: Viewport): real
    requires HalfSpan(vp) != 0.0
  {
    MinReal(vp.screenHeight, vp.screenWidth) / HalfSpan(vp)
  }

  /** The projection of one point, as the body of the source's loop computes it. */
  function ProjectPoint(vp: Viewport, p: Point): Point
    requires HalfSpan(vp) != 0.0
  {
    var c := Centre(vp);
    var d := HalfSpan(vp);
    var m := MinReal(vp.screenHeight, vp.screenWidth);
    Point((p.x - c.x) / d * m + vp.screenWidth / 2.0, (p.y - c.y) / d * m + vp.screenHeight / 2.0)
  }

  /** The projection of a list of points, for the callers that are expressions. */
  function ProjectAll(vp: Viewport, ps: seq<Point>): (qs: seq<Point>)
    requires HalfSpan(vp) != 0.0
    ensures |qs| == |ps|
    ensures forall i :: 0 <= i < |ps| ==> qs[i] == ProjectPoint(vp, ps[i])
  {
    seq(|ps|, i requires 0 <= i < |ps| => ProjectPoint(vp, ps[i]))
  }

  /** Undo a projection: subtract the screen centre, divide out the scale, add the world centre. */
  function Unproject(vp: Viewport, q: Point): Point
    requires HalfSpan(vp) != 0.0 && Scale(vp) != 0.0
  {
    var c := Centre(vp);
    Point((q.x - vp.screenWidth / 2.0) / Scale(vp) + c.x, (q.y - vp.screenHeight / 2.0) / Scale(vp) + c.y)
  }

  /** `Viewport.project`: one projected point per input point, in order. */
  method Project(vp: Viewport, points: seq<Point>) returns (result: seq<Point>)
    requires HalfSpan(vp) != 0.0
    ensures |result| == |points|
    ensures forall i :: 0 <= i < |points| ==> result[i] == ProjectPoint(vp, points[i])
    ensures result == ProjectAll(vp, points)
  {
    var xRange := vp.xRange.hi - vp.xRange.lo;
    var yRange := vp.yRange.hi - vp.yRange.lo;
    result := [];
    var i := 0;
    while i < |points|
      invariant 0 <= i <= |points|
      invariant |result| == i
      invariant forall j :: 0 <= j < i ==> result[j] == ProjectPoint(vp, points[j])
    {
      var p := points[i];
      var d := MaxReal(xRange / 2.0, yRange / 2.0);
      var normalized := Point((p.x - (vp.xRange.lo + xRange / 2.0)) / d,
                              (p.y - (vp.yRange.lo + yRange / 2.0)) / d);
      var m := MinReal(vp.screenHeight, vp.screenWidth);
      normalized := Point(normalized.x * m, normalized.y * m);
      normalized := Point(normalized.x + vp.screenWidth / 2.0, normalized.y + vp.screenHeight / 2.0);
      result := result + [normalized];
      i := i + 1;
    }
  }

  /** The centre of the bounding box lands on the centre of the screen. */
  lemma ProjectCentre(vp: Viewport)
    requires HalfSpan(vp) != 0.0
    ensures ProjectPoint(vp, Centre(vp)) == Midpoint(vp)
  {
  }

  /**
   * The projection is a translation plus one uniform scale: the difference of
   * two projected points is the scale times the difference of the points, on
   * both axes alike (no rotation, no independent stretch).
   */
  lemma ProjectIsUniformAffine(vp: Viewport, p: Point, q: Point)
    requires HalfSpan(vp) != 0.0
    ensures ProjectPoint(vp, p).x - ProjectPoint(vp, q).x == Scale(vp) * (p.x - q.x)
    ensures ProjectPoint(vp, p).y - ProjectPoint(vp, q).y == Scale(vp) * (p.y - q.y)
  {
    var c, d, m := Centre(vp), HalfSpan(vp), MinReal(vp.screenHeight, vp.screenWidth);
    assert (p.x - c.x) / d * m - (q.x - c.x) / d * m == (p.x - q.x) * (m / d);
    assert (p.y - c.y) / d * m - (q.y - c.y) / d * m == (p.y - q.y) * (m / d);
  }

  /** With a non-zero scale, undoing the projection recovers the point. */
  lemma ProjectInverse(vp: Viewport, p: Point)
    requires HalfSpan(vp) != 0.0 && Scale(vp) != 0.0
    ensures Unproject(vp, ProjectPoint(vp, p)) == p
  {
    var c, d, m := Centre(vp), HalfSpan(vp), MinReal(vp.screenHeight, vp.screenWidth);
    var s := Scale(vp);
    assert s == m / d;
    assert (p.x - c.x) / d * m == (p.x - c.x) * s;
    assert (p.y - c.y) / d * m == (p.y - c.y) * s;
  }

  /** `xr`, `yr` are the tightest ranges holding every point: each bound is some point's coordinate. */
  ghost predicate IsBoundingBox(ps: seq<Point>, xr: Range, yr: Range)
  {
    && xr.lo <= xr.hi && yr.lo <= yr.hi
    && (forall i :: 0 <= i < |ps| ==> xr.lo <= ps[i].x <= xr.hi && yr.lo <= ps[i].y <= yr.hi)
    && (exists i :: 0 <= i < |ps| && ps[i].x == xr.lo)
    && (exists i :: 0 <= i < |ps| && ps[i].x == xr.hi)
    && (exists i :: 0 <= i < |ps| && ps[i].y == yr.lo)
    && (exists i :: 0 <= i < |ps| && ps[i].y == yr.hi)
  }

  /** A bounding box, when there is one, is unique. */
  lemma BoundingBoxUnique(ps: seq<Point>, xr: Range, yr: Range, xr': Range, yr': Range)
    requires IsBoundingBox(ps, xr, yr) && IsBoundingBox(ps, xr', yr')
    ensures xr == xr' && yr == yr'
  {
    var a :| 0 <= a < |ps| && ps[a].x == xr.lo;
    var b :| 0 <= b < |ps| && ps[b].x == xr'.lo;
    var c :| 0 <= c < |ps| && ps[c].x == xr.hi;
    var d :| 0 <= d < |ps| && ps[d].x == xr'.hi;
    var e :| 0 <= e < |ps| && ps[e].y == yr.lo;
    var f :| 0 <= f < |ps| && ps[f].y == yr'.lo;
    var g :| 0 <= g < |ps| && ps[g].y == yr.hi;
    var h :| 0 <= h < |ps| && ps[h].y == yr'.hi;
  }

  /** The running min/max scan over the map's node positions; None when there are no nodes. */
  method ScanBounds(ps: seq<Point>) returns (b: Option<(Range, Range)>)
    ensures b.None? <==> ps == []
    ensures b.Some? ==> IsBoundingBox(ps, b.value.0, b.value.1)
  {
    var seen := false;
    var minX, maxX, minY, maxY := 0.0, 0.0, 0.0, 0.0;
    var i := 0;
    while i < |ps|
      invariant 0 <= i <= |ps|
      invariant seen <==> i > 0
      invariant seen ==> IsBoundingBox(ps[..i], Range(minX, maxX), Range(minY, maxY))
    {
      var x, y := ps[i].x, ps[i].y;
      if !seen {
        minX, maxX := x, x;
        minY, maxY := y, y;
        seen := true;
      } else {
        minX := MinReal(minX, x);
        minY := MinReal(minY, y);
        maxX := MaxReal(maxX, x);
        maxY := MaxReal(maxY, y);
      }
      assert ps[..i + 1][i] == ps[i];
      assert forall j :: 0 <= j < i ==> ps[..i + 1][j] == ps[..i][j];
      i := i + 1;
    }
    if !seen {
      return None;
    }
    assert ps[..i] == ps;
    b := Some((Range(minX, maxX), Range(minY, maxY)));
  }

  /** The positions of the map's nodes, in the node table's order. */
  function NodePositions(m: Map): (ps: seq<Point>)
    requires Valid(m.nodes)
    ensures |ps| == |m.nodes.keys|
    ensures forall i :: 0 <= i < |ps| ==> ps[i] == m.nodes.entries[m.nodes.keys[i]].position
  {
    Positions(Values(m.nodes))
  }

  /** `viewport_for_map`: the node bounding box with the given screen size. */
  method ViewportForMap(screenWidth: real, screenHeight: real, m: Map) returns (vp: Option<Viewport>)
    requires Valid(m.nodes)
    ensures vp.None? <==> m.nodes.keys == []
    ensures vp.Some? ==> vp.value.screenWidth == screenWidth && vp.value.screenHeight == screenHeight
    ensures vp.Some? ==> IsBoundingBox(NodePositions(m), vp.value.xRange, vp.value.yRange)
  {
    var b := ScanBounds(NodePositions(m));
    if b.None? {
      return None;
    }
    var xr, yr := b.value.0, b.value.1;
    vp := Some(Viewport(screenWidth, screenHeight, xr, yr));
  }

  /**
   * `viewport_for_map_no_scaling`: the same bounding box, with the screen width
   * set to the x extent and the screen height set to `min_y - max_y`.
   */
  method ViewportForMapNoScaling(m: Map) returns (vp: Option<Viewport>)
    requires Valid(m.nodes)
    ensures vp.None? <==> m.nodes.keys == []
    ensures vp.Some? ==> IsBoundingBox(NodePositions(m), vp.value.xRange, vp.value.yRange)
    ensures vp.Some? ==> vp.value.screenWidth == Span(vp.value.xRange)
    ensures vp.Some? ==> vp.value.screenHeight == -Span(vp.value.yRange)
  {
    var b := ScanBounds(NodePositions(m));
    if b.None? {
      return None;
    }
    var minX, maxX, minY, maxY := b.value.0.lo, b.value.0.hi, b.value.1.lo, b.value.1.hi;
    vp := Some(Viewport(maxX - minX, minY - maxY, Range(minX, maxX), Range(minY, maxY)));
  }

  /**
   * In the unscaled viewport the negated height is the smaller screen side, so
   * the shared scale is `-y_extent / max(x_extent / 2, y_extent / 2)`. It lies
   * between -2 and 0: the map is turned half-way about the screen centre and
   * stretched, by exactly 2 when the y extent is at least the x extent, so a
   * screen unit is not a metre; the scale is zero (everything on one point)
   * when the map has no y extent.
   */
  lemma NoScalingScale(vp: Viewport)
    requires Span(vp.xRange) >= 0.0 && Span(vp.yRange) >= 0.0 && HalfSpan(vp) != 0.0
    requires vp.screenWidth == Span(vp.xRange) && vp.screenHeight == -Span(vp.yRange)
    ensures Scale(vp) == -Span(vp.yRange) / HalfSpan(vp)
    ensures Scale(vp) <= 0.0
    ensures Scale(vp) == 0.0 <==> Span(vp.yRange) == 0.0
    ensures -2.0 <= Scale(vp)
    ensures Span(vp.yRange) >= Span(vp.xRange) ==> Scale(vp) == -2.0
  {
    var h := HalfSpan(vp);
    assert h > 0.0 && Span(vp.yRange) <= 2.0 * h;
    assert Scale(vp) * h == -Span(vp.yRange);
  }
}
