/**
 * The browser side of the web viewer: turning the `map_data` payload into
 * road and line meshes, keeping one obstacle per visible track in step with
 * the `frame` payloads, and the animation loop's frame requests.
 *
 * The THREE.js scene is opaque: a mesh handed to `scene.add` is modelled as
 * the value returned by the method that builds it.
 */
module WebClient {
  import opened Common
  import opened OrderedTable
  import opened LaneletMap
  import opened Viewports
  import opened TrackLoader
  import opened WebServer

  /** A THREE.js vector; the map's plane is x/z and y points up. */
  datatype Vec3 = Vec3(x: real, y: real, z: real)

  /** A THREE.js `Face3`: three indices into the geometry's vertex list. */
  datatype Face = Face(a: nat, b: nat, c: nat)

  datatype Mesh = Mesh(vertices: seq<Vec3>, faces: seq<Face>)

  /** A mesh as added to the scene, with its material colour. */
  datatype SceneMesh = SceneMesh(mesh: Mesh, color: string)

  /** Every face of the mesh indexes an existing vertex. */
  predicate WellIndexed(m: Mesh)
  {
    forall k :: 0 <= k < |m.faces| ==>
      m.faces[k].a < |m.vertices| && m.faces[k].b < |m.vertices| && m.faces[k].c < |m.vertices|
  }

  /** A map point lifted onto the ground plane at height `y`. */
  function Lift(p: Point, y: real): (v: Vec3)
    ensures v.x == p.x && v.y == y && v.z == p.y
  {
    Vec3(p.x, y, p.y)
  }

  // ---------------------------------------------------------------------
  // drawTriangles2D
  // ---------------------------------------------------------------------

  const RoadColor: string := "#303030"

  /** The triangles a road mesh is built from: at least three corners each. */
  predicate Drawable(triangles: seq<Triangle>)
  {
    forall i :: 0 <= i < |triangles| ==> |triangles[i]| >= 3
  }

  /** The vertices `drawTriangles2D` pushes for the triangles: each triangle's corners, last to first. */
  function TrianglesVertices(ts: seq<Triangle>): seq<Vec3>
    requires Drawable(ts)
  {
    if ts == [] then []
    else
      var t := ts[|ts| - 1];
      TrianglesVertices(ts[..|ts| - 1]) + [Lift(t[2], 0.0), Lift(t[1], 0.0), Lift(t[0], 0.0)]
  }

  /** The faces `drawTriangles2D` adds for `n` triangles, one per triangle over its three vertices. */
  function TrianglesFaces(n: nat): seq<Face>
  {
    if n == 0 then [] else TrianglesFaces(n - 1) + [Face(3 * (n - 1), 3 * (n - 1) + 1, 3 * (n - 1) + 2)]
  }

  /** The geometry `drawTriangles2D` builds from a lane's triangles. */
  function TrianglesMesh(ts: seq<Triangle>): Mesh
    requires Drawable(ts)
  {
    Mesh(TrianglesVertices(ts), TrianglesFaces(|ts|))
  }

  /** Vertex `3k+j` is corner `2-j` of triangle `k`. */
  lemma {:induction false} TrianglesVerticesAt(ts: seq<Triangle>, k: nat, j: nat)
    requires Drawable(ts) && k < |ts| && j < 3
    ensures |TrianglesVertices(ts)| == 3 * |ts|
    ensures TrianglesVertices(ts)[3 * k + j] == Lift(ts[k][2 - j], 0.0)
  {
    var init := ts[..|ts| - 1];
    var t := ts[|ts| - 1];
    var corners := [Lift(t[2], 0.0), Lift(t[1], 0.0), Lift(t[0], 0.0)];
    var prev := TrianglesVertices(init);
    TrianglesVerticesCount(init);
    assert TrianglesVertices(ts) == prev + corners;
    if k < |init| {
      TrianglesVerticesAt(init, k, j);
      assert init[k] == ts[k];
      assert TrianglesVertices(ts)[3 * k + j] == prev[3 * k + j];
    } else {
      assert TrianglesVertices(ts)[3 * k + j] == corners[j];
    }
  }

  /** Three vertices per triangle. */
  lemma {:induction false} TrianglesVerticesCount(ts: seq<Triangle>)
    requires Drawable(ts)
    ensures |TrianglesVertices(ts)| == 3 * |ts|
  {
    if ts != [] {
      TrianglesVerticesCount(ts[..|ts| - 1]);
    }
  }

  /** Face `k` spans vertices `3k`, `3k+1` and `3k+2`. */
  lemma {:induction false} TrianglesFacesAt(n: nat, k: nat)
    requires k < n
    ensures |TrianglesFaces(n)| == n
    ensures TrianglesFaces(n)[k] == Face(3 * k, 3 * k + 1, 3 * k + 2)
  {
    TrianglesFacesCount(n - 1);
    if k < n - 1 {
      TrianglesFacesAt(n - 1, k);
    }
  }

  /** One face per triangle. */
  lemma {:induction false} TrianglesFacesCount(n: nat)
    ensures |TrianglesFaces(n)| == n
  {
    if n > 0 {
      TrianglesFacesCount(n - 1);
    }
  }

  /** Three vertices and one face per triangle, and every face indexes an existing vertex. */
  lemma TrianglesMeshIndexed(ts: seq<Triangle>)
    requires Drawable(ts)
    ensures |TrianglesMesh(ts).vertices| == 3 * |ts| && |TrianglesMesh(ts).faces| == |ts|
    ensures WellIndexed(TrianglesMesh(ts))
  {
    TrianglesVerticesCount(ts);
    TrianglesFacesCount(|ts|);
    forall k | 0 <= k < |ts|
      ensures TrianglesFaces(|ts|)[k] == Face(3 * k, 3 * k + 1, 3 * k + 2)
    {
      TrianglesFacesAt(|ts|, k);
    }
  }

  /** `drawTriangles2D`: one road mesh from a lane's triangles. */
  method DrawTriangles2D(triangles: seq<Triangle>) returns (added: SceneMesh)
    requires Drawable(triangles)
    ensures added == SceneMesh(TrianglesMesh(triangles), RoadColor)
  {
    var vertices: seq<Vec3> := [];
    var faces: seq<Face> := [];
    var count := 0;
    while count < |triangles|
      invariant 0 <= count <= |triangles|
      invariant vertices == TrianglesVertices(triangles[..count])
      invariant faces == TrianglesFaces(count)
    {
      var triangle := triangles[count];
      var p2 := triangle[0];
      var p1 := triangle[1];
      var p0 := triangle[2];
      vertices := vertices + [Lift(p0, 0.0), Lift(p1, 0.0), Lift(p2, 0.0)];
      faces := faces + [Face(3 * count, 3 * count + 1, 3 * count + 2)];
      assert triangles[..count + 1][..count] == triangles[..count];
      count := count + 1;
    }
    assert triangles[..count] == triangles;
    added := SceneMesh(Mesh(vertices, faces), RoadColor);
  }

  // ---------------------------------------------------------------------
  // renderPolyLine
  // ---------------------------------------------------------------------

  /** The height at which line meshes float above the road. */
  const LineHeight: real := 0.1

  /** The number of segments drawn: `points.length - 1`, and none for fewer than two points. */
  function SegmentCount(points: seq<Point>): (n: nat)
    ensures |points| >= 2 ==> n == |points| - 1
    ensures |points| < 2 ==> n == 0
  {
    if |points| < 2 then 0 else |points| - 1
  }

  /** `v + s * normalise(d)`, on the ground plane at line height. */
  function Offset(v: Point, d: Point, s: real, normalise: Point -> Point): Vec3
  {
    var u := normalise(d);
    Vec3(v.x + s * u.x, LineHeight, v.y + s * u.y)
  }

  /**
   * The four vertices of segment `i`: both ends moved by the counter-clockwise
   * and then the clockwise perpendicular, scaled to half the thickness.
   */
  function SegmentVertices(points: seq<Point>, i: nat, thickness: real, normalise: Point -> Point): seq<Vec3>
    requires i + 1 < |points|
  {
    var v1 := points[i];
    var v2 := points[i + 1];
    var dx := v1.x - v2.x;
    var dy := v1.y - v2.y;
    var ccw := Point(dy, -dx);
    var cw := Point(-dy, dx);
    var s := thickness / 2.0;
    [Offset(v1, ccw, s, normalise), Offset(v1, cw, s, normalise),
     Offset(v2, ccw, s, normalise), Offset(v2, cw, s, normalise)]
  }

  /** The two faces of segment `i`, over vertices `4i` to `4i+3`. */
  function SegmentFaces(i: nat): seq<Face>
  {
    [Face(4 * i + 2, 4 * i + 1, 4 * i), Face(4 * i + 1, 4 * i + 2, 4 * i + 3)]
  }

  /** The vertices of the first `n` segments of the polyline, four per segment. */
  function PolyLineVertices(points: seq<Point>, n: nat, thickness: real, normalise: Point -> Point): seq<Vec3>
    requires n <= SegmentCount(points)
  {
    if n == 0 then []
    else PolyLineVertices(points, n - 1, thickness, normalise) + SegmentVertices(points, n - 1, thickness, normalise)
  }

  /** The faces of the first `n` segments, two per segment. */
  function PolyLineFaces(n: nat): seq<Face>
  {
    if n == 0 then [] else PolyLineFaces(n - 1) + SegmentFaces(n - 1)
  }

  /** The geometry of the first `n` segments of the polyline. */
  function PolyLineMesh(points: seq<Point>, n: nat, thickness: real, normalise: Point -> Point): Mesh
    requires n <= SegmentCount(points)
  {
    Mesh(PolyLineVertices(points, n, thickness, normalise), PolyLineFaces(n))
  }

  /** Four vertices per segment. */
  lemma {:induction false} PolyLineVerticesCount(points: seq<Point>, n: nat, thickness: real, normalise: Point -> Point)
    requires n <= SegmentCount(points)
    ensures |PolyLineVertices(points, n, thickness, normalise)| == 4 * n
  {
    if n > 0 {
      PolyLineVerticesCount(points, n - 1, thickness, normalise);
    }
  }

  /** Vertex `4i+j` is the `j`-th vertex of segment `i`, whichever later segments follow it. */
  lemma {:induction false} PolyLineVerticesAt(points: seq<Point>, n: nat, i: nat, j: nat, thickness: real, normalise: Point -> Point)
    requires n <= SegmentCount(points) && i < n && j < 4
    ensures |PolyLineVertices(points, n, thickness, normalise)| == 4 * n
    ensures PolyLineVertices(points, n, thickness, normalise)[4 * i + j]
      == SegmentVertices(points, i, thickness, normalise)[j]
  {
    PolyLineVerticesCount(points, n - 1, thickness, normalise);
    var prev := PolyLineVertices(points, n - 1, thickness, normalise);
    var added := SegmentVertices(points, n - 1, thickness, normalise);
    assert PolyLineVertices(points, n, thickness, normalise) == prev + added;
    if i < n - 1 {
      PolyLineVerticesAt(points, n - 1, i, j, thickness, normalise);
      assert PolyLineVertices(points, n, thickness, normalise)[4 * i + j] == prev[4 * i + j];
    } else {
      assert PolyLineVertices(points, n, thickness, normalise)[4 * i + j] == added[j];
    }
  }

  /** Two faces per segment. */
  lemma {:induction false} PolyLineFacesCount(n: nat)
    ensures |PolyLineFaces(n)| == 2 * n
  {
    if n > 0 {
      PolyLineFacesCount(n - 1);
    }
  }

  /** Segment `i` owns faces `2i` and `2i+1`, whichever later segments follow it. */
  lemma {:induction false} PolyLineFacesAt(n: nat, i: nat)
    requires i < n
    ensures |PolyLineFaces(n)| == 2 * n
    ensures PolyLineFaces(n)[2 * i] == Face(4 * i + 2, 4 * i + 1, 4 * i)
    ensures PolyLineFaces(n)[2 * i + 1] == Face(4 * i + 1, 4 * i + 2, 4 * i + 3)
  {
    PolyLineFacesCount(n - 1);
    var prev := PolyLineFaces(n - 1);
    if i < n - 1 {
      PolyLineFacesAt(n - 1, i);
      assert PolyLineFaces(n)[2 * i] == prev[2 * i];
      assert PolyLineFaces(n)[2 * i + 1] == prev[2 * i + 1];
    } else {
      assert PolyLineFaces(n)[2 * i] == SegmentFaces(i)[0];
      assert PolyLineFaces(n)[2 * i + 1] == SegmentFaces(i)[1];
    }
  }

  /** Four vertices and two faces per segment, and every face indexes an existing vertex. */
  lemma PolyLineMeshIndexed(points: seq<Point>, n: nat, thickness: real, normalise: Point -> Point)
    requires n <= SegmentCount(points)
    ensures |PolyLineMesh(points, n, thickness, normalise).vertices| == 4 * n
    ensures |PolyLineMesh(points, n, thickness, normalise).faces| == 2 * n
    ensures WellIndexed(PolyLineMesh(points, n, thickness, normalise))
  {
    PolyLineVerticesCount(points, n, thickness, normalise);
    PolyLineFacesCount(n);
    var faces := PolyLineFaces(n);
    forall k | 0 <= k < 2 * n
      ensures faces[k].a < 4 * n && faces[k].b < 4 * n && faces[k].c < 4 * n
    {
      PolyLineFacesAt(n, k / 2);
      assert k == 2 * (k / 2) || k == 2 * (k / 2) + 1;
    }
  }

  /** The opposite direction. */
  function Neg(d: Point): (r: Point)
    ensures r.x == -d.x && r.y == -d.y
  {
    Point(-d.x, -d.y)
  }

  /**
   * When `normalise` maps opposite directions to opposite vectors, as a true
   * normalisation does, the two vertices at each end of a segment lie
   * symmetrically about that end point, all at line height.
   */
  lemma SegmentIsSymmetric(points: seq<Point>, i: nat, thickness: real, normalise: Point -> Point)
    requires i + 1 < |points|
    requires forall d :: normalise(Neg(d)) == Neg(normalise(d))
    ensures var vs := SegmentVertices(points, i, thickness, normalise);
      && vs[0].x + vs[1].x == 2.0 * points[i].x && vs[0].z + vs[1].z == 2.0 * points[i].y
      && vs[2].x + vs[3].x == 2.0 * points[i + 1].x && vs[2].z + vs[3].z == 2.0 * points[i + 1].y
      && vs[0].y == LineHeight && vs[1].y == LineHeight && vs[2].y == LineHeight && vs[3].y == LineHeight
  {
    var dx := points[i].x - points[i + 1].x;
    var dy := points[i].y - points[i + 1].y;
    var ccw := Point(dy, -dx);
    var u := normalise(ccw);
    var s := thickness / 2.0;
    assert Point(-dy, dx) == Neg(ccw);
    assert normalise(Point(-dy, dx)) == Neg(u);
    assert s * (-u.x) == -(s * u.x);
    assert s * (-u.y) == -(s * u.y);
  }

  /** The body of `renderPolyLine`'s loop: the four corners of segment `i`. */
  method SegmentQuad(points: seq<Point>, i: nat, thickness: real, normalise: Point -> Point) returns (quad: seq<Vec3>)
    requires i + 1 < |points|
    ensures quad == SegmentVertices(points, i, thickness, normalise)
  {
    var v1 := points[i];
    var v2 := points[i + 1];
    var dx := v1.x - v2.x;
    var dy := v1.y - v2.y;
    var s := thickness / 2.0;
    var v1a := Offset(v1, Point(dy, -dx), s, normalise);
    var v1b := Offset(v1, Point(-dy, dx), s, normalise);
    var v2a := Offset(v2, Point(dy, -dx), s, normalise);
    var v2b := Offset(v2, Point(-dy, dx), s, normalise);
    quad := [v1a, v1b, v2a, v2b];
  }

  /** `renderPolyLine`: one line mesh through the points, in the given colour. */
  method RenderPolyLine(points: seq<Point>, thickness: real, color: string, normalise: Point -> Point)
    returns (added: SceneMesh)
    ensures added == SceneMesh(PolyLineMesh(points, SegmentCount(points), thickness, normalise), color)
  {
    var vertices: seq<Vec3> := [];
    var faces: seq<Face> := [];
    var i := 0;
    while i < |points| - 1
      invariant 0 <= i <= SegmentCount(points)
      invariant vertices == PolyLineVertices(points, i, thickness, normalise)
      invariant faces == PolyLineFaces(i)
    {
      var quad := SegmentQuad(points, i, thickness, normalise);
      vertices := vertices + quad;
      faces := faces + [Face(4 * i + 2, 4 * i + 1, 4 * i), Face(4 * i + 1, 4 * i + 2, 4 * i + 3)];
      i := i + 1;
    }
    added := SceneMesh(Mesh(vertices, faces), color);
  }

  // ---------------------------------------------------------------------
  // renderMap
  // ---------------------------------------------------------------------

  datatype LineStyle = LineStyle(thickness: real, color: string)

  /** The kind-to-style chain of `renderMap`; `None` for kinds that are not drawn. */
  function StyleOf(kind: string): (r: Option<LineStyle>)
    ensures r.Some? <==> kind in ["StopLine", "ThickLine", "SolidLine", "RoadBorder", "CurbStone", "PedestrianMarking", "DashedLine"]
    ensures r.Some? ==> r.value.thickness > 0.0 && r.value.color in ["#ffffff", "#111111", "#999999"]
  {
    if kind == "Virtual" then None
    else if kind == "StopLine" then Some(LineStyle(1.0, "#ffffff"))
    else if kind == "ThickLine" then Some(LineStyle(0.1, "#ffffff"))
    else if kind == "SolidLine" then Some(LineStyle(0.05, "#ffffff"))
    else if kind == "RoadBorder" then Some(LineStyle(0.1, "#ffffff"))
    else if kind == "CurbStone" then Some(LineStyle(0.1, "#111111"))
    else if kind == "PedestrianMarking" then Some(LineStyle(1.0, "#999999"))
    else if kind == "DashedLine" then Some(LineStyle(0.1, "#999999"))
    else None
  }

  /** Of the ten boundary kinds the server can send, exactly Virtual, GuardRail and TrafficSign are not drawn. */
  lemma UndrawnKinds(k: WayKind)
    ensures StyleOf(KindName(k)).None? <==> k == Virtual || k == GuardRail || k == TrafficSign
  {
  }

  /** The line mesh of a way drawn in the given style. */
  function LineOf(w: WayPayload, style: LineStyle, normalise: Point -> Point): SceneMesh
  {
    SceneMesh(PolyLineMesh(w.points, SegmentCount(w.points), style.thickness, normalise), style.color)
  }

  /** What `renderMap`'s first loop adds for one way: its line, or nothing for a kind that is not drawn. */
  function WayMesh(w: WayPayload, normalise: Point -> Point): seq<SceneMesh>
  {
    match StyleOf(w.kind)
    case None => []
    case Some(style) => [LineOf(w, style, normalise)]
  }

  /** The line meshes of `renderMap`'s first loop over the ways, in order. */
  function WayMeshes(ways: seq<WayPayload>, normalise: Point -> Point): seq<SceneMesh>
  {
    if ways == [] then []
    else WayMeshes(ways[..|ways| - 1], normalise) + WayMesh(ways[|ways| - 1], normalise)
  }

  /** The ways `renderMap` draws, in order. */
  function DrawnWays(ways: seq<WayPayload>): seq<WayPayload>
  {
    if ways == [] then []
    else
      var last := ways[|ways| - 1];
      DrawnWays(ways[..|ways| - 1]) + (if StyleOf(last.kind).Some? then [last] else [])
  }

  /** A way is drawn exactly when it is among the ways and its kind has a style. */
  lemma {:induction false} DrawnWaysMembers(ways: seq<WayPayload>)
    ensures forall w :: w in DrawnWays(ways) <==> w in ways && StyleOf(w.kind).Some?
  {
    if ways != [] {
      var init := ways[..|ways| - 1];
      DrawnWaysMembers(init);
      assert ways == init + [ways[|ways| - 1]];
    }
  }

  /**
   * The `i`-th line mesh belongs to the `i`-th drawn way: its points at the
   * thickness and in the colour its kind's style gives.
   */
  lemma {:induction false} WayMeshesAt(ways: seq<WayPayload>, normalise: Point -> Point, i: nat)
    requires i < |DrawnWays(ways)|
    ensures |WayMeshes(ways, normalise)| == |DrawnWays(ways)|
    ensures StyleOf(DrawnWays(ways)[i].kind).Some?
    ensures WayMeshes(ways, normalise)[i] == LineOf(DrawnWays(ways)[i], StyleOf(DrawnWays(ways)[i].kind).value, normalise)
  {
    var init := ways[..|ways| - 1];
    var last := ways[|ways| - 1];
    WayMeshesCount(init, normalise);
    if i < |DrawnWays(init)| {
      WayMeshesAt(init, normalise, i);
      assert DrawnWays(ways)[i] == DrawnWays(init)[i];
      assert WayMeshes(ways, normalise)[i] == WayMeshes(init, normalise)[i];
    }
  }

  /** One line mesh per drawn way. */
  lemma {:induction false} WayMeshesCount(ways: seq<WayPayload>, normalise: Point -> Point)
    ensures |WayMeshes(ways, normalise)| == |DrawnWays(ways)|
  {
    if ways != [] {
      WayMeshesCount(ways[..|ways| - 1], normalise);
    }
  }

  /** The lanes' road meshes, in payload order. */
  function LaneMeshes(lanes: seq<seq<Triangle>>): (r: seq<SceneMesh>)
    requires forall ts :: ts in lanes ==> Drawable(ts)
    ensures |r| == |lanes|
    ensures forall i :: 0 <= i < |lanes| ==> r[i] == SceneMesh(TrianglesMesh(lanes[i]), RoadColor)
  {
    seq(|lanes|, i requires 0 <= i < |lanes| => SceneMesh(TrianglesMesh(lanes[i]), RoadColor))
  }

  /** Everything `renderMap` adds to the scene: the drawn ways' lines, then the roads. */
  function MapMeshes(ways: seq<WayPayload>, lanes: seq<seq<Triangle>>, normalise: Point -> Point): seq<SceneMesh>
    requires forall ts :: ts in lanes ==> Drawable(ts)
  {
    WayMeshes(ways, normalise) + LaneMeshes(lanes)
  }

  /** The way loop of `renderMap`. */
  method RenderWays(ways: seq<WayPayload>, normalise: Point -> Point) returns (added: seq<SceneMesh>)
    ensures added == WayMeshes(ways, normalise)
  {
    added := [];
    var i := 0;
    while i < |ways|
      invariant 0 <= i <= |ways|
      invariant added == WayMeshes(ways[..i], normalise)
    {
      var way := ways[i];
      assert ways[..i + 1][..i] == ways[..i];
      match StyleOf(way.kind) {
        case None =>
        case Some(style) =>
          var line := RenderPolyLine(way.points, style.thickness, style.color, normalise);
          added := added + [line];
      }
      i := i + 1;
    }
    assert ways[..i] == ways;
  }

  /** The lane loop of `renderMap`: one road mesh per lane. */
  method RenderLanes(lanes: seq<seq<Triangle>>) returns (added: seq<SceneMesh>)
    requires forall ts :: ts in lanes ==> Drawable(ts)
    ensures added == LaneMeshes(lanes)
  {
    added := [];
    var i := 0;
    while i < |lanes|
      invariant 0 <= i <= |lanes|
      invariant |added| == i
      invariant forall k :: 0 <= k < i ==> added[k] == SceneMesh(TrianglesMesh(lanes[k]), RoadColor)
    {
      var road := DrawTriangles2D(lanes[i]);
      added := added + [road];
      i := i + 1;
    }
  }

  /** `renderMap`: the drawn ways' line meshes, then one road mesh per lane. */
  method RenderMap(ways: seq<WayPayload>, lanes: seq<seq<Triangle>>, normalise: Point -> Point)
    returns (added: seq<SceneMesh>)
    requires forall ts :: ts in lanes ==> Drawable(ts)
    ensures added == MapMeshes(ways, lanes, normalise)
  {
    var lines := RenderWays(ways, normalise);
    var roads := RenderLanes(lanes);
    added := lines + roads;
  }

  /** Every triangle of a `map_data` message has three corners, so the client can draw it. */
  lemma MapMessageDrawable(vp: Viewport, m: Map, delaunay: seq<Point> -> seq<Simplex>)
    requires Valid(m.lanes) && Valid(m.ways) && HalfSpan(vp) != 0.0
    requires forall ps :: ValidSimplices(delaunay(ps), |ps|)
    ensures MapMessage(vp, m, delaunay).payload.MapPayload?
    ensures forall ts :: ts in MapMessage(vp, m, delaunay).payload.triangulatedLanes ==>
      forall t :: t in ts ==> |t| == 3
  {
    var lanes := TriangulatedLanes(vp, m, delaunay);
    forall ts | ts in lanes
      ensures forall t :: t in ts ==> |t| == 3
    {
      var i :| 0 <= i < |lanes| && lanes[i] == ts;
      var lane := Values(m.lanes)[i];
      var ps := LanePoints(lane);
      TrianglesSpanCorridor(ps, |lane.leftWay.nodes|, delaunay(ps));
    }
  }

  // ---------------------------------------------------------------------
  // renderFrame and animate
  // ---------------------------------------------------------------------

  /** The track ids of the first `n` agents of a frame. */
  function IdsUpTo(agents: seq<AgentPayload>, n: nat): set<int>
    requires n <= |agents|
  {
    if n == 0 then {} else IdsUpTo(agents, n - 1) + {agents[n - 1].trackId}
  }

  /** The track ids present in a frame. */
  function TrackIds(agents: seq<AgentPayload>): set<int>
  {
    IdsUpTo(agents, |agents|)
  }

  /** The last of the first `n` agents with the given track id: the one whose pose `renderFrame` leaves behind. */
  function LastIn(agents: seq<AgentPayload>, n: nat, id: int): AgentPayload
    requires n <= |agents| && id in IdsUpTo(agents, n)
  {
    if agents[n - 1].trackId == id then agents[n - 1] else LastIn(agents, n - 1, id)
  }

  /** The first of the first `n` agents with the given track id: the one a new obstacle is built from. */
  function FirstIn(agents: seq<AgentPayload>, n: nat, id: int): AgentPayload
    requires n <= |agents| && id in IdsUpTo(agents, n)
  {
    if id in IdsUpTo(agents, n - 1) then FirstIn(agents, n - 1, id) else agents[n - 1]
  }

  /** A track id is among the first `n` agents exactly when one of them carries it. */
  lemma {:induction false} IdsUpToMembers(agents: seq<AgentPayload>, n: nat, id: int)
    requires n <= |agents|
    ensures id in IdsUpTo(agents, n) <==> exists j :: 0 <= j < n && agents[j].trackId == id
  {
    if n > 0 {
      IdsUpToMembers(agents, n - 1, id);
      if agents[n - 1].trackId == id {
        assert 0 <= n - 1 < n && agents[n - 1].trackId == id;
      }
    }
  }

  /**
   * `LastIn` is the agent at the greatest position carrying the id, and
   * `FirstIn` the one at the least position.
   */
  lemma {:induction false} FirstAndLast(agents: seq<AgentPayload>, n: nat, id: int)
    requires n <= |agents| && id in IdsUpTo(agents, n)
    ensures exists j :: (0 <= j < n && agents[j] == LastIn(agents, n, id) && agents[j].trackId == id
      && forall j' :: j < j' < n ==> agents[j'].trackId != id)
    ensures exists j :: (0 <= j < n && agents[j] == FirstIn(agents, n, id) && agents[j].trackId == id
      && forall j' :: 0 <= j' < j ==> agents[j'].trackId != id)
  {
    if agents[n - 1].trackId == id {
      assert 0 <= n - 1 < n && agents[n - 1] == LastIn(agents, n, id);
    } else {
      FirstAndLast(agents, n - 1, id);
    }
    if id in IdsUpTo(agents, n - 1) {
      FirstAndLast(agents, n - 1, id);
    } else {
      forall j' | 0 <= j' < n - 1
        ensures agents[j'].trackId != id
      {
        IdsUpToMembers(agents, n - 1, id);
      }
      assert 0 <= n - 1 < n && agents[n - 1] == FirstIn(agents, n, id);
    }
  }

  /** A box mesh standing for one agent. */
  class Obstacle {
    const width: real
    const height: real
    const depth: real
    const color: Rgb
    var x: real
    var y: real
    var z: real
    var rotationY: real

    /** The cube `renderFrame` builds for an agent it has not seen: half the extent, one unit tall, in the agent's colour. */
    constructor (agent: AgentPayload)
      ensures BuiltFrom(agent) && height == 1.0
      ensures PlacedAt(agent)
    {
      width := agent.extent.length / 2.0;
      height := 2.0 / 2.0;
      depth := agent.extent.width / 2.0;
      color := agent.color;
      rotationY := -agent.yaw;
      x := agent.position.x;
      y := 0.5;
      z := agent.position.y;
    }

    /** The box is half the agent's extent and has the agent's colour. */
    predicate BuiltFrom(agent: AgentPayload)
    {
      width == agent.extent.length / 2.0 && depth == agent.extent.width / 2.0 && color == agent.color
    }

    /** The obstacle stands at the agent's position, half a unit up, turned by minus its yaw. */
    predicate PlacedAt(agent: AgentPayload)
      reads this
    {
      x == agent.position.x && y == 0.5 && z == agent.position.y && rotationY == -agent.yaw
    }

    /** Moves an already visible obstacle to the agent's pose; its box and colour stay. */
    method MoveTo(agent: AgentPayload)
      modifies this
      ensures PlacedAt(agent)
    {
      x := agent.position.x;
      y := 0.5;
      z := agent.position.y;
      rotationY := -agent.yaw;
    }
  }

  /** The page's state: the obstacle shown for each visible track, and the animation counter. */
  class Client {
    var visible: map<int, Obstacle>
    /** The keys of `visible` in the order the page iterates over them. */
    var order: seq<int>
    var currentIndex: nat
    /** Every obstacle this page has built. */
    ghost var Repr: set<Obstacle>

    /** No obstacle stands for two tracks, and `order` lists each visible track once. */
    ghost predicate Valid()
      reads this
    {
      && (forall k1, k2 :: k1 in visible && k2 in visible && k1 != k2 ==> visible[k1] != visible[k2])
      && (forall k :: k in visible <==> k in order)
      && NoDuplicates(order)
      && (forall k :: k in visible ==> visible[k] in Repr)
    }

    constructor ()
      ensures visible == map[] && order == [] && currentIndex == 0 && Repr == {}
      ensures Valid()
    {
      visible := map[];
      Repr := {};
      order := [];
      currentIndex := 0;
    }

    /**
     * `renderFrame`: afterwards exactly the frame's tracks are visible. A
     * track that was visible keeps its obstacle, a new track gets a fresh
     * one built from its first agent, every obstacle stands at its track's
     * last agent, and the tracks the frame does not mention are forgotten.
     */
    method RenderFrame(agents: seq<AgentPayload>)
      requires Valid()
      modifies this, Repr
      ensures Valid() && fresh(Repr - old(Repr))
      ensures visible.Keys == TrackIds(agents)
      ensures currentIndex == old(currentIndex)
      ensures forall k :: k in visible && k in old(visible) ==> visible[k] == old(visible)[k]
      ensures forall k :: k in visible && k !in old(visible) ==>
        fresh(visible[k]) && visible[k].BuiltFrom(FirstIn(agents, |agents|, k))
      ensures forall k :: k in visible ==> visible[k].PlacedAt(LastIn(agents, |agents|, k))
    {
      var currentFrameAgents := ShowAll(agents);
      RemoveStale(currentFrameAgents);
      forall k | k in visible && k !in old(visible)
        ensures fresh(visible[k])
      {
        assert visible[k] in Repr - old(Repr);
      }
    }

    /**
     * The first loop of `renderFrame`: every track of the frame becomes
     * visible, placed at its last agent; the set of those tracks is returned.
     */
    method ShowAll(agents: seq<AgentPayload>) returns (currentFrameAgents: set<int>)
      requires Valid()
      modifies this, Repr
      ensures Valid()
      ensures currentFrameAgents == TrackIds(agents)
      ensures fresh(Repr - old(Repr))
      ensures currentIndex == old(currentIndex)
      ensures ShownUpTo(agents, |agents|, old(visible), old(Repr))
    {
      ghost var start, startRepr := visible, Repr;
      currentFrameAgents := {};
      var i := 0;
      while i < |agents|
        invariant 0 <= i <= |agents|
        invariant currentFrameAgents == IdsUpTo(agents, i)
        invariant currentIndex == old(currentIndex)
        invariant Valid() && fresh(Repr - startRepr)
        invariant ShownUpTo(agents, i, start, startRepr)
      {
        currentFrameAgents := ShowNext(agents, i, currentFrameAgents, start, startRepr);
        i := i + 1;
      }
    }

    /**
     * What the first loop of `renderFrame` has done after the first `i`
     * agents, starting from `start` with the obstacles `startRepr`: their
     * tracks are added to the visible ones, a track that was visible keeps
     * its obstacle, a new track has a new obstacle built from its first
     * agent, and each of those tracks stands at its last agent so far.
     */
    ghost predicate ShownUpTo(agents: seq<AgentPayload>, i: nat, start: map<int, Obstacle>, startRepr: set<Obstacle>)
      requires i <= |agents|
      reads this, visible.Values
    {
      && (forall k :: k in visible <==> k in start || k in IdsUpTo(agents, i))
      && (forall k :: k in visible && k in start ==> visible[k] == start[k])
      && (forall k :: k in visible && k !in start ==>
            visible[k] !in startRepr && visible[k].BuiltFrom(FirstIn(agents, i, k)))
      && (forall k :: k in IdsUpTo(agents, i) ==> visible[k].PlacedAt(LastIn(agents, i, k)))
    }

    /** One pass of the first loop of `renderFrame`, over `agents[i]`. */
    method ShowNext(agents: seq<AgentPayload>, i: nat, shown: set<int>, ghost start: map<int, Obstacle>, ghost startRepr: set<Obstacle>)
      returns (shown': set<int>)
      requires i < |agents| && shown == IdsUpTo(agents, i)
      ensures shown' == IdsUpTo(agents, i + 1)
      requires Valid() && ShownUpTo(agents, i, start, startRepr)
      modifies this, Repr
      ensures Valid() && fresh(Repr - old(Repr)) && currentIndex == old(currentIndex)
      ensures ShownUpTo(agents, i + 1, start, startRepr)
    {
      var agent := agents[i];
      shown' := shown + {agent.trackId};
      ghost var before := visible;
      Show(agent);
      forall k | k in visible && k !in start
        ensures visible[k] !in startRepr && visible[k].BuiltFrom(FirstIn(agents, i + 1, k))
      {
        if k in before {
          assert visible[k] == before[k];
          assert FirstIn(agents, i + 1, k) == FirstIn(agents, i, k);
        } else {
          assert FirstIn(agents, i + 1, k) == agent;
        }
      }
      forall k | k in IdsUpTo(agents, i + 1)
        ensures visible[k].PlacedAt(LastIn(agents, i + 1, k))
      {
        if k != agent.trackId {
          assert visible[k] == before[k];
        }
      }
    }

    /**
     * One pass of the first loop of `renderFrame`: move the track's obstacle
     * to the agent, or build one if the track is not visible yet; no other
     * obstacle changes.
     */
    method Show(agent: AgentPayload)
      requires Valid()
      modifies this, Repr
      ensures Valid() && fresh(Repr - old(Repr))
      ensures forall k :: k in visible <==> k in old(visible) || k == agent.trackId
      ensures currentIndex == old(currentIndex)
      ensures visible[agent.trackId].PlacedAt(agent)
      ensures agent.trackId in old(visible) ==> visible[agent.trackId] == old(visible)[agent.trackId]
      ensures agent.trackId !in old(visible) ==>
        fresh(visible[agent.trackId]) && visible[agent.trackId].BuiltFrom(agent)
      ensures forall k :: k in old(visible) && k != agent.trackId ==>
        visible[k] == old(visible)[k] && unchanged(visible[k])
    {
      if agent.trackId in visible {
        var a := visible[agent.trackId];
        a.MoveTo(agent);
      } else {
        var cube := new Obstacle(agent);
        visible := visible[agent.trackId := cube];
        Repr := Repr + {cube};
        order := order + [agent.trackId];
      }
    }

    /**
     * The second loop of `renderFrame`: forget every visible track the frame
     * did not mention; the tracks that stay keep their obstacles and their order.
     */
    method RemoveStale(current: set<int>)
      requires Valid()
      requires forall k :: k in current ==> k in visible
      modifies this
      ensures Valid()
      ensures visible.Keys == current
      ensures forall k :: k in visible ==> visible[k] == old(visible)[k]
      ensures order == KeepOnly(old(order), current)
      ensures currentIndex == old(currentIndex) && Repr == old(Repr)
    {
      visible, order := DropStale(visible, order, current);
      KeepOnlyMembers(old(order), current);
      assert forall k :: k in visible.Keys <==> k in current;
    }

    /**
     * One animation step: frame `currentIndex / 5` is requested exactly when
     * the counter is a multiple of five, and the counter then advances by one.
     */
    method Animate() returns (request: Option<nat>)
      requires Valid()
      modifies this
      ensures Valid()
      ensures request == RequestAt(old(currentIndex))
      ensures currentIndex == old(currentIndex) + 1
      ensures visible == old(visible) && order == old(order) && Repr == old(Repr)
    {
      if currentIndex % 5 == 0 {
        request := Some(currentIndex / 5);
      } else {
        request := None;
      }
      currentIndex := currentIndex + 1;
    }
  }

  /**
   * The loop that deletes, in key order, every entry whose key is not in
   * `current`; what remains are the other entries, untouched.
   */
  method DropStale(visible: map<int, Obstacle>, keys: seq<int>, current: set<int>)
    returns (remaining: map<int, Obstacle>, kept: seq<int>)
    requires NoDuplicates(keys)
    requires forall k :: k in visible <==> k in keys
    ensures forall k :: k in remaining <==> k in visible && k in current
    ensures forall k :: k in remaining ==> remaining[k] == visible[k]
    ensures kept == KeepOnly(keys, current)
  {
    remaining := visible;
    kept := [];
    var i := 0;
    while i < |keys|
      invariant 0 <= i <= |keys|
      invariant kept == KeepOnly(keys[..i], current)
      invariant forall k :: k in remaining <==> k in visible && (k in current || k in keys[i..])
      invariant forall k :: k in remaining ==> remaining[k] == visible[k]
    {
      var k := keys[i];
      assert keys[..i + 1] == keys[..i] + [k];
      if k !in current {
        remaining := remaining - {k};
      } else {
        kept := kept + [k];
      }
      assert forall j :: i < j < |keys| ==> keys[j] != k;
      i := i + 1;
    }
    assert keys[..i] == keys;
    assert keys[i..] == [];
  }

  /** The keys of `ks` that are in `current`, in their order. */
  function KeepOnly(ks: seq<int>, current: set<int>): seq<int>
  {
    if ks == [] then []
    else
      var last := ks[|ks| - 1];
      KeepOnly(ks[..|ks| - 1], current) + (if last in current then [last] else [])
  }

  /** Filtering keeps exactly the keys in `current`, and introduces no repeats. */
  lemma {:induction false} KeepOnlyMembers(ks: seq<int>, current: set<int>)
    ensures forall k :: k in KeepOnly(ks, current) <==> k in ks && k in current
    ensures NoDuplicates(ks) ==> NoDuplicates(KeepOnly(ks, current))
  {
    if ks != [] {
      var init := ks[..|ks| - 1];
      var last := ks[|ks| - 1];
      KeepOnlyMembers(init, current);
      assert ks == init + [last];
      if NoDuplicates(ks) {
        assert NoDuplicates(init) by {
          forall i, j | 0 <= i < j < |init|
            ensures init[i] != init[j]
          {
            assert init[i] == ks[i] && init[j] == ks[j];
          }
        }
        assert last !in init by {
          forall i | 0 <= i < |init|
            ensures init[i] != last
          {
            assert init[i] == ks[i];
          }
        }
      }
    }
  }

  /** What `animate` asks the server for when its counter is `i`. */
  function RequestAt(i: nat): (r: Option<nat>)
    ensures r.Some? <==> i % 5 == 0
    ensures r.Some? ==> r.value * 5 == i
  {
    if i % 5 == 0 then Some(i / 5) else None
  }

  /** The frame requests of the first `n` animation steps from a fresh page, in order. */
  function RequestsUpTo(n: nat): seq<nat>
  {
    if n == 0 then []
    else
      match RequestAt(n - 1)
      case Some(f) => RequestsUpTo(n - 1) + [f]
      case None => RequestsUpTo(n - 1)
  }

  /** After `n` steps the page has asked for frames 0, 1, 2, ... in order, one per five steps, rounding up. */
  lemma {:induction false} RequestsAreConsecutive(n: nat)
    ensures |RequestsUpTo(n)| == (n + 4) / 5
    ensures forall j :: 0 <= j < |RequestsUpTo(n)| ==> RequestsUpTo(n)[j] == j
  {
    if n > 0 {
      RequestsAreConsecutive(n - 1);
      var m := n - 1;
      if m % 5 == 0 {
        assert (m + 4) / 5 == m / 5;
        assert (n + 4) / 5 == m / 5 + 1;
      } else {
        assert (n + 4) / 5 == (m + 4) / 5;
      }
    }
  }
}
