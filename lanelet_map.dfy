/**
 * The lanelet map data model (nodes, ways, lanes) and the lane triangle filter
 * that keeps the Delaunay triangles spanning a lane's corridor.
 */
module LaneletMap {
  import opened Common
  import opened OrderedTable

  /** The closed set of boundary kinds a way can have. */
  datatype WayKind =
    | SolidLine | ThickLine | DashedLine | GuardRail | CurbStone
    | Virtual | PedestrianMarking | TrafficSign | StopLine | RoadBorder

  /** The enumeration value the source assigns to each kind. */
  function KindValue(k: WayKind): (v: int)
    ensures 1 <= v <= 10
  {
    match k
    case SolidLine => 1
    case ThickLine => 2
    case DashedLine => 3
    case GuardRail => 4
    case CurbStone => 5
    case Virtual => 6
    case PedestrianMarking => 7
    case TrafficSign => 8
    case StopLine => 9
    case RoadBorder => 10
  }

  /** The kind's `name`, which the web payload carries as a string. */
  function KindName(k: WayKind): string
  {
    match k
    case SolidLine => "SolidLine"
    case ThickLine => "ThickLine"
    case DashedLine => "DashedLine"
    case GuardRail => "GuardRail"
    case CurbStone => "CurbStone"
    case Virtual => "Virtual"
    case PedestrianMarking => "PedestrianMarking"
    case TrafficSign => "TrafficSign"
    case StopLine => "StopLine"
    case RoadBorder => "RoadBorder"
  }

  const AllWayKinds: seq<WayKind> :=
    [SolidLine, ThickLine, DashedLine, GuardRail, CurbStone,
     Virtual, PedestrianMarking, TrafficSign, StopLine, RoadBorder]

  /** There are exactly ten kinds, with distinct values and distinct names. */
  lemma WayKindsAreTen()
    ensures |AllWayKinds| == 10
    ensures forall k: WayKind :: k in AllWayKinds
    ensures forall i :: 0 <= i < 10 ==> KindValue(AllWayKinds[i]) == i + 1
    ensures forall k1: WayKind, k2: WayKind :: k1 != k2 ==> KindValue(k1) != KindValue(k2)
    ensures forall k1: WayKind, k2: WayKind :: k1 != k2 ==> KindName(k1) != KindName(k2)
  {
    forall k: WayKind ensures k in AllWayKinds {
      assert AllWayKinds[KindValue(k) - 1] == k;
    }
  }

  datatype Node = Node(osmId: string, position: Point)

  /** A polyline through its nodes, in order, with a boundary kind. */
  datatype Way = Way(osmId: string, nodes: seq<Node>, kind: WayKind)

  /** A lanelet: the corridor between a left and a right boundary way. */
  datatype Lane = Lane(osmId: string, leftWay: Way, rightWay: Way)

  datatype Map = Map(ways: Table<Way>, nodes: Table<Node>, lanes: Table<Lane>)

  /** One Delaunay simplex: three indices into the triangulated point list. */
  datatype Simplex = Simplex(a: nat, b: nat, c: nat)

  /** A triangle as the source returns it: a list of (three) points. */
  type Triangle = seq<Point>

  /** `[n.position for n in nodes]` */
  function Positions(ns: seq<Node>): (ps: seq<Point>)
    ensures |ps| == |ns|
    ensures forall i :: 0 <= i < |ns| ==> ps[i] == ns[i].position
  {
    seq(|ns|, i requires 0 <= i < |ns| => ns[i].position)
  }

  /** `left_ps + right_ps`: the left boundary's points first, then the right's. */
  function LanePoints(lane: Lane): (ps: seq<Point>)
    ensures |ps| == |lane.leftWay.nodes| + |lane.rightWay.nodes|
    ensures forall i :: 0 <= i < |lane.leftWay.nodes| ==> ps[i] == lane.leftWay.nodes[i].position
    ensures forall i :: 0 <= i < |lane.rightWay.nodes| ==>
      ps[|lane.leftWay.nodes| + i] == lane.rightWay.nodes[i].position
  {
    Positions(lane.leftWay.nodes) + Positions(lane.rightWay.nodes)
  }

  /** How many of the simplex's vertices lie on the left boundary (index below nLeft). */
  function LeftCount(s: Simplex, nLeft: nat): (n: nat)
    ensures n <= 3
    ensures n == 0 <==> (s.a >= nLeft && s.b >= nLeft && s.c >= nLeft)
    ensures n == 3 <==> (s.a < nLeft && s.b < nLeft && s.c < nLeft)
  {
    (if s.a < nLeft then 1 else 0) + (if s.b < nLeft then 1 else 0) + (if s.c < nLeft then 1 else 0)
  }

  /** A simplex is kept when it has one or two left vertices, i.e. it joins the two boundaries. */
  predicate Spans(s: Simplex, nLeft: nat)
  {
    LeftCount(s, nLeft) == 1 || LeftCount(s, nLeft) == 2
  }

  /** What the triangulation promises: every index refers to a point. */
  predicate ValidSimplices(ss: seq<Simplex>, n: nat)
  {
    forall i :: 0 <= i < |ss| ==> ss[i].a < n && ss[i].b < n && ss[i].c < n
  }

  /** The simplices that pass the filter, in their original order. */
  function Kept(ss: seq<Simplex>, nLeft: nat): seq<Simplex>
  {
    if ss == [] then []
    else
      var prev := Kept(ss[..|ss| - 1], nLeft);
      if Spans(ss[|ss| - 1], nLeft) then prev + [ss[|ss| - 1]] else prev
  }

  /** `[ps[idx] for idx in simplex]` */
  function Corners(ps: seq<Point>, s: Simplex): (t: Triangle)
    requires s.a < |ps| && s.b < |ps| && s.c < |ps|
    ensures |t| == 3
  {
    [ps[s.a], ps[s.b], ps[s.c]]
  }

  /** The specification of `to_triangles`: the corners of the kept simplices. */
  function TrianglesOf(ps: seq<Point>, nLeft: nat, ss: seq<Simplex>): seq<Triangle>
    requires ValidSimplices(ss, |ps|)
  {
    var k := Kept(ss, nLeft);
    KeptAreSimplices(ss, nLeft, |ps|);
    seq(|k|, i requires 0 <= i < |k| => Corners(ps, k[i]))
  }

  /** One more simplex adds its corners exactly when it spans the corridor. */
  lemma TrianglesOfStep(ps: seq<Point>, nLeft: nat, ss: seq<Simplex>, i: nat)
    requires ValidSimplices(ss, |ps|) && i < |ss|
    ensures ValidSimplices(ss[..i], |ps|) && ValidSimplices(ss[..i + 1], |ps|)
    ensures TrianglesOf(ps, nLeft, ss[..i + 1])
      == TrianglesOf(ps, nLeft, ss[..i]) + (if Spans(ss[i], nLeft) then [Corners(ps, ss[i])] else [])
  {
    assert ss[..i + 1][..i] == ss[..i];
    assert ss[..i + 1][i] == ss[i];
  }

  /** Filtering distributes over concatenation: the result is an order-preserving subsequence. */
  lemma {:induction false} KeptAppend(a: seq<Simplex>, b: seq<Simplex>, nLeft: nat)
    ensures Kept(a + b, nLeft) == Kept(a, nLeft) + Kept(b, nLeft)
    decreases |b|
  {
    if b == [] {
      assert a + b == a;
    } else {
      var b' := b[..|b| - 1];
      assert (a + b)[..|a + b| - 1] == a + b';
      KeptAppend(a, b', nLeft);
    }
  }

  /** A simplex survives exactly when it occurs in the input and spans the corridor. */
  lemma {:induction false} KeptMembership(ss: seq<Simplex>, nLeft: nat, s: Simplex)
    ensures s in Kept(ss, nLeft) <==> s in ss && Spans(s, nLeft)
    ensures |Kept(ss, nLeft)| <= |ss|
  {
    if ss != [] {
      var prev := ss[..|ss| - 1];
      KeptMembership(prev, nLeft, s);
      assert ss == prev + [ss[|ss| - 1]];
    }
  }

  /** The kept simplices still index the point list. */
  lemma KeptAreSimplices(ss: seq<Simplex>, nLeft: nat, n: nat)
    requires ValidSimplices(ss, n)
    ensures ValidSimplices(Kept(ss, nLeft), n)
  {
    var k := Kept(ss, nLeft);
    forall i | 0 <= i < |k| ensures k[i].a < n && k[i].b < n && k[i].c < n {
      KeptMembership(ss, nLeft, k[i]);
      var j :| 0 <= j < |ss| && ss[j] == k[i];
    }
  }

  /**
   * Every triangle of the result is three points of the combined list whose
   * simplex has one or two left vertices; there are at most as many triangles
   * as simplices.
   */
  lemma TrianglesSpanCorridor(ps: seq<Point>, nLeft: nat, ss: seq<Simplex>)
    requires ValidSimplices(ss, |ps|)
    ensures |TrianglesOf(ps, nLeft, ss)| <= |ss|
    ensures forall i :: 0 <= i < |TrianglesOf(ps, nLeft, ss)| ==>
      var t := TrianglesOf(ps, nLeft, ss)[i];
      |t| == 3 && exists s :: s in ss && Spans(s, nLeft) && s.a < |ps| && s.b < |ps| && s.c < |ps| && t == Corners(ps, s)
  {
    var k := Kept(ss, nLeft);
    var r := TrianglesOf(ps, nLeft, ss);
    KeptMembership(ss, nLeft, Simplex(0, 0, 0));
    KeptAreSimplices(ss, nLeft, |ps|);
    forall i | 0 <= i < |r|
      ensures |r[i]| == 3
      ensures exists s :: s in ss && Spans(s, nLeft) && s.a < |ps| && s.b < |ps| && s.c < |ps| && r[i] == Corners(ps, s)
    {
      var s := k[i];
      KeptMembership(ss, nLeft, s);
      assert r[i] == Corners(ps, s);
      assert s in ss && Spans(s, nLeft) && s.a < |ps| && s.b < |ps| && s.c < |ps|;
    }
  }

  /**
   * When a boundary is empty, every simplex has all its vertices on one side,
   * so nothing is kept.
   */
  lemma {:induction false} EmptyBoundaryGivesNoTriangles(ps: seq<Point>, nLeft: nat, ss: seq<Simplex>)
    requires ValidSimplices(ss, |ps|)
    requires nLeft == 0 || nLeft == |ps|
    ensures TrianglesOf(ps, nLeft, ss) == []
  {
    if ss != [] {
      var prev := ss[..|ss| - 1];
      assert ValidSimplices(prev, |ps|) by {
        forall i | 0 <= i < |prev| ensures prev[i] == ss[i] { }
      }
      EmptyBoundaryGivesNoTriangles(ps, nLeft, prev);
      assert Kept(prev, nLeft) == [];
      assert !Spans(ss[|ss| - 1], nLeft);
    }
  }

  /**
   * `Lane.to_triangles`: triangulate the combined boundary points and keep
   * the simplices with one or two left vertices, in order.
   */
  method ToTriangles(lane: Lane, delaunay: seq<Point> -> seq<Simplex>) returns (result: seq<Triangle>)
    requires forall ps :: ValidSimplices(delaunay(ps), |ps|)
    ensures result == TrianglesOf(LanePoints(lane), |lane.leftWay.nodes|, delaunay(LanePoints(lane)))
  {
    var leftPs := Positions(lane.leftWay.nodes);
    var rightPs := Positions(lane.rightWay.nodes);
    var ps := leftPs + rightPs;
    var simplices := delaunay(ps);
    result := KeepSpanning(ps, |leftPs|, simplices);
  }

  /** The loop of `to_triangles` over the simplices of the combined point list. */
  method KeepSpanning(ps: seq<Point>, nLeft: nat, simplices: seq<Simplex>) returns (result: seq<Triangle>)
    requires ValidSimplices(simplices, |ps|)
    ensures result == TrianglesOf(ps, nLeft, simplices)
  {
    result := [];
    var i := 0;
    while i < |simplices|
      invariant 0 <= i <= |simplices|
      invariant ValidSimplices(simplices[..i], |ps|)
      invariant result == TrianglesOf(ps, nLeft, simplices[..i])
    {
      var s := simplices[i];
      var numLeftPoints := (if s.a < nLeft then 1 else 0) + (if s.b < nLeft then 1 else 0)
                           + (if s.c < nLeft then 1 else 0);
      TrianglesOfStep(ps, nLeft, simplices, i);
      if numLeftPoints == 1 || numLeftPoints == 2 {
        result := result + [[ps[s.a], ps[s.b], ps[s.c]]];
      }
      i := i + 1;
    }
    assert simplices[..i] == simplices;
  }
}
