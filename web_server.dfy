/**
 * The web viewer's server side: serialising the map, frames and agents into
 * the JSON-shaped messages sent to the browser, and answering frame requests.
 */
module WebServer {
  import opened Common
  import opened OrderedTable
  import opened LaneletMap
  import opened Viewports
  import opened TrackLoader

  datatype Rgb = Rgb(r: int, g: int, b: int)

  /** The ten-colour agent palette. */
  const AgentColors: seq<Rgb> := [
    Rgb(161, 201, 244), Rgb(255, 180, 130), Rgb(141, 229, 161), Rgb(255, 159, 155), Rgb(208, 187, 255),
    Rgb(222, 187, 155), Rgb(250, 176, 228), Rgb(207, 207, 207), Rgb(255, 254, 163), Rgb(185, 242, 240)]

  datatype AgentPayload = AgentPayload(trackId: int, position: Point, extent: Extent, yaw: real, color: Rgb)

  datatype WayPayload = WayPayload(points: seq<Point>, kind: string)

  datatype Payload =
    | MapPayload(triangulatedLanes: seq<seq<Triangle>>, ways: seq<WayPayload>)
    | FramePayload(agents: seq<AgentPayload>)

  /** A JSON message `{action, payload}`. */
  datatype Message = Message(action: string, payload: Payload)

  /**
   * `AGENT_COLORS[hash(track_id) % len(AGENT_COLORS)]`. Python's `%` by a
   * positive divisor is never negative, like Dafny's, so the index is always
   * inside the palette.
   */
  function AgentColor(trackId: int, hash: int -> int): (c: Rgb)
    ensures c in AgentColors
    ensures c == AgentColors[hash(trackId) % 10]
  {
    AgentColors[hash(trackId) % |AgentColors|]
  }

  /** `_serialize_car_agent` */
  function SerializeCarAgent(vp: Viewport, agent: Agent, hash: int -> int): (p: AgentPayload)
    requires HalfSpan(vp) != 0.0
    ensures p.trackId == agent.trackId && p.extent == agent.extent && p.yaw == agent.yaw
    ensures p.position == ProjectAll(vp, [agent.position])[0]
    ensures p.color == AgentColor(agent.trackId, hash) && p.color in AgentColors
  {
    AgentPayload(agent.trackId, ProjectPoint(vp, agent.position), agent.extent, agent.yaw, AgentColor(agent.trackId, hash))
  }

  /** Agents of one track get the same colour in every frame, wherever they stand. */
  lemma TrackKeepsColor(vp1: Viewport, vp2: Viewport, a1: Agent, a2: Agent, hash: int -> int)
    requires HalfSpan(vp1) != 0.0 && HalfSpan(vp2) != 0.0
    requires a1.trackId == a2.trackId
    ensures SerializeCarAgent(vp1, a1, hash).color == SerializeCarAgent(vp2, a2, hash).color
  {
  }

  /** The car-kind agents, in frame order. */
  function CarAgents(agents: seq<Agent>, isCar: Agent -> bool): seq<Agent>
  {
    if agents == [] then []
    else if isCar(agents[0]) then [agents[0]] + CarAgents(agents[1..], isCar)
    else CarAgents(agents[1..], isCar)
  }

  /** The comprehension of `_serialize_frame`: serialise each agent that is a car. */
  function SerializeAgents(vp: Viewport, agents: seq<Agent>, isCar: Agent -> bool, hash: int -> int): (r: seq<AgentPayload>)
    requires HalfSpan(vp) != 0.0
    ensures |r| == |CarAgents(agents, isCar)|
    ensures forall i :: 0 <= i < |r| ==> r[i] == SerializeCarAgent(vp, CarAgents(agents, isCar)[i], hash)
  {
    if agents == [] then []
    else
      var rest := SerializeAgents(vp, agents[1..], isCar, hash);
      if isCar(agents[0]) then [SerializeCarAgent(vp, agents[0], hash)] + rest else rest
  }

  /** `_serialize_frame` */
  function SerializeFrame(vp: Viewport, frame: Frame, isCar: Agent -> bool, hash: int -> int): (p: Payload)
    requires HalfSpan(vp) != 0.0
    ensures p.FramePayload?
    ensures p.agents == SerializeAgents(vp, frame.agents, isCar, hash)
  {
    FramePayload(SerializeAgents(vp, frame.agents, isCar, hash))
  }

  /** An agent is serialised exactly when it is in the frame and is a car; order is kept. */
  lemma {:induction false} CarAgentsFilter(a: seq<Agent>, b: seq<Agent>, isCar: Agent -> bool, x: Agent)
    ensures x in CarAgents(a, isCar) <==> x in a && isCar(x)
    ensures CarAgents(a + b, isCar) == CarAgents(a, isCar) + CarAgents(b, isCar)
  {
    if a != [] {
      CarAgentsFilter(a[1..], b, isCar, x);
      assert (a + b)[1..] == a[1..] + b;
      assert a == [a[0]] + a[1..];
    } else {
      assert a + b == b;
    }
  }

  /** `_serialize_ways`: one entry per way, its nodes projected in order, its kind's name. */
  function SerializeWays(vp: Viewport, m: Map): seq<WayPayload>
    requires Valid(m.ways) && HalfSpan(vp) != 0.0
  {
    var ways := Values(m.ways);
    seq(|ways|, i requires 0 <= i < |ways| =>
      WayPayload(ProjectAll(vp, Positions(ways[i].nodes)), KindName(ways[i].kind)))
  }

  /** One entry per way, in table order: the way's nodes projected in order, and its kind's name. */
  lemma SerializeWaysShape(vp: Viewport, m: Map, i: nat)
    requires Valid(m.ways) && HalfSpan(vp) != 0.0
    ensures |SerializeWays(vp, m)| == |m.ways.keys|
    ensures i < |m.ways.keys| ==>
      var w := m.ways.entries[m.ways.keys[i]];
      var r := SerializeWays(vp, m)[i];
      && |r.points| == |w.nodes|
      && (forall j :: 0 <= j < |w.nodes| ==> r.points[j] == ProjectPoint(vp, w.nodes[j].position))
      && r.kind == KindName(w.kind)
  {
  }

  /** Each triangle of a lane, projected. */
  function ProjectTriangles(vp: Viewport, ts: seq<Triangle>): (r: seq<Triangle>)
    requires HalfSpan(vp) != 0.0
    ensures |r| == |ts|
    ensures forall i :: 0 <= i < |ts| ==> |r[i]| == |ts[i]|
    ensures forall i, j :: 0 <= i < |ts| && 0 <= j < |ts[i]| ==> r[i][j] == ProjectPoint(vp, ts[i][j])
  {
    seq(|ts|, i requires 0 <= i < |ts| => ProjectAll(vp, ts[i]))
  }

  /** The `triangulated_lanes` payload: per lane, in the lane table's order, its projected triangles. */
  function TriangulatedLanes(vp: Viewport, m: Map, delaunay: seq<Point> -> seq<Simplex>): (r: seq<seq<Triangle>>)
    requires Valid(m.lanes) && HalfSpan(vp) != 0.0
    requires forall ps :: ValidSimplices(delaunay(ps), |ps|)
    ensures |r| == |m.lanes.keys|
  {
    LaneEntries(vp, Values(m.lanes), delaunay)
  }

  function LaneEntries(vp: Viewport, lanes: seq<Lane>, delaunay: seq<Point> -> seq<Simplex>): (r: seq<seq<Triangle>>)
    requires HalfSpan(vp) != 0.0
    requires forall ps :: ValidSimplices(delaunay(ps), |ps|)
    ensures |r| == |lanes|
    ensures forall i :: 0 <= i < |lanes| ==> r[i] == LaneEntry(vp, lanes[i], delaunay)
  {
    seq(|lanes|, i requires 0 <= i < |lanes| => LaneEntry(vp, lanes[i], delaunay))
  }

  /** One lane's entry: its `to_triangles`, each triangle projected. */
  function LaneEntry(vp: Viewport, lane: Lane, delaunay: seq<Point> -> seq<Simplex>): seq<Triangle>
    requires HalfSpan(vp) != 0.0
    requires forall ps :: ValidSimplices(delaunay(ps), |ps|)
  {
    var ps := LanePoints(lane);
    ProjectTriangles(vp, TrianglesOf(ps, |lane.leftWay.nodes|, delaunay(ps)))
  }

  /** The `map_data` message. */
  function MapMessage(vp: Viewport, m: Map, delaunay: seq<Point> -> seq<Simplex>): Message
    requires Valid(m.lanes) && Valid(m.ways) && HalfSpan(vp) != 0.0
    requires forall ps :: ValidSimplices(delaunay(ps), |ps|)
  {
    Message("map_data", MapPayload(TriangulatedLanes(vp, m, delaunay), SerializeWays(vp, m)))
  }

  /**
   * One entry per lane; each entry has one element per triangle of that lane's
   * `to_triangles`, and every element is three projected points.
   */
  lemma TriangulatedLanesShape(vp: Viewport, m: Map, delaunay: seq<Point> -> seq<Simplex>, i: nat)
    requires Valid(m.lanes) && HalfSpan(vp) != 0.0
    requires forall ps :: ValidSimplices(delaunay(ps), |ps|)
    requires i < |m.lanes.keys|
    ensures
      var lane := m.lanes.entries[m.lanes.keys[i]];
      var ps := LanePoints(lane);
      var ts := TrianglesOf(ps, |lane.leftWay.nodes|, delaunay(ps));
      var entry := TriangulatedLanes(vp, m, delaunay)[i];
      && |entry| == |ts|
      && forall j :: 0 <= j < |entry| ==>
           |entry[j]| == 3 && forall c :: 0 <= c < 3 ==> entry[j][c] == ProjectPoint(vp, ts[j][c])
  {
    var lane := m.lanes.entries[m.lanes.keys[i]];
    var ps := LanePoints(lane);
    TrianglesSpanCorridor(ps, |lane.leftWay.nodes|, delaunay(ps));
  }

  /** The inner loop of `_serialize_map`: project each triangle of one lane. */
  method ProjectLaneTriangles(vp: Viewport, triangles: seq<Triangle>) returns (laneTriangles: seq<Triangle>)
    requires HalfSpan(vp) != 0.0
    ensures |laneTriangles| == |triangles|
    ensures forall j :: 0 <= j < |triangles| ==> laneTriangles[j] == ProjectAll(vp, triangles[j])
    ensures laneTriangles == ProjectTriangles(vp, triangles)
  {
    laneTriangles := [];
    var j := 0;
    while j < |triangles|
      invariant 0 <= j <= |triangles|
      invariant |laneTriangles| == j
      invariant forall k :: 0 <= k < j ==> laneTriangles[k] == ProjectAll(vp, triangles[k])
    {
      var projected := Project(vp, triangles[j]);
      laneTriangles := laneTriangles + [projected];
      j := j + 1;
    }
  }

  /** One pass of the outer loop of `_serialize_map`: a lane's triangles, each projected. */
  method TriangulateLane(vp: Viewport, lane: Lane, delaunay: seq<Point> -> seq<Simplex>)
    returns (laneTriangles: seq<Triangle>)
    requires HalfSpan(vp) != 0.0
    requires forall ps :: ValidSimplices(delaunay(ps), |ps|)
    ensures laneTriangles == LaneEntry(vp, lane, delaunay)
  {
    var triangles := ToTriangles(lane, delaunay);
    laneTriangles := ProjectLaneTriangles(vp, triangles);
  }

  /** The outer loop of `_serialize_map`: triangulate each lane and project its triangles. */
  method TriangulateLanes(vp: Viewport, lanes: seq<Lane>, delaunay: seq<Point> -> seq<Simplex>)
    returns (triangulatedLanes: seq<seq<Triangle>>)
    requires HalfSpan(vp) != 0.0
    requires forall ps :: ValidSimplices(delaunay(ps), |ps|)
    ensures triangulatedLanes == LaneEntries(vp, lanes, delaunay)
  {
    triangulatedLanes := [];
    var i := 0;
    while i < |lanes|
      invariant 0 <= i <= |lanes|
      invariant |triangulatedLanes| == i
      invariant forall k :: 0 <= k < i ==> triangulatedLanes[k] == LaneEntry(vp, lanes[k], delaunay)
    {
      triangulatedLanes := AppendLane(vp, lanes, i, triangulatedLanes, delaunay);
      i := i + 1;
    }
  }

  /** One pass of the outer loop of `_serialize_map`: the triangles of lane `i` go last. */
  method AppendLane(vp: Viewport, lanes: seq<Lane>, i: nat, done: seq<seq<Triangle>>, delaunay: seq<Point> -> seq<Simplex>)
    returns (triangulatedLanes: seq<seq<Triangle>>)
    requires HalfSpan(vp) != 0.0
    requires forall ps :: ValidSimplices(delaunay(ps), |ps|)
    requires i < |lanes| && |done| == i
    requires forall k :: 0 <= k < i ==> done[k] == LaneEntry(vp, lanes[k], delaunay)
    ensures |triangulatedLanes| == i + 1
    ensures forall k :: 0 <= k < i + 1 ==> triangulatedLanes[k] == LaneEntry(vp, lanes[k], delaunay)
  {
    var laneTriangles := TriangulateLane(vp, lanes[i], delaunay);
    triangulatedLanes := done + [laneTriangles];
  }

  /** `_serialize_map`: the nested loops over lanes and their triangles, then the ways. */
  method SerializeMap(vp: Viewport, m: Map, delaunay: seq<Point> -> seq<Simplex>) returns (msg: Message)
    requires Valid(m.lanes) && Valid(m.ways) && HalfSpan(vp) != 0.0
    requires forall ps :: ValidSimplices(delaunay(ps), |ps|)
    ensures msg.action == "map_data"
    ensures msg == MapMessage(vp, m, delaunay)
  {
    var triangulatedLanes := TriangulateLanes(vp, Values(m.lanes), delaunay);
    msg := Message("map_data", MapPayload(triangulatedLanes, SerializeWays(vp, m)));
  }

  /** A decoded client request: its `action` and `index` keys, when present. */
  datatype Request = Request(action: Option<string>, index: Option<int>)

  /** The exceptions that end a connection's handler. */
  datatype ServerError = NoTracks | MissingIndex | FrameIndexOutOfRange(index: int)

  /** The dispatch rule: only `request_frame` is answered, with the requested frame serialised. */
  function Reply(vp: Viewport, tracks: Option<Tracks>, req: Request, isCar: Agent -> bool, hash: int -> int)
    : (r: Result<Option<Message>, ServerError>)
    requires HalfSpan(vp) != 0.0
    ensures req.action != Some("request_frame") ==> r == Ok(None)
    ensures r.Ok? && r.value.Some? ==>
      && req.action == Some("request_frame") && req.index.Some? && tracks.Some?
      && tracks.value.Get(req.index.value).Some?
      && r.value.value == Message("frame", SerializeFrame(vp, tracks.value.Get(req.index.value).value, isCar, hash))
    ensures req.action == Some("request_frame") ==> r.Err? || r.value.Some?
    ensures req.action == Some("request_frame") && req.index.None? ==> r == Err(MissingIndex)
    ensures req.action == Some("request_frame") && req.index.Some? && tracks.None? ==> r == Err(NoTracks)
    ensures req.action == Some("request_frame") && req.index.Some? && tracks.Some? && tracks.value.Get(req.index.value).None? ==>
      r == Err(FrameIndexOutOfRange(req.index.value))
    ensures req.action == Some("request_frame") && req.index.Some? && tracks.Some? && tracks.value.Get(req.index.value).Some? ==>
      r == Ok(Some(Message("frame", SerializeFrame(vp, tracks.value.Get(req.index.value).value, isCar, hash))))
  {
    if req.action == Some("request_frame") then
      if req.index.None? then Err(MissingIndex)
      else if tracks.None? then Err(NoTracks)
      else
        match tracks.value.Get(req.index.value)
        case None => Err(FrameIndexOutOfRange(req.index.value))
        case Some(frame) => Ok(Some(Message("frame", SerializeFrame(vp, frame, isCar, hash))))
    else Ok(None)
  }

  /** The messages sent in answer to a run of requests; the first failing request ends the handler. */
  function Replies(vp: Viewport, tracks: Option<Tracks>, reqs: seq<Request>, isCar: Agent -> bool, hash: int -> int)
    : seq<Message>
    requires HalfSpan(vp) != 0.0
  {
    if reqs == [] then []
    else
      match Reply(vp, tracks, reqs[0], isCar, hash)
      case Err(_) => []
      case Ok(None) => Replies(vp, tracks, reqs[1..], isCar, hash)
      case Ok(Some(msg)) => [msg] + Replies(vp, tracks, reqs[1..], isCar, hash)
  }

  function CountFrameRequests(reqs: seq<Request>): nat
  {
    if reqs == [] then 0
    else (if reqs[0].action == Some("request_frame") then 1 else 0) + CountFrameRequests(reqs[1..])
  }

  /**
   * Every reply is a `frame` message, and when no request fails there is
   * exactly one reply per `request_frame` request.
   */
  lemma {:induction false} RepliesAnswerFrameRequests(vp: Viewport, tracks: Option<Tracks>, reqs: seq<Request>,
                                                      isCar: Agent -> bool, hash: int -> int)
    requires HalfSpan(vp) != 0.0
    ensures forall msg :: msg in Replies(vp, tracks, reqs, isCar, hash) ==> msg.action == "frame" && msg.payload.FramePayload?
    ensures |Replies(vp, tracks, reqs, isCar, hash)| <= CountFrameRequests(reqs)
    ensures (forall i :: 0 <= i < |reqs| ==> Reply(vp, tracks, reqs[i], isCar, hash).Ok?) ==>
      |Replies(vp, tracks, reqs, isCar, hash)| == CountFrameRequests(reqs)
  {
    if reqs != [] {
      RepliesAnswerFrameRequests(vp, tracks, reqs[1..], isCar, hash);
      assert forall i :: 0 <= i < |reqs[1..]| ==> reqs[1..][i] == reqs[i + 1];
    }
  }

  /** The request loop of `_socket_server`: answer each request in turn until one fails. */
  method AnswerRequests(vp: Viewport, tracks: Option<Tracks>, requests: seq<Request>, isCar: Agent -> bool, hash: int -> int)
    returns (replies: seq<Message>)
    requires HalfSpan(vp) != 0.0
    ensures replies == Replies(vp, tracks, requests, isCar, hash)
  {
    replies := [];
    var i := 0;
    while i < |requests|
      invariant 0 <= i <= |requests|
      invariant replies + Replies(vp, tracks, requests[i..], isCar, hash) == Replies(vp, tracks, requests, isCar, hash)
    {
      var request := requests[i];
      assert requests[i..] == [request] + requests[i + 1..];
      if request.action == Some("request_frame") {
        if request.index.None? || tracks.None? {
          break;
        }
        var idx := request.index.value;
        var frame := tracks.value.Get(idx);
        if frame.None? {
          break;
        }
        var response := Message("frame", SerializeFrame(vp, frame.value, isCar, hash));
        replies := replies + [response];
      }
      i := i + 1;
    }
    assert i == |requests| ==> requests[i..] == [];
  }

  /** `_socket_server`: send the map once, then the replies to the requests. */
  method SocketServer(vp: Viewport, m: Map, tracks: Option<Tracks>, requests: seq<Request>,
                      delaunay: seq<Point> -> seq<Simplex>, isCar: Agent -> bool, hash: int -> int)
    returns (sent: seq<Message>)
    requires Valid(m.lanes) && Valid(m.ways) && HalfSpan(vp) != 0.0
    requires forall ps :: ValidSimplices(delaunay(ps), |ps|)
    ensures |sent| >= 1
    ensures sent[0] == MapMessage(vp, m, delaunay)
    ensures sent[1..] == Replies(vp, tracks, requests, isCar, hash)
  {
    var mapData := SerializeMap(vp, m, delaunay);
    var replies := AnswerRequests(vp, tracks, requests, isCar, hash);
    sent := [mapData] + replies;
  }
}
