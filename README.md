# interactionviz in Dafny

A model of the map-to-screen path of interactionviz. The tool shows lanelet maps and recorded vehicle tracks from the INTERACTION dataset in a browser. The model covers six parts:

- **Lanelet map** (`LaneletMap`, `lanelet_map.dfy`): the `WayKind` enumeration; the node, way, lane and map records; and `Lane.to_triangles`. The triangle filter keeps the Delaunay simplices that have one or two corners on the left boundary.
- **OSM-XML loader** (`XmlLoader`, `xml_loader.dfy`): `load_map_xml` as one pass over already parsed top-level elements. It fills three insertion-ordered tables (`OrderedTable`, the Python dict) and classifies way kinds through the `(type, subtype)` table. It aborts on an unknown kind or an unresolved node or way reference.
- **Viewport** (`Viewports`, `viewports.dfy`):
  - the running min/max bounds scan of `viewport_for_map` and `viewport_for_map_no_scaling`;
  - the affine projection `Viewport.project`, over real coordinates.
- **Track loader** (`TrackLoader`, `track_loader.dfy`): `_load_tracks_csv` on already parsed rows. It groups agents by frame id, then emits the frames in ascending frame-id order. `Tracks` gives the list's length and indexing.
- **Web server** (`WebServer`, `web_server.dfy`):
  - the serialisers for the map, ways, frames and car agents;
  - the dispatch rule of the socket handler, which answers `request_frame` with the serialised frame.
- **Browser client** (`WebClient`, `web_client.dfy`):
  - the vertex and face bookkeeping of `drawTriangles2D` and `renderPolyLine`;
  - the kind-to-style table of `renderMap`;
  - the `visible_obstacles` reconciliation of `renderFrame`, as a `Client` class that owns one `Obstacle` object per visible track;
  - the frame-request counter of `animate`.

Foreign calls are parameters:

| foreign call | parameter | what the model assumes |
|---|---|---|
| scipy's `Delaunay` | `delaunay: seq<Point> -> seq<Simplex>` | every index it returns is below the number of points |
| Python's `hash` | `hash: int -> int` | nothing |
| the agent-kind test of `_serialize_frame` | `isCar: Agent -> bool` | nothing |
| THREE.js `Vector3.normalize` | `normalise: Point -> Point` | nothing, except that one lemma assumes it is odd |

Loops in the source are methods with loop invariants. Most methods are proved equal to a specification function, and the lemmas state the properties of those functions; `Viewports.ScanBounds` is instead proved to return the tightest bounding box, which `Viewports.BoundingBoxUnique` shows is unique. The source mutates dicts that map ids to entries; these become `OrderedTable.Table` values, reassigned in place by the loops. The obstacle table of the page is a `map` field of the `Client` class. Its methods state which tracks are visible afterwards and which obstacle each one has; `Client.RenderFrame` does not state the new insertion order, nor the pose of obstacles it removes (see "## Left out").

## Model

| member | source | states |
|---|---|---|
| OrderedTable.Empty | interactionviz/maps/xml_loader.py:14-16 | a fresh dict is a valid table with no keys and no entries |
| OrderedTable.Insert | interactionviz/maps/xml_loader.py:42-50 | `d[k] = v`: the entries become `entries[k := v]`; a new key goes last in the iteration order, and an existing key keeps its position |
| OrderedTable.Values | interactionviz/viewers/web.py:143 | `d.values()` has one value per key, in iteration order, each being that key's entry |
| OrderedTable.InsertOverwrites | interactionviz/maps/xml_loader.py:91 | after `d[k] = v`, key k holds v; every other key is present exactly when it was before, with the same value |
| OrderedTable.InsertKeepsOrder | interactionviz/maps/xml_loader.py:34-38 | an insertion never removes a key and never moves an existing key |
| LaneletMap.KindValue | interactionviz/maps/map.py:9-19 | each way kind has its enumeration value, between 1 and 10 |
| LaneletMap.WayKindsAreTen | interactionviz/maps/map.py:9-19 | there are exactly ten kinds; the i-th has value i+1; values and names are distinct for distinct kinds |
| LaneletMap.Positions | interactionviz/maps/map.py:49-50 | one position per node, in node order |
| LaneletMap.LanePoints | interactionviz/maps/map.py:55 | `left_ps + right_ps`: the left boundary's positions first, in way order, then the right's |
| LaneletMap.LeftCount | interactionviz/maps/map.py:52-61 | the count of simplex corners with index below `len(left_ps)`; it is 0 exactly when all corners are on the right, and 3 exactly when all are on the left |
| LaneletMap.TrianglesOfStep | interactionviz/maps/map.py:60-64 | one more simplex adds its three corners to the result exactly when it has one or two left corners |
| LaneletMap.KeptAppend | interactionviz/maps/map.py:60-64 | the filter distributes over concatenation, so it keeps the simplices' order |
| LaneletMap.KeptMembership | interactionviz/maps/map.py:61-64 | a simplex is kept exactly when it is in the input and has one or two left corners; never more kept than given |
| LaneletMap.KeptAreSimplices | interactionviz/maps/map.py:63 | the kept simplices still index the combined point list |
| LaneletMap.TrianglesSpanCorridor | interactionviz/maps/map.py:58-66 | at most one triangle per simplex; every triangle is the three points `ps[idx]` of an input simplex with one or two left corners |
| LaneletMap.EmptyBoundaryGivesNoTriangles | interactionviz/maps/map.py:52-64 | when the left or the right boundary has no nodes, no triangle is returned |
| LaneletMap.ToTriangles | interactionviz/maps/map.py:41-66 | `to_triangles` returns the corners of the kept simplices of the Delaunay triangulation of `left_ps + right_ps`, in simplex order |
| LaneletMap.KeepSpanning | interactionviz/maps/map.py:58-66 | the loop over the simplices returns exactly the specified triangles |
| XmlLoader.Lookup | interactionviz/maps/xml_loader.py:61-62 | `tags.get(k)` is present exactly when k is a key, and is then its value |
| XmlLoader.ClassifyWay | interactionviz/maps/xml_loader.py:61-89 | a way kind results exactly when `type` is one of the nine recognised types and, for `line_thin`, `subtype` is `dashed`, `solid` or `solid_solid`; otherwise the error names the bad subtype (`line_thin`) or the bad or missing type |
| XmlLoader.ClassifyCanonical | interactionviz/maps/xml_loader.py:64-87 | the table maps each kind's own tags back to that kind, so every kind is loadable |
| XmlLoader.SubtypeOnlyForThinLines | interactionviz/maps/xml_loader.py:71-77 | the subtype affects the result only for `line_thin`; `solid` and `solid_solid` give the same kind |
| XmlLoader.EmptyMap | interactionviz/maps/xml_loader.py:14-16 | the loader starts from three valid empty tables |
| XmlLoader.Step | interactionviz/maps/xml_loader.py:18-91 | handling one element keeps the three tables valid dicts |
| XmlLoader.LoadFrom | interactionviz/maps/xml_loader.py:18-91 | handling the rest of the elements in order keeps the tables valid |
| XmlLoader.Load | interactionviz/maps/xml_loader.py:10-97 | a successful load returns valid tables |
| XmlLoader.ScanWayChildren | interactionviz/maps/xml_loader.py:53-59 | the child loop of a way returns the way's resolved node list and its tag dict, or the error of the first unresolved `nd` |
| XmlLoader.WayNodesErrorSticks | interactionviz/maps/xml_loader.py:58-59 | once an `nd` fails to resolve, the way fails with that error |
| XmlLoader.ScanRelationChildren | interactionviz/maps/xml_loader.py:21-31 | the child loop of a relation returns its tag dict and the refs of its last `left` and last `right` members |
| XmlLoader.LoadFromAppend | interactionviz/maps/xml_loader.py:18 | elements are handled in document order: the second part of a document continues from the tables the first part left, and a failure in the first part aborts |
| XmlLoader.FailingElementAborts | interactionviz/maps/xml_loader.py:77-89 | the first element that raises ends the whole load with its error; no partial map is returned |
| XmlLoader.WayNodesResolved | interactionviz/maps/xml_loader.py:53-59 | a way's nodes resolve exactly when every `nd` ref names a loaded node; they are then those nodes in document order; otherwise the error is an unknown node |
| XmlLoader.DanglingNodeFails | interactionviz/maps/xml_loader.py:59 | an `nd` naming a node not yet loaded fails the way element |
| XmlLoader.NdRefsContains | interactionviz/maps/xml_loader.py:58 | every `nd` child's ref is among the way's refs |
| XmlLoader.LastTagWins | interactionviz/maps/xml_loader.py:24-26 | the last `tag` child with a key gives that key's value |
| XmlLoader.UntaggedKeyAbsent | interactionviz/maps/xml_loader.py:56-57 | a key that no `tag` child names is absent from the tag dict |
| XmlLoader.LastMemberWins | interactionviz/maps/xml_loader.py:28-31 | the last member with a role decides that side's way ref |
| XmlLoader.RelationOutcome | interactionviz/maps/xml_loader.py:33-38 | a relation changes nothing unless tagged `type=lanelet`. A lanelet succeeds exactly when both refs name loaded ways; otherwise it fails with `UnknownWay` of the left ref when that one is missing or not loaded, else of the right ref. On success it stores, under its id, the lane between those two ways, and the node and way tables do not change |
| XmlLoader.NodeOutcome | interactionviz/maps/xml_loader.py:40-50 | a node always loads. It is stored under its id: a repeated id replaces the earlier node in place, a new id goes last. The way and lane tables do not change |
| XmlLoader.WayOutcome | interactionviz/maps/xml_loader.py:51-91 | a way loads exactly when every `nd` ref names a loaded node and its type and subtype classify. An unknown node fails first, else a bad type or subtype fails with the classification's error. On success the way is stored under its id with its `nd` nodes in document order and its kind, and only that key of the way table changes |
| XmlLoader.OtherElementIgnored | interactionviz/maps/xml_loader.py:18-51 | top-level elements other than node, way and relation leave all three tables unchanged |
| XmlLoader.NodeStepWellFormed | interactionviz/maps/xml_loader.py:40-50 | storing a node keeps every reference of the map resolved |
| XmlLoader.WayStepWellFormed | interactionviz/maps/xml_loader.py:91 | storing a way whose nodes are loaded keeps the map well formed |
| XmlLoader.LaneStepWellFormed | interactionviz/maps/xml_loader.py:34-38 | storing a lane between loaded, resolved ways keeps the map well formed |
| XmlLoader.StepPreservesWellFormed | interactionviz/maps/xml_loader.py:18-91 | every element that loads keeps each entry under its own id, each way's nodes loaded, and each lane's ways loaded |
| XmlLoader.LoadIsWellFormed | interactionviz/maps/xml_loader.py:18-91 | well-formedness holds after any run of elements that loads |
| XmlLoader.LoadedMapWellFormed | interactionviz/maps/xml_loader.py:10-97 | every map `load_map_xml` returns has no dangling reference |
| XmlLoader.LoadMapXml | interactionviz/maps/xml_loader.py:10-97 | the loop that fills the dicts in place returns exactly the specified load, error or map |
| Viewports.ProjectAll | interactionviz/viewers/viewport.py:22-37 | one projected point per input point, in order |
| Viewports.Project | interactionviz/viewers/viewport.py:15-39 | `project` returns one point per input, in input order: the point minus the box centre, divided by `max(xr/2, yr/2)`, times `min(h, w)`, plus half the screen |
| Viewports.ProjectCentre | interactionviz/viewers/viewport.py:23-35 | the centre of the bounding box projects to the centre of the screen |
| Viewports.ProjectIsUniformAffine | interactionviz/viewers/viewport.py:23-35 | the difference of two projected points is one shared scale times the difference of the points, on both axes |
| Viewports.ProjectInverse | interactionviz/viewers/viewport.py:23-35 | with a non-zero scale, the projection is invertible: unprojecting recovers the point |
| Viewports.BoundingBoxUnique | interactionviz/viewers/viewport.py:74-83 | the ranges of the bounds scan are determined by the points alone |
| Viewports.ScanBounds | interactionviz/viewers/viewport.py:74-83 | the running min/max scan gives nothing for no points; otherwise `min <= max` on both axes, every point lies inside, and each bound is some point's coordinate |
| Viewports.NodePositions | interactionviz/viewers/viewport.py:74-75 | the position of every node of the table, in insertion order |
| Viewports.ViewportForMap | interactionviz/viewers/viewport.py:69-90 | a viewport exists exactly when the map has nodes; it keeps the given screen size and has the nodes' bounding box |
| Viewports.ViewportForMapNoScaling | interactionviz/viewers/viewport.py:42-66 | the same bounding box, with screen width `max_x - min_x` and screen height `min_y - max_y` |
| Viewports.NoScalingScale | interactionviz/viewers/viewport.py:61-66 | in the unscaled viewport the shared scale is `-(y extent) / max(xr/2, yr/2)`, between -2 and 0, exactly -2 when the y extent is at least the x extent, and zero exactly when the map has no y extent |
| TrackLoader.FrameIds | interactionviz/tracks/tracks.py:43 | one frame id per row, in row order |
| TrackLoader.DistinctProps | interactionviz/tracks/tracks.py:39-45 | the accumulator's keys are the rows' frame ids, each once |
| TrackLoader.InsertSortedMembers | interactionviz/tracks/tracks.py:54 | one insertion step of the sort adds the new key and keeps every other key, once each |
| TrackLoader.PrependIncreasing | interactionviz/tracks/tracks.py:54 | a key below every element of an ascending list can go in front of it |
| TrackLoader.InsertSortedIncreasing | interactionviz/tracks/tracks.py:54 | inserting a new key into an ascending list keeps it strictly ascending |
| TrackLoader.SortAscendingProps | interactionviz/tracks/tracks.py:54 | `sorted` of distinct keys is strictly ascending and a permutation of them |
| TrackLoader.SortedFrameIdsProps | interactionviz/tracks/tracks.py:54 | the emitted keys are exactly the rows' frame ids, strictly ascending |
| TrackLoader.AgentsInAppend | interactionviz/tracks/tracks.py:42-52 | the agents of earlier rows come first within a frame, in row order |
| TrackLoader.AgentsInNonEmpty | interactionviz/tracks/tracks.py:39-45 | a frame id gets agents exactly when some row carries it |
| TrackLoader.GroupShape | interactionviz/tracks/tracks.py:54-55 | one frame per distinct frame id, ascending; each frame holds that id's agents in row order, and none is empty |
| TrackLoader.TotalOfFrames | interactionviz/tracks/tracks.py:55 | the agents of the emitted frames add up to the agents of their keys |
| TrackLoader.CountAtStep | interactionviz/tracks/tracks.py:42-45 | one more row adds one agent to the frame of its id, and none elsewhere |
| TrackLoader.CountAtCoversRows | interactionviz/tracks/tracks.py:42-52 | when every row's id is among the keys, the keys' agents number the rows |
| TrackLoader.ZeroCounts | interactionviz/tracks/tracks.py:39 | before any row, every key has no agents |
| TrackLoader.GroupKeepsEveryRow | interactionviz/tracks/tracks.py:42-55 | every row becomes exactly one agent of one frame: the frames hold as many agents as there are rows |
| TrackLoader.LoadTracksCsv | interactionviz/tracks/tracks.py:38-55 | the load succeeds exactly when every row has `psi_rad`, `length` and `width`. It then returns the grouped frames; otherwise it fails at the first incomplete row |
| TrackLoader.CollectRow | interactionviz/tracks/tracks.py:43-52 | one row's agent, built from its track id, position, extent and yaw, is appended to its frame's list; keys keep first-seen order |
| TrackLoader.CollectStep | interactionviz/tracks/tracks.py:42-52 | after each row, the accumulator equals the grouping of the rows read so far |
| TrackLoader.SortedFrames | interactionviz/tracks/tracks.py:54-55 | the final comprehension over the sorted keys gives exactly the specified frame list |
| TrackLoader.TracksIndexing | interactionviz/tracks/tracks.py:31-35 | `tracks[i]` is the i-th frame; `tracks[i - len]` is the same frame; every index outside `-len..len-1` fails |
| WebServer.AgentColor | interactionviz/viewers/web.py:113 | the colour is `AGENT_COLORS[hash(track_id) % 10]`, always an entry of the palette |
| WebServer.SerializeCarAgent | interactionviz/viewers/web.py:107-114 | the payload keeps the agent's track id, extent and yaw; its position is the agent's projected position; its colour is `AgentColor` of its track id, so it lies in the palette |
| WebServer.TrackKeepsColor | interactionviz/viewers/web.py:107-114 | two agents of the same track are serialised with the same colour, whatever their position, frame or viewport |
| WebServer.SerializeAgents | interactionviz/viewers/web.py:98-100 | one serialised agent per car agent of the frame, in frame order |
| WebServer.SerializeFrame | interactionviz/viewers/web.py:97-104 | the frame payload holds exactly the serialised car agents |
| WebServer.CarAgentsFilter | interactionviz/viewers/web.py:99 | an agent is kept exactly when it is in the frame and is a car; the filter keeps order |
| WebServer.SerializeWaysShape | interactionviz/viewers/web.py:135-144 | one entry per way, in table order; each has one projected point per node, in node order, and the kind's name |
| WebServer.ProjectTriangles | interactionviz/viewers/web.py:123-124 | one triangle per triangle, each corner the projection of the matching corner |
| WebServer.TriangulatedLanes | interactionviz/viewers/web.py:118-125 | one entry per lane of the table |
| WebServer.LaneEntries | interactionviz/viewers/web.py:120-125 | one entry per lane, in order, each the lane's triangulation projected onto the canvas |
| WebServer.TriangulatedLanesShape | interactionviz/viewers/web.py:118-125 | entry i has one element per triangle of lane i's `to_triangles`, and each element is that triangle's three corners, projected |
| WebServer.ProjectLaneTriangles | interactionviz/viewers/web.py:121-124 | the inner loop projects each triangle of the lane, in order |
| WebServer.TriangulateLane | interactionviz/viewers/web.py:121-125 | one pass of the outer loop gives the lane's projected triangles |
| WebServer.TriangulateLanes | interactionviz/viewers/web.py:118-125 | the outer loop gives the specified `triangulated_lanes`, one entry per lane |
| WebServer.AppendLane | interactionviz/viewers/web.py:120-125 | each pass appends the next lane's entry and keeps the earlier ones |
| WebServer.SerializeMap | interactionviz/viewers/web.py:117-133 | the map message has action `map_data` and carries the triangulated lanes and the serialised ways |
| WebServer.Reply | interactionviz/viewers/web.py:86-94 | any other action gets no answer. A `request_frame` with an index, loaded tracks and an index in range is answered with a `frame` message serialising `tracks[index]`; otherwise it fails, with `MissingIndex` when the index is absent, else `NoTracks` when no tracks are loaded, else `FrameIndexOutOfRange(index)` |
| WebServer.RepliesAnswerFrameRequests | interactionviz/viewers/web.py:83-94 | every reply is a frame message; there are at most as many replies as frame requests, and exactly as many when no request fails |
| WebServer.AnswerRequests | interactionviz/viewers/web.py:83-94 | the request loop sends exactly the specified replies and stops at the first failure |
| WebServer.SocketServer | interactionviz/viewers/web.py:79-94 | the handler sends the map message first, then the replies |
| WebClient.Lift | interactionviz/viewers/static/app.js:52-54 | a map point `(x, y)` becomes the vertex `(x, height, y)` |
| WebClient.TrianglesVerticesAt | interactionviz/viewers/static/app.js:47-58 | vertex `3k+j` is corner `2-j` of triangle k, at height 0: corners are pushed in reverse order |
| WebClient.TrianglesVerticesCount | interactionviz/viewers/static/app.js:56-58 | three vertices per triangle |
| WebClient.TrianglesFacesAt | interactionviz/viewers/static/app.js:60 | face k spans vertices `3k`, `3k+1`, `3k+2` |
| WebClient.TrianglesFacesCount | interactionviz/viewers/static/app.js:60 | one face per triangle |
| WebClient.TrianglesMeshIndexed | interactionviz/viewers/static/app.js:46-67 | 3n vertices and n faces for n triangles, and every face indexes an existing vertex |
| WebClient.DrawTriangles2D | interactionviz/viewers/static/app.js:37-71 | the loop builds exactly the specified road mesh, in the road colour |
| WebClient.SegmentCount | interactionviz/viewers/static/app.js:203 | `points.length - 1` segments are drawn, and none for fewer than two points |
| WebClient.PolyLineVerticesCount | interactionviz/viewers/static/app.js:227-230 | four vertices per segment |
| WebClient.PolyLineVerticesAt | interactionviz/viewers/static/app.js:217-230 | vertex `4i+j` is vertex j of segment i |
| WebClient.PolyLineFacesCount | interactionviz/viewers/static/app.js:232-233 | two faces per segment |
| WebClient.PolyLineFacesAt | interactionviz/viewers/static/app.js:232-233 | segment i owns faces `2i` and `2i+1`, over `(4i+2, 4i+1, 4i)` and `(4i+1, 4i+2, 4i+3)` |
| WebClient.PolyLineMeshIndexed | interactionviz/viewers/static/app.js:203-234 | `4(n-1)` vertices and `2(n-1)` faces, and every face indexes an existing vertex |
| WebClient.SegmentIsSymmetric | interactionviz/viewers/static/app.js:207-225 | when the normalisation maps opposite directions to opposite vectors, the two vertices at each segment end (offset along the counter-clockwise and the clockwise perpendicular, which is its negation) lie symmetrically about that end, all at line height |
| WebClient.SegmentQuad | interactionviz/viewers/static/app.js:204-225 | the loop body computes exactly segment i's four vertices |
| WebClient.RenderPolyLine | interactionviz/viewers/static/app.js:191-239 | the loop builds exactly the specified line mesh, in the given colour |
| WebClient.StyleOf | interactionviz/viewers/static/app.js:165-183 | exactly seven kinds are drawn, each with a positive thickness and one of three colours |
| WebClient.UndrawnKinds | interactionviz/viewers/static/app.js:165-183 | of the ten kinds, exactly Virtual, GuardRail and TrafficSign are not drawn |
| WebClient.DrawnWaysMembers | interactionviz/viewers/static/app.js:165-183 | a way is drawn exactly when its kind has a style |
| WebClient.WayMeshesAt | interactionviz/viewers/static/app.js:165-183 | line mesh i belongs to drawn way i, with its kind's thickness and colour |
| WebClient.WayMeshesCount | interactionviz/viewers/static/app.js:165-183 | one line mesh per drawn way |
| WebClient.LaneMeshes | interactionviz/viewers/static/app.js:185-187 | one road mesh per lane, in order, each the lane's triangles drawn in the road colour |
| WebClient.RenderWays | interactionviz/viewers/static/app.js:165-183 | the way loop adds exactly the specified line meshes, in order |
| WebClient.RenderLanes | interactionviz/viewers/static/app.js:185-187 | the lane loop adds one road mesh per lane, in order |
| WebClient.RenderMap | interactionviz/viewers/static/app.js:164-188 | `renderMap` adds the drawn ways' lines, then the roads |
| WebClient.MapMessageDrawable | interactionviz/viewers/static/app.js:47-50 | every triangle the server sends has the three corners the client reads |
| WebClient.IdsUpToMembers | interactionviz/viewers/static/app.js:96-97 | a track id is current exactly when some agent of the frame carries it |
| WebClient.FirstAndLast | interactionviz/viewers/static/app.js:96-121 | an obstacle is built from the first agent of its track and left at the pose of the last |
| WebClient.Obstacle.constructor | interactionviz/viewers/static/app.js:107-119 | a new cube is half the agent's extent, one unit tall, in the agent's colour, at the agent's pose |
| WebClient.Obstacle.MoveTo | interactionviz/viewers/static/app.js:101-105 | an existing obstacle moves to the agent's position, half a unit up, turned by minus its yaw |
| WebClient.Client.constructor | interactionviz/viewers/static/app.js:266-267 | the page starts with no visible obstacles, an empty obstacle footprint and the counter at 0, so the first `RenderFrame` can run |
| WebClient.Client.RenderFrame | interactionviz/viewers/static/app.js:93-132 | afterwards exactly the frame's tracks are visible. A track that was visible keeps its object; a new track gets a fresh one built from its first agent. Every obstacle stands at its track's last agent |
| WebClient.Client.ShowAll | interactionviz/viewers/static/app.js:96-122 | the first loop makes every track of the frame visible and returns the set of those tracks |
| WebClient.Client.ShowNext | interactionviz/viewers/static/app.js:96-121 | one pass of the first loop adds the agent's track and keeps the loop's invariant |
| WebClient.Client.Show | interactionviz/viewers/static/app.js:97-121 | a visible track's obstacle is moved to the agent; an unseen track gets exactly one new obstacle; no other obstacle changes |
| WebClient.Client.RemoveStale | interactionviz/viewers/static/app.js:124-131 | the tracks the frame did not mention are deleted; no other key is removed, and the kept ones keep their objects |
| WebClient.Client.Animate | interactionviz/viewers/static/app.js:241-248 | frame `current_index / 5` is requested exactly when the counter is a multiple of five; the counter then goes up by one, the obstacle table and its insertion order are untouched, and the client stays valid, so the next `RenderFrame` can run |
| WebClient.DropStale | interactionviz/viewers/static/app.js:124-131 | the deletion loop keeps exactly the entries whose keys are current, untouched |
| WebClient.KeepOnlyMembers | interactionviz/viewers/static/app.js:124-131 | filtering the key order keeps exactly the current keys, without repeats |
| WebClient.RequestAt | interactionviz/viewers/static/app.js:244-246 | a request is made exactly when the counter is a multiple of five, for the counter divided by five |
| WebClient.RequestsAreConsecutive | interactionviz/viewers/static/app.js:241-248 | after n steps, frames 0, 1, 2, ... have been requested in order, `(n + 4) / 5` of them |

## Left out

- The Delaunay triangulation is a parameter. The model assumes only that its indices are in range, and the parameter always returns a result. The source has no guard for fewer than three points or for collinear points, where scipy's `Delaunay` raises an error instead; the model does not capture that failure.
- XML and CSV text parsing, file opening, and the hard-coded track file name are not modelled. The loaders take already parsed element and row records.
- A node, way or relation without an `id` is not modelled, because the element records always carry one. A `tag` without `k` or `v`, an `nd` without `ref`, and a node without `x` or `y` or with a value that does not parse as a number make the loader raise an exception; they are not modelled, because the element records always carry these values, with `x` and `y` already numbers. A row with a missing or unparsable `frame_id`, `track_id`, `x` or `y` is not modelled either.
- Floating point is not modelled: coordinates are reals, and numpy arrays are pairs. `Viewports.Project` and everything that projects require `max(xr/2, yr/2) != 0`. The source would then produce infinities or NaNs.
- Viewports.Project: does not model the unused locals `rescale` and `midpoint` (interactionviz/viewers/viewport.py:19-20). They do not affect the result.
- Viewports.ViewportForMap: for a map without nodes the source builds a viewport with `None` bounds, and `viewport_for_map_no_scaling` raises a TypeError. The model returns `None` in both cases.
- The websocket server, static file serving, JSON encoding and the socket callbacks of the page are not modelled (web.py:59-77, app.js:1-35). Requests arrive as decoded `Request` records, and a reply is a `Message` value.
- WebServer.Reply: the exceptions that end the handler (a missing `index`, no tracks, an index out of range) are one error value each. The model does not say how the connection ends.
- `AgentKind` and `a.kind` are not modelled: the loaded `Agent` has no kind field. The car test is the parameter `isCar`.
- Python's `hash` is the parameter `hash`.
- The THREE.js scene, materials, lights, camera, sky and ground are not modelled. A mesh added to the scene is the value returned by the method that builds it. Removing an obstacle from the scene is modelled as forgetting it.
- WebClient.RenderPolyLine: the normalisation of the perpendiculars is the parameter `normalise`. Only `SegmentIsSymmetric` assumes anything about it.
- WebClient.Client.RenderFrame: `for (k in visible_obstacles)` visits integer-like keys in ascending order. The model visits them in insertion order, the `order` field. The set of deleted keys is the same either way.
- WebClient.Client.RenderFrame: does not state that the obstacles of vanished tracks stay unchanged. They are no longer reachable from the page's table.
- The face UVs, face normals and the 0.8 opacity of the obstacle material are not modelled, because no other code reads them.
- interactionviz/viewers/arcade.py, interactionviz/gifwriter/gifwriter.py and interactionviz/cli/viewer/__main__.py are not part of this model. They are drawing, GIF encoding and argument parsing.
- Differences between the documented behaviour and the code follow the code:
  - the projection divides by `max(xr/2, yr/2)`;
  - the unscaled viewport's height is the negated y extent;
  - the frame payload holds only `agents`;
  - every track row must carry `psi_rad`, `length` and `width`.
