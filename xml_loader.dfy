/**
 * Loading a lanelet map from OSM-XML, modelled on an already parsed sequence of
 * top-level elements. One pass in document order fills the node, way and lane
 * tables; an unknown way kind or an unresolved reference aborts the load.
 */
module XmlLoader {
  import opened Common
  import opened OrderedTable
  import opened LaneletMap

  /** A child element of a `way` or `relation`. */
  datatype Child =
    | TagChild(k: string, v: string)
    | NdChild(ref: string)
    | MemberChild(role: Option<string>, wayRef: Option<string>)
    | OtherChild(tag: string)

  /** A top-level element of the document, with its attributes already read. */
  datatype Element =
    | NodeElement(id: string, x: real, y: real)
    | WayElement(id: string, children: seq<Child>)
    | RelationElement(id: string, children: seq<Child>)
    | OtherElement(tag: string)

  /** The exceptions that abort a load. */
  datatype LoadError =
    | UnknownSubkind(subtype: Option<string>)
    | UnknownWayType(wayType: Option<string>)
    | UnknownNode(nodeRef: string)
    | UnknownWay(wayRef: Option<string>)

  /** `tags.get(k)` */
  function Lookup(tags: map<string, string>, k: string): (r: Option<string>)
    ensures r.Some? <==> k in tags
    ensures r.Some? ==> r.value == tags[k]
  {
    if k in tags then Some(tags[k]) else None
  }

  /** The element's `tag` dictionary: each `tag` child assigns its key, so the last one wins. */
  function TagsOf(cs: seq<Child>): map<string, string>
  {
    if cs == [] then map[]
    else
      var prev := TagsOf(cs[..|cs| - 1]);
      match cs[|cs| - 1]
      case TagChild(k, v) => prev[k := v]
      case _ => prev
  }

  /** The `ref` of the last `member` whose role is `role`, or None when there is none. */
  function MemberRef(cs: seq<Child>, role: string): Option<string>
  {
    if cs == [] then None
    else
      var c := cs[|cs| - 1];
      if c.MemberChild? && c.role == Some(role) then c.wayRef else MemberRef(cs[..|cs| - 1], role)
  }

  /** The `ref`s of the `nd` children, in document order. */
  function NdRefs(cs: seq<Child>): seq<string>
  {
    if cs == [] then []
    else
      var prev := NdRefs(cs[..|cs| - 1]);
      if cs[|cs| - 1].NdChild? then prev + [cs[|cs| - 1].ref] else prev
  }

  /** A way's node list: each `nd` looked up in the nodes seen so far. */
  function WayNodesOf(nodes: Table<Node>, cs: seq<Child>): Result<seq<Node>, LoadError>
  {
    if cs == [] then Ok([])
    else
      match WayNodesOf(nodes, cs[..|cs| - 1])
      case Err(e) => Err(e)
      case Ok(prev) =>
        match cs[|cs| - 1]
        case NdChild(ref) => if ref in nodes.entries then Ok(prev + [nodes.entries[ref]]) else Err(UnknownNode(ref))
        case _ => Ok(prev)
  }

  const RecognisedTypes: set<string> :=
    {"road_border", "stop_line", "guard_rail", "line_thin", "curbstone",
     "virtual", "pedestrian_marking", "traffic_sign", "line_thick"}

  /** The way-kind table over the `type` and `subtype` tags. */
  function ClassifyWay(wayType: Option<string>, subType: Option<string>): (r: Result<WayKind, LoadError>)
    ensures r.Ok? <==>
      (wayType.Some? && wayType.value in RecognisedTypes
       && (wayType == Some("line_thin") ==> subType in {Some("dashed"), Some("solid"), Some("solid_solid")}))
    ensures r.Err? && wayType == Some("line_thin") ==> r.error == UnknownSubkind(subType)
    ensures r.Err? && wayType != Some("line_thin") ==> r.error == UnknownWayType(wayType)
  {
    if wayType == Some("road_border") then Ok(RoadBorder)
    else if wayType == Some("stop_line") then Ok(StopLine)
    else if wayType == Some("guard_rail") then Ok(GuardRail)
    else if wayType == Some("line_thin") then
      if subType == Some("dashed") then Ok(DashedLine)
      else if subType == Some("solid") || subType == Some("solid_solid") then Ok(SolidLine)
      else Err(UnknownSubkind(subType))
    else if wayType == Some("curbstone") then Ok(CurbStone)
    else if wayType == Some("virtual") then Ok(Virtual)
    else if wayType == Some("pedestrian_marking") then Ok(PedestrianMarking)
    else if wayType == Some("traffic_sign") then Ok(TrafficSign)
    else if wayType == Some("line_thick") then Ok(ThickLine)
    else Err(UnknownWayType(wayType))
  }

  /** Tags that a map writer would give a way of each kind. */
  function CanonicalTags(k: WayKind): (Option<string>, Option<string>)
  {
    match k
    case SolidLine => (Some("line_thin"), Some("solid"))
    case ThickLine => (Some("line_thick"), None)
    case DashedLine => (Some("line_thin"), Some("dashed"))
    case GuardRail => (Some("guard_rail"), None)
    case CurbStone => (Some("curbstone"), None)
    case Virtual => (Some("virtual"), None)
    case PedestrianMarking => (Some("pedestrian_marking"), None)
    case TrafficSign => (Some("traffic_sign"), None)
    case StopLine => (Some("stop_line"), None)
    case RoadBorder => (Some("road_border"), None)
  }

  /** Every kind can be loaded: classifying its canonical tags gives it back. */
  lemma ClassifyCanonical(k: WayKind)
    ensures ClassifyWay(CanonicalTags(k).0, CanonicalTags(k).1) == Ok(k)
  {
  }

  /**
   * The subtype matters only for `line_thin`; `solid` and `solid_solid` are the
   * same kind; the table is a function of the type alone otherwise.
   */
  lemma SubtypeOnlyForThinLines(t: Option<string>, s1: Option<string>, s2: Option<string>)
    ensures t != Some("line_thin") ==> ClassifyWay(t, s1) == ClassifyWay(t, s2)
    ensures ClassifyWay(Some("line_thin"), Some("solid")) == ClassifyWay(Some("line_thin"), Some("solid_solid"))
  {
  }

  /** All three tables respect the dict invariant. */
  ghost predicate ValidMap(m: Map)
  {
    Valid(m.nodes) && Valid(m.ways) && Valid(m.lanes)
  }

  function EmptyMap(): (m: Map)
    ensures ValidMap(m)
  {
    Map(Empty(), Empty(), Empty())
  }

  /** Handling of one top-level element, as the body of the source's loop. */
  function Step(m: Map, e: Element): (r: Result<Map, LoadError>)
    requires ValidMap(m)
    ensures r.Ok? ==> ValidMap(r.value)
  {
    match e
    case RelationElement(osmId, cs) =>
      if Lookup(TagsOf(cs), "type") == Some("lanelet") then
        var left := MemberRef(cs, "left");
        var right := MemberRef(cs, "right");
        if left.None? || left.value !in m.ways.entries then Err(UnknownWay(left))
        else if right.None? || right.value !in m.ways.entries then Err(UnknownWay(right))
        else Ok(m.(lanes := Insert(m.lanes, osmId,
                                   Lane(osmId, m.ways.entries[left.value], m.ways.entries[right.value]))))
      else Ok(m)
    case NodeElement(osmId, x, y) =>
      Ok(m.(nodes := Insert(m.nodes, osmId, Node(osmId, Point(x, y)))))
    case WayElement(wayId, cs) =>
      (match WayNodesOf(m.nodes, cs)
       case Err(err) => Err(err)
       case Ok(wayNodes) =>
         var tags := TagsOf(cs);
         match ClassifyWay(Lookup(tags, "type"), Lookup(tags, "subtype"))
         case Err(err) => Err(err)
         case Ok(kind) => Ok(m.(ways := Insert(m.ways, wayId, Way(wayId, wayNodes, kind)))))
    case OtherElement(_) => Ok(m)
  }

  /** The rest of the document handled from map `m`: the first failing element aborts. */
  function LoadFrom(m: Map, es: seq<Element>): (r: Result<Map, LoadError>)
    requires ValidMap(m)
    ensures r.Ok? ==> ValidMap(r.value)
    decreases |es|
  {
    if es == [] then Ok(m)
    else
      match Step(m, es[0])
      case Err(err) => Err(err)
      case Ok(m') => LoadFrom(m', es[1..])
  }

  /** The specification of `load_map_xml`. */
  function Load(es: seq<Element>): (r: Result<Map, LoadError>)
    ensures r.Ok? ==> ValidMap(r.value)
  {
    LoadFrom(EmptyMap(), es)
  }

  /** The tag and `nd` loop over a way's children (stops at the first unresolved node). */
  method ScanWayChildren(nodes: Table<Node>, cs: seq<Child>) returns (r: Result<(seq<Node>, map<string, string>), LoadError>)
    ensures r.Err? ==> WayNodesOf(nodes, cs) == Err(r.error)
    ensures r.Ok? ==> WayNodesOf(nodes, cs) == Ok(r.value.0) && r.value.1 == TagsOf(cs)
  {
    var wayNodes: seq<Node> := [];
    var tags: map<string, string> := map[];
    var j := 0;
    while j < |cs|
      invariant 0 <= j <= |cs|
      invariant WayNodesOf(nodes, cs[..j]) == Ok(wayNodes)
      invariant tags == TagsOf(cs[..j])
    {
      assert cs[..j + 1][..j] == cs[..j];
      match cs[j] {
        case TagChild(k, v) =>
          tags := tags[k := v];
        case NdChild(ref) =>
          if ref !in nodes.entries {
            WayNodesErrorSticks(nodes, cs, j + 1);
            return Err(UnknownNode(ref));
          }
          wayNodes := wayNodes + [nodes.entries[ref]];
        case _ =>
      }
      j := j + 1;
    }
    assert cs[..j] == cs;
    r := Ok((wayNodes, tags));
  }

  /** Once a prefix of the children has an unresolved `nd`, so does the whole list. */
  lemma {:induction false} WayNodesErrorSticks(nodes: Table<Node>, cs: seq<Child>, j: nat)
    requires j <= |cs| && WayNodesOf(nodes, cs[..j]).Err?
    ensures WayNodesOf(nodes, cs) == WayNodesOf(nodes, cs[..j])
    decreases |cs| - j
  {
    if j < |cs| {
      assert cs[..j + 1][..j] == cs[..j];
      WayNodesErrorSticks(nodes, cs, j + 1);
    } else {
      assert cs[..j] == cs;
    }
  }

  /** The tag and member loop over a relation's children. */
  method ScanRelationChildren(cs: seq<Child>) returns (tags: map<string, string>, leftWayId: Option<string>, rightWayId: Option<string>)
    ensures tags == TagsOf(cs)
    ensures leftWayId == MemberRef(cs, "left") && rightWayId == MemberRef(cs, "right")
  {
    tags, leftWayId, rightWayId := map[], None, None;
    var j := 0;
    while j < |cs|
      invariant 0 <= j <= |cs|
      invariant tags == TagsOf(cs[..j])
      invariant leftWayId == MemberRef(cs[..j], "left") && rightWayId == MemberRef(cs[..j], "right")
    {
      assert cs[..j + 1][..j] == cs[..j];
      var e := cs[j];
      if e.TagChild? {
        tags := tags[e.k := e.v];
      }
      if e.MemberChild? && e.role == Some("left") {
        leftWayId := e.wayRef;
      }
      if e.MemberChild? && e.role == Some("right") {
        rightWayId := e.wayRef;
      }
      j := j + 1;
    }
    assert cs[..j] == cs;
  }

  /** Loading a document in two parts: the second part continues from the first's tables. */
  lemma {:induction false} LoadFromAppend(m: Map, a: seq<Element>, b: seq<Element>)
    requires ValidMap(m)
    ensures LoadFrom(m, a + b) ==
      match LoadFrom(m, a)
      case Err(err) => Err(err)
      case Ok(m') => LoadFrom(m', b)
    decreases |a|
  {
    if a == [] {
      assert a + b == b;
    } else {
      assert (a + b)[0] == a[0] && (a + b)[1..] == a[1..] + b;
      match Step(m, a[0])
      case Err(_) =>
      case Ok(m') => LoadFromAppend(m', a[1..], b);
    }
  }

  /** An element that fails aborts the whole load: no partial map is returned. */
  lemma FailingElementAborts(es: seq<Element>, i: nat)
    requires i < |es| && Load(es[..i]).Ok?
    requires Step(Load(es[..i]).value, es[i]).Err?
    ensures Load(es) == Err(Step(Load(es[..i]).value, es[i]).error)
  {
    assert es == es[..i] + es[i..];
    LoadFromAppend(EmptyMap(), es[..i], es[i..]);
  }

  /**
   * A way's node list resolves exactly when every `nd` names a node already
   * seen, and is then those nodes in document order.
   */
  lemma {:induction false} WayNodesResolved(nodes: Table<Node>, cs: seq<Child>)
    ensures WayNodesOf(nodes, cs).Ok? <==> (forall r :: r in NdRefs(cs) ==> r in nodes.entries)
    ensures WayNodesOf(nodes, cs).Ok? ==>
      var ns := WayNodesOf(nodes, cs).value;
      |ns| == |NdRefs(cs)| && forall i :: 0 <= i < |ns| ==> ns[i] == nodes.entries[NdRefs(cs)[i]]
    ensures WayNodesOf(nodes, cs).Err? ==> WayNodesOf(nodes, cs).error.UnknownNode?
  {
    if cs != [] {
      var prev := cs[..|cs| - 1];
      WayNodesResolved(nodes, prev);
    }
  }

  /** An `nd` naming a node not yet loaded makes the way, and so the element, fail. */
  lemma DanglingNodeFails(m: Map, wayId: string, cs: seq<Child>, j: nat)
    requires ValidMap(m) && j < |cs| && cs[j].NdChild? && cs[j].ref !in m.nodes.entries
    ensures Step(m, WayElement(wayId, cs)).Err?
  {
    WayNodesResolved(m.nodes, cs);
    NdRefsContains(cs, j);
  }

  lemma {:induction false} NdRefsContains(cs: seq<Child>, j: nat)
    requires j < |cs| && cs[j].NdChild?
    ensures cs[j].ref in NdRefs(cs)
  {
    if j < |cs| - 1 {
      NdRefsContains(cs[..|cs| - 1], j);
    }
  }

  /** A key is tagged exactly when some `tag` child has it, and the last such child gives the value. */
  lemma {:induction false} LastTagWins(cs: seq<Child>, j: nat)
    requires j < |cs| && cs[j].TagChild?
    requires forall j' :: j < j' < |cs| ==> !(cs[j'].TagChild? && cs[j'].k == cs[j].k)
    ensures cs[j].k in TagsOf(cs) && TagsOf(cs)[cs[j].k] == cs[j].v
  {
    if j < |cs| - 1 {
      LastTagWins(cs[..|cs| - 1], j);
    }
  }

  lemma {:induction false} UntaggedKeyAbsent(cs: seq<Child>, k: string)
    requires forall j :: 0 <= j < |cs| ==> !(cs[j].TagChild? && cs[j].k == k)
    ensures k !in TagsOf(cs)
  {
    if cs != [] {
      UntaggedKeyAbsent(cs[..|cs| - 1], k);
    }
  }

  /** The last `member` with a role decides that side's way reference. */
  lemma {:induction false} LastMemberWins(cs: seq<Child>, role: string, j: nat)
    requires j < |cs| && cs[j].MemberChild? && cs[j].role == Some(role)
    requires forall j' :: j < j' < |cs| ==> !(cs[j'].MemberChild? && cs[j'].role == Some(role))
    ensures MemberRef(cs, role) == cs[j].wayRef
  {
    if j < |cs| - 1 {
      LastMemberWins(cs[..|cs| - 1], role, j);
    }
  }

  /**
   * A relation adds a lane only when tagged `type=lanelet`, from the ways its
   * last `left` and `right` members name; a missing or unknown reference fails.
   * Any other relation changes nothing, whatever it references.
   */
  lemma RelationOutcome(m: Map, osmId: string, cs: seq<Child>)
    requires ValidMap(m)
    ensures Lookup(TagsOf(cs), "type") != Some("lanelet") ==> Step(m, RelationElement(osmId, cs)) == Ok(m)
    ensures Lookup(TagsOf(cs), "type") == Some("lanelet") ==>
      var left, right := MemberRef(cs, "left"), MemberRef(cs, "right");
      var r := Step(m, RelationElement(osmId, cs));
      && (r.Ok? <==> left.Some? && left.value in m.ways.entries && right.Some? && right.value in m.ways.entries)
      && (left.None? || left.value !in m.ways.entries ==> r == Err(UnknownWay(left)))
      && (left.Some? && left.value in m.ways.entries && (right.None? || right.value !in m.ways.entries) ==>
            r == Err(UnknownWay(right)))
      && (r.Ok? ==> r.value.nodes == m.nodes && r.value.ways == m.ways
                    && r.value.lanes.entries == m.lanes.entries[osmId := Lane(osmId, m.ways.entries[left.value], m.ways.entries[right.value])])
  {
  }

  /**
   * A node is stored under its id, replacing an earlier node with that id in
   * place or going last when the id is new; the other tables do not change.
   */
  lemma NodeOutcome(m: Map, osmId: string, x: real, y: real)
    requires ValidMap(m)
    ensures var r := Step(m, NodeElement(osmId, x, y));
      && r.Ok? && r.value.ways == m.ways && r.value.lanes == m.lanes
      && r.value.nodes.entries == m.nodes.entries[osmId := Node(osmId, Point(x, y))]
      && (osmId in m.nodes.entries ==> r.value.nodes.keys == m.nodes.keys)
      && (osmId !in m.nodes.entries ==> r.value.nodes.keys == m.nodes.keys + [osmId])
  {
  }

  /**
   * A way loads exactly when all its `nd` refs name loaded nodes and its tags
   * classify. An unresolved `nd` fails first; otherwise a bad type or subtype
   * fails with the classification's error. On success the way is stored under
   * its id with its `nd` nodes in document order and its kind, and the other
   * tables do not change.
   */
  lemma WayOutcome(m: Map, wayId: string, cs: seq<Child>)
    requires ValidMap(m)
    ensures var r := Step(m, WayElement(wayId, cs));
      var tags := TagsOf(cs);
      var kind := ClassifyWay(Lookup(tags, "type"), Lookup(tags, "subtype"));
      var resolved := forall ref :: ref in NdRefs(cs) ==> ref in m.nodes.entries;
      && (r.Ok? <==> resolved && kind.Ok?)
      && (!resolved ==> r.Err? && r.error.UnknownNode?)
      && (resolved && kind.Err? ==> r == Err(kind.error))
      && (r.Ok? ==>
            && r.value.nodes == m.nodes && r.value.lanes == m.lanes
            && wayId in r.value.ways.entries
            && var w := r.value.ways.entries[wayId];
            && w.osmId == wayId && w.kind == kind.value
            && |w.nodes| == |NdRefs(cs)|
            && (forall i :: 0 <= i < |w.nodes| ==> w.nodes[i] == m.nodes.entries[NdRefs(cs)[i]])
            && (forall k :: k != wayId ==> (k in r.value.ways.entries <==> k in m.ways.entries))
            && (forall k :: k != wayId && k in m.ways.entries ==> r.value.ways.entries[k] == m.ways.entries[k]))
  {
    WayNodesResolved(m.nodes, cs);
  }

  /** Top-level elements other than node, way and relation leave every table unchanged. */
  lemma OtherElementIgnored(m: Map, tag: string)
    requires ValidMap(m)
    ensures Step(m, OtherElement(tag)) == Ok(m)
  {
  }

  /** Every node a way refers to is present in the node table. */
  ghost predicate WayResolved(w: Way, nodes: Table<Node>)
  {
    forall n :: n in w.nodes ==> n.osmId in nodes.entries
  }

  /**
   * The referential integrity of a loaded map: each entry is stored under its
   * own id, every way's nodes are loaded nodes, and every lane's boundary ways
   * are loaded ways whose nodes are loaded.
   */
  ghost predicate WellFormed(m: Map)
  {
    && ValidMap(m)
    && (forall k :: k in m.nodes.entries ==> m.nodes.entries[k].osmId == k)
    && (forall k :: k in m.ways.entries ==> m.ways.entries[k].osmId == k && WayResolved(m.ways.entries[k], m.nodes))
    && (forall k :: k in m.lanes.entries ==>
          var l := m.lanes.entries[k];
          && l.osmId == k
          && l.leftWay.osmId in m.ways.entries && l.rightWay.osmId in m.ways.entries
          && WayResolved(l.leftWay, m.nodes) && WayResolved(l.rightWay, m.nodes))
  }

  /** Storing a node keeps the map well formed: references are by id, and the id stays present. */
  lemma NodeStepWellFormed(m: Map, osmId: string, p: Point)
    requires WellFormed(m)
    ensures WellFormed(m.(nodes := Insert(m.nodes, osmId, Node(osmId, p))))
  {
    var m' := m.(nodes := Insert(m.nodes, osmId, Node(osmId, p)));
    forall w: Way | WayResolved(w, m.nodes)
      ensures WayResolved(w, m'.nodes)
    {
    }
  }

  /** Storing a way whose nodes are all loaded keeps the map well formed. */
  lemma WayStepWellFormed(m: Map, w: Way)
    requires WellFormed(m) && WayResolved(w, m.nodes)
    ensures WellFormed(m.(ways := Insert(m.ways, w.osmId, w)))
  {
  }

  /** Storing a lane whose boundaries are loaded, resolved ways keeps the map well formed. */
  lemma LaneStepWellFormed(m: Map, l: Lane)
    requires WellFormed(m)
    requires l.leftWay.osmId in m.ways.entries && l.rightWay.osmId in m.ways.entries
    requires WayResolved(l.leftWay, m.nodes) && WayResolved(l.rightWay, m.nodes)
    ensures WellFormed(m.(lanes := Insert(m.lanes, l.osmId, l)))
  {
  }

  lemma StepPreservesWellFormed(m: Map, e: Element)
    requires WellFormed(m) && Step(m, e).Ok?
    ensures WellFormed(Step(m, e).value)
  {
    match e
    case NodeElement(osmId, x, y) =>
      NodeStepWellFormed(m, osmId, Point(x, y));
    case WayElement(wayId, cs) =>
      WayNodesResolved(m.nodes, cs);
      var ns := WayNodesOf(m.nodes, cs).value;
      var tags := TagsOf(cs);
      var kind := ClassifyWay(Lookup(tags, "type"), Lookup(tags, "subtype")).value;
      forall n | n in ns ensures n.osmId in m.nodes.entries {
        var i :| 0 <= i < |ns| && ns[i] == n;
      }
      WayStepWellFormed(m, Way(wayId, ns, kind));
    case RelationElement(osmId, cs) =>
      if Lookup(TagsOf(cs), "type") == Some("lanelet") {
        var left := MemberRef(cs, "left").value;
        var right := MemberRef(cs, "right").value;
        LaneStepWellFormed(m, Lane(osmId, m.ways.entries[left], m.ways.entries[right]));
      }
    case OtherElement(_) =>
  }

  /** Every successful load yields a well-formed map: no reference is left dangling. */
  lemma {:induction false} LoadIsWellFormed(m: Map, es: seq<Element>)
    requires WellFormed(m) && LoadFrom(m, es).Ok?
    ensures WellFormed(LoadFrom(m, es).value)
    decreases |es|
  {
    if es != [] {
      StepPreservesWellFormed(m, es[0]);
      LoadIsWellFormed(Step(m, es[0]).value, es[1..]);
    }
  }

  lemma LoadedMapWellFormed(es: seq<Element>)
    requires Load(es).Ok?
    ensures WellFormed(Load(es).value)
  {
    LoadIsWellFormed(EmptyMap(), es);
  }

  /** `load_map_xml`: one pass over the elements, filling the three tables in place. */
  method LoadMapXml(elements: seq<Element>) returns (r: Result<Map, LoadError>)
    ensures r == Load(elements)
  {
    var nodes: Table<Node> := Empty();
    var ways: Table<Way> := Empty();
    var lanes: Table<Lane> := Empty();
    var i := 0;
    while i < |elements|
      invariant 0 <= i <= |elements|
      invariant ValidMap(Map(ways, nodes, lanes))
      invariant Load(elements) == LoadFrom(Map(ways, nodes, lanes), elements[i..])
    {
      ghost var m := Map(ways, nodes, lanes);
      assert elements[i..][1..] == elements[i + 1..];
      match elements[i] {
        case RelationElement(osmId, children) =>
          var tags, leftWayId, rightWayId := ScanRelationChildren(children);
          if Lookup(tags, "type") == Some("lanelet") {
            if leftWayId.None? || leftWayId.value !in ways.entries {
              return Err(UnknownWay(leftWayId));
            }
            if rightWayId.None? || rightWayId.value !in ways.entries {
              return Err(UnknownWay(rightWayId));
            }
            lanes := Insert(lanes, osmId, Lane(osmId, ways.entries[leftWayId.value], ways.entries[rightWayId.value]));
          }
        case NodeElement(osmId, x, y) =>
          nodes := Insert(nodes, osmId, Node(osmId, Point(x, y)));
        case WayElement(wayId, children) =>
          var scanned := ScanWayChildren(nodes, children);
          if scanned.Err? {
            return Err(scanned.error);
          }
          var wayNodes, tags := scanned.value.0, scanned.value.1;
          var wayKind := ClassifyWay(Lookup(tags, "type"), Lookup(tags, "subtype"));
          if wayKind.Err? {
            return Err(wayKind.error);
          }
          ways := Insert(ways, wayId, Way(wayId, wayNodes, wayKind.value));
        case OtherElement(_) =>
      }
      assert Step(m, elements[i]) == Ok(Map(ways, nodes, lanes));
      i := i + 1;
    }
    r := Ok(Map(ways, nodes, lanes));
  }
}
