/**
 * Loading recorded trajectories: rows are grouped by frame id in one pass and
 * the frames are emitted in ascending frame-id order.
 */
module TrackLoader {
  import opened Common

  /** One CSV row with its numbers parsed; a column the file lacks is None. */
  datatype Row = Row(frameId: int, trackId: int, x: real, y: real,
                     psiRad: Option<real>, length: Option<real>, width: Option<real>)

  datatype Extent = Extent(length: real, width: real)

  datatype Agent = Agent(trackId: int, position: Point, extent: Extent, yaw: real)

  /** One time step: the agents of the rows carrying its frame id. */
  datatype Frame = Frame(agents: seq<Agent>)

  /** Reading a row that lacks `psi_rad`, `length` or `width` aborts the load. */
  datatype TrackError = MissingColumn(row: nat)

  predicate Complete(r: Row)
  {
    r.psiRad.Some? && r.length.Some? && r.width.Some?
  }

  predicate AllComplete(rows: seq<Row>)
  {
    forall i :: 0 <= i < |rows| ==> Complete(rows[i])
  }

  /** The agent a row describes. */
  function RowAgent(r: Row): Agent
    requires Complete(r)
  {
    Agent(r.trackId, Point(r.x, r.y), Extent(r.length.value, r.width.value), r.psiRad.value)
  }

  function FrameIds(rows: seq<Row>): (ids: seq<int>)
    ensures |ids| == |rows|
    ensures forall i :: 0 <= i < |rows| ==> ids[i] == rows[i].frameId
  {
    seq(|rows|, i requires 0 <= i < |rows| => rows[i].frameId)
  }

  /** The distinct values of `s` in order of first appearance (a dict's key order). */
  function Distinct(s: seq<int>): seq<int>
  {
    if s == [] then []
    else
      var prev := Distinct(s[..|s| - 1]);
      if s[|s| - 1] in prev then prev else prev + [s[|s| - 1]]
  }

  /** The agents of the rows with frame id `k`, in row order. */
  function AgentsIn(rows: seq<Row>, k: int): seq<Agent>
    requires AllComplete(rows)
  {
    if rows == [] then []
    else
      var prev := AgentsIn(rows[..|rows| - 1], k);
      if rows[|rows| - 1].frameId == k then prev + [RowAgent(rows[|rows| - 1])] else prev
  }

  predicate NoDuplicates(s: seq<int>)
  {
    forall i, j :: 0 <= i < j < |s| ==> s[i] != s[j]
  }

  predicate StrictlyIncreasing(s: seq<int>)
  {
    forall i, j :: 0 <= i < j < |s| ==> s[i] < s[j]
  }

  function InsertSorted(x: int, s: seq<int>): seq<int>
  {
    if s == [] then [x]
    else if x <= s[0] then [x] + s
    else [s[0]] + InsertSorted(x, s[1..])
  }

  /** `sorted(keys)` */
  function SortAscending(s: seq<int>): seq<int>
  {
    if s == [] then [] else InsertSorted(s[0], SortAscending(s[1..]))
  }

  /** The frame ids of the rows, each once, in ascending order. */
  function SortedFrameIds(rows: seq<Row>): seq<int>
  {
    SortAscending(Distinct(FrameIds(rows)))
  }

  /** One frame per key, holding the agents of that key's rows. */
  function FramesFor(rows: seq<Row>, ks: seq<int>): (fs: seq<Frame>)
    requires AllComplete(rows)
    ensures |fs| == |ks|
  {
    seq(|ks|, i requires 0 <= i < |ks| => Frame(AgentsIn(rows, ks[i])))
  }

  /** The specification of the loaded frame list. */
  function Group(rows: seq<Row>): seq<Frame>
    requires AllComplete(rows)
  {
    FramesFor(rows, SortedFrameIds(rows))
  }

  lemma {:induction false} DistinctProps(s: seq<int>)
    ensures NoDuplicates(Distinct(s))
    ensures forall x :: x in Distinct(s) <==> x in s
  {
    if s != [] {
      DistinctProps(s[..|s| - 1]);
      assert s == s[..|s| - 1] + [s[|s| - 1]];
    }
  }

  /** Inserting adds `x` and keeps every element of `s`, once each. */
  lemma {:induction false} InsertSortedMembers(x: int, s: seq<int>)
    ensures forall y :: y in InsertSorted(x, s) <==> y == x || y in s
    ensures multiset(InsertSorted(x, s)) == multiset(s) + multiset{x}
  {
    if s != [] && x > s[0] {
      InsertSortedMembers(x, s[1..]);
      assert s == [s[0]] + s[1..];
    }
  }

  /** A key below every element of an ascending list can go in front of it. */
  lemma PrependIncreasing(x: int, s: seq<int>)
    requires StrictlyIncreasing(s)
    requires forall i :: 0 <= i < |s| ==> x < s[i]
    ensures StrictlyIncreasing([x] + s)
  {
    var r := [x] + s;
    forall i, j | 0 <= i < j < |r|
      ensures r[i] < r[j]
    {
      assert r[j] == s[j - 1];
      if i > 0 {
        assert r[i] == s[i - 1];
      }
    }
  }

  /** Inserting a new key into an ascending list keeps it ascending. */
  lemma {:induction false} InsertSortedIncreasing(x: int, s: seq<int>)
    requires StrictlyIncreasing(s) && x !in s
    ensures StrictlyIncreasing(InsertSorted(x, s))
  {
    if s == [] {
    } else if x <= s[0] {
      assert x < s[0];
      PrependIncreasing(x, s);
    } else {
      var tail := s[1..];
      assert StrictlyIncreasing(tail);
      InsertSortedIncreasing(x, tail);
      InsertSortedMembers(x, tail);
      var r := InsertSorted(x, tail);
      forall i | 0 <= i < |r|
        ensures s[0] < r[i]
      {
        assert r[i] in r;
        if r[i] != x {
          var j :| 0 <= j < |tail| && tail[j] == r[i];
          assert tail[j] == s[j + 1];
        }
      }
      PrependIncreasing(s[0], r);
    }
  }

  /** Sorting distinct keys gives them in strictly ascending order, each exactly once. */
  lemma {:induction false} SortAscendingProps(s: seq<int>)
    requires NoDuplicates(s)
    ensures StrictlyIncreasing(SortAscending(s))
    ensures multiset(SortAscending(s)) == multiset(s)
  {
    if s != [] {
      SortAscendingProps(s[1..]);
      assert s == [s[0]] + s[1..];
      assert s[0] !in multiset(SortAscending(s[1..]));
      InsertSortedIncreasing(s[0], SortAscending(s[1..]));
      InsertSortedMembers(s[0], SortAscending(s[1..]));
    }
  }

  /** The emitted keys are exactly the rows' frame ids, strictly ascending. */
  lemma SortedFrameIdsProps(rows: seq<Row>)
    ensures StrictlyIncreasing(SortedFrameIds(rows))
    ensures forall k :: k in SortedFrameIds(rows) <==> k in FrameIds(rows)
  {
    DistinctProps(FrameIds(rows));
    SortAscendingProps(Distinct(FrameIds(rows)));
    forall k ensures k in SortedFrameIds(rows) <==> k in Distinct(FrameIds(rows)) {
      assert k in SortedFrameIds(rows) <==> k in multiset(SortedFrameIds(rows));
    }
  }

  /** Agents of earlier rows come first: grouping distributes over concatenation. */
  lemma {:induction false} AgentsInAppend(a: seq<Row>, b: seq<Row>, k: int)
    requires AllComplete(a) && AllComplete(b)
    ensures AllComplete(a + b)
    ensures AgentsIn(a + b, k) == AgentsIn(a, k) + AgentsIn(b, k)
    decreases |b|
  {
    if b == [] {
      assert a + b == a;
    } else {
      var b' := b[..|b| - 1];
      assert (a + b)[..|a + b| - 1] == a + b';
      AgentsInAppend(a, b', k);
    }
  }

  /** A key gets agents exactly when some row carries it. */
  lemma {:induction false} AgentsInNonEmpty(rows: seq<Row>, k: int)
    requires AllComplete(rows)
    ensures |AgentsIn(rows, k)| > 0 <==> k in FrameIds(rows)
  {
    if rows != [] {
      var prev := rows[..|rows| - 1];
      AgentsInNonEmpty(prev, k);
      assert FrameIds(rows) == FrameIds(prev) + [rows[|rows| - 1].frameId];
    }
  }

  /**
   * There is one frame per distinct frame id, in ascending id order, holding
   * that id's agents in row order, and no frame is empty.
   */
  lemma GroupShape(rows: seq<Row>)
    requires AllComplete(rows)
    ensures |Group(rows)| == |SortedFrameIds(rows)|
    ensures StrictlyIncreasing(SortedFrameIds(rows))
    ensures forall k :: k in SortedFrameIds(rows) <==> k in FrameIds(rows)
    ensures forall i :: 0 <= i < |Group(rows)| ==>
      Group(rows)[i].agents == AgentsIn(rows, SortedFrameIds(rows)[i]) && |Group(rows)[i].agents| > 0
  {
    SortedFrameIdsProps(rows);
    forall i | 0 <= i < |Group(rows)| ensures |Group(rows)[i].agents| > 0 {
      AgentsInNonEmpty(rows, SortedFrameIds(rows)[i]);
    }
  }

  function TotalAgents(fs: seq<Frame>): nat
  {
    if fs == [] then 0 else |fs[0].agents| + TotalAgents(fs[1..])
  }

  function CountAt(rows: seq<Row>, ks: seq<int>): nat
    requires AllComplete(rows)
  {
    if ks == [] then 0 else |AgentsIn(rows, ks[0])| + CountAt(rows, ks[1..])
  }

  lemma {:induction false} TotalOfFrames(rows: seq<Row>, ks: seq<int>)
    requires AllComplete(rows)
    ensures TotalAgents(FramesFor(rows, ks)) == CountAt(rows, ks)
  {
    if ks != [] {
      assert FramesFor(rows, ks)[1..] == FramesFor(rows, ks[1..]);
      TotalOfFrames(rows, ks[1..]);
    }
  }

  lemma {:induction false} CountAtStep(rows: seq<Row>, ks: seq<int>)
    requires AllComplete(rows) && rows != [] && NoDuplicates(ks)
    ensures CountAt(rows, ks) ==
      CountAt(rows[..|rows| - 1], ks) + (if rows[|rows| - 1].frameId in ks then 1 else 0)
  {
    if ks != [] {
      assert NoDuplicates(ks[1..]) by {
        forall i, j | 0 <= i < j < |ks| - 1 ensures ks[1..][i] != ks[1..][j] {
          assert ks[1..][i] == ks[i + 1] && ks[1..][j] == ks[j + 1];
        }
      }
      CountAtStep(rows, ks[1..]);
      assert ks == [ks[0]] + ks[1..];
      assert ks[0] !in ks[1..] by {
        forall j | 0 <= j < |ks| - 1 ensures ks[1..][j] != ks[0] {
          assert ks[1..][j] == ks[j + 1];
        }
      }
    }
  }

  lemma {:induction false} CountAtCoversRows(rows: seq<Row>, ks: seq<int>)
    requires AllComplete(rows) && NoDuplicates(ks)
    requires forall i :: 0 <= i < |rows| ==> rows[i].frameId in ks
    ensures CountAt(rows, ks) == |rows|
  {
    if rows == [] {
      ZeroCounts(ks);
    } else {
      CountAtStep(rows, ks);
      CountAtCoversRows(rows[..|rows| - 1], ks);
    }
  }

  lemma {:induction false} ZeroCounts(ks: seq<int>)
    ensures CountAt([], ks) == 0
  {
    if ks != [] {
      ZeroCounts(ks[1..]);
    }
  }

  /** Every row becomes exactly one agent of exactly one frame. */
  lemma GroupKeepsEveryRow(rows: seq<Row>)
    requires AllComplete(rows)
    ensures TotalAgents(Group(rows)) == |rows|
  {
    var ks := SortedFrameIds(rows);
    SortedFrameIdsProps(rows);
    TotalOfFrames(rows, ks);
    CountAtCoversRows(rows, ks);
  }

  /** `_load_tracks_csv`: accumulate agents per frame id, then emit the frames by ascending id. */
  method LoadTracksCsv(rows: seq<Row>) returns (r: Result<seq<Frame>, TrackError>)
    ensures r.Ok? <==> AllComplete(rows)
    ensures r.Err? ==> var i := r.error.row;
      i < |rows| && !Complete(rows[i]) && AllComplete(rows[..i])
    ensures r.Ok? ==> AllComplete(rows) && r.value == Group(rows)
  {
    var agentsByFrame: map<int, seq<Agent>> := map[];
    var keyOrder: seq<int> := [];
    var i := 0;
    while i < |rows|
      invariant 0 <= i <= |rows|
      invariant Collected(rows, i, agentsByFrame, keyOrder)
    {
      if !Complete(rows[i]) {
        return Err(MissingColumn(i));
      }
      agentsByFrame, keyOrder := CollectRow(rows, i, agentsByFrame, keyOrder);
      i := i + 1;
    }
    assert rows[..i] == rows;
    var frames := SortedFrames(rows, agentsByFrame, keyOrder);
    r := Ok(frames);
  }

  /**
   * The grouping table after the first `n` rows: its keys in first-seen
   * order, and for each key the agents of those rows with that frame id.
   */
  ghost predicate Collected(rows: seq<Row>, n: nat, byFrame: map<int, seq<Agent>>, keys: seq<int>)
    requires n <= |rows|
  {
    && AllComplete(rows[..n])
    && keys == Distinct(FrameIds(rows[..n]))
    && (forall k :: k in byFrame <==> k in keys)
    && (forall k :: k in byFrame ==> byFrame[k] == AgentsIn(rows[..n], k))
  }

  /** The body of the grouping loop of `load_tracks_csv`, for a row with every column. */
  method CollectRow(rows: seq<Row>, i: nat, agentsByFrame: map<int, seq<Agent>>, keyOrder: seq<int>)
    returns (byFrame: map<int, seq<Agent>>, keys: seq<int>)
    requires i < |rows| && Complete(rows[i])
    requires Collected(rows, i, agentsByFrame, keyOrder)
    ensures Collected(rows, i + 1, byFrame, keys)
  {
    var row := rows[i];
    var frameId := row.frameId;
    var agent := Agent(row.trackId, Point(row.x, row.y), Extent(row.length.value, row.width.value), row.psiRad.value);
    byFrame, keys := agentsByFrame, keyOrder;
    if frameId !in byFrame {
      byFrame := byFrame[frameId := []];
      keys := keys + [frameId];
    }
    byFrame := byFrame[frameId := byFrame[frameId] + [agent]];
    CollectStep(rows, i, agentsByFrame, keyOrder);
  }

  /** One row of the grouping loop keeps the table equal to the grouping of the rows read so far. */
  lemma CollectStep(rows: seq<Row>, i: nat, byFrame: map<int, seq<Agent>>, keys: seq<int>)
    requires i < |rows| && AllComplete(rows[..i]) && Complete(rows[i])
    requires keys == Distinct(FrameIds(rows[..i]))
    requires forall k :: k in byFrame <==> k in keys
    requires forall k :: k in byFrame ==> byFrame[k] == AgentsIn(rows[..i], k)
    ensures AllComplete(rows[..i + 1])
    ensures var f := rows[i].frameId;
      var keys' := if f in byFrame then keys else keys + [f];
      var start := if f in byFrame then byFrame[f] else [];
      var byFrame' := byFrame[f := start + [RowAgent(rows[i])]];
      && keys' == Distinct(FrameIds(rows[..i + 1]))
      && (forall k :: k in byFrame' <==> k in keys')
      && (forall k :: k in byFrame' ==> byFrame'[k] == AgentsIn(rows[..i + 1], k))
  {
    assert rows[..i + 1][..i] == rows[..i];
    assert FrameIds(rows[..i + 1])[..i] == FrameIds(rows[..i]);
    var f := rows[i].frameId;
    if f !in byFrame {
      DistinctProps(FrameIds(rows[..i]));
      AgentsInNonEmpty(rows[..i], f);
    }
  }

  /** The end of `load_tracks_csv`: the collected frames, in ascending frame id. */
  method SortedFrames(rows: seq<Row>, agentsByFrame: map<int, seq<Agent>>, keyOrder: seq<int>)
    returns (frames: seq<Frame>)
    requires AllComplete(rows)
    requires keyOrder == Distinct(FrameIds(rows))
    requires forall k :: k in agentsByFrame <==> k in keyOrder
    requires forall k :: k in agentsByFrame ==> agentsByFrame[k] == AgentsIn(rows, k)
    ensures frames == Group(rows)
  {
    var sortedKeys := SortAscending(keyOrder);
    DistinctProps(FrameIds(rows));
    SortAscendingProps(keyOrder);
    forall j | 0 <= j < |sortedKeys| ensures sortedKeys[j] in agentsByFrame {
      assert sortedKeys[j] in multiset(sortedKeys);
    }
    frames := seq(|sortedKeys|, j requires 0 <= j < |sortedKeys| => Frame(agentsByFrame[sortedKeys[j]]));
  }

  /** The loaded frame list, indexable like a Python list. */
  datatype Tracks = Tracks(frames: seq<Frame>) {
    /** `len(tracks)` */
    function Len(): nat
    {
      |frames|
    }

    /** `tracks[idx]`: negative indexes count from the end; anything else out of range is an IndexError. */
    function Get(idx: int): Option<Frame>
    {
      if 0 <= idx < |frames| then Some(frames[idx])
      else if -|frames| <= idx < 0 then Some(frames[|frames| + idx])
      else None
    }
  }

  /** `tracks[i]` is the i-th frame, `tracks[i - len]` is the same frame, and nothing else exists. */
  lemma TracksIndexing(t: Tracks, i: int)
    ensures 0 <= i < t.Len() ==> t.Get(i) == Some(t.frames[i]) && t.Get(i - t.Len()) == t.Get(i)
    ensures t.Get(i).Some? <==> -(t.Len() as int) <= i < t.Len()
  {
  }
}
