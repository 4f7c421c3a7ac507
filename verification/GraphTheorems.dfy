/** What the reconstructed DAG guarantees: its shape, its longest path, and its stability
    while the history grows. */
module GraphTheorems {
  import opened History
  import opened GateMatching
  import opened CriticalPath
  import opened RunGraph
  import opened GraphBuild

  // ---- Layers and edges ----------------------------------------------------------------------

  lemma {:induction false} LayeredAt(vs: seq<Vertex>, keys: set<nat>)
    ensures |Layered(vs, keys)| == |vs|
    ensures forall i | 0 <= i < |vs| :: Layered(vs, keys)[i] == vs[i].node.(layer := Rank(keys, vs[i].layerKey))
  {
    hide Rank;
    if vs != [] {
      LayeredAt(vs[..|vs| - 1], keys);
    }
  }

  lemma RankOfKey(keys: set<nat>, key: nat) returns (ids: seq<nat>)
    requires key in keys
    ensures ids == Ascending(keys) && Rank(keys, key) < |ids| && ids[Rank(keys, key)] == key
    ensures forall i | 0 <= i < |ids| :: ids[i] in keys && Rank(keys, ids[i]) == i
  {
    hide Rank;
    ids := Ascending(keys);
    AscendingIsSorted(keys);
    forall i | 0 <= i < |ids| ensures ids[i] in keys && Rank(keys, ids[i]) == i {
      PositionIsRank(keys, ids, i);
      assert ids[i] in ids;
    }
    assert key in ids;
    var i :| 0 <= i < |ids| && ids[i] == key;
    PositionIsRank(keys, ids, i);
  }

  /** Layers are numbered 0..m with no holes. */
  lemma LayersHaveNoHoles(h: seq<HistoryEvent>, now: Now, layer: nat, below: nat)
    requires layer in Layers(Nodes(h, now)) && below <= layer
    ensures below in Layers(Nodes(h, now))
  {
    hide Vertices, Rank, Reduce;
    var vs := Vertices(Reduce(h), now);
    var ns, keys := Nodes(h, now), Keys(vs);
    LayeredAt(vs, keys);
    var n :| n in ns && n.layer == layer;
    var i :| 0 <= i < |ns| && ns[i] == n;
    assert vs[i].layerKey in keys;
    var ids := RankOfKey(keys, vs[i].layerKey);
    assert ids[below] in keys;
    var v :| v in vs && v.layerKey == ids[below];
    var j :| 0 <= j < |vs| && vs[j] == v;
    assert ns[j].layer == below && ns[j] in ns;
  }

  /** The layers in use are exactly 0, 1, 2, ... in order. */
  lemma LayersAreInitial(h: seq<HistoryEvent>, now: Now)
    ensures forall k | 0 <= k < |Ascending(Layers(Nodes(h, now)))| :: Ascending(Layers(Nodes(h, now)))[k] == k
  {
    hide Nodes, Layers, Ascending;
    var layers := Ascending(Layers(Nodes(h, now)));
    AscendingIsSorted(Layers(Nodes(h, now)));
    forall k | 0 <= k < |layers| ensures layers[k] == k {
      LayerIsItsPosition(h, now, k);
    }
  }

  lemma {:induction false} LayerIsItsPosition(h: seq<HistoryEvent>, now: Now, k: nat)
    requires k < |Ascending(Layers(Nodes(h, now)))|
    ensures Ascending(Layers(Nodes(h, now)))[k] == k
  {
    hide Nodes, Layers, Ascending;
    var layers := Ascending(Layers(Nodes(h, now)));
    AscendingIsSorted(Layers(Nodes(h, now)));
    assert layers[k] in layers;
    if k > 0 {
      LayerIsItsPosition(h, now, k - 1);
    }
    if layers[k] > k {
      LayersHaveNoHoles(h, now, layers[k], k);
      assert k in layers;
      var j :| 0 <= j < |layers| && layers[j] == k;
      assert false;
    }
  }

  lemma {:induction false} FromExactly(a: GraphNode, targets: seq<GraphNode>, e: GraphEdge)
    ensures e in EdgesFrom(a, targets) <==> exists b | b in targets :: e == Link(a, b)
  {
    hide Link;
    if targets != [] {
      var most, last := targets[..|targets| - 1], targets[|targets| - 1];
      assert targets == most + [last];
      FromExactly(a, most, e);
    }
  }

  lemma {:induction false} AcrossExactly(sources: seq<GraphNode>, targets: seq<GraphNode>, e: GraphEdge)
    ensures e in EdgesAcross(sources, targets) <==> exists a, b | a in sources && b in targets :: e == Link(a, b)
  {
    hide Link, EdgesFrom;
    if sources != [] {
      var most, last := sources[..|sources| - 1], sources[|sources| - 1];
      assert sources == most + [last];
      AcrossExactly(most, targets, e);
      FromExactly(last, targets, e);
    }
  }

  /** The edge joins vertices on consecutive layers, the later one at most `m`. */
  ghost predicate JoinsUpTo(ns: seq<GraphNode>, m: nat, e: GraphEdge) {
    exists a, b | a in ns && b in ns :: b.layer == a.layer + 1 && b.layer <= m && e == Link(a, b)
  }

  lemma {:induction false} UpToExactly(ns: seq<GraphNode>, layers: seq<nat>, k: nat, e: GraphEdge)
    requires k == 0 || k < |layers|
    requires forall i | 0 <= i < |layers| :: layers[i] == i
    ensures e in EdgesUpTo(ns, layers, k) <==> JoinsUpTo(ns, k, e)
  {
    hide Link, EdgesAcross, OnLayer;
    if k > 0 {
      UpToExactly(ns, layers, k - 1, e);
      AcrossExactly(OnLayer(ns, k - 1), OnLayer(ns, k), e);
      OnLayerIsFilter(ns, k - 1);
      OnLayerIsFilter(ns, k);
    }
  }

  /** Edges join exactly the pairs of vertices on consecutive layers, from the earlier to the later
      one, and are done when the earlier one completed. */
  lemma EdgesJoinConsecutiveLayers(h: seq<HistoryEvent>, now: Now, e: GraphEdge)
    ensures e in Edges(Nodes(h, now)) <==>
      exists a, b | a in Nodes(h, now) && b in Nodes(h, now) ::
        b.layer == a.layer + 1 && e.source == a.id && e.target == b.id && (e.done <==> a.state == Ended(Completed))
  {
    hide Nodes;
    EdgesAreLinks(h, now, e);
  }

  lemma EdgesAreLinks(h: seq<HistoryEvent>, now: Now, e: GraphEdge)
    ensures e in Edges(Nodes(h, now)) <==>
      exists a, b | a in Nodes(h, now) && b in Nodes(h, now) :: b.layer == a.layer + 1 && e == Link(a, b)
  {
    hide Nodes, Link, Layers, Ascending, EdgesUpTo;
    var ns := Nodes(h, now);
    var layers := Ascending(Layers(ns));
    LayersAreInitial(h, now);
    AscendingIsSorted(Layers(ns));
    if layers != [] { UpToExactly(ns, layers, |layers| - 1, e); }
    forall n | n in ns ensures n.layer < |layers| {
      InLayers(ns, n);
      var k :| 0 <= k < |layers| && layers[k] == n.layer;
    }
  }

  /** Marking changes nothing but the mark, and marks exactly the vertices whose ids are on the path. */
  lemma {:induction false} MarksExactlyThePath(ns: seq<GraphNode>, path: seq<string>)
    ensures |Mark(ns, path)| == |ns|
    ensures forall i | 0 <= i < |ns| ::
      (Mark(ns, path)[i].onCriticalPath <==> ns[i].id in path) && Mark(ns, path)[i].(onCriticalPath := ns[i].onCriticalPath) == ns[i]
  {
    if ns != [] { MarksExactlyThePath(ns[..|ns| - 1], path); }
  }

  lemma InLayers(ns: seq<GraphNode>, n: GraphNode)
    requires n in ns
    ensures n.layer in Layers(ns)
  {}

  // ---- The vertices drawn ------------------------------------------------------------------------

  /** The vertex of a scheduled activity that is not a close. */
  ghost function VertexOf(r: Reduction, now: Now, ss: seq<Sched>, s: Sched): Vertex {
    if IsOpen(s) then GateVertex(s, ResolvedBy(Opens(ss), Closes(ss), s.eventId), r, now.terminal)
    else ActivityVertex(s, r, ByActivity(now.pending))
  }

  lemma {:induction false} ActivitiesDrawn(ss: seq<Sched>, r: Reduction, pending: map<string, Pending>, v: Vertex)
    ensures v in ActivityVertices(ss, r, pending) <==>
      exists s | s in ss :: !IsOpen(s) && !IsClose(s) && v == ActivityVertex(s, r, pending)
  {
    hide IsOpen, IsClose, ActivityVertex;
    if ss != [] {
      var most, last := ss[..|ss| - 1], ss[|ss| - 1];
      assert ss == most + [last];
      ActivitiesDrawn(most, r, pending, v);
      assert last in ss;
    }
  }

  lemma {:induction false} GatesDrawn(some: seq<Sched>, opens: seq<Sched>, closes: seq<Sched>, r: Reduction, terminalRun: bool, v: Vertex)
    ensures v in GateVertices(some, opens, closes, r, terminalRun) <==>
      exists s | s in some :: v == GateVertex(s, ResolvedBy(opens, closes, s.eventId), r, terminalRun)
  {
    hide GateVertex, ResolvedBy;
    if some != [] {
      var most, last := some[..|some| - 1], some[|some| - 1];
      assert some == most + [last];
      GatesDrawn(most, opens, closes, r, terminalRun, v);
      assert last in some;
    }
  }

  lemma {:induction false} OpensAreOpen(ss: seq<Sched>, s: Sched)
    ensures s in Opens(ss) <==> s in ss && IsOpen(s)
  {
    hide IsOpen;
    if ss != [] {
      assert ss == ss[..|ss| - 1] + [ss[|ss| - 1]];
      OpensAreOpen(ss[..|ss| - 1], s);
    }
  }

  /** One vertex for every scheduled activity that is not a close, and no other. */
  lemma DrawnExactly(r: Reduction, now: Now, v: Vertex)
    ensures v in Drawn(r, now) <==> exists s | s in Ordered(r) :: !IsClose(s) && v == VertexOf(r, now, Ordered(r), s)
  {
    hide IsOpen, IsClose, ActivityVertex, GateVertex, ResolvedBy, Ordered;
    var ss := Ordered(r);
    ActivitiesDrawn(ss, r, ByActivity(now.pending), v);
    GatesDrawn(Opens(ss), Opens(ss), Closes(ss), r, now.terminal, v);
    forall s ensures s in Opens(ss) <==> s in ss && IsOpen(s) { OpensAreOpen(ss, s); }
    forall s ensures !(IsOpen(s) && IsClose(s)) { NotBoth(s); }
    if s :| s in ss && !IsClose(s) && v == VertexOf(r, now, ss, s) {
      if IsOpen(s) { assert s in Opens(ss); }
    }
  }

  // ---- Distinct ids and measured times -------------------------------------------------------------

  lemma VertexIdsDiffer(r: Reduction, now: Now, ss: seq<Sched>, s: Sched, t: Sched)
    requires s.eventId != t.eventId
    ensures VertexOf(r, now, ss, s).node.id != VertexOf(r, now, ss, t).node.id
    ensures VertexOf(r, now, ss, s).node.id != WAIT_ID
  {
    hide IsOpen, Decimal, ActivityState, ResolvedBy;
    var a, b := VertexOf(r, now, ss, s).node.id, VertexOf(r, now, ss, t).node.id;
    assert a[0] == (if IsOpen(s) then 'g' else 'a') && b[0] == (if IsOpen(t) then 'g' else 'a');
    if a == b {
      if IsOpen(s) {
        assert a[5..] == Decimal(s.eventId) && b[5..] == Decimal(t.eventId);
      } else {
        assert a[1..] == Decimal(s.eventId) && b[1..] == Decimal(t.eventId);
      }
      DecimalIsInjective(s.eventId, t.eventId);
    }
  }

  lemma OrderedIsInjective(h: seq<HistoryEvent>, s: Sched, t: Sched)
    requires s in Ordered(Reduce(h)) && t in Ordered(Reduce(h)) && s.eventId == t.eventId
    ensures s == t
  {
    OrderedInEventOrder(h);
    hide Reduce, Ordered;
    var ss := Ordered(Reduce(h));
    var i :| 0 <= i < |ss| && ss[i] == s;
    var j :| 0 <= j < |ss| && ss[j] == t;
    assert i == j;
  }

  lemma WaitIsLast(r: Reduction, now: Now)
    ensures Vertices(r, now) == Drawn(r, now) || Vertices(r, now) == Drawn(r, now) + [WaitVertex(MaxKey(Drawn(r, now)) + 1)]
  {
    hide Drawn, NeedsWait, MaxKey, WaitVertex;
  }

  lemma VertexIdsAreDistinct(h: seq<HistoryEvent>, now: Now, v: Vertex, w: Vertex)
    requires v in Vertices(Reduce(h), now) && w in Vertices(Reduce(h), now) && v.node.id == w.node.id
    ensures v == w
  {
    hide Vertices, Drawn, IsClose, VertexOf, Reduce, Ordered;
    var r := Reduce(h);
    WaitIsLast(r, now);
    DrawnExactly(r, now, v);
    DrawnExactly(r, now, w);
    if v in Drawn(r, now) {
      var s :| s in Ordered(r) && !IsClose(s) && v == VertexOf(r, now, Ordered(r), s);
      VertexIdsDiffer(r, now, Ordered(r), s, s.(eventId := s.eventId + 1));
      if w in Drawn(r, now) {
        var t :| t in Ordered(r) && !IsClose(t) && w == VertexOf(r, now, Ordered(r), t);
        if s.eventId != t.eventId {
          VertexIdsDiffer(r, now, Ordered(r), s, t);
        } else {
          OrderedIsInjective(h, s, t);
        }
      }
    } else if w in Drawn(r, now) {
      var t :| t in Ordered(r) && !IsClose(t) && w == VertexOf(r, now, Ordered(r), t);
      VertexIdsDiffer(r, now, Ordered(r), t, t.(eventId := t.eventId + 1));
    }
  }

  lemma DurationsAreNonnegative(r: Reduction, now: Now, v: Vertex)
    requires v in Vertices(r, now)
    ensures v.node.duration.Some? ==> v.node.duration.value >= 0.0
  {
    hide Vertices, Drawn, IsOpen, IsClose, ActivityState, ResolvedBy, Ordered, Decimal;
    WaitIsLast(r, now);
    DrawnExactly(r, now, v);
  }

  lemma NodesAreWellBehaved(h: seq<HistoryEvent>, now: Now)
    ensures DistinctIds(Nodes(h, now))
    ensures forall n | n in Nodes(h, now) && n.duration.Some? :: n.duration.value >= 0.0
  {
    hide Vertices, Rank, Reduce;
    var r := Reduce(h);
    var vs, ns := Vertices(r, now), Nodes(h, now);
    LayeredAt(vs, Keys(vs));
    forall m, n | m in ns && n in ns && m.id == n.id ensures m == n {
      var i :| 0 <= i < |ns| && ns[i] == m;
      var j :| 0 <= j < |ns| && ns[j] == n;
      VertexIdsAreDistinct(h, now, vs[i], vs[j]);
    }
    forall n | n in ns && n.duration.Some? ensures n.duration.value >= 0.0 {
      var i :| 0 <= i < |ns| && ns[i] == n;
      DurationsAreNonnegative(r, now, vs[i]);
    }
  }

  /** No way through the DAG, one vertex per layer from the first to the last, takes longer
      than the critical path; the path is such a way; and it does not depend on the order in
      which the vertices are listed. */
  lemma CriticalPathIsOptimal(h: seq<HistoryEvent>, now: Now, chain: seq<GraphNode>, listed: seq<GraphNode>)
    requires IsChain(Nodes(h, now), Ascending(Layers(Nodes(h, now))), chain)
    requires SameNodes(Nodes(h, now), listed)
    ensures IsChain(Nodes(h, now), Ascending(Layers(Nodes(h, now))), BestChain(Nodes(h, now)))
    ensures Time(chain) <= Time(BestChain(Nodes(h, now)))
    ensures BestChain(listed) == BestChain(Nodes(h, now))
  {
    var ns := Nodes(h, now);
    NodesAreWellBehaved(h, now);
    AscendingIsSorted(Layers(ns));
    hide Nodes, Layers, Ascending, Chain, Time, IsChain, SameNodes, DistinctIds;
    ChainIsAChain(ns, Ascending(Layers(ns)));
    CriticalPathIsLongest(ns, Ascending(Layers(ns)), chain);
    InputOrderIsIrrelevant(ns, listed);
  }
}
