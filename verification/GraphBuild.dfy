/** Assembly of the DAG: layers, edges and the critical path
    (services/api-gateway/ancora_api/graph.py, `build_graph`). */
module GraphBuild {
  import opened Common
  import opened History
  import opened GateMatching
  import opened CriticalPath
  import opened RunGraph

  /** What the caller knows beside the history. */
  datatype Now = Now(terminal: bool, pending: seq<Pending>, hasPendingWorkflowTask: bool)

  /** `{pa.activity_id: pa for pa in pending}`: a later entry wins. */
  function ByActivity(ps: seq<Pending>): map<string, Pending> {
    if ps == [] then map[] else ByActivity(ps[..|ps| - 1])[ps[|ps| - 1].activityId := ps[|ps| - 1]]
  }

  /** Scheduled activities in event order. */
  ghost function Ordered(r: Reduction): seq<Sched> {
    AscendingIsSorted(r.scheduled.Keys);
    Values(r.scheduled, Ascending(r.scheduled.Keys))
  }

  function Values(m: map<nat, Sched>, ids: seq<nat>): seq<Sched>
    requires forall id | id in ids :: id in m
  {
    if ids == [] then [] else Values(m, ids[..|ids| - 1]) + [m[ids[|ids| - 1]]]
  }

  function ActivityVertices(ss: seq<Sched>, r: Reduction, pending: map<string, Pending>): seq<Vertex> {
    if ss == [] then []
    else
      var s := ss[|ss| - 1];
      ActivityVertices(ss[..|ss| - 1], r, pending) + (if IsOpen(s) || IsClose(s) then [] else [ActivityVertex(s, r, pending)])
  }

  function GateVertices(some: seq<Sched>, opens: seq<Sched>, closes: seq<Sched>, r: Reduction, terminalRun: bool): seq<Vertex> {
    if some == [] then []
    else
      var s := some[|some| - 1];
      GateVertices(some[..|some| - 1], opens, closes, r, terminalRun)
      + [GateVertex(s, ResolvedBy(opens, closes, s.eventId), r, terminalRun)]
  }

  /** Every vertex that stands for something scheduled. */
  ghost function Drawn(r: Reduction, now: Now): seq<Vertex> {
    var ss := Ordered(r);
    ActivityVertices(ss, r, ByActivity(now.pending)) + GateVertices(Opens(ss), Opens(ss), Closes(ss), r, now.terminal)
  }

  predicate ParkedAtGate(vs: seq<Vertex>) { exists v | v in vs :: v.node.kind.Gate? && v.node.state.Parked? }

  predicate NeedsWait(r: Reduction, now: Now, vs: seq<Vertex>) {
    !(now.terminal || ParkedAtGate(vs) || now.pending != [] || now.hasPendingWorkflowTask) && r.parked && vs != []
  }

  function MaxKey(vs: seq<Vertex>): nat {
    if vs == [] then 0
    else
      var rest := MaxKey(vs[..|vs| - 1]);
      if vs[|vs| - 1].layerKey > rest then vs[|vs| - 1].layerKey else rest
  }

  function WaitVertex(layerKey: nat): Vertex {
    Vertex(GraphNode(WAIT_ID, Wait, 0, NodeState.Parked, 1, None, None, None, None, None, None, false), layerKey)
  }

  /** The drawn vertices and, when the run is parked with nothing to point at, a synthetic wait. */
  ghost function Vertices(r: Reduction, now: Now): seq<Vertex> {
    var drawn := Drawn(r, now);
    if NeedsWait(r, now, drawn) then drawn + [WaitVertex(MaxKey(drawn) + 1)] else drawn
  }

  function Keys(vs: seq<Vertex>): set<nat> { set v | v in vs :: v.layerKey }

  /** Layer keys are compacted into consecutive ranks. */
  function Rank(keys: set<nat>, key: nat): nat { |Below(keys, key)| }

  function Below(keys: set<nat>, key: nat): set<nat> { set k | k in keys && k < key }

  function Layered(vs: seq<Vertex>, keys: set<nat>): seq<GraphNode> {
    if vs == [] then []
    else
      var v := vs[|vs| - 1];
      Layered(vs[..|vs| - 1], keys) + [v.node.(layer := Rank(keys, v.layerKey))]
  }

  /** The graph's nodes, before the critical path is marked on them. */
  ghost function Nodes(h: seq<HistoryEvent>, now: Now): seq<GraphNode> {
    var vs := Vertices(Reduce(h), now);
    Layered(vs, Keys(vs))
  }

  datatype GraphEdge = GraphEdge(source: string, target: string, done: bool)

  function Mark(ns: seq<GraphNode>, path: seq<string>): seq<GraphNode> {
    if ns == [] then []
    else Mark(ns[..|ns| - 1], path) + [ns[|ns| - 1].(onCriticalPath := ns[|ns| - 1].id in path)]
  }

  function Link(a: GraphNode, b: GraphNode): GraphEdge { GraphEdge(a.id, b.id, a.state == Ended(Completed)) }

  /** The edges from one vertex to a layer, from one layer to another, and from each of the
      first `k` layers to its successor. */
  function EdgesFrom(a: GraphNode, targets: seq<GraphNode>): seq<GraphEdge> {
    if targets == [] then [] else EdgesFrom(a, targets[..|targets| - 1]) + [Link(a, targets[|targets| - 1])]
  }

  function EdgesAcross(sources: seq<GraphNode>, targets: seq<GraphNode>): seq<GraphEdge> {
    if sources == [] then []
    else EdgesAcross(sources[..|sources| - 1], targets) + EdgesFrom(sources[|sources| - 1], targets)
  }

  function EdgesUpTo(ns: seq<GraphNode>, layers: seq<nat>, k: nat): seq<GraphEdge>
    requires k == 0 || k < |layers|
  {
    if k == 0 then []
    else EdgesUpTo(ns, layers, k - 1) + EdgesAcross(OnLayer(ns, layers[k - 1]), OnLayer(ns, layers[k]))
  }

  ghost function Edges(ns: seq<GraphNode>): seq<GraphEdge> {
    var layers := Ascending(Layers(ns));
    if layers == [] then [] else EdgesUpTo(ns, layers, |layers| - 1)
  }

  // ---- Event order -------------------------------------------------------------------------

  ghost predicate KeyedById(m: map<nat, Sched>) { forall k | k in m :: m[k].eventId == k }

  lemma {:induction false} ScheduledByEventId(h: seq<HistoryEvent>)
    ensures KeyedById(Reduce(h).scheduled)
  {
    if h != [] {
      ScheduledByEventId(h[..|h| - 1]);
    }
  }

  lemma {:induction false} ValuesAt(m: map<nat, Sched>, ids: seq<nat>)
    requires forall id | id in ids :: id in m
    ensures |Values(m, ids)| == |ids| && forall i | 0 <= i < |ids| :: Values(m, ids)[i] == m[ids[i]]
  {
    if ids != [] {
      ValuesAt(m, ids[..|ids| - 1]);
    }
  }

  lemma {:induction false} OpensInOrder(ss: seq<Sched>)
    requires InEventOrder(ss)
    ensures InEventOrder(Opens(ss)) && forall s | s in Opens(ss) :: s in ss
  {
    hide IsOpen;
    if ss != [] {
      var most, last := ss[..|ss| - 1], ss[|ss| - 1];
      OpensInOrder(most);
      forall i | 0 <= i < |Opens(most)| ensures Opens(most)[i].eventId < last.eventId {
        assert Opens(most)[i] in Opens(most);
        var j :| 0 <= j < |most| && most[j] == Opens(most)[i];
        assert ss[j] == most[j];
      }
    }
  }

  lemma OrderedInEventOrder(h: seq<HistoryEvent>)
    ensures InEventOrder(Ordered(Reduce(h))) && InEventOrder(Opens(Ordered(Reduce(h))))
  {
    var m := Reduce(h).scheduled;
    var ids := Ascending(m.Keys);
    ScheduledByEventId(h);
    AscendingIsSorted(m.Keys);
    ValuesAt(m, ids);
    assert InEventOrder(Ordered(Reduce(h))) by {
      forall i, j | 0 <= i < j < |ids| ensures Ordered(Reduce(h))[i].eventId < Ordered(Reduce(h))[j].eventId {
        assert ids[i] in ids && ids[j] in ids;
      }
    }
    hide Ordered, Reduce, Opens, InEventOrder;
    OpensInOrder(Ordered(Reduce(h)));
  }

  // ---- The program's loops -----------------------------------------------------------------

  method Collect(r: Reduction, now: Now) returns (vs: seq<Vertex>)
    requires InEventOrder(Opens(Ordered(r)))
    ensures vs == Drawn(r, now)
  {
    hide IsOpen, IsClose, ActivityVertex, GateVertex, Ascending, ResolvedBy, InEventOrder;
    var ids := SortIds(r.scheduled.Keys);
    AscendingIsSorted(r.scheduled.Keys);
    var pending := ByActivity(now.pending);
    var opens: seq<Sched>, closes: seq<Sched> := [], [];
    ghost var ss: seq<Sched> := [];
    vs := [];
    for i := 0 to |ids|
      invariant ss == Values(r.scheduled, ids[..i])
      invariant opens == Opens(ss) && closes == Closes(ss) && vs == ActivityVertices(ss, r, pending)
    {
      assert ids[..i + 1][..i] == ids[..i];
      var sched := r.scheduled[ids[i]];
      NotBoth(sched);
      assert (ss + [sched])[..|ss|] == ss;
      ss := ss + [sched];
      if IsOpen(sched) {
        opens := opens + [sched];
      } else if IsClose(sched) {
        closes := closes + [sched];
      } else {
        vs := vs + [ActivityVertex(sched, r, pending)];
      }
    }
    assert ids[..|ids|] == ids;
    var gates := CollectGates(opens, closes, r, now.terminal);
    vs := vs + gates;
  }

  method CollectGates(opens: seq<Sched>, closes: seq<Sched>, r: Reduction, terminalRun: bool) returns (gates: seq<Vertex>)
    requires InEventOrder(opens)
    ensures gates == GateVertices(opens, opens, closes, r, terminalRun)
  {
    hide ResolvedBy, GateVertex, InEventOrder;
    var resolved := MatchGates(opens, closes);
    gates := [];
    for i := 0 to |opens|
      invariant gates == GateVertices(opens[..i], opens, closes, r, terminalRun)
    {
      assert opens[..i + 1][..i] == opens[..i];
      var id := opens[i].eventId;
      gates := gates + [GateVertex(opens[i], if id in resolved then Some(resolved[id]) else None, r, terminalRun)];
    }
    assert opens[..|opens|] == opens;
  }

  /** `{key: i for i, key in enumerate(sorted(keys))}`. */
  method RankKeys(keys: set<nat>) returns (ranks: map<nat, nat>)
    ensures ranks == map k | k in keys :: Rank(keys, k)
  {
    hide Ascending;
    var ids := SortIds(keys);
    AscendingIsSorted(keys);
    ranks := map[];
    for i := 0 to |ids|
      invariant forall k :: k in ranks <==> k in ids[..i]
      invariant forall k | k in ranks :: ranks[k] == Rank(keys, k)
    {
      PositionIsRank(keys, ids, i);
      ranks := ranks[ids[i] := i];
    }
    assert ids[..|ids|] == ids;
  }

  lemma BelowNext(keys: set<nat>, ids: seq<nat>, i: nat)
    requires (forall x :: x in ids <==> x in keys) && Ascends(ids) && i < |ids|
    ensures Below(keys, ids[i]) == if i == 0 then {} else Below(keys, ids[i - 1]) + {ids[i - 1]}
  {
    forall k | k in Below(keys, ids[i]) ensures i > 0 && k <= ids[i - 1] {
      assert k in ids;
      var j :| 0 <= j < |ids| && ids[j] == k;
    }
    if i > 0 { assert ids[i - 1] in ids; }
  }

  lemma {:induction false} PositionIsRank(keys: set<nat>, ids: seq<nat>, i: nat)
    requires (forall x :: x in ids <==> x in keys) && Ascends(ids) && i < |ids|
    ensures Rank(keys, ids[i]) == i
  {
    BelowNext(keys, ids, i);
    hide Ascends;
    if i > 0 {
      PositionIsRank(keys, ids, i - 1);
    }
  }

  /** Connects every vertex of one layer to every vertex of the next. */
  method ConnectLayers(sources: seq<GraphNode>, targets: seq<GraphNode>) returns (edges: seq<GraphEdge>)
    ensures edges == EdgesAcross(sources, targets)
  {
    hide Link;
    edges := [];
    for i := 0 to |sources|
      invariant edges == EdgesAcross(sources[..i], targets)
    {
      ghost var before := edges;
      for j := 0 to |targets|
        invariant edges == before + EdgesFrom(sources[i], targets[..j])
      {
        assert targets[..j + 1][..j] == targets[..j];
        edges := edges + [Link(sources[i], targets[j])];
      }
      assert targets[..|targets|] == targets && sources[..i + 1][..i] == sources[..i];
    }
    assert sources[..|sources|] == sources;
  }

  method Connect(ns: seq<GraphNode>) returns (edges: seq<GraphEdge>)
    ensures edges == Edges(ns)
  {
    hide OnLayer, Ascending, Layers, EdgesAcross;
    var byLayer := GroupByLayer(ns);
    var ordered := SortIds(byLayer.Keys);
    AscendingIsSorted(byLayer.Keys);
    edges := [];
    var k := 0;
    while k + 1 < |ordered|
      invariant (k == 0 || k < |ordered|) && edges == EdgesUpTo(ns, ordered, k)
    {
      assert ordered[k] in byLayer && ordered[k + 1] in byLayer;
      var more := ConnectLayers(byLayer[ordered[k]], byLayer[ordered[k + 1]]);
      edges := edges + more;
      k := k + 1;
    }
  }

  /** The whole reconstruction. `marked` are the nodes with the critical path noted on them. */
  method BuildGraph(h: seq<HistoryEvent>, now: Now)
    returns (marked: seq<GraphNode>, edges: seq<GraphEdge>, path: seq<string>, seconds: Option<real>)
    ensures marked == Mark(Nodes(h, now), path)
    ensures edges == Edges(Nodes(h, now))
    ensures path == IdsOf(BestChain(Nodes(h, now)))
    ensures seconds == if Measured(BestChain(Nodes(h, now))) then Some(Time(BestChain(Nodes(h, now)))) else None
  {
    hide Drawn, NeedsWait, BestChain, IdsOf, Measured, Time, Edges, InEventOrder, Keys, Reduce, Rank;
    OrderedInEventOrder(h);
    var r := ReduceHistory(h);
    var vs := Collect(r, now);
    if NeedsWait(r, now, vs) {
      vs := vs + [WaitVertex(MaxKey(vs) + 1)];
    }
    var ranks := RankKeys(Keys(vs));
    var ns := PlaceOnLayers(vs, ranks);
    edges := Connect(ns);
    path, seconds := FindCriticalPath(ns);
    marked := [];
    for i := 0 to |ns|
      invariant marked == Mark(ns[..i], path)
    {
      assert ns[..i + 1][..i] == ns[..i];
      marked := marked + [ns[i].(onCriticalPath := ns[i].id in path)];
    }
    assert ns[..|ns|] == ns;
  }

  method PlaceOnLayers(vs: seq<Vertex>, ranks: map<nat, nat>) returns (ns: seq<GraphNode>)
    requires ranks == map k | k in Keys(vs) :: Rank(Keys(vs), k)
    ensures ns == Layered(vs, Keys(vs))
  {
    hide Rank;
    ns := [];
    for i := 0 to |vs|
      invariant ns == Layered(vs[..i], Keys(vs))
    {
      assert vs[..i + 1][..i] == vs[..i];
      assert vs[i].layerKey in Keys(vs);
      ns := ns + [vs[i].node.(layer := ranks[vs[i].layerKey])];
    }
    assert vs[..|vs|] == vs;
  }
}
