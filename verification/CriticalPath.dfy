/** The chain of vertices that sets a run's wall-clock time
    (services/api-gateway/ancora_api/graph.py, `critical_path`). */
module CriticalPath {
  import opened Common
  import opened History

  datatype NodeKind = NodeCall | Activity | Gate | Wait

  datatype NodeState = Queued | Running | Retrying | Parked | Ended(outcome: Outcome)

  datatype GraphNode = GraphNode(
    id: string, kind: NodeKind, layer: nat, state: NodeState,
    attempts: int, worker: Option<string>, startedAt: Instant, endedAt: Instant, duration: Option<real>,
    failure: Option<string>, decision: Option<GateDecision>, onCriticalPath: bool)

  // ---- Python's order on strings ------------------------------------------------------

  predicate StringLeq(a: string, b: string) {
    if a == "" then true
    else if b == "" then false
    else a[0] < b[0] || (a[0] == b[0] && StringLeq(a[1..], b[1..]))
  }

  lemma {:induction false} StringLeqTotal(a: string, b: string)
    ensures StringLeq(a, b) || StringLeq(b, a)
    ensures StringLeq(a, b) && StringLeq(b, a) ==> a == b
  {
    if a != "" && b != "" && a[0] == b[0] {
      StringLeqTotal(a[1..], b[1..]);
      assert a == [a[0]] + a[1..] && b == [b[0]] + b[1..];
    }
  }

  lemma {:induction false} StringLeqTransitive(a: string, b: string, c: string)
    requires StringLeq(a, b) && StringLeq(b, c)
    ensures StringLeq(a, c)
  {
    if a != "" && b != "" && c != "" && a[0] == b[0] == c[0] {
      StringLeqTransitive(a[1..], b[1..], c[1..]);
    }
  }

  // ---- The choice within a layer --------------------------------------------------------

  /** `duration_seconds or -1.0`: a duration of exactly zero counts like an unmeasured one. */
  function SortKey(n: GraphNode): real {
    if n.duration.Some? && n.duration.value != 0.0 then n.duration.value else -1.0
  }

  predicate KeyLeq(a: GraphNode, b: GraphNode) {
    SortKey(a) < SortKey(b) || (SortKey(a) == SortKey(b) && StringLeq(a.id, b.id))
  }

  /** `max` with that key: the first of the greatest. */
  function Slowest(ns: seq<GraphNode>): GraphNode
    requires ns != []
  {
    var last := ns[|ns| - 1];
    if |ns| == 1 then last
    else
      var best := Slowest(ns[..|ns| - 1]);
      if KeyLeq(last, best) then best else last
  }

  method PickSlowest(ns: seq<GraphNode>) returns (best: GraphNode)
    requires ns != []
    ensures best == Slowest(ns)
  {
    hide KeyLeq;
    best := ns[0];
    assert ns[..1] == [ns[0]];
    for i := 1 to |ns|
      invariant best == Slowest(ns[..i])
    {
      assert ns[..i + 1][..i] == ns[..i];
      if !KeyLeq(ns[i], best) {
        best := ns[i];
      }
    }
    assert ns[..|ns|] == ns;
  }

  lemma MostOrLast(ns: seq<GraphNode>)
    requires ns != []
    ensures forall n | n in ns :: n in ns[..|ns| - 1] || n == ns[|ns| - 1]
    ensures forall n | n in ns[..|ns| - 1] :: n in ns
    ensures ns[|ns| - 1] in ns
  {}

  lemma KeyLeqOrders(a: GraphNode, b: GraphNode, c: GraphNode)
    ensures KeyLeq(a, b) || KeyLeq(b, a)
    ensures KeyLeq(a, b) && KeyLeq(b, c) ==> KeyLeq(a, c)
  {
    hide StringLeq, SortKey;
    StringLeqTotal(a.id, b.id);
    if StringLeq(a.id, b.id) && StringLeq(b.id, c.id) {
      StringLeqTransitive(a.id, b.id, c.id);
    }
  }

  lemma {:induction false} SlowestIsGreatest(ns: seq<GraphNode>)
    requires ns != []
    ensures Slowest(ns) in ns && forall n | n in ns :: KeyLeq(n, Slowest(ns))
  {
    hide KeyLeq;
    var most, last := ns[..|ns| - 1], ns[|ns| - 1];
    KeyLeqOrders(last, last, last);
    if |ns| == 1 {
      assert ns == [last];
    } else {
      SlowestIsGreatest(most);
      var best, top := Slowest(most), Slowest(ns);
      KeyLeqOrders(last, best, last);
      hide Slowest;
      MostOrLast(ns);
      forall n | n in ns ensures KeyLeq(n, top) {
        KeyLeqOrders(n, best, last);
      }
    }
  }

  // ---- Layers ----------------------------------------------------------------------------

  function OnLayer(ns: seq<GraphNode>, layer: nat): seq<GraphNode> {
    if ns == [] then []
    else OnLayer(ns[..|ns| - 1], layer) + (if ns[|ns| - 1].layer == layer then [ns[|ns| - 1]] else [])
  }

  function Layers(ns: seq<GraphNode>): set<nat> { set n | n in ns :: n.layer }

  lemma {:induction false} OnLayerIsFilter(ns: seq<GraphNode>, layer: nat)
    ensures forall n :: n in OnLayer(ns, layer) <==> n in ns && n.layer == layer
  {
    if ns != [] {
      var most, last := ns[..|ns| - 1], ns[|ns| - 1];
      assert ns == most + [last];
      OnLayerIsFilter(most, layer);
    }
  }

  /** One vertex per layer, in ascending layer order. */
  ghost function Chain(ns: seq<GraphNode>, layers: seq<nat>): seq<GraphNode>
    requires forall l | l in layers :: l in Layers(ns)
  {
    if layers == [] then []
    else
      var last := layers[|layers| - 1];
      LayerIsInhabited(ns, last);
      Chain(ns, layers[..|layers| - 1]) + [Slowest(OnLayer(ns, last))]
  }

  lemma LayerIsInhabited(ns: seq<GraphNode>, layer: nat)
    requires layer in Layers(ns)
    ensures OnLayer(ns, layer) != []
  {
    OnLayerIsFilter(ns, layer);
    var n :| n in ns && n.layer == layer;
    assert n in OnLayer(ns, layer);
  }

  /** The time of a chain: unmeasured vertices take none. */
  function Time(chain: seq<GraphNode>): real {
    if chain == [] then 0.0
    else Time(chain[..|chain| - 1]) + (if chain[|chain| - 1].duration.Some? then chain[|chain| - 1].duration.value else 0.0)
  }

  predicate Measured(chain: seq<GraphNode>) { exists n | n in chain :: n.duration.Some? }

  function IdsOf(chain: seq<GraphNode>): seq<string> {
    if chain == [] then [] else IdsOf(chain[..|chain| - 1]) + [chain[|chain| - 1].id]
  }

  ghost function BestChain(ns: seq<GraphNode>): seq<GraphNode> {
    AscendingIsSorted(Layers(ns));
    Chain(ns, Ascending(Layers(ns)))
  }

  method GroupByLayer(ns: seq<GraphNode>) returns (byLayer: map<nat, seq<GraphNode>>)
    ensures byLayer.Keys == Layers(ns)
    ensures forall l | l in byLayer :: byLayer[l] == OnLayer(ns, l)
  {
    hide OnLayer, Layers;
    byLayer := map[];
    NoNodes();
    for i := 0 to |ns|
      invariant byLayer.Keys == Layers(ns[..i])
      invariant forall l | l in byLayer :: byLayer[l] == OnLayer(ns[..i], l)
    {
      var n := ns[i];
      OneMoreNode(ns, i);
      byLayer := byLayer[n.layer := (if n.layer in byLayer then byLayer[n.layer] else []) + [n]];
    }
    assert ns[..|ns|] == ns;
  }

  lemma NoNodes()
    ensures Layers([]) == {}
  {}

  /** The chain's ids and its time, `None` unless one of the chosen vertices is measured. */
  method FindCriticalPath(ns: seq<GraphNode>) returns (path: seq<string>, seconds: Option<real>)
    ensures path == IdsOf(BestChain(ns))
    ensures seconds == if Measured(BestChain(ns)) then Some(Time(BestChain(ns))) else None
  {
    hide OnLayer, Layers, Slowest, Ascending, Chain, Measured, Time, IdsOf;
    var byLayer := GroupByLayer(ns);
    var ordered := SortIds(byLayer.Keys);
    AscendingIsSorted(byLayer.Keys);
    path := [];
    var total, measured := 0.0, false;
    ghost var chain: seq<GraphNode> := [];
    EmptyChain(ns);
    for k := 0 to |ordered|
      invariant chain == Chain(ns, ordered[..k])
      invariant path == IdsOf(chain) && total == Time(chain) && measured == Measured(chain)
    {
      assert ordered[k] in byLayer;
      LayerIsInhabited(ns, ordered[k]);
      var slowest := PickSlowest(byLayer[ordered[k]]);
      assert ordered[..k + 1] == ordered[..k] + [ordered[k]];
      ChainOneMore(ns, ordered[..k], ordered[k]);
      ChainMeasures(chain, slowest);
      chain := chain + [slowest];
      path := path + [slowest.id];
      if slowest.duration.Some? {
        total := total + slowest.duration.value;
        measured := true;
      }
    }
    assert ordered[..|ordered|] == ordered;
    seconds := if measured then Some(total) else None;
  }

  lemma EmptyChain(ns: seq<GraphNode>)
    ensures Chain(ns, []) == [] && IdsOf([]) == [] && Time([]) == 0.0 && !Measured([])
  {}

  lemma ChainOneMore(ns: seq<GraphNode>, layers: seq<nat>, layer: nat)
    requires layer in Layers(ns) && forall l | l in layers :: l in Layers(ns)
    ensures OnLayer(ns, layer) != []
    ensures Chain(ns, layers + [layer]) == Chain(ns, layers) + [Slowest(OnLayer(ns, layer))]
  {
    LayerIsInhabited(ns, layer);
    hide Slowest, OnLayer, Layers;
    assert (layers + [layer])[..|layers|] == layers;
  }

  lemma ChainMeasures(chain: seq<GraphNode>, n: GraphNode)
    ensures IdsOf(chain + [n]) == IdsOf(chain) + [n.id]
    ensures Time(chain + [n]) == Time(chain) + (if n.duration.Some? then n.duration.value else 0.0)
    ensures Measured(chain + [n]) == (Measured(chain) || n.duration.Some?)
  {
    assert (chain + [n])[..|chain|] == chain;
    MeasuredOneMore(chain, n);
  }

  lemma OneMoreNode(ns: seq<GraphNode>, i: nat)
    requires i < |ns|
    ensures Layers(ns[..i + 1]) == Layers(ns[..i]) + {ns[i].layer}
    ensures forall l :: OnLayer(ns[..i + 1], l) == OnLayer(ns[..i], l) + (if ns[i].layer == l then [ns[i]] else [])
    ensures ns[i].layer !in Layers(ns[..i]) ==> OnLayer(ns[..i], ns[i].layer) == []
  {
    assert ns[..i + 1] == ns[..i] + [ns[i]] && ns[..i + 1][..i] == ns[..i];
    OnLayerIsFilter(ns[..i], ns[i].layer);
    if OnLayer(ns[..i], ns[i].layer) != [] {
      assert OnLayer(ns[..i], ns[i].layer)[0] in ns[..i];
    }
  }

  lemma MeasuredOneMore(chain: seq<GraphNode>, n: GraphNode)
    ensures Measured(chain + [n]) == (Measured(chain) || n.duration.Some?)
  {
    if n.duration.Some? { assert n in chain + [n]; }
    if m :| m in chain && m.duration.Some? { assert m in chain + [n]; }
  }

  // ---- The path is the longest one ----------------------------------------------------------

  /** A chain through the layers: one vertex of the graph on each. */
  ghost predicate IsChain(ns: seq<GraphNode>, layers: seq<nat>, chain: seq<GraphNode>) {
    |chain| == |layers| && forall i | 0 <= i < |layers| :: chain[i] in ns && chain[i].layer == layers[i]
  }

  lemma {:induction false} ChainIsAChain(ns: seq<GraphNode>, layers: seq<nat>)
    requires forall l | l in layers :: l in Layers(ns)
    ensures IsChain(ns, layers, Chain(ns, layers))
  {
    hide Slowest, Layers, OnLayer;
    if layers != [] {
      var most, last := layers[..|layers| - 1], layers[|layers| - 1];
      ChainIsAChain(ns, most);
      LayerIsInhabited(ns, last);
      SlowestIsGreatest(OnLayer(ns, last));
      OnLayerIsFilter(ns, last);
    }
  }

  /** The vertex chosen on a layer takes at least as long as any other on it. */
  lemma ChosenIsSlowest(ns: seq<GraphNode>, n: GraphNode)
    requires n in ns && forall m | m in ns && m.duration.Some? :: m.duration.value >= 0.0
    ensures OnLayer(ns, n.layer) != []
    ensures Time([n]) <= Time([Slowest(OnLayer(ns, n.layer))])
  {
    hide Slowest, OnLayer, StringLeq;
    OnLayerIsFilter(ns, n.layer);
    assert n in OnLayer(ns, n.layer);
    SlowestIsGreatest(OnLayer(ns, n.layer));
    TimeOfOne(n);
    TimeOfOne(Slowest(OnLayer(ns, n.layer)));
  }

  lemma TimeOfOne(n: GraphNode)
    ensures Time([n]) == if n.duration.Some? then n.duration.value else 0.0
  {
    assert [n][..0] == [];
  }

  /** No chain through the layers takes longer than the one returned. */
  lemma {:induction false} CriticalPathIsLongest(ns: seq<GraphNode>, layers: seq<nat>, chain: seq<GraphNode>)
    requires forall n | n in ns && n.duration.Some? :: n.duration.value >= 0.0
    requires (forall l | l in layers :: l in Layers(ns)) && IsChain(ns, layers, chain)
    ensures Time(chain) <= Time(Chain(ns, layers))
  {
    hide Slowest, Layers, OnLayer;
    if layers != [] {
      var k := |layers| - 1;
      CriticalPathIsLongest(ns, layers[..k], chain[..k]);
      ChosenIsSlowest(ns, chain[k]);
      TimeOfOne(chain[k]);
      TimeOfOne(Slowest(OnLayer(ns, layers[k])));
    }
  }

  // ---- The result is a function of the set of vertices ----------------------------------------

  ghost predicate DistinctIds(ns: seq<GraphNode>) {
    forall m, n | m in ns && n in ns && m.id == n.id :: m == n
  }

  ghost predicate SameNodes(ns: seq<GraphNode>, ms: seq<GraphNode>) {
    forall n :: n in ns <==> n in ms
  }

  lemma SlowestOfSame(ns: seq<GraphNode>, ms: seq<GraphNode>)
    requires ns != [] && ms != [] && SameNodes(ns, ms) && DistinctIds(ns)
    ensures Slowest(ns) == Slowest(ms)
  {
    hide Slowest, StringLeq;
    SlowestIsGreatest(ns);
    SlowestIsGreatest(ms);
    StringLeqTotal(Slowest(ns).id, Slowest(ms).id);
  }

  lemma {:induction false} ChainOfSame(ns: seq<GraphNode>, ms: seq<GraphNode>, layers: seq<nat>)
    requires SameNodes(ns, ms) && DistinctIds(ns)
    requires forall l | l in layers :: l in Layers(ns) && l in Layers(ms)
    ensures Chain(ns, layers) == Chain(ms, layers)
  {
    hide Slowest, OnLayer, Layers;
    if layers != [] {
      var last := layers[|layers| - 1];
      ChainOfSame(ns, ms, layers[..|layers| - 1]);
      OnLayerIsFilter(ns, last);
      OnLayerIsFilter(ms, last);
      LayerIsInhabited(ns, last);
      LayerIsInhabited(ms, last);
      SlowestOfSame(OnLayer(ns, last), OnLayer(ms, last));
    }
  }

  /** The input order of the vertices does not matter, as long as their ids are distinct. */
  lemma InputOrderIsIrrelevant(ns: seq<GraphNode>, ms: seq<GraphNode>)
    requires SameNodes(ns, ms) && DistinctIds(ns)
    ensures BestChain(ns) == BestChain(ms)
  {
    assert Layers(ns) == Layers(ms);
    AscendingIsSorted(Layers(ns));
    hide Layers, Ascending;
    ChainOfSame(ns, ms, Ascending(Layers(ns)));
  }

  // ---- When the time is missing -----------------------------------------------------------------

  /** On this layer every measured vertex took exactly zero, and the id that sorts last is unmeasured. */
  ghost predicate LooksUnmeasured(ns: seq<GraphNode>, layer: nat) {
    exists last | last in ns && last.layer == layer && last.duration.None? ::
      forall n | n in ns && n.layer == layer :: StringLeq(n.id, last.id) && (n.duration.Some? ==> n.duration.value == 0.0)
  }

  /** The time is missing exactly when every layer looks unmeasured. That is weaker than
      "no vertex has a duration": a vertex measured at zero can be passed over. */
  lemma TimeIsMissingIff(ns: seq<GraphNode>)
    requires DistinctIds(ns) && forall n | n in ns && n.duration.Some? :: n.duration.value >= 0.0
    ensures !Measured(BestChain(ns)) <==> forall l | l in Layers(ns) :: LooksUnmeasured(ns, l)
  {
    AscendingIsSorted(Layers(ns));
    hide Layers, LooksUnmeasured, Chain, Measured, Ascending, DistinctIds;
    ChainIsUnmeasuredIff(ns, Ascending(Layers(ns)));
  }

  lemma {:induction false} ChainIsUnmeasuredIff(ns: seq<GraphNode>, layers: seq<nat>)
    requires DistinctIds(ns) && forall n | n in ns && n.duration.Some? :: n.duration.value >= 0.0
    requires forall l | l in layers :: l in Layers(ns)
    ensures !Measured(Chain(ns, layers)) <==> forall l | l in layers :: LooksUnmeasured(ns, l)
  {
    hide Layers, LooksUnmeasured, Slowest, OnLayer, Chain, Measured, DistinctIds;
    if layers == [] {
      EmptyChain(ns);
    } else {
      var most, last := layers[..|layers| - 1], layers[|layers| - 1];
      assert layers == most + [last];
      ChainIsUnmeasuredIff(ns, most);
      ChainOneMore(ns, most, last);
      ChosenUnmeasuredIff(ns, last);
      MeasuredOneMore(Chain(ns, most), Slowest(OnLayer(ns, last)));
    }
  }

  lemma ChosenUnmeasuredIff(ns: seq<GraphNode>, layer: nat)
    requires DistinctIds(ns) && OnLayer(ns, layer) != []
    requires forall n | n in ns && n.duration.Some? :: n.duration.value >= 0.0
    ensures Slowest(OnLayer(ns, layer)).duration.None? <==> LooksUnmeasured(ns, layer)
  {
    hide Slowest, OnLayer, StringLeq;
    OnLayerIsFilter(ns, layer);
    SlowestIsGreatest(OnLayer(ns, layer));
    var chosen := Slowest(OnLayer(ns, layer));
    if LooksUnmeasured(ns, layer) {
      var last :| last in ns && last.layer == layer && last.duration.None?
        && forall n | n in ns && n.layer == layer :: StringLeq(n.id, last.id) && (n.duration.Some? ==> n.duration.value == 0.0);
      StringLeqTotal(chosen.id, last.id);
      assert last in OnLayer(ns, layer);
    }
  }

  /** A run whose only measured vertex took no time is reported as having no time at all. */
  lemma ZeroDurationIsPassedOver(a: GraphNode, b: GraphNode)
    requires a.id == "a1" && b.id == "a2" && a.layer == b.layer == 0
    requires a.duration == Some(0.0) && b.duration == None
    ensures !Measured(BestChain([a, b]))
  {
    assert a.id[1..] == "1" && b.id[1..] == "2" && StringLeq("1", "2");
    StringLeqTotal(b.id, b.id);
    assert LooksUnmeasured([a, b], 0);
    hide StringLeq, LooksUnmeasured;
    TimeIsMissingIff([a, b]);
  }
}
