/** The DAG of a run does not rearrange itself while the run goes on. */
module GraphStability {
  import opened Common
  import opened History
  import opened GateMatching
  import opened CriticalPath
  import opened RunGraph
  import opened GraphBuild
  import opened GraphTheorems

  /** The scheduled activities of a history, in order. */
  function Scheds(h: seq<HistoryEvent>): seq<Sched> {
    if h == [] then []
    else Scheds(h[..|h| - 1]) + (if h[|h| - 1].ActivityScheduled? then [h[|h| - 1].sched] else [])
  }

  lemma {:induction false} SchedsComeFrom(h: seq<HistoryEvent>)
    ensures forall s | s in Scheds(h) :: exists i | 0 <= i < |h| :: h[i] == ActivityScheduled(s)
  {
    if h != [] {
      var most, last := h[..|h| - 1], h[|h| - 1];
      SchedsComeFrom(most);
      forall s | s in Scheds(h) ensures exists i | 0 <= i < |h| :: h[i] == ActivityScheduled(s) {
        if s in Scheds(most) {
          var i :| 0 <= i < |most| && most[i] == ActivityScheduled(s);
          assert h[i] == most[i];
        } else {
          assert h[|h| - 1] == ActivityScheduled(s);
        }
      }
    }
  }

  lemma {:induction false} SchedsSplit(h: seq<HistoryEvent>, more: seq<HistoryEvent>)
    ensures Scheds(h + more) == Scheds(h) + Scheds(more)
    decreases |more|
  {
    if more == [] {
      assert h + more == h;
    } else {
      assert (h + more)[..|h + more| - 1] == h + more[..|more| - 1];
      SchedsSplit(h, more[..|more| - 1]);
    }
  }

  lemma WellFormedPrefix(h: seq<HistoryEvent>, n: nat)
    requires WellFormed(h) && n <= |h|
    ensures WellFormed(h[..n])
  {
    hide EndingOf, EventId;
  }

  // ---- A well-formed history is read in its own order ------------------------------------------

  lemma {:induction false} ScheduledAreScheds(h: seq<HistoryEvent>)
    ensures forall k | k in Reduce(h).scheduled :: Reduce(h).scheduled[k] in Scheds(h)
  {
    if h != [] { ScheduledAreScheds(h[..|h| - 1]); }
  }

  lemma {:induction false} OrderedIsHistory(h: seq<HistoryEvent>)
    requires WellFormed(h)
    ensures Ordered(Reduce(h)) == Scheds(h)
  {
    if h == [] {
      NothingAscends();
    } else {
      hide Reduce, WellFormed;
      var n := |h| - 1;
      var most, last := h[..n], h[n];
      WellFormedPrefix(h, n);
      OrderedIsHistory(most);
      ScheduledFollows(h);
      if last.ActivityScheduled? {
        var m := Reduce(most).scheduled;
        forall k | k in m ensures k < last.sched.eventId { NewestScheduled(h, k); }
        AppendScheduled(m, Reduce(h).scheduled, last.sched);
      }
    }
  }

  lemma ScheduledFollows(h: seq<HistoryEvent>)
    requires h != []
    ensures var before, last := Reduce(h[..|h| - 1]).scheduled, h[|h| - 1];
            Reduce(h).scheduled == if last.ActivityScheduled? then before[last.sched.eventId := last.sched] else before
  {
    hide Absorb;
    AbsorbScheduled(Reduce(h[..|h| - 1]), h[|h| - 1]);
  }

  lemma AbsorbScheduled(r: Reduction, e: HistoryEvent)
    ensures !e.ActivityScheduled? ==> Absorb(r, e).scheduled == r.scheduled
    ensures e.ActivityScheduled? ==> Absorb(r, e).scheduled == r.scheduled[e.sched.eventId := e.sched]
  {
    hide SetTimer, PopTimer, OrOne, FiresAt;
  }

  lemma NewestScheduled(h: seq<HistoryEvent>, k: nat)
    requires WellFormed(h) && h != [] && h[|h| - 1].ActivityScheduled?
    requires k in Reduce(h[..|h| - 1]).scheduled
    ensures k < h[|h| - 1].sched.eventId
  {
    var most := h[..|h| - 1];
    ScheduledAreScheds(most);
    ScheduledByEventId(most);
    SchedsComeFrom(most);
    hide Reduce, Scheds;
    var i :| 0 <= i < |most| && most[i] == ActivityScheduled(Reduce(most).scheduled[k]);
    assert EventId(h[i]) == k && EventId(h[|h| - 1]) == h[|h| - 1].sched.eventId;
  }

  lemma AppendScheduled(m: map<nat, Sched>, m': map<nat, Sched>, s: Sched)
    requires m' == m[s.eventId := s] && forall k | k in m :: k < s.eventId
    ensures forall id | id in Ascending(m.Keys) :: id in m
    ensures forall id | id in Ascending(m'.Keys) :: id in m'
    ensures Values(m', Ascending(m'.Keys)) == Values(m, Ascending(m.Keys)) + [s]
  {
    hide Ascending, Values;
    var ids := Ascending(m.Keys);
    AscendingIsSorted(m.Keys);
    AscendingIsSorted(m'.Keys);
    assert m'.Keys == m.Keys + {s.eventId};
    AscendingAppends(m.Keys, s.eventId);
    SameValues(m, m', ids);
    ValuesAppend(m', ids, s.eventId);
  }

  lemma ValuesAppend(m: map<nat, Sched>, ids: seq<nat>, x: nat)
    requires x in m && forall id | id in ids :: id in m
    ensures (forall id | id in ids + [x] :: id in m) && Values(m, ids + [x]) == Values(m, ids) + [m[x]]
  {
    assert (ids + [x])[..|ids|] == ids;
  }

  lemma {:induction false} SameValues(m: map<nat, Sched>, m': map<nat, Sched>, ids: seq<nat>)
    requires forall id | id in ids :: id in m && id in m' && m[id] == m'[id]
    ensures Values(m, ids) == Values(m', ids)
  {
    if ids != [] { SameValues(m, m', ids[..|ids| - 1]); }
  }

  // ---- What has ended stays ended ------------------------------------------------------------------

  lemma {:induction false} EndingsComeFrom(h: seq<HistoryEvent>, sid: nat)
    requires sid in Reduce(h).terminal
    ensures exists i | 0 <= i < |h| :: EndingOf(h[i]) == Some((sid, Reduce(h).terminal[sid]))
  {
    hide EndingOf;
    var n := |h| - 1;
    if EndingOf(h[n]) != Some((sid, Reduce(h).terminal[sid])) {
      EndingsComeFrom(h[..n], sid);
      var i :| 0 <= i < n && EndingOf(h[..n][i]) == Some((sid, Reduce(h[..n]).terminal[sid]));
      assert h[i] == h[..n][i];
    }
  }

  lemma TerminalFollows(h: seq<HistoryEvent>)
    requires h != []
    ensures var before, ending := Reduce(h[..|h| - 1]).terminal, EndingOf(h[|h| - 1]);
            Reduce(h).terminal == if ending.Some? then before[ending.value.0 := ending.value.1] else before
  {
    hide EndingOf, Absorb;
    AbsorbEnding(Reduce(h[..|h| - 1]), h[|h| - 1]);
  }

  lemma AbsorbEnding(r: Reduction, e: HistoryEvent)
    ensures EndingOf(e).None? ==> Absorb(r, e).terminal == r.terminal
    ensures EndingOf(e).Some? ==> Absorb(r, e).terminal == r.terminal[EndingOf(e).value.0 := EndingOf(e).value.1]
  {
    hide EndingOf, SetTimer, PopTimer, OrOne, FiresAt;
  }

  lemma OneEndingEach(h: seq<HistoryEvent>, i: nat, j: nat)
    requires WellFormed(h) && i < j < |h| && EndingOf(h[i]).Some? && EndingOf(h[j]).Some?
    ensures EndingOf(h[i]).value.0 != EndingOf(h[j]).value.0
  {
    hide EndingOf, EventId;
  }

  lemma {:induction false} EndingsAreFinal(h: seq<HistoryEvent>, more: seq<HistoryEvent>, sid: nat)
    requires WellFormed(h + more) && sid in Reduce(h).terminal
    ensures sid in Reduce(h + more).terminal && Reduce(h + more).terminal[sid] == Reduce(h).terminal[sid]
    decreases |more|
  {
    hide EndingOf, Reduce, WellFormed;
    if more == [] {
      assert h + more == h;
    } else {
      var all := h + more;
      var n := |all| - 1;
      assert all[..n] == h + more[..|more| - 1];
      WellFormedPrefix(all, n);
      EndingsAreFinal(h, more[..|more| - 1], sid);
      EndingsComeFrom(h, sid);
      var i :| 0 <= i < |h| && EndingOf(h[i]) == Some((sid, Reduce(h).terminal[sid]));
      assert all[i] == h[i];
      TerminalFollows(all);
      if EndingOf(all[n]).Some? { OneEndingEach(all, i, n); }
    }
  }

  lemma {:induction false} CloseAtIndex(ss: seq<Sched>, n: nat) returns (i: nat)
    requires n < |Closes(ss)|
    ensures i < |ss| && IsClose(ss[i]) && |Closes(ss[..i])| == n
  {
    hide IsClose;
    var k := |ss| - 1;
    if n < |Closes(ss[..k])| {
      i := CloseAtIndex(ss[..k], n);
      assert ss[..k][..i] == ss[..i];
    } else {
      i := k;
    }
  }

  lemma {:induction false} SameResolutions(ss: seq<Sched>, more: seq<Sched>, n: nat, id: nat)
    requires InEventOrder(ss + more) && n <= |Closes(ss)|
    ensures n <= |Closes(ss + more)| && Closes(ss + more)[..n] == Closes(ss)[..n]
    ensures ResolvedBy(Opens(ss + more), Closes(ss + more)[..n], id) == ResolvedBy(Opens(ss), Closes(ss)[..n], id)
  {
    OpensSplit(ss, more);
    hide InEventOrder, Waiting, Opens, Closes, FirstBefore;
    assert Closes(ss + more)[..n] == Closes(ss)[..n];
    if n > 0 {
      var before, after := Closes(ss)[..n], Closes(ss + more)[..n];
      assert before[..n - 1] == Closes(ss)[..n - 1];
      SameResolutions(ss, more, n - 1, id);
      var i := CloseAtIndex(ss, n - 1);
      ResolutionIsFinal(ss, more, i);
      ResolvesPrefix(Opens(ss), Closes(ss), n);
      ResolvesPrefix(Opens(ss + more), Closes(ss + more), n);
    }
  }

  lemma ResolvesPrefix(opens: seq<Sched>, closes: seq<Sched>, n: nat)
    requires 0 < n <= |closes|
    ensures Resolves(opens, closes[..n], n - 1) == Resolves(opens, closes, n - 1)
  {
    assert closes[..n][..n - 1] == closes[..n - 1];
  }

  lemma {:induction false} ResolvedEarlyIsResolved(opens: seq<Sched>, closes: seq<Sched>, n: nat, id: nat)
    requires n <= |closes| && ResolvedBy(opens, closes[..n], id).Some?
    ensures ResolvedBy(opens, closes, id) == ResolvedBy(opens, closes[..n], id)
    decreases |closes|
  {
    hide Resolves;
    if n < |closes| {
      assert closes[..|closes| - 1][..n] == closes[..n];
      ResolvedEarlyIsResolved(opens, closes[..|closes| - 1], n, id);
    } else {
      assert closes[..n] == closes;
    }
  }

  /** A gate once resolved keeps the close that resolved it. */
  lemma ResolvedGatesStayResolved(ss: seq<Sched>, more: seq<Sched>, id: nat)
    requires InEventOrder(ss + more) && ResolvedBy(Opens(ss), Closes(ss), id).Some?
    ensures ResolvedBy(Opens(ss + more), Closes(ss + more), id) == ResolvedBy(Opens(ss), Closes(ss), id)
  {
    hide InEventOrder, ResolvedBy, Opens, Closes;
    var n := |Closes(ss)|;
    SameResolutions(ss, more, n, id);
    assert Closes(ss)[..n] == Closes(ss);
    ResolvedEarlyIsResolved(Opens(ss + more), Closes(ss + more), n, id);
  }

  // ---- Layers -----------------------------------------------------------------------------------------

  /** Later decisions come later: a new activity's layer key is not below an old one's. */
  lemma LaterKeysAreHigher(h: seq<HistoryEvent>, more: seq<HistoryEvent>, s: Sched, t: Sched)
    requires WellFormed(h + more) && s in Scheds(h) && t in Scheds(more)
    ensures s.decidedBy <= t.decidedBy
  {
    hide Scheds, EndingOf;
    SchedsComeFrom(h);
    SchedsComeFrom(more);
    var i :| 0 <= i < |h| && h[i] == ActivityScheduled(s);
    var j :| 0 <= j < |more| && more[j] == ActivityScheduled(t);
    assert (h + more)[i] == h[i] && (h + more)[|h| + j] == more[j];
  }

  lemma {:induction false} MaxKeyIsMax(vs: seq<Vertex>)
    ensures forall v | v in vs :: v.layerKey <= MaxKey(vs)
  {
    if vs != [] {
      MaxKeyIsMax(vs[..|vs| - 1]);
      assert vs == vs[..|vs| - 1] + [vs[|vs| - 1]];
    }
  }

  /** Below the layer key of a drawn vertex there are only keys of drawn vertices. */
  lemma KeysBelowAreDrawn(r: Reduction, now: Now, v: Vertex, key: nat)
    requires v in Drawn(r, now) && key < v.layerKey
    ensures key in Keys(Vertices(r, now)) <==> exists w | w in Drawn(r, now) :: w.layerKey == key
  {
    hide Drawn, Vertices, MaxKey;
    WaitIsLast(r, now);
    MaxKeyIsMax(Drawn(r, now));
    if w :| w in Drawn(r, now) && w.layerKey == key {
      assert w in Vertices(r, now);
    }
    if key in Keys(Vertices(r, now)) {
      var w :| w in Vertices(r, now) && w.layerKey == key;
      assert w in Drawn(r, now);
    }
  }

  lemma KeysDrawn(h: seq<HistoryEvent>, now: Now, key: nat)
    requires WellFormed(h)
    ensures (exists w | w in Drawn(Reduce(h), now) :: w.layerKey == key)
       <==> exists s | s in Scheds(h) :: !IsClose(s) && s.decidedBy == key
  {
    hide Drawn, Reduce, IsClose, Scheds, IsOpen, ResolvedBy, ActivityState, Decimal;
    var r := Reduce(h);
    OrderedIsHistory(h);
    if w :| w in Drawn(r, now) && w.layerKey == key {
      DrawnExactly(r, now, w);
    }
    if s :| s in Scheds(h) && !IsClose(s) && s.decidedBy == key {
      var w := VertexOf(r, now, Scheds(h), s);
      DrawnExactly(r, now, w);
      assert w.layerKey == key;
    }
  }

  lemma OldPart(h: seq<HistoryEvent>, more: seq<HistoryEvent>)
    requires WellFormed(h + more)
    ensures WellFormed(h)
  {
    WellFormedPrefix(h + more, |h|);
    hide WellFormed;
    assert (h + more)[..|h|] == h;
  }

  lemma SameKeysBelow(h: seq<HistoryEvent>, more: seq<HistoryEvent>, now: Now, now': Now, s: Sched, key: nat)
    requires WellFormed(h + more) && s in Scheds(h) && !IsClose(s) && key < s.decidedBy
    ensures key in Keys(Vertices(Reduce(h), now)) <==> key in Keys(Vertices(Reduce(h + more), now'))
  {
    hide WellFormed, Reduce, Vertices, IsClose, Scheds, Keys;
    OldPart(h, more);
    SchedsSplit(h, more);
    DrawnKeyBelow(h, now, s, key);
    DrawnKeyBelow(h + more, now', s, key);
    if t :| t in Scheds(h + more) && !IsClose(t) && t.decidedBy == key {
      if t in Scheds(more) {
        LaterKeysAreHigher(h, more, s, t);
      }
    }
  }

  /** A drawn vertex keeps its layer number however the history goes on. */
  lemma LayerIsStable(h: seq<HistoryEvent>, more: seq<HistoryEvent>, now: Now, now': Now, s: Sched)
    requires WellFormed(h + more) && s in Scheds(h) && !IsClose(s)
    ensures Rank(Keys(Vertices(Reduce(h), now)), s.decidedBy)
         == Rank(Keys(Vertices(Reduce(h + more), now')), s.decidedBy)
  {
    hide WellFormed, Reduce, Vertices, IsClose, Scheds, Keys;
    var keys, keys' := Keys(Vertices(Reduce(h), now)), Keys(Vertices(Reduce(h + more), now'));
    forall key: nat | key < s.decidedBy ensures key in keys <==> key in keys' {
      SameKeysBelow(h, more, now, now', s, key);
    }
    assert Below(keys, s.decidedBy) == Below(keys', s.decidedBy);
  }

  lemma DrawnKeyBelow(h: seq<HistoryEvent>, now: Now, s: Sched, key: nat)
    requires WellFormed(h) && s in Scheds(h) && !IsClose(s) && key < s.decidedBy
    ensures key in Keys(Vertices(Reduce(h), now)) <==> exists t | t in Scheds(h) :: !IsClose(t) && t.decidedBy == key
  {
    hide WellFormed, Reduce, Vertices, Drawn, IsClose, Scheds, Keys;
    KeysDrawn(h, now, s.decidedBy);
    var v :| v in Drawn(Reduce(h), now) && v.layerKey == s.decidedBy;
    KeysBelowAreDrawn(Reduce(h), now, v, key);
    KeysDrawn(h, now, key);
  }

  // ---- The graph only grows ------------------------------------------------------------------------------

  /** The node drawn for a scheduled activity. */
  ghost function NodeOf(h: seq<HistoryEvent>, now: Now, s: Sched): GraphNode {
    var v := VertexOf(Reduce(h), now, Scheds(h), s);
    v.node.(layer := Rank(Keys(Vertices(Reduce(h), now)), v.layerKey))
  }

  /** Every node is the node of some scheduled activity, except the synthetic wait. */
  lemma NodesExactly(h: seq<HistoryEvent>, now: Now, n: GraphNode)
    requires WellFormed(h)
    ensures n in Nodes(h, now) && !n.kind.Wait? <==> exists s | s in Scheds(h) :: !IsClose(s) && n == NodeOf(h, now, s)
  {
    hide WellFormed, Reduce, Vertices, Drawn, IsClose, Scheds, Keys, Rank, VertexOf;
    var r := Reduce(h);
    var vs, ns := Vertices(r, now), Nodes(h, now);
    OrderedIsHistory(h);
    LayeredAt(vs, Keys(vs));
    WaitIsLast(r, now);
    if n in ns && !n.kind.Wait? {
      var i :| 0 <= i < |ns| && ns[i] == n;
      DrawnExactly(r, now, vs[i]);
    }
    if s :| s in Scheds(h) && !IsClose(s) && n == NodeOf(h, now, s) {
      var v := VertexOf(r, now, Scheds(h), s);
      DrawnExactly(r, now, v);
      NotAWait(r, now, Scheds(h), s);
      assert v in vs;
      var i :| 0 <= i < |vs| && vs[i] == v;
      assert ns[i] == n;
    }
  }

  lemma NotAWait(r: Reduction, now: Now, ss: seq<Sched>, s: Sched)
    ensures !VertexOf(r, now, ss, s).node.kind.Wait?
  {
    hide IsOpen, ResolvedBy, ActivityState, Decimal;
  }

  /** What later history may not change about a node: its identity, its place, and anything
      that has been settled, be it the end of an activity or the decision at a gate. */
  predicate Settled(n: GraphNode, n': GraphNode) {
    && n'.id == n.id && n'.kind == n.kind && n'.layer == n.layer
    && (!n.kind.Gate? && n.state.Ended? ==> n'.state == n.state && n'.endedAt == n.endedAt && n'.failure == n.failure)
    && (n.kind.Gate? && n.state == Ended(Completed) ==>
          n'.state == n.state && n'.endedAt == n.endedAt && n'.decision == n.decision)
  }

  lemma VertexIsSettled(h: seq<HistoryEvent>, more: seq<HistoryEvent>, now: Now, now': Now, s: Sched)
    requires WellFormed(h + more) && s in Scheds(h)
    ensures Settled(VertexOf(Reduce(h), now, Scheds(h), s).node, VertexOf(Reduce(h + more), now', Scheds(h + more), s).node)
    ensures VertexOf(Reduce(h), now, Scheds(h), s).layerKey == s.decidedBy
    ensures VertexOf(Reduce(h + more), now', Scheds(h + more), s).layerKey == s.decidedBy
  {
    hide WellFormed, Reduce, Scheds, ResolvedBy, Opens, Closes, InEventOrder, IsOpen, GateVertex, ActivityVertex, Settled;
    ScheduledInOrder(h + more);
    SchedsSplit(h, more);
    if s.eventId in Reduce(h).terminal {
      EndingsAreFinal(h, more, s.eventId);
    }
    var ss, ss' := Scheds(h), Scheds(h + more);
    if IsOpen(s) {
      var before, after := ResolvedBy(Opens(ss), Closes(ss), s.eventId), ResolvedBy(Opens(ss'), Closes(ss'), s.eventId);
      if before.Some? {
        ResolvedGatesStayResolved(ss, Scheds(more), s.eventId);
      }
      GateIsSettled(s, before, after, Reduce(h), Reduce(h + more), now.terminal, now'.terminal);
    } else {
      ActivityIsSettled(s, Reduce(h), Reduce(h + more), ByActivity(now.pending), ByActivity(now'.pending));
    }
  }

  lemma ScheduledInOrder(h: seq<HistoryEvent>)
    requires WellFormed(h)
    ensures InEventOrder(Scheds(h))
  {
    hide WellFormed, InEventOrder, Ordered, Reduce, Scheds;
    OrderedIsHistory(h);
    OrderedInEventOrder(h);
  }

  lemma GateIsSettled(s: Sched, before: Option<Sched>, after: Option<Sched>, r: Reduction, r': Reduction, t: bool, t': bool)
    requires before.Some? ==> after == before
    ensures Settled(GateVertex(s, before, r, t).node, GateVertex(s, after, r', t').node)
    ensures GateVertex(s, before, r, t).layerKey == s.decidedBy && GateVertex(s, after, r', t').layerKey == s.decidedBy
  {
    hide Decimal;
  }

  lemma ActivityIsSettled(s: Sched, r: Reduction, r': Reduction, ps: map<string, Pending>, ps': map<string, Pending>)
    requires s.eventId in r.terminal ==> s.eventId in r'.terminal && r'.terminal[s.eventId] == r.terminal[s.eventId]
    ensures Settled(ActivityVertex(s, r, ps).node, ActivityVertex(s, r', ps').node)
    ensures ActivityVertex(s, r, ps).layerKey == s.decidedBy && ActivityVertex(s, r', ps').layerKey == s.decidedBy
  {
    hide Decimal;
  }

  /** As history grows, every activity and gate of the graph reappears with the same id on
      the same layer, ended activities keep their end and resolved gates their decision. Only
      the synthetic wait may vanish. */
  lemma GraphIsStable(h: seq<HistoryEvent>, more: seq<HistoryEvent>, now: Now, now': Now, n: GraphNode)
    requires WellFormed(h + more) && n in Nodes(h, now) && !n.kind.Wait?
    ensures exists n' | n' in Nodes(h + more, now') :: Settled(n, n')
  {
    assert WellFormed(h) by {
      WellFormedPrefix(h + more, |h|);
      assert (h + more)[..|h|] == h;
    }
    hide WellFormed, Reduce, Vertices, Nodes, IsClose, Scheds, Keys, Rank, VertexOf;
    NodesExactly(h, now, n);
    var s :| s in Scheds(h) && !IsClose(s) && n == NodeOf(h, now, s);
    SchedsSplit(h, more);
    VertexIsSettled(h, more, now, now', s);
    LayerIsStable(h, more, now, now', s);
    var n' := NodeOf(h + more, now', s);
    NodesExactly(h + more, now', n');
    assert n' in Nodes(h + more, now') && Settled(n, n');
  }
}
