/** Which closing activity resolves which approval gate
    (services/api-gateway/ancora_api/graph.py, the matching loop of `_gate_vertices`). */
module GateMatching {
  import opened Common
  import opened History

  predicate IsOpen(s: Sched) { s.activityType == GATE_OPEN }

  predicate IsClose(s: Sched) { s.activityType == GATE_CLOSE }

  /** An open without a gate id answers to its activity id, a close without one to nothing. */
  function OpenKey(s: Sched): string { if s.gateId.Some? then s.gateId.value else s.activityId }

  function CloseKey(s: Sched): string { if s.gateId.Some? then s.gateId.value else "" }

  /** Scheduled activities in ascending event order. */
  predicate InEventOrder(ss: seq<Sched>) {
    forall i, j | 0 <= i < j < |ss| :: ss[i].eventId < ss[j].eventId
  }

  function Opens(ss: seq<Sched>): seq<Sched> {
    if ss == [] then []
    else Opens(ss[..|ss| - 1]) + (if IsOpen(ss[|ss| - 1]) then [ss[|ss| - 1]] else [])
  }

  function Closes(ss: seq<Sched>): seq<Sched> {
    if ss == [] then []
    else Closes(ss[..|ss| - 1]) + (if IsClose(ss[|ss| - 1]) then [ss[|ss| - 1]] else [])
  }

  /** Event ids of the opens of one gate, in order. */
  function OpenIds(opens: seq<Sched>, gate: string): seq<nat> {
    if opens == [] then []
    else
      var last := opens[|opens| - 1];
      OpenIds(opens[..|opens| - 1], gate) + (if OpenKey(last) == gate then [last.eventId] else [])
  }

  function Ids(ss: seq<Sched>, gate: string): seq<nat> { OpenIds(Opens(ss), gate) }

  // ---- The matcher: all opens first, then every close takes the first one before it -------

  /** Index of the first waiting open that precedes the close, if any. */
  function FirstBefore(waiting: seq<nat>, closeId: nat): (i: Option<nat>)
    ensures i.Some? ==> i.value < |waiting| && waiting[i.value] < closeId
    ensures i.Some? ==> forall j | 0 <= j < i.value :: waiting[j] >= closeId
    ensures i.None? ==> forall j | 0 <= j < |waiting| :: waiting[j] >= closeId
  {
    if waiting == [] then None
    else if waiting[0] < closeId then Some(0)
    else
      var rest := FirstBefore(waiting[1..], closeId);
      if rest.None? then None else Some(rest.value + 1)
  }

  function Without(waiting: seq<nat>, closeId: nat): seq<nat> {
    match FirstBefore(waiting, closeId)
    case None => waiting
    case Some(i) => waiting[..i] + waiting[i + 1..]
  }

  /** Opens of `gate` still waiting after the closes took theirs. */
  function Waiting(opens: seq<Sched>, closes: seq<Sched>, gate: string): seq<nat> {
    if closes == [] then OpenIds(opens, gate)
    else
      var n := |closes| - 1;
      var before := Waiting(opens, closes[..n], gate);
      if CloseKey(closes[n]) == gate then Without(before, closes[n].eventId) else before
  }

  /** The open that the `n`-th close resolves. */
  function Resolves(opens: seq<Sched>, closes: seq<Sched>, n: nat): Option<nat>
    requires n < |closes|
  {
    var waiting := Waiting(opens, closes[..n], CloseKey(closes[n]));
    match FirstBefore(waiting, closes[n].eventId)
    case None => None
    case Some(i) => Some(waiting[i])
  }

  // ---- The reference: one pass over the history with a FIFO queue per gate -----------------

  function Queue(ss: seq<Sched>, gate: string): seq<nat> {
    if ss == [] then []
    else
      var s := ss[|ss| - 1];
      var before := Queue(ss[..|ss| - 1], gate);
      if IsOpen(s) && OpenKey(s) == gate then before + [s.eventId]
      else if IsClose(s) && CloseKey(s) == gate && before != [] then before[1..]
      else before
  }

  /** The open at the head of the queue when the close at position `i` arrives. */
  function Head(ss: seq<Sched>, i: nat): Option<nat>
    requires i < |ss|
  {
    var queue := Queue(ss[..i], CloseKey(ss[i]));
    if queue == [] then None else Some(queue[0])
  }

  /** How many closes of the gate found an open. */
  function Pairs(ss: seq<Sched>, gate: string): nat {
    if ss == [] then 0
    else
      var n := |ss| - 1;
      Pairs(ss[..n], gate)
      + (if !IsOpen(ss[n]) && IsClose(ss[n]) && CloseKey(ss[n]) == gate && Queue(ss[..n], gate) != [] then 1 else 0)
  }

  // ---- They agree -------------------------------------------------------------------------

  lemma {:induction false} OpenIdsSplit(a: seq<Sched>, b: seq<Sched>, gate: string)
    ensures OpenIds(a + b, gate) == OpenIds(a, gate) + OpenIds(b, gate)
    decreases |b|
  {
    if b == [] {
      assert a + b == a;
    } else {
      var most := b[..|b| - 1];
      assert (a + b)[..|a + b| - 1] == a + most;
      OpenIdsSplit(a, most, gate);
    }
  }

  lemma {:induction false} OpensSplit(a: seq<Sched>, b: seq<Sched>)
    ensures Opens(a + b) == Opens(a) + Opens(b)
    ensures Closes(a + b) == Closes(a) + Closes(b)
    decreases |b|
  {
    if b == [] {
      assert a + b == a;
    } else {
      var most := b[..|b| - 1];
      assert (a + b)[..|a + b| - 1] == a + most;
      OpensSplit(a, most);
    }
  }

  lemma {:induction false} IdsComeFrom(ss: seq<Sched>, gate: string, id: nat)
    requires id in Ids(ss, gate)
    ensures exists i | 0 <= i < |ss| :: ss[i].eventId == id
  {
    if ss == [] {
      EmptyIds(gate);
    } else {
      hide IsOpen, OpenKey, Ids;
      var most, s := ss[..|ss| - 1], ss[|ss| - 1];
      assert ss == most + [s];
      OneMore(most, s, gate);
      if id in Ids(most, gate) {
        IdsComeFrom(most, gate, id);
        var i :| 0 <= i < |most| && most[i].eventId == id;
        assert ss[i].eventId == id;
      } else {
        assert ss[|ss| - 1].eventId == id;
      }
    }
  }

  lemma IdsSplit(a: seq<Sched>, b: seq<Sched>, gate: string)
    ensures Ids(a + b, gate) == Ids(a, gate) + Ids(b, gate)
  {
    OpensSplit(a, b);
    OpenIdsSplit(Opens(a), Opens(b), gate);
  }

  lemma IdsOfOne(s: Sched, gate: string)
    ensures Ids([s], gate) == if IsOpen(s) && OpenKey(s) == gate then [s.eventId] else []
  {
    OpensOfOne(s);
    OpenIdsOfOne(s, gate);
    hide IsOpen, OpenKey, Opens, OpenIds;
    assert OpenIds([], gate) == [] by { NoOpenIds(gate); }
  }

  lemma OpensOfOne(s: Sched)
    ensures Opens([s]) == if IsOpen(s) then [s] else []
  {
    hide IsOpen;
    assert [s][..0] == [];
    assert Opens([]) == [];
  }

  lemma OpenIdsOfOne(s: Sched, gate: string)
    ensures OpenIds([s], gate) == if OpenKey(s) == gate then [s.eventId] else []
  {
    hide OpenKey;
    assert [s][..0] == [];
    assert OpenIds([], gate) == [];
  }

  lemma NoOpenIds(gate: string)
    ensures OpenIds([], gate) == []
  {}

  /** How one more scheduled activity moves the reference. */
  lemma OneMore(ss: seq<Sched>, s: Sched, gate: string)
    ensures Ids(ss + [s], gate) == Ids(ss, gate) + (if IsOpen(s) && OpenKey(s) == gate then [s.eventId] else [])
    ensures Queue(ss + [s], gate) ==
      if IsOpen(s) && OpenKey(s) == gate then Queue(ss, gate) + [s.eventId]
      else if IsClose(s) && CloseKey(s) == gate && Queue(ss, gate) != [] then Queue(ss, gate)[1..]
      else Queue(ss, gate)
    ensures Pairs(ss + [s], gate) == Pairs(ss, gate)
      + (if !IsOpen(s) && IsClose(s) && CloseKey(s) == gate && Queue(ss, gate) != [] then 1 else 0)
  {
    hide IsOpen, OpenKey, IsClose, CloseKey, Ids;
    assert (ss + [s])[..|ss|] == ss;
    IdsSplit(ss, [s], gate);
    IdsOfOne(s, gate);
  }

  lemma NotBoth(s: Sched)
    ensures !(IsOpen(s) && IsClose(s))
  {
    assert GATE_OPEN[0] == 'o' && GATE_CLOSE[0] == 'c';
  }

  /** The FIFO queue is what the first `Pairs` closes left of the gate's opens: matched
      opens are a prefix, and the n-th close that finds an open finds the n-th. */
  lemma {:induction false} MatchedOpensArePrefix(ss: seq<Sched>, gate: string)
    ensures Pairs(ss, gate) <= |Ids(ss, gate)|
    ensures Queue(ss, gate) == Ids(ss, gate)[Pairs(ss, gate)..]
  {
    hide IsOpen, OpenKey, IsClose, CloseKey, Ids;
    if ss == [] {
      assert Ids(ss, gate) == [] by { EmptyIds(gate); }
    } else {
      var most, s := ss[..|ss| - 1], ss[|ss| - 1];
      assert ss == most + [s];
      MatchedOpensArePrefix(most, gate);
      NotBoth(s);
      OneMore(most, s, gate);
    }
  }

  lemma EmptyIds(gate: string)
    ensures Ids([], gate) == []
  {}

  /** After the closes of the past took theirs, the two-pass matcher waits on exactly the
      FIFO queue of the past followed by the opens of the future. */
  lemma {:induction false} WaitingIsQueueThenFuture(ss: seq<Sched>, past: seq<Sched>, future: seq<Sched>, gate: string)
    requires ss == past + future && InEventOrder(ss)
    ensures Waiting(Opens(ss), Closes(past), gate) == Queue(past, gate) + Ids(future, gate)
    decreases |past|
  {
    hide IsOpen, OpenKey, IsClose, CloseKey, InEventOrder, Opens, OpenIds;
    if past == [] {
      assert ss == future;
    } else {
      hide Ids, Waiting, Queue, Closes, Without;
      var most, s := past[..|past| - 1], past[|past| - 1];
      var rest := [s] + future;
      assert past == most + [s] && ss == most + rest;
      WaitingIsQueueThenFuture(ss, most, rest, gate);
      WaitingStep(Opens(ss), most, s, gate);
      QueueThenFutureStep(most, s, future, gate);
    }
  }

  /** Moving one activity from the future to the past moves the queue and the future alike. */
  lemma QueueThenFutureStep(most: seq<Sched>, s: Sched, future: seq<Sched>, gate: string)
    requires InEventOrder(most + ([s] + future))
    ensures Queue(most + [s], gate) + Ids(future, gate) ==
      if IsClose(s) && CloseKey(s) == gate then Without(Queue(most, gate) + Ids([s] + future, gate), s.eventId)
      else Queue(most, gate) + Ids([s] + future, gate)
  {
    hide IsOpen, OpenKey, IsClose, CloseKey, InEventOrder, Ids, Queue, Without, FirstBefore, Pairs;
    OneMore(most, s, gate);
    IdsSplit([s], future, gate);
    IdsOfOne(s, gate);
    NotBoth(s);
    var queue, later := Queue(most, gate), Ids(future, gate);
    if IsClose(s) {
      CloseTakesTheHead(most, s, future, gate);
      assert Ids([s] + future, gate) == later;
    } else if IsOpen(s) && OpenKey(s) == gate {
      assert queue + ([s.eventId] + later) == (queue + [s.eventId]) + later;
    } else {
      assert Ids([s] + future, gate) == later;
    }
  }

  lemma WaitingStep(opens: seq<Sched>, ss: seq<Sched>, s: Sched, gate: string)
    ensures Waiting(opens, Closes(ss + [s]), gate) ==
      if IsClose(s) && CloseKey(s) == gate then Without(Waiting(opens, Closes(ss), gate), s.eventId)
      else Waiting(opens, Closes(ss), gate)
  {
    hide IsClose, CloseKey, Without;
    assert (ss + [s])[..|ss|] == ss;
    if IsClose(s) {
      assert Closes(ss + [s]) == Closes(ss) + [s];
      assert (Closes(ss) + [s])[..|Closes(ss)|] == Closes(ss);
    } else {
      assert Closes(ss + [s]) == Closes(ss);
    }
  }

  /** A close finds the head of the queue, because queued opens precede it and the others do not. */
  lemma CloseTakesTheHead(past: seq<Sched>, close: Sched, later: seq<Sched>, gate: string)
    requires InEventOrder(past + ([close] + later)) && IsClose(close)
    ensures
      var queue, future := Queue(past, gate), Ids([close] + later, gate);
      && FirstBefore(queue + future, close.eventId) == (if queue == [] then None else Some(0))
      && Without(queue + future, close.eventId) == (if queue == [] then future else queue[1..] + future)
  {
    hide IsOpen, OpenKey, IsClose, CloseKey, Ids;
    var queue, future := Queue(past, gate), Ids([close] + later, gate);
    var all := past + ([close] + later);
    assert all[|past|] == close;
    if queue != [] {
      MatchedOpensArePrefix(past, gate);
      assert queue[0] in Ids(past, gate);
      IdsComeFrom(past, gate, queue[0]);
      var i :| 0 <= i < |past| && past[i].eventId == queue[0];
      assert all[i] == past[i];
    } else {
      forall k | 0 <= k < |future| ensures future[k] >= close.eventId {
        IdsComeFrom([close] + later, gate, future[k]);
        var i :| 0 <= i < |[close] + later| && ([close] + later)[i].eventId == future[k];
        assert all[|past| + i] == ([close] + later)[i];
      }
      assert queue + future == future;
    }
  }

  lemma CloseAt(past: seq<Sched>, close: Sched, later: seq<Sched>)
    requires IsClose(close)
    ensures
      var closes, n := Closes(past + ([close] + later)), |Closes(past)|;
      n < |closes| && closes[n] == close && closes[..n] == Closes(past)
  {
    hide IsOpen, IsClose;
    OpensSplit(past, [close] + later);
    OpensSplit([close], later);
    assert Closes([close]) == [close] by { assert [close][..0] == []; }
  }

  /** Collecting every open first and matching afterwards resolves each gate exactly as one
      pass over the history with a FIFO queue would. */
  lemma TwoPassesAreOne(ss: seq<Sched>, i: nat)
    requires InEventOrder(ss) && i < |ss| && IsClose(ss[i])
    ensures
      var n := |Closes(ss[..i])|;
      n < |Closes(ss)| && Closes(ss)[n] == ss[i] && Resolves(Opens(ss), Closes(ss), n) == Head(ss, i)
  {
    hide IsOpen, OpenKey, IsClose, CloseKey, Ids, Queue, FirstBefore;
    var past, later := ss[..i], ss[i + 1..];
    assert ss == past + ([ss[i]] + later) && past + [ss[i]] + later == ss;
    var n := |Closes(past)|;
    CloseAt(past, ss[i], later);
    hide Closes, Waiting, Opens, Without;
    WaitingIsQueueThenFuture(ss, past, [ss[i]] + later, CloseKey(ss[i]));
    CloseTakesTheHead(past, ss[i], later, CloseKey(ss[i]));
  }

  /** History that arrives later never changes what a close resolved. */
  lemma ResolutionIsFinal(ss: seq<Sched>, more: seq<Sched>, i: nat)
    requires InEventOrder(ss + more) && i < |ss| && IsClose(ss[i])
    ensures
      var n := |Closes(ss[..i])|;
      && n < |Closes(ss)| && n < |Closes(ss + more)|
      && Resolves(Opens(ss + more), Closes(ss + more), n) == Resolves(Opens(ss), Closes(ss), n)
  {
    assert InEventOrder(ss) by { assert forall k | 0 <= k < |ss| :: ss[k] == (ss + more)[k]; }
    assert (ss + more)[..i] == ss[..i];
    TwoPassesAreOne(ss, i);
    TwoPassesAreOne(ss + more, i);
  }

  // ---- No pairing does better ----------------------------------------------------------------

  /** Any way to pair closes of a gate with earlier opens of it, no open twice. */
  ghost predicate IsPairing(ss: seq<Sched>, gate: string, pairing: map<nat, nat>) {
    && (forall c | c in pairing :: Precedes(ss, gate, pairing[c], c))
    && (forall c, d | c in pairing && d in pairing && c != d :: pairing[c] != pairing[d])
  }

  ghost predicate Precedes(ss: seq<Sched>, gate: string, openId: nat, closeId: nat) {
    exists i, j | 0 <= i < j < |ss| ::
      && IsOpen(ss[i]) && OpenKey(ss[i]) == gate && ss[i].eventId == openId
      && IsClose(ss[j]) && CloseKey(ss[j]) == gate && ss[j].eventId == closeId
  }

  lemma {:induction false} OpenIdsContain(ss: seq<Sched>, gate: string, i: nat)
    requires i < |ss| && IsOpen(ss[i]) && OpenKey(ss[i]) == gate
    ensures ss[i].eventId in Ids(ss, gate)
  {
    assert ss == ss[..i] + [ss[i]] + ss[i + 1..];
    OpensSplit(ss[..i] + [ss[i]], ss[i + 1..]);
    OpensSplit(ss[..i], [ss[i]]);
    assert Opens([ss[i]]) == [ss[i]] by { assert [ss[i]][..0] == []; }
    OpenIdsSplit(Opens(ss[..i]) + [ss[i]], Opens(ss[i + 1..]), gate);
    OpenIdsSplit(Opens(ss[..i]), [ss[i]], gate);
    assert OpenIds([ss[i]], gate) == [ss[i].eventId] by { assert [ss[i]][..0] == []; }
  }

  lemma {:induction false} InjectiveSize(pairing: map<nat, nat>, targets: set<nat>)
    requires forall c | c in pairing :: pairing[c] in targets
    requires forall c, d | c in pairing && d in pairing && c != d :: pairing[c] != pairing[d]
    ensures |pairing| <= |targets|
    decreases |pairing|
  {
    if pairing != map[] {
      var c :| c in pairing;
      SizeWithout(pairing, c);
      InjectiveSize(pairing - {c}, targets - {pairing[c]});
    }
  }

  function Elements(s: seq<nat>): set<nat> {
    if s == [] then {} else Elements(s[..|s| - 1]) + {s[|s| - 1]}
  }

  lemma {:induction false} ElementsSize(s: seq<nat>)
    ensures |Elements(s)| <= |s|
    ensures forall x | x in s :: x in Elements(s)
  {
    if s != [] {
      var most, last := s[..|s| - 1], s[|s| - 1];
      ElementsSize(most);
      assert s == most + [last];
    }
  }

  lemma InjectiveInto(pairing: map<nat, nat>, ids: seq<nat>)
    requires forall c | c in pairing :: pairing[c] in ids
    requires forall c, d | c in pairing && d in pairing && c != d :: pairing[c] != pairing[d]
    ensures |pairing| <= |ids|
  {
    ElementsSize(ids);
    InjectiveSize(pairing, Elements(ids));
  }

  /** The matcher resolves as many gates as any pairing could. */
  lemma {:induction false} PairsAreMaximal(ss: seq<Sched>, gate: string, pairing: map<nat, nat>)
    requires InEventOrder(ss) && IsPairing(ss, gate, pairing)
    ensures |pairing| <= Pairs(ss, gate)
    decreases |ss|
  {
    hide IsOpen, OpenKey, IsClose, CloseKey, Ids, InEventOrder, Precedes;
    if ss == [] {
      if c :| c in pairing {
        NothingPrecedes(gate, pairing[c], c);
      }
    } else {
      var most, last := ss[..|ss| - 1], ss[|ss| - 1];
      assert ss == most + [last];
      OneMore(most, last, gate);
      if !IsOpen(last) && IsClose(last) && CloseKey(last) == gate && Queue(most, gate) == [] {
        MatchedOpensArePrefix(most, gate);
        EveryOpenIsMatched(ss, gate, pairing);
      } else {
        ShorterPairing(ss, gate, pairing);
        PairsAreMaximal(most, gate, pairing - {last.eventId});
        if last.eventId in pairing {
          SizeWithout(pairing, last.eventId);
          EndsInClose(ss, gate, pairing[last.eventId]);
        } else {
          assert pairing - {last.eventId} == pairing;
        }
      }
    }
  }

  lemma NothingPrecedes(gate: string, openId: nat, closeId: nat)
    ensures !Precedes([], gate, openId, closeId)
  {}

  lemma ShorterPairing(ss: seq<Sched>, gate: string, pairing: map<nat, nat>)
    requires InEventOrder(ss) && ss != [] && IsPairing(ss, gate, pairing)
    ensures InEventOrder(ss[..|ss| - 1])
    ensures IsPairing(ss[..|ss| - 1], gate, pairing - {ss[|ss| - 1].eventId})
  {
    hide Precedes;
    var earlier := pairing - {ss[|ss| - 1].eventId};
    forall c | c in earlier ensures Precedes(ss[..|ss| - 1], gate, earlier[c], c) {
      PrecedesEarlier(ss, gate, earlier[c], c);
    }
  }

  lemma PrecedesEarlier(ss: seq<Sched>, gate: string, openId: nat, closeId: nat)
    requires InEventOrder(ss) && ss != [] && Precedes(ss, gate, openId, closeId) && closeId != ss[|ss| - 1].eventId
    ensures Precedes(ss[..|ss| - 1], gate, openId, closeId)
  {
    var i, j :| 0 <= i < j < |ss|
      && IsOpen(ss[i]) && OpenKey(ss[i]) == gate && ss[i].eventId == openId
      && IsClose(ss[j]) && CloseKey(ss[j]) == gate && ss[j].eventId == closeId;
    var most := ss[..|ss| - 1];
    assert most[i] == ss[i] && most[j] == ss[j];
  }

  lemma EndsInClose(ss: seq<Sched>, gate: string, openId: nat)
    requires InEventOrder(ss) && ss != [] && Precedes(ss, gate, openId, ss[|ss| - 1].eventId)
    ensures !IsOpen(ss[|ss| - 1]) && IsClose(ss[|ss| - 1]) && CloseKey(ss[|ss| - 1]) == gate
  {
    var i, j :| 0 <= i < j < |ss|
      && IsOpen(ss[i]) && OpenKey(ss[i]) == gate && ss[i].eventId == openId
      && IsClose(ss[j]) && CloseKey(ss[j]) == gate && ss[j].eventId == ss[|ss| - 1].eventId;
    assert j == |ss| - 1;
  }

  /** A close that finds an empty queue finds every earlier open resolved, so nothing can be gained. */
  lemma EveryOpenIsMatched(ss: seq<Sched>, gate: string, pairing: map<nat, nat>)
    requires IsPairing(ss, gate, pairing) && ss != []
    requires !IsOpen(ss[|ss| - 1])
    requires Pairs(ss[..|ss| - 1], gate) == |Ids(ss[..|ss| - 1], gate)|
    ensures |pairing| <= Pairs(ss, gate)
  {
    hide Ids, Precedes, IsOpen, IsClose, OpenKey, CloseKey, Queue;
    var most := ss[..|ss| - 1];
    forall c | c in pairing ensures pairing[c] in Ids(most, gate) {
      OpensEarlier(ss, gate, pairing[c], c);
    }
    InjectiveInto(pairing, Ids(most, gate));
    assert ss == most + [ss[|ss| - 1]];
    OneMore(most, ss[|ss| - 1], gate);
  }

  lemma OpensEarlier(ss: seq<Sched>, gate: string, openId: nat, closeId: nat)
    requires ss != [] && Precedes(ss, gate, openId, closeId)
    ensures openId in Ids(ss[..|ss| - 1], gate)
  {
    hide IsOpen, OpenKey, IsClose, CloseKey, Ids;
    var i, j :| 0 <= i < j < |ss|
      && IsOpen(ss[i]) && OpenKey(ss[i]) == gate && ss[i].eventId == openId
      && IsClose(ss[j]) && CloseKey(ss[j]) == gate && ss[j].eventId == closeId;
    assert ss[..|ss| - 1][i] == ss[i];
    OpenIdsContain(ss[..|ss| - 1], gate, i);
  }
}
