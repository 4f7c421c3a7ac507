/** Idempotent HTTP requests (services/api-gateway/ancora_api/idempotency.py): the store of
    reservations and responses, and any interleaving of requests that share it. */
module Idempotency {
  import opened Common

  datatype Response = Response(status: int, body: string, mediaType: string)

  /** A reserved key; `response` is absent while its request is in flight. */
  datatype Entry = Entry(createdAt: real, response: Option<Response>)

  type Table = map<string, Entry>

  // ---- The key ------------------------------------------------------------------------------

  const MUTATING := {"POST", "PUT", "PATCH", "DELETE"}

  /** The key a request is stored under, if it takes part at all. */
  function CacheKey(verb: string, path: string, header: string): Option<string> {
    if header == "" || verb !in MUTATING then None else Some(verb + ":" + path + ":" + header)
  }

  /** A request takes part exactly when it brings a key and may change something; its stored key is
      then verb, path and header, joined by colons. */
  lemma TakesPartIff(verb: string, path: string, header: string)
    ensures CacheKey(verb, path, header).Some? <==>
      header != "" && (verb == "POST" || verb == "PUT" || verb == "PATCH" || verb == "DELETE")
    ensures CacheKey(verb, path, header).Some? ==> CacheKey(verb, path, header).value == verb + (":" + path + ":" + header)
  {
    assert verb + ":" + path + ":" + header == verb + (":" + path + ":" + header);
  }

  /** Two requests share a stored key exactly when their verbs agree and so do path, colon and
      header run together. */
  lemma SameKeyIff(v1: string, p1: string, h1: string, v2: string, p2: string, h2: string)
    requires CacheKey(v1, p1, h1).Some? && CacheKey(v2, p2, h2).Some?
    ensures CacheKey(v1, p1, h1) == CacheKey(v2, p2, h2) <==> v1 == v2 && p1 + ":" + h1 == p2 + ":" + h2
    ensures ':' !in p1 && ':' !in p2 && CacheKey(v1, p1, h1) == CacheKey(v2, p2, h2) ==> p1 == p2 && h1 == h2
  {
    assert v1 + ":" + p1 + ":" + h1 == v1 + ":" + (p1 + ":" + h1);
    assert v2 + ":" + p2 + ":" + h2 == v2 + ":" + (p2 + ":" + h2);
    if CacheKey(v1, p1, h1) == CacheKey(v2, p2, h2) {
      CutAtColon(v1, v2, p1 + ":" + h1, p2 + ":" + h2);
      if ':' !in p1 && ':' !in p2 { CutAtColon(p1, p2, h1, h2); }
    }
  }

  /** So a colon in a path lets two different requests answer for each other. */
  lemma ColonInAPathCollides()
    ensures CacheKey("POST", "/v1/runs", "a:b") == CacheKey("POST", "/v1/runs:a", "b")
  {
    assert "POST" + ":" + "/v1/runs" + ":" + "a:b" == "POST" + ":" + "/v1/runs:a" + ":" + "b";
  }

  // ---- The store ------------------------------------------------------------------------------

  function Swept(t: Table, ttl: real, now: real): Table { map k | k in t && t[k].createdAt >= now - ttl :: t[k] }

  function Reserved(t: Table, ttl: real, key: string, now: real): Table {
    var swept := Swept(t, ttl, now);
    if key in swept then swept else swept[key := Entry(now, None)]
  }

  function Found(t: Table, ttl: real, key: string, now: real): Option<Entry> {
    if key in t && t[key].createdAt >= now - ttl then Some(t[key]) else None
  }

  function Finished(t: Table, key: string, r: Response): Table {
    if key !in t then t
    else if r.status >= 400 then t - {key}
    else t[key := Entry(t[key].createdAt, Some(r))]
  }

  class IdempotencyStore {
    const ttl: real
    var entries: Table

    constructor (ttl: real)
      ensures this.ttl == ttl && entries == map[]
    {
      this.ttl, entries := ttl, map[];
    }

    method Sweep(now: real)
      modifies this
      ensures entries == Swept(old(entries), ttl, now)
    {
      var stale := set k | k in entries && entries[k].createdAt < now - ttl;
      while stale != {}
        invariant entries.Keys <= old(entries).Keys
        invariant stale == set k | k in entries && old(entries)[k].createdAt < now - ttl
        invariant forall k | k in old(entries) :: k in entries || old(entries)[k].createdAt < now - ttl
        invariant forall k | k in entries :: entries[k] == old(entries)[k]
        decreases |stale|
      {
        var k :| k in stale;
        entries := entries - {k};
        stale := stale - {k};
      }
      assert forall k | k in entries :: k !in stale;
    }

    /** Reserves the key, or gives the entry that already holds it. */
    method Begin(key: string, now: real) returns (existing: Option<Entry>)
      modifies this
      ensures existing == Found(old(entries), ttl, key, now)
      ensures entries == Reserved(old(entries), ttl, key, now)
    {
      Sweep(now);
      if key in entries {
        return Some(entries[key]);
      }
      entries := entries[key := Entry(now, None)];
      return None;
    }

    /** Keeps a response below 400; frees the key otherwise. */
    method Finish(key: string, r: Response)
      modifies this
      ensures entries == Finished(old(entries), key, r)
    {
      if key !in entries {
        return;
      }
      if r.status >= 400 {
        entries := entries - {key};
        return;
      }
      entries := entries[key := entries[key].(response := Some(r))];
    }

    method Abandon(key: string)
      modifies this
      ensures entries == old(entries) - {key}
    {
      entries := entries - {key};
    }
  }

  // ---- Requests over one store --------------------------------------------------------------------

  /** What became of a request. `Lost` is a handler that was cancelled, or whose body could not be
      read to its end: neither path tells the store. */
  datatype Fate =
    | Running
    | InFlight
    | Replayed(of: nat, response: Response)
    | Responded(response: Response)
    | Raised
    | Lost

  datatype Request = Request(key: string, at: real, fate: Fate) {
    predicate Ran() { fate.Running? || fate.Responded? || fate.Raised? || fate.Lost? }
    predicate Succeeded() { fate.Responded? && fate.response.status < 400 }
    /** Its reservation was never taken back. */
    predicate Keeps() { fate.Running? || fate.Lost? || Succeeded() }
    function Stored(): Entry { Entry(at, if Succeeded() then Some(fate.response) else None) }
  }

  /** `requests` is every keyed request so far, in order of arrival; `owner` tells whose reservation a key's entry is. */
  datatype State = State(table: Table, owner: map<string, nat>, now: real, requests: seq<Request>)

  const START := State(map[], map[], 0.0, [])

  datatype Step = Tick(passed: real) | Arrive(key: string) | Settle(i: nat, fate: Fate)

  predicate Enabled(s: State, step: Step) {
    match step
    case Tick(passed) => passed >= 0.0
    case Arrive(key) => true
    case Settle(i, fate) =>
      i < |s.requests| && s.requests[i].fate.Running? && (fate.Responded? || fate.Raised? || fate.Lost?)
  }

  /** How a request is dealt with on arrival. */
  function FateOnArrival(s: State, ttl: real, key: string): Fate {
    match Found(s.table, ttl, key, s.now)
    case None => Running
    case Some(e) =>
      if e.response.None? then InFlight
      else Replayed(if key in s.owner then s.owner[key] else 0, e.response.value)
  }

  function Next(s: State, ttl: real, step: Step): State
    requires Enabled(s, step)
  {
    match step
    case Tick(passed) => s.(now := s.now + passed)
    case Arrive(key) =>
      var fate := FateOnArrival(s, ttl, key);
      State(Reserved(s.table, ttl, key, s.now),
            if fate.Running? then s.owner[key := |s.requests|] else s.owner,
            s.now, s.requests + [Request(key, s.now, fate)])
    case Settle(i, fate) =>
      var key := s.requests[i].key;
      s.(requests := s.requests[i := s.requests[i].(fate := fate)],
         table := match fate
                  case Responded(r) => Finished(s.table, key, r)
                  case Raised => s.table - {key}
                  case _ => s.table)
  }

  function Run(ttl: real, steps: seq<Step>): State {
    if steps == [] then START
    else
      var s := Run(ttl, steps[..|steps| - 1]);
      if Enabled(s, steps[|steps| - 1]) then Next(s, ttl, steps[|steps| - 1]) else s
  }

  /** No handler has been running for longer than the time to live. */
  predicate InTime(s: State, ttl: real) {
    forall i | 0 <= i < |s.requests| && s.requests[i].fate.Running? :: s.now <= s.requests[i].at + ttl
  }

  ghost predicate HandlersAreShort(ttl: real, steps: seq<Step>) {
    forall n | 0 <= n < |steps| :: InTime(Run(ttl, steps[..n]), ttl)
  }

  // ---- What every state keeps -----------------------------------------------------------------------

  ghost predicate EntryIsOwned(s: State, key: string)
    requires key in s.table
  {
    && key in s.owner && s.owner[key] < |s.requests|
    && var q := s.requests[s.owner[key]];
       q.key == key && q.Keeps() && s.table[key] == q.Stored()
  }

  predicate StillHeld(s: State, ttl: real, i: nat)
    requires i < |s.requests|
  {
    var q := s.requests[i];
    q.Keeps() && s.now <= q.at + ttl ==> q.key in s.table && q.key in s.owner && s.owner[q.key] == i
  }

  /** No other handler runs on the key while a reservation is being worked on or kept. */
  predicate Apart(s: State, ttl: real, i: nat, j: nat)
    requires i < j < |s.requests|
  {
    var p, q := s.requests[i], s.requests[j];
    p.key == q.key && q.Ran() ==> !p.fate.Running? && (p.Keeps() ==> q.at > p.at + ttl)
  }

  predicate ReplayIsFaithful(s: State, ttl: real, j: nat)
    requires j < |s.requests|
  {
    var q := s.requests[j];
    q.fate.Replayed? ==>
      && q.fate.of < j && s.requests[q.fate.of].key == q.key
      && s.requests[q.fate.of].fate == Responded(q.fate.response) && q.fate.response.status < 400
      && q.at <= s.requests[q.fate.of].at + ttl
  }

  ghost predicate Sound(s: State, ttl: real) {
    && (forall k | k in s.table :: EntryIsOwned(s, k))
    && (forall i | 0 <= i < |s.requests| :: s.requests[i].at <= s.now && StillHeld(s, ttl, i) && ReplayIsFaithful(s, ttl, i))
    && (forall i, j | 0 <= i < j < |s.requests| :: Apart(s, ttl, i, j))
  }

  lemma ArriveIsSound(s: State, ttl: real, key: string)
    requires Sound(s, ttl) && InTime(s, ttl)
    ensures Sound(Next(s, ttl, Arrive(key)), ttl)
  {
    var t, n := Next(s, ttl, Arrive(key)), |s.requests|;
    assert forall i | 0 <= i < n :: t.requests[i] == s.requests[i];
    assert key in s.table ==> EntryIsOwned(s, key);
    forall k | k in t.table ensures EntryIsOwned(t, k) {
      if k in s.table { assert EntryIsOwned(s, k); }
    }
    forall i | 0 <= i < |t.requests| ensures t.requests[i].at <= t.now && StillHeld(t, ttl, i) && ReplayIsFaithful(t, ttl, i) {
      if i < n { assert StillHeld(s, ttl, i) && ReplayIsFaithful(s, ttl, i); }
    }
    forall i, j | 0 <= i < j < |t.requests| ensures Apart(t, ttl, i, j) {
      if j < n {
        assert Apart(s, ttl, i, j);
      } else {
        assert StillHeld(s, ttl, i);
      }
    }
  }

  lemma SettleIsSound(s: State, ttl: real, i: nat, fate: Fate)
    requires Sound(s, ttl) && InTime(s, ttl) && Enabled(s, Settle(i, fate))
    ensures Sound(Next(s, ttl, Settle(i, fate)), ttl)
  {
    var t, key := Next(s, ttl, Settle(i, fate)), s.requests[i].key;
    assert StillHeld(s, ttl, i);
    assert EntryIsOwned(s, key);
    forall k | k in t.table ensures EntryIsOwned(t, k) {
      assert EntryIsOwned(s, k);
    }
    forall j | 0 <= j < |t.requests| ensures t.requests[j].at <= t.now && StillHeld(t, ttl, j) && ReplayIsFaithful(t, ttl, j) {
      assert StillHeld(s, ttl, j) && ReplayIsFaithful(s, ttl, j);
    }
    forall j, k | 0 <= j < k < |t.requests| ensures Apart(t, ttl, j, k) {
      assert Apart(s, ttl, j, k);
    }
  }

  lemma StepIsSound(s: State, ttl: real, step: Step)
    requires Sound(s, ttl) && Enabled(s, step) && (InTime(s, ttl) || step.Tick?)
    ensures Sound(Next(s, ttl, step), ttl)
  {
    match step {
      case Tick(passed) =>
        var t := Next(s, ttl, step);
        assert forall k | k in s.table :: EntryIsOwned(s, k) && EntryIsOwned(t, k);
        assert forall i | 0 <= i < |s.requests| :: StillHeld(s, ttl, i) && ReplayIsFaithful(s, ttl, i)
                          && StillHeld(t, ttl, i) && ReplayIsFaithful(t, ttl, i);
        assert forall i, j | 0 <= i < j < |s.requests| :: Apart(s, ttl, i, j) && Apart(t, ttl, i, j);
      case Arrive(key) => ArriveIsSound(s, ttl, key);
      case Settle(i, fate) => SettleIsSound(s, ttl, i, fate);
    }
  }

  lemma ShortPrefix(ttl: real, steps: seq<Step>, n: nat)
    requires HandlersAreShort(ttl, steps) && n <= |steps|
    ensures HandlersAreShort(ttl, steps[..n])
  {
    hide Run, InTime;
    assert forall i | 0 <= i < n :: steps[..n][..i] == steps[..i];
  }

  lemma {:induction false} RunsAreSound(ttl: real, steps: seq<Step>)
    requires HandlersAreShort(ttl, steps)
    ensures Sound(Run(ttl, steps), ttl)
  {
    if steps != [] {
      hide Sound, InTime, Next, Enabled;
      var n := |steps| - 1;
      ShortPrefix(ttl, steps, n);
      RunsAreSound(ttl, steps[..n]);
      if Enabled(Run(ttl, steps[..n]), steps[n]) {
        StepIsSound(Run(ttl, steps[..n]), ttl, steps[n]);
      }
    }
  }

  // ---- Main results ---------------------------------------------------------------------------------

  /** At most one handler runs per key at any time. */
  lemma OneHandlerAtATime(ttl: real, steps: seq<Step>, i: nat, j: nat)
    requires HandlersAreShort(ttl, steps)
    requires var qs := Run(ttl, steps).requests;
      i < |qs| && j < |qs| && qs[i].fate.Running? && qs[j].fate.Running? && qs[i].key == qs[j].key
    ensures i == j
  {
    RunsAreSound(ttl, steps);
    hide Run;
    if i != j {
      PairIsApart(Run(ttl, steps), ttl, if i < j then i else j, if i < j then j else i);
    }
  }

  lemma PairIsApart(s: State, ttl: real, i: nat, j: nat)
    requires Sound(s, ttl) && i < j < |s.requests| && s.requests[i].key == s.requests[j].key
    ensures !(s.requests[i].fate.Running? && s.requests[j].Ran())
    ensures s.requests[i].Keeps() && s.requests[j].Ran() ==> s.requests[j].at > s.requests[i].at + ttl
  {
    assert Apart(s, ttl, i, j);
  }

  /** After a success no handler runs again on its key until its reservation has expired. */
  lemma OneSuccessPerLifetime(ttl: real, steps: seq<Step>, i: nat, j: nat)
    requires HandlersAreShort(ttl, steps)
    requires var qs := Run(ttl, steps).requests;
      i < j < |qs| && qs[i].key == qs[j].key && qs[i].Succeeded() && qs[j].Ran()
    ensures var qs := Run(ttl, steps).requests; qs[j].at > qs[i].at + ttl
  {
    RunsAreSound(ttl, steps);
    hide Run;
    PairIsApart(Run(ttl, steps), ttl, i, j);
  }

  /** A replay is the very success of an earlier request on the same key, within its lifetime. */
  lemma ReplaysEqualTheSuccess(ttl: real, steps: seq<Step>, j: nat)
    requires HandlersAreShort(ttl, steps)
    requires j < |Run(ttl, steps).requests| && Run(ttl, steps).requests[j].fate.Replayed?
    ensures var qs := Run(ttl, steps).requests;
      var of := qs[j].fate.of;
      of < j && qs[of].key == qs[j].key && qs[of].fate == Responded(qs[j].fate.response) && qs[of].Succeeded()
      && qs[j].at <= qs[of].at + ttl
  {
    RunsAreSound(ttl, steps);
    hide Run;
    assert ReplayIsFaithful(Run(ttl, steps), ttl, j);
  }

  /** Some request on the key still keeps its reservation, unexpired: in flight or lost, or done. */
  predicate Busy(s: State, ttl: real, key: string) {
    exists i :: 0 <= i < |s.requests| && s.requests[i].key == key && s.now <= s.requests[i].at + ttl
                && (s.requests[i].fate.Running? || s.requests[i].fate.Lost?)
  }

  predicate Done(s: State, ttl: real, key: string) {
    exists i :: 0 <= i < |s.requests| && s.requests[i].key == key && s.now <= s.requests[i].at + ttl && s.requests[i].Succeeded()
  }

  /** The answer on arrival follows from history alone: refused exactly while a handler works on
      the key or one was lost within the time to live, replayed exactly while a success is that
      young, and run otherwise. So a handler that failed or raised frees its key at once. */
  lemma AnswerFollowsHistory(ttl: real, steps: seq<Step>, key: string)
    requires HandlersAreShort(ttl, steps)
    ensures var s := Run(ttl, steps);
      && (FateOnArrival(s, ttl, key).InFlight? <==> Busy(s, ttl, key))
      && (FateOnArrival(s, ttl, key).Replayed? <==> Done(s, ttl, key))
      && (FateOnArrival(s, ttl, key).Running? <==> !Busy(s, ttl, key) && !Done(s, ttl, key))
  {
    RunsAreSound(ttl, steps);
    hide Run, Sound, Busy, Done;
    AnswerInSoundState(Run(ttl, steps), ttl, key);
  }

  lemma AnswerInSoundState(s: State, ttl: real, key: string)
    requires Sound(s, ttl)
    ensures FateOnArrival(s, ttl, key).InFlight? <==> Busy(s, ttl, key)
    ensures FateOnArrival(s, ttl, key).Replayed? <==> Done(s, ttl, key)
    ensures FateOnArrival(s, ttl, key).Running? <==> !Busy(s, ttl, key) && !Done(s, ttl, key)
  {
    if key in s.table {
      assert EntryIsOwned(s, key);
    }
    if i :| 0 <= i < |s.requests| && s.requests[i].key == key && s.now <= s.requests[i].at + ttl && s.requests[i].Keeps() {
      assert StillHeld(s, ttl, i);
    }
  }

  /** Without the bound on handlers: after any time at all has passed, a request starts a second
      handler on a key being worked on exactly when the first has outlived the time to live. */
  lemma SecondHandlerIff(ttl: real, steps: seq<Step>, passed: real, i: nat)
    requires HandlersAreShort(ttl, steps) && passed >= 0.0
    requires i < |Run(ttl, steps).requests| && Run(ttl, steps).requests[i].fate.Running?
    ensures var s := Next(Run(ttl, steps), ttl, Tick(passed));
      FateOnArrival(s, ttl, s.requests[i].key).Running? <==> s.now > s.requests[i].at + ttl
  {
    RunsAreSound(ttl, steps);
    hide Run;
    var r := Run(ttl, steps);
    StepIsSound(r, ttl, Tick(passed));
    hide Sound;
    OwnersOfARunningKey(r, ttl, passed, i);
  }

  /** Concretely: two handlers at once, once the first has run for longer than the time to live. */
  lemma OutlivedHandlerRunsTwice(ttl: real)
    requires ttl >= 0.0
    ensures var qs := Run(ttl, [Arrive("k"), Tick(ttl + 1.0), Arrive("k")]).requests;
      qs == [Request("k", 0.0, Running), Request("k", ttl + 1.0, Running)]
  {
    OverlapState(ttl);
  }

  /** Two requests on one key, the second arriving when the first has outlived the time to live. */
  function Overlap(ttl: real): seq<Step> { [Arrive("k"), Tick(ttl + 1.0), Arrive("k")] }

  lemma OverlapState(ttl: real)
    requires ttl >= 0.0
    ensures Run(ttl, Overlap(ttl)) == State(
      map["k" := Entry(ttl + 1.0, None)], map["k" := 1], ttl + 1.0, [Request("k", 0.0, Running), Request("k", ttl + 1.0, Running)])
  {
    var a, b := Arrive("k"), Tick(ttl + 1.0);
    assert Overlap(ttl)[..2] == [a, b] && [a, b][..1] == [a] && [a][..0] == [];
    assert Swept(map[], ttl, 0.0) == map[] && Run(ttl, []) == START;
    assert Run(ttl, [a]) == State(map["k" := Entry(0.0, None)], map["k" := 0], 0.0, [Request("k", 0.0, Running)]);
    assert Run(ttl, [a, b]) == Run(ttl, [a]).(now := ttl + 1.0);
    assert Swept(map["k" := Entry(0.0, None)], ttl, ttl + 1.0) == map[];
  }

  lemma LastTwo(ttl: real, steps: seq<Step>, a: Step, b: Step)
    ensures Run(ttl, steps + [a] + [b]) ==
      var s := Run(ttl, steps);
      var t := if Enabled(s, a) then Next(s, ttl, a) else s;
      if Enabled(t, b) then Next(t, ttl, b) else t
  {
    hide Next, Enabled;
    assert (steps + [a] + [b])[..|steps| + 1] == steps + [a] && (steps + [a])[..|steps|] == steps;
  }

  /** What the late handler then does falls on the second one's reservation: its success is replayed
      to a third request in the name of a handler that is still running. */
  lemma LateSuccessAnswersForAnother(ttl: real, r: Response)
    requires ttl >= 0.0 && r.status < 400
    ensures
      var qs := Run(ttl, Overlap(ttl) + [Settle(0, Responded(r))] + [Arrive("k")]).requests;
      |qs| == 3 && qs[2].fate == Replayed(1, r) && qs[1].fate.Running?
  {
    OverlapState(ttl);
    LastTwo(ttl, Overlap(ttl), Settle(0, Responded(r)), Arrive("k"));
    hide Run;
  }

  /** And its failure frees the key for a third handler. */
  lemma LateFailureFreesAnother(ttl: real)
    requires ttl >= 0.0
    ensures
      var qs := Run(ttl, Overlap(ttl) + [Settle(0, Raised)] + [Arrive("k")]).requests;
      |qs| == 3 && qs[2].fate.Running? && qs[1].fate.Running?
  {
    OverlapState(ttl);
    LastTwo(ttl, Overlap(ttl), Settle(0, Raised), Arrive("k"));
    hide Run;
  }

  /** A handler that is lost keeps its key: the next request within the time to live is refused. */
  lemma LostHandlerBlocksItsKey(ttl: real)
    requires ttl >= 0.0
    ensures Run(ttl, [Arrive("k")] + [Settle(0, Lost)] + [Arrive("k")]).requests[1..] == [Request("k", 0.0, InFlight)]
  {
    LastTwo(ttl, [Arrive("k")], Settle(0, Lost), Arrive("k"));
    assert [Arrive("k")][..0] == [] && Swept(map[], ttl, 0.0) == map[] && Run(ttl, []) == START;
    assert Run(ttl, [Arrive("k")]) == State(map["k" := Entry(0.0, None)], map["k" := 0], 0.0, [Request("k", 0.0, Running)]);
    hide Run;
  }

  /** Exactly when a handler can do nothing to another's reservation, however it ends: if and only if
      its key is not stored, or stored for itself. */
  lemma SettlesOnlyItsOwnIff(s: State, ttl: real, i: nat)
    requires i < |s.requests| && s.requests[i].fate.Running? && forall k | k in s.table :: k in s.owner
    ensures
      var key := s.requests[i].key;
      (forall fate, k | Enabled(s, Settle(i, fate)) && k in s.table && s.owner[k] != i ::
         var after := Next(s, ttl, Settle(i, fate)).table; k in after && after[k] == s.table[k])
      <==> key !in s.table || s.owner[key] == i
  {
    var key := s.requests[i].key;
    if key in s.table && s.owner[key] != i {
      assert Enabled(s, Settle(i, Raised)) && key !in Next(s, ttl, Settle(i, Raised)).table;
    }
  }

  lemma OwnersOfARunningKey(r: State, ttl: real, passed: real, i: nat)
    requires Sound(r, ttl) && passed >= 0.0 && i < |r.requests| && r.requests[i].fate.Running?
    ensures var s := Next(r, ttl, Tick(passed));
      FateOnArrival(s, ttl, s.requests[i].key).Running? <==> s.now > s.requests[i].at + ttl
  {
    var key := r.requests[i].key;
    assert StillHeld(r, ttl, i);
    if key in r.table {
      assert EntryIsOwned(r, key);
      var o := r.owner[key];
      if i < o { PairIsApart(r, ttl, i, o); }
      if o < i { PairIsApart(r, ttl, o, i); }
    }
  }
}
