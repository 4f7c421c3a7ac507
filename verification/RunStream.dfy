/** The live tail of a run: the stream, the server's cursor and the reconnecting client
    (web/lib/stream.ts, services/api-gateway/ancora_api/routers/stream.py,
    packages/common/ancora_common/events.py). Stream ids are numbers that only grow; "0" precedes all. */
module RunStream {
  import opened Common

  datatype Entry = Entry(id: nat, event: string)

  datatype Frame = Hello | Heartbeat | EventFrame(entry: Entry)

  const READ_COUNT := 128

  // ---- The stream ---------------------------------------------------------------------------

  /** XREAD: the entries with an id above the given one. */
  function TailAfter(es: seq<Entry>, id: nat): seq<Entry> {
    if es == [] then []
    else TailAfter(es[..|es| - 1], id) + (if es[|es| - 1].id > id then [es[|es| - 1]] else [])
  }

  function AtMost(es: seq<Entry>, n: nat): seq<Entry> { if |es| <= n then es else es[..n] }

  predicate Ascending(es: seq<Entry>) { forall i, j | 0 <= i < j < |es| :: es[i].id < es[j].id }

  function EventsOf(frames: seq<Frame>): seq<Entry> {
    if frames == [] then []
    else EventsOf(frames[..|frames| - 1]) + (if frames[|frames| - 1].EventFrame? then [frames[|frames| - 1].entry] else [])
  }

  // ---- The client -----------------------------------------------------------------------------

  /** What the hook remembers across sockets, and the events it has handed to its caller. */
  datatype Client = Client(lastId: nat, seen: seq<Entry>)

  function Receive(c: Client, f: Frame): Client {
    if f.EventFrame? then Client(f.entry.id, c.seen + [f.entry]) else c
  }

  const MAX_DELAY := 15000

  function Pow2(n: nat): nat { if n == 0 then 1 else 2 * Pow2(n - 1) }

  /** Capped exponential backoff before the `attempts`-th reconnect in a row. */
  function Delay(attempts: nat): nat
    requires attempts >= 1
  {
    var d := 1000 * Pow2(attempts - 1);
    if d <= MAX_DELAY then d else MAX_DELAY
  }

  /** One, two, four and eight seconds, and then fifteen each time. */
  lemma DelaysDoubleToFifteenSeconds(attempts: nat)
    requires attempts >= 1
    ensures Delay(attempts) ==
      if attempts == 1 then 1000 else if attempts == 2 then 2000 else if attempts == 3 then 4000
      else if attempts == 4 then 8000 else 15000
  {
    PowersGrow(attempts - 1);
    assert Pow2(0) == 1 && Pow2(1) == 2 && Pow2(2) == 4 && Pow2(3) == 8 && Pow2(4) == 16;
  }

  lemma {:induction false} PowersGrow(n: nat)
    ensures n >= 4 ==> Pow2(n) >= 16
  {
    if n > 4 { PowersGrow(n - 1); } else { assert n == 4 ==> Pow2(4) == 16; }
  }

  /** One subscription of the hook; its callbacks are its methods. */
  class StreamClient {
    var lastId: nat
    var seen: seq<Entry>
    var attempts: nat
    var stopped: bool
    var open: bool

    ghost function State(): Client
      reads this
    {
      Client(lastId, seen)
    }

    /** A remounted hook keeps the id it last saw. */
    constructor (lastId: nat)
      ensures State() == Client(lastId, []) && attempts == 0 && !stopped && !open
    {
      this.lastId, seen, attempts, stopped, open := lastId, [], 0, false, false;
    }

    /** The id a new socket asks to resume from; nothing once the hook is torn down. */
    method Connect() returns (from: Option<nat>)
      ensures from == if stopped then None else Some(lastId)
    {
      from := if stopped then None else Some(lastId);
    }

    method OnOpen()
      modifies this
      ensures State() == old(State()) && attempts == 0 && open && stopped == old(stopped)
    {
      attempts, open := 0, true;
    }

    method OnMessage(frame: Frame)
      modifies this
      ensures State() == Receive(old(State()), frame)
      ensures attempts == old(attempts) && stopped == old(stopped) && open == old(open)
    {
      if frame.EventFrame? {
        lastId := frame.entry.id;
        seen := seen + [frame.entry];
      }
    }

    /** The delay after which to connect again, if at all. */
    method OnClose() returns (retryIn: Option<nat>)
      modifies this
      ensures State() == old(State()) && !open && stopped == old(stopped)
      ensures if stopped then retryIn == None && attempts == old(attempts)
              else attempts == old(attempts) + 1 && retryIn == Some(Delay(attempts))
    {
      open := false;
      if stopped {
        return None;
      }
      attempts := attempts + 1;
      retryIn := Some(Delay(attempts));
    }

    method TearDown()
      modifies this
      ensures stopped && !open && State() == old(State())
    {
      stopped, open := true, false;
    }
  }

  // ---- The server -------------------------------------------------------------------------------

  function LastIdOf(es: seq<Entry>, otherwise: nat): nat { if es == [] then otherwise else es[|es| - 1].id }

  function Framed(es: seq<Entry>): seq<Frame> {
    if es == [] then [] else Framed(es[..|es| - 1]) + [EventFrame(es[|es| - 1])]
  }

  lemma {:induction false} FramesAreEntries(es: seq<Entry>)
    ensures |Framed(es)| == |es| && forall i | 0 <= i < |es| :: Framed(es)[i] == EventFrame(es[i])
  {
    if es != [] { FramesAreEntries(es[..|es| - 1]); }
  }

  /** There is nothing to serve exactly when the stream holds nothing above the cursor. */
  lemma NothingToServeIff(stream: seq<Entry>, cursor: nat)
    ensures AtMost(TailAfter(stream, cursor), READ_COUNT) == [] <==> forall e | e in stream :: e.id <= cursor
    ensures forall e | e in TailAfter(stream, cursor) :: e.id > cursor
  {
    hide TailAfter;
    var tail := TailAfter(stream, cursor);
    forall e ensures e in tail <==> e in stream && e.id > cursor { InTail(stream, cursor, e); }
    if tail != [] { assert tail[0] in tail; }
  }

  /** One turn of the socket loop that is not cut short: a read after the cursor, then a frame
      per entry, the cursor moving with each; an idle window sends a heartbeat. */
  method ServeOnce(stream: seq<Entry>, cursor: nat) returns (frames: seq<Frame>, lastId: nat)
    ensures var batch := AtMost(TailAfter(stream, cursor), READ_COUNT);
            lastId == LastIdOf(batch, cursor) && frames == if batch == [] then [Heartbeat] else Framed(batch)
    ensures frames == [Heartbeat] <==> forall e | e in stream :: e.id <= cursor
    ensures frames != [Heartbeat] ==> |frames| == (if |TailAfter(stream, cursor)| < 128 then |TailAfter(stream, cursor)| else 128)
    ensures frames != [Heartbeat] ==> lastId > cursor && forall i | 0 <= i < |frames| :: frames[i] == EventFrame(TailAfter(stream, cursor)[i])
  {
    var batch := AtMost(TailAfter(stream, cursor), READ_COUNT);
    NothingToServeIff(stream, cursor);
    FramesAreEntries(batch);
    lastId := cursor;
    if batch == [] {
      return [Heartbeat], cursor;
    }
    frames := [];
    for i := 0 to |batch|
      invariant frames == Framed(batch[..i]) && lastId == LastIdOf(batch[..i], cursor)
    {
      assert batch[..i + 1][..i] == batch[..i];
      lastId := batch[i].id;
      frames := frames + [EventFrame(batch[i])];
    }
    assert batch[..|batch|] == batch;
  }

  // ---- The three together -------------------------------------------------------------------------

  /** A live socket: the server's cursor, the read entries it has not sent yet, and the frames
      on the wire. */
  datatype Socket = Socket(cursor: nat, batch: seq<Entry>, wire: seq<Frame>)

  /** `log` is everything ever published; the stream still holds `log[trimmed..]`. */
  datatype State = State(log: seq<Entry>, trimmed: nat, socket: Option<Socket>, client: Client)

  function Start(carried: nat): State { State([], 0, None, Client(carried, [])) }

  datatype Step =
    | Publish(entry: Entry)
    | Trim(upTo: nat)
    | Connect
    | Read
    | Send
    | Deliver
    | Drop

  predicate Enabled(s: State, step: Step) {
    match step
    case Publish(e) => e.id > LastIdOf(s.log, 0)
    case Trim(n) => s.trimmed <= n <= |s.log|
    case Connect => s.socket.None?
    case Read => s.socket.Some? && s.socket.value.batch == [] && s.trimmed <= |s.log|
    case Send => s.socket.Some? && s.socket.value.batch != []
    case Deliver => s.socket.Some? && s.socket.value.wire != []
    case Drop => s.socket.Some?
  }

  function Next(s: State, step: Step): State
    requires Enabled(s, step)
  {
    match step
    case Publish(e) => s.(log := s.log + [e])
    case Trim(n) => s.(trimmed := n)
    case Connect => s.(socket := Some(Socket(s.client.lastId, [], [Hello])))
    case Read =>
      var k := s.socket.value;
      var batch := AtMost(TailAfter(s.log[s.trimmed..], k.cursor), READ_COUNT);
      s.(socket := Some(if batch == [] then k.(wire := k.wire + [Heartbeat]) else k.(batch := batch)))
    case Send =>
      var k := s.socket.value;
      s.(socket := Some(Socket(k.batch[0].id, k.batch[1..], k.wire + [EventFrame(k.batch[0])])))
    case Deliver =>
      var k := s.socket.value;
      s.(client := Receive(s.client, k.wire[0]), socket := Some(k.(wire := k.wire[1..])))
    case Drop => s.(socket := None)
  }

  function Apply(s: State, step: Step): State { if Enabled(s, step) then Next(s, step) else s }

  function Run(carried: nat, steps: seq<Step>): State {
    if steps == [] then Start(carried) else Apply(Run(carried, steps[..|steps| - 1]), steps[|steps| - 1])
  }

  /** Trimming only ever removed entries the client had already moved past. */
  ghost predicate OnlyReadEntriesTrimmed(carried: nat, steps: seq<Step>) {
    forall i | 0 <= i < |steps| && steps[i].Trim? :: TrimsOnlyRead(Run(carried, steps[..i]), steps[i].upTo)
  }

  predicate TrimsOnlyRead(s: State, upTo: nat) {
    forall k | 0 <= k < upTo && k < |s.log| :: s.log[k].id <= s.client.lastId
  }

  predicate AllAbove(es: seq<Entry>, id: nat) { forall k | 0 <= k < |es| :: es[k].id > id }

  predicate NoneAbove(es: seq<Entry>, id: nat) { forall k | 0 <= k < |es| :: es[k].id <= id }

  // ---- Filtering facts --------------------------------------------------------------------------

  lemma {:induction false} TailSplit(a: seq<Entry>, b: seq<Entry>, id: nat)
    ensures TailAfter(a + b, id) == TailAfter(a, id) + TailAfter(b, id)
    decreases |b|
  {
    if b == [] {
      assert a + b == a;
    } else {
      assert (a + b)[..|a + b| - 1] == a + b[..|b| - 1];
      TailSplit(a, b[..|b| - 1], id);
    }
  }

  lemma {:induction false} TailOfOld(es: seq<Entry>, id: nat)
    requires NoneAbove(es, id)
    ensures TailAfter(es, id) == []
  {
    if es != [] { TailOfOld(es[..|es| - 1], id); }
  }

  lemma {:induction false} TailOfNew(es: seq<Entry>, id: nat)
    requires AllAbove(es, id)
    ensures TailAfter(es, id) == es
  {
    if es != [] { TailOfNew(es[..|es| - 1], id); }
  }

  lemma {:induction false} TailOfTail(es: seq<Entry>, low: nat, high: nat)
    requires low <= high
    ensures TailAfter(TailAfter(es, low), high) == TailAfter(es, high)
  {
    if es != [] {
      var most, last := es[..|es| - 1], es[|es| - 1];
      TailOfTail(most, low, high);
      TailSplit(TailAfter(most, low), if last.id > low then [last] else [], high);
      assert [last][..0] == [];
    }
  }

  lemma {:induction false} InTail(es: seq<Entry>, id: nat, e: Entry)
    ensures e in TailAfter(es, id) <==> e in es && e.id > id
  {
    if es != [] {
      assert es == es[..|es| - 1] + [es[|es| - 1]];
      InTail(es[..|es| - 1], id, e);
    }
  }

  lemma {:induction false} TailAscends(es: seq<Entry>, id: nat)
    requires Ascending(es)
    ensures Ascending(TailAfter(es, id))
  {
    if es != [] {
      var most, last := es[..|es| - 1], es[|es| - 1];
      TailAscends(most, id);
      var tail := TailAfter(most, id);
      forall k | 0 <= k < |tail| ensures tail[k].id < last.id {
        InTail(most, id, tail[k]);
        var i :| 0 <= i < |most| && most[i] == tail[k];
        assert es[i] == most[i];
      }
    }
  }

  /** Ids up to position `m` of an ascending sequence are at most the last of them, later ones above it. */
  lemma SplitAtLast(es: seq<Entry>, m: nat, floor: nat)
    requires Ascending(es) && m <= |es| && AllAbove(es, floor)
    ensures NoneAbove(es[..m], LastIdOf(es[..m], floor)) && AllAbove(es[m..], LastIdOf(es[..m], floor))
  {
    if m > 0 {
      assert forall k | 0 <= k < m :: es[k].id <= es[m - 1].id;
      assert forall k | m <= k < |es| :: es[k].id > es[m - 1].id;
    }
  }

  /** In an ascending sequence, what follows position `m` is what has an id above the one before. */
  lemma TailFrom(es: seq<Entry>, m: nat, floor: nat)
    requires Ascending(es) && m <= |es| && AllAbove(es, floor)
    ensures TailAfter(es, LastIdOf(es[..m], floor)) == es[m..]
  {
    hide TailAfter, Ascending, LastIdOf, AllAbove, NoneAbove;
    SplitAtLast(es, m, floor);
    TailOfBoth(es[..m], es[m..], LastIdOf(es[..m], floor));
    assert es == es[..m] + es[m..];
  }

  lemma TailOfBoth(early: seq<Entry>, late: seq<Entry>, id: nat)
    requires NoneAbove(early, id) && AllAbove(late, id)
    ensures TailAfter(early + late, id) == late
  {
    hide TailAfter, AllAbove, NoneAbove;
    TailOfOld(early, id);
    TailOfNew(late, id);
    TailSplit(early, late, id);
    assert [] + late == late;
  }

  lemma {:induction false} EventsSplit(a: seq<Frame>, b: seq<Frame>)
    ensures EventsOf(a + b) == EventsOf(a) + EventsOf(b)
    decreases |b|
  {
    if b == [] {
      assert a + b == a;
    } else {
      assert (a + b)[..|a + b| - 1] == a + b[..|b| - 1];
      EventsSplit(a, b[..|b| - 1]);
    }
  }

  lemma EventsOfOne(f: Frame)
    ensures EventsOf([f]) == if f.EventFrame? then [f.entry] else []
  {
    assert [f][..0] == [];
  }

  // ---- No gap, no duplicate -----------------------------------------------------------------------

  /** What this client is owed: the published entries above the id it started from. */
  function Owed(log: seq<Entry>, carried: nat): seq<Entry> { TailAfter(log, carried) }

  /** Seen, on the wire and batched, laid end to end, are a prefix of what is owed, and both
      cursors stand where their part ends. */
  ghost predicate InStep(s: State, carried: nat) {
    var owed, n := Owed(s.log, carried), |s.client.seen|;
    && Ascending(s.log) && s.trimmed <= |s.log|
    && s.client.seen <= owed && s.client.lastId == LastIdOf(s.client.seen, carried)
    && (forall k | 0 <= k < s.trimmed :: s.log[k].id <= s.client.lastId)
    && (s.socket.Some? ==>
          var k := s.socket.value;
          var sent := s.client.seen + EventsOf(k.wire);
          sent + k.batch <= owed && k.cursor == LastIdOf(sent, carried))
  }

  /** Cursors only move forward along what is owed. */
  lemma CursorsAdvance(owed: seq<Entry>, a: seq<Entry>, b: seq<Entry>, carried: nat)
    requires Ascending(owed) && a <= b <= owed && AllAbove(owed, carried)
    ensures carried <= LastIdOf(a, carried) <= LastIdOf(b, carried)
  {
    if a != [] {
      assert a[|a| - 1] == owed[|a| - 1] && b[|b| - 1] == owed[|b| - 1];
    } else if b != [] {
      assert b[|b| - 1] == owed[|b| - 1];
    }
  }

  lemma OwedIsAscending(s: State, carried: nat)
    requires Ascending(s.log)
    ensures Ascending(Owed(s.log, carried))
    ensures AllAbove(Owed(s.log, carried), carried)
  {
    TailAscends(s.log, carried);
    forall k | 0 <= k < |Owed(s.log, carried)| ensures Owed(s.log, carried)[k].id > carried {
      InTail(s.log, carried, Owed(s.log, carried)[k]);
    }
  }

  lemma PublishInStep(s: State, e: Entry, carried: nat)
    requires InStep(s, carried) && Enabled(s, Publish(e))
    ensures InStep(Next(s, Publish(e)), carried)
  {
    hide TailAfter, EventsOf;
    TailSplit(s.log, [e], carried);
    assert Ascending(s.log + [e]);
  }

  /** A read continues exactly where the frames sent so far end. */
  lemma ReadContinues(s: State, carried: nat)
    requires InStep(s, carried) && s.socket.Some?
    ensures var sent := s.client.seen + EventsOf(s.socket.value.wire);
            sent <= Owed(s.log, carried) && TailAfter(s.log[s.trimmed..], s.socket.value.cursor) == Owed(s.log, carried)[|sent|..]
  {
    hide TailAfter, EventsOf, Ascending, LastIdOf;
    var owed, k := Owed(s.log, carried), s.socket.value;
    var sent := s.client.seen + EventsOf(k.wire);
    OwedIsAscending(s, carried);
    assert sent <= owed by { assert sent <= sent + k.batch; }
    CursorsAdvance(owed, s.client.seen, sent, carried);
    var gone, kept := s.log[..s.trimmed], s.log[s.trimmed..];
    assert s.log == gone + kept;
    forall i | 0 <= i < |gone| ensures gone[i].id <= k.cursor { assert gone[i] == s.log[i]; }
    TailSplit(gone, kept, k.cursor);
    TailOfOld(gone, k.cursor);
    TailOfTail(s.log, carried, k.cursor);
    TailFrom(owed, |sent|, carried);
    assert owed[..|sent|] == sent;
  }

  lemma ReadInStep(s: State, carried: nat)
    requires InStep(s, carried) && Enabled(s, Read)
    ensures InStep(Next(s, Read), carried)
  {
    hide TailAfter, EventsOf, Ascending, LastIdOf, Owed;
    ReadContinues(s, carried);
    var k := s.socket.value;
    EventsSplit(k.wire, [Heartbeat]);
    EventsOfOne(Heartbeat);
    assert EventsOf(k.wire) + [] == EventsOf(k.wire);
  }

  lemma SendInStep(s: State, carried: nat)
    requires InStep(s, carried) && Enabled(s, Send)
    ensures InStep(Next(s, Send), carried)
  {
    hide TailAfter, EventsOf, Ascending, Owed;
    var k := s.socket.value;
    EventsSplit(k.wire, [EventFrame(k.batch[0])]);
    EventsOfOne(EventFrame(k.batch[0]));
    var sent := s.client.seen + EventsOf(k.wire);
    assert (sent + [k.batch[0]]) + k.batch[1..] == sent + k.batch;
    assert s.client.seen + (EventsOf(k.wire) + [k.batch[0]]) == sent + [k.batch[0]];
  }

  lemma DeliverInStep(s: State, carried: nat)
    requires InStep(s, carried) && Enabled(s, Deliver)
    ensures InStep(Next(s, Deliver), carried)
  {
    hide TailAfter, EventsOf, Ascending, Owed, LastIdOf;
    var k := s.socket.value;
    var owed := Owed(s.log, carried);
    assert k.wire == [k.wire[0]] + k.wire[1..];
    EventsSplit([k.wire[0]], k.wire[1..]);
    EventsOfOne(k.wire[0]);
    var rest := EventsOf(k.wire[1..]);
    if k.wire[0].EventFrame? {
      var e := k.wire[0].entry;
      var seen := s.client.seen + [e];
      assert seen + rest == s.client.seen + EventsOf(k.wire);
      assert seen <= (seen + rest) + k.batch <= owed;
      LastOfAppend(s.client.seen, e, carried);
      OwedIsAscending(s, carried) by { assert Ascending(s.log); }
      CursorsAdvance(owed, s.client.seen, seen, carried);
    } else {
      assert rest == EventsOf(k.wire);
    }
  }

  lemma LastOfAppend(es: seq<Entry>, e: Entry, otherwise: nat)
    ensures LastIdOf(es + [e], otherwise) == e.id
  {}

  lemma StepInStep(s: State, step: Step, carried: nat)
    requires InStep(s, carried) && Enabled(s, step) && (step.Trim? ==> TrimsOnlyRead(s, step.upTo))
    ensures InStep(Next(s, step), carried)
  {
    match step {
      case Publish(e) => PublishInStep(s, e, carried);
      case Trim(n) =>
      case Connect =>
        EventsOfOne(Hello);
        assert s.client.seen + EventsOf([Hello]) == s.client.seen;
      case Read => ReadInStep(s, carried);
      case Send => SendInStep(s, carried);
      case Deliver => DeliverInStep(s, carried);
      case Drop =>
    }
  }

  lemma {:induction false} RunsStayInStep(carried: nat, steps: seq<Step>)
    requires OnlyReadEntriesTrimmed(carried, steps)
    ensures InStep(Run(carried, steps), carried)
  {
    if steps != [] {
      hide InStep, Next, Enabled, TrimsOnlyRead;
      var n := |steps| - 1;
      TrimmedPrefix(carried, steps, n);
      RunsStayInStep(carried, steps[..n]);
      if Enabled(Run(carried, steps[..n]), steps[n]) {
        StepInStep(Run(carried, steps[..n]), steps[n], carried);
      }
    }
  }

  lemma TrimmedPrefix(carried: nat, steps: seq<Step>, n: nat)
    requires OnlyReadEntriesTrimmed(carried, steps) && n <= |steps|
    ensures OnlyReadEntriesTrimmed(carried, steps[..n])
  {
    hide Run, TrimsOnlyRead;
    assert forall i | 0 <= i <= n :: steps[..n][..i] == steps[..i];
  }

  /** Gap-free reconnect: across any connects, reads, sends, lost frames and drops, a fresh
      client has seen exactly a prefix of the run's events, in order, none missing or twice. */
  lemma FreshClientSeesAPrefix(steps: seq<Step>)
    requires OnlyReadEntriesTrimmed(0, steps)
    ensures Run(0, steps).client.seen <= Run(0, steps).log
  {
    RunsStayInStep(0, steps);
    EveryIdIsPositive(0, steps);
    hide Run, Ascending;
    TailOfNew(Run(0, steps).log, 0);
  }

  lemma {:induction false} EveryIdIsPositive(carried: nat, steps: seq<Step>)
    ensures AllAbove(Run(carried, steps).log, 0)
  {
    if steps != [] {
      EveryIdIsPositive(carried, steps[..|steps| - 1]);
      hide TailAfter;
    }
  }

  /** Nothing batched, nothing on the wire, nothing left to read. */
  predicate Idle(s: State) {
    && s.trimmed <= |s.log| && s.socket.Some?
    && s.socket.value.batch == [] && EventsOf(s.socket.value.wire) == []
    && TailAfter(s.log[s.trimmed..], s.socket.value.cursor) == []
  }

  /** An idle socket means the client is up to date: it has seen everything it is owed. */
  lemma IdleMeansCaughtUp(carried: nat, steps: seq<Step>)
    requires OnlyReadEntriesTrimmed(carried, steps)
    requires Idle(Run(carried, steps))
    ensures Run(carried, steps).client.seen == TailAfter(Run(carried, steps).log, carried)
  {
    RunsStayInStep(carried, steps);
    hide Run, TailAfter, EventsOf, Ascending;
    ReadContinues(Run(carried, steps), carried);
  }

  /** The hook keeps its last id when it is pointed at another run, and then asks the new
      stream to resume from it. A client that has caught up has seen the whole new run exactly
      when nothing in it carries an id at or below the one carried over. */
  lemma SwitchingRunsIsGapFreeIff(carried: nat, steps: seq<Step>)
    requires OnlyReadEntriesTrimmed(carried, steps)
    requires Idle(Run(carried, steps))
    ensures var s := Run(carried, steps);
      s.client.seen == s.log <==> AllAbove(s.log, carried)
  {
    IdleMeansCaughtUp(carried, steps);
    hide Run;
    var s := Run(carried, steps);
    if AllAbove(s.log, carried) {
      TailOfNew(s.log, carried);
    } else {
      var k :| 0 <= k < |s.log| && s.log[k].id <= carried;
      InTail(s.log, carried, s.log[k]);
      assert s.log[k] in s.log;
    }
  }

  /** The gap does open: a hook that carries id 5 into a run whose only event has id 3 goes idle
      without having seen it. */
  lemma SwitchingCanMissEvents() returns (steps: seq<Step>)
    ensures OnlyReadEntriesTrimmed(5, steps) && Idle(Run(5, steps))
    ensures Run(5, steps).client.seen == [] && Run(5, steps).log == [Entry(3, "x")]
  {
    steps := [Publish(Entry(3, "x")), Connect];
    LateEntryIsMissed();
    hide Run, TailAfter, EventsOf;
    assert OnlyReadEntriesTrimmed(5, steps);
    EventsOfOne(Hello);
    TailOfOld([Entry(3, "x")], 5);
    assert [Entry(3, "x")][0..] == [Entry(3, "x")];
  }

  lemma LateEntryIsMissed()
    ensures Run(5, [Publish(Entry(3, "x")), Connect]) == State([Entry(3, "x")], 0, Some(Socket(5, [], [Hello])), Client(5, []))
  {
    var publish := Publish(Entry(3, "x"));
    hide TailAfter, EventsOf;
    assert [publish, Connect][..1] == [publish] && [publish][..0] == [];
    assert Run(5, []) == Start(5) && [] + [Entry(3, "x")] == [Entry(3, "x")];
    assert Run(5, [publish]) == State([Entry(3, "x")], 0, None, Client(5, []));
  }

  // ---- One turn of the server loop is a read and its sends -----------------------------------------

  function Sends(s: State, n: nat): State { if n == 0 then s else Apply(Sends(s, n - 1), Send) }

  lemma {:induction false} SendsSoFar(s: State, n: nat)
    requires s.socket.Some? && n <= |s.socket.value.batch|
    ensures var k := s.socket.value;
      Sends(s, n) == s.(socket := Some(Socket(LastIdOf(k.batch[..n], k.cursor), k.batch[n..], k.wire + Framed(k.batch[..n]))))
  {
    var k := s.socket.value;
    if n == 0 {
      assert k.batch[..0] == [] && k.batch[0..] == k.batch && k.wire + [] == k.wire;
    } else {
      SendsSoFar(s, n - 1);
      assert k.batch[..n][..n - 1] == k.batch[..n - 1];
      assert k.batch[n - 1..][1..] == k.batch[n..];
      assert (k.wire + Framed(k.batch[..n - 1])) + [EventFrame(k.batch[n - 1])] == k.wire + Framed(k.batch[..n]);
    }
  }

  /** What `ServeOnce` sends and where it leaves the cursor is what a read and then one send per
      entry read amount to. */
  lemma ServingIsReadingThenSending(s: State)
    requires Enabled(s, Read)
    ensures var k := s.socket.value;
      var batch := AtMost(TailAfter(s.log[s.trimmed..], k.cursor), READ_COUNT);
      Sends(Next(s, Read), |batch|)
        == s.(socket := Some(Socket(LastIdOf(batch, k.cursor), [], k.wire + (if batch == [] then [Heartbeat] else Framed(batch)))))
  {
    var k := s.socket.value;
    var batch := AtMost(TailAfter(s.log[s.trimmed..], k.cursor), READ_COUNT);
    if batch != [] {
      SendsSoFar(Next(s, Read), |batch|);
      assert batch[..|batch|] == batch && batch[|batch|..] == [];
    }
  }

  // ---- Any trimming at all ---------------------------------------------------------------------------

  /** `part` is an ascending selection of the entries published above `carried`; up to its last
      id it lacks only entries that have been trimmed away. */
  ghost predicate LacksOnlyTrimmed(log: seq<Entry>, trimmed: nat, part: seq<Entry>, carried: nat) {
    && Ascending(part)
    && (forall e | e in part :: e in log && e.id > carried)
    && (forall i | 0 <= i < |log| && carried < log[i].id <= LastIdOf(part, carried) :: i < trimmed || log[i] in part)
  }

  /** Everything the client has seen or has coming to it on this socket. */
  function Chain(s: State): seq<Entry> { if s.socket.Some? then Sent(s) + s.socket.value.batch else s.client.seen }

  function Sent(s: State): seq<Entry> { if s.socket.Some? then s.client.seen + EventsOf(s.socket.value.wire) else s.client.seen }

  ghost predicate Holds(s: State, carried: nat) {
    && Ascending(s.log) && s.trimmed <= |s.log|
    && LacksOnlyTrimmed(s.log, s.trimmed, Chain(s), carried)
    && s.client.lastId == LastIdOf(s.client.seen, carried)
    && (s.socket.Some? ==> s.socket.value.cursor == LastIdOf(Sent(s), carried))
  }

  lemma PrefixLacksOnlyTrimmed(log: seq<Entry>, trimmed: nat, part: seq<Entry>, more: seq<Entry>, carried: nat)
    requires LacksOnlyTrimmed(log, trimmed, part + more, carried)
    ensures LacksOnlyTrimmed(log, trimmed, part, carried)
    ensures LastIdOf(part, carried) <= LastIdOf(part + more, carried)
  {
    var all := part + more;
    assert forall i | 0 <= i < |part| :: part[i] == all[i];
    assert forall e | e in part :: e in all;
    if part == [] {
      if all != [] { assert all[|all| - 1] in all; }
    } else {
      var last := part[|part| - 1];
      assert all[|part| - 1] == last && last.id <= all[|all| - 1].id;
      forall i | 0 <= i < |log| && carried < log[i].id <= last.id ensures i < trimmed || log[i] in part {
        if log[i] in all { UpToLastIsInPart(part, more, log[i]); }
      }
    }
  }

  lemma UpToLastIsInPart(part: seq<Entry>, more: seq<Entry>, e: Entry)
    requires Ascending(part + more) && part != [] && e in part + more && e.id <= part[|part| - 1].id
    ensures e in part
  {
    var all := part + more;
    var j :| 0 <= j < |all| && all[j] == e;
    assert all[|part| - 1] == part[|part| - 1];
    assert j < |part|;
    assert part[j] == e;
  }

  lemma ExtensionAscends(part: seq<Entry>, tail: seq<Entry>, cursor: nat, n: nat)
    requires Ascending(part) && Ascending(tail)
    requires (forall i | 0 <= i < |part| :: part[i].id <= cursor) && (forall i | 0 <= i < |tail| :: tail[i].id > cursor)
    ensures Ascending(part + AtMost(tail, n))
  {
    var batch := AtMost(tail, n);
    var all := part + batch;
    forall i, j | 0 <= i < j < |all| ensures all[i].id < all[j].id {
      assert j >= |part| ==> all[j] == tail[j - |part|];
      assert i >= |part| ==> all[i] == tail[i - |part|];
    }
  }

  /** An entry of `tail` with an id up to the last one taken was taken. */
  lemma TakenUpToLast(tail: seq<Entry>, n: nat, e: Entry, cursor: nat)
    requires Ascending(tail) && e in tail && cursor < e.id <= LastIdOf(AtMost(tail, n), cursor)
    ensures e in AtMost(tail, n)
  {
    var j :| 0 <= j < |tail| && tail[j] == e;
    var batch := AtMost(tail, n);
    assert batch[|batch| - 1] == tail[|batch| - 1];
    assert j < |batch|;
    assert batch[j] == e;
  }

  lemma LastOfConcat(a: seq<Entry>, b: seq<Entry>, otherwise: nat)
    ensures LastIdOf(a + b, otherwise) == LastIdOf(b, LastIdOf(a, otherwise))
  {
    if b == [] { assert a + b == a; }
  }

  /** Reading after the last id of `part` extends it without losing anything still in the stream. */
  lemma ReadingExtends(log: seq<Entry>, trimmed: nat, part: seq<Entry>, carried: nat, n: nat)
    requires Ascending(log) && trimmed <= |log| && LacksOnlyTrimmed(log, trimmed, part, carried)
    ensures LacksOnlyTrimmed(log, trimmed, part + AtMost(TailAfter(log[trimmed..], LastIdOf(part, carried)), n), carried)
  {
    hide TailAfter;
    var cursor, kept := LastIdOf(part, carried), log[trimmed..];
    var tail := TailAfter(kept, cursor);
    TailAscends(kept, cursor);
    forall e ensures e in tail <==> e in kept && e.id > cursor { InTail(kept, cursor, e); }
    assert cursor >= carried by { if part != [] { assert part[|part| - 1] in part; } }
    UpToLast(part, cursor, carried);
    forall i | 0 <= i < |tail| ensures tail[i].id > cursor { assert tail[i] in tail; }
    ExtensionAscends(part, tail, cursor, n);
    ExtensionCovers(log, trimmed, part, tail, carried, n);
  }

  lemma ExtensionCovers(log: seq<Entry>, trimmed: nat, part: seq<Entry>, tail: seq<Entry>, carried: nat, n: nat)
    requires trimmed <= |log| && LacksOnlyTrimmed(log, trimmed, part, carried) && Ascending(tail)
    requires forall e :: e in tail <==> e in log[trimmed..] && e.id > LastIdOf(part, carried)
    requires LastIdOf(part, carried) >= carried && Ascending(part + AtMost(tail, n))
    ensures LacksOnlyTrimmed(log, trimmed, part + AtMost(tail, n), carried)
  {
    hide Ascending, LastIdOf;
    var cursor, batch := LastIdOf(part, carried), AtMost(tail, n);
    LastOfConcat(part, batch, carried);
    forall e | e in part + batch ensures e in log && e.id > carried {
      if e !in part { assert e in batch && e in tail && e in log[trimmed..]; }
    }
    forall i | 0 <= i < |log| && carried < log[i].id <= LastIdOf(part + batch, carried) ensures i < trimmed || log[i] in part + batch {
      if log[i].id > cursor && i >= trimmed {
        assert log[trimmed..][i - trimmed] == log[i];
        TakenUpToLast(tail, n, log[i], cursor);
      }
    }
  }

  lemma UpToLast(part: seq<Entry>, cursor: nat, carried: nat)
    requires Ascending(part) && cursor == LastIdOf(part, carried)
    ensures forall i | 0 <= i < |part| :: part[i].id <= cursor
  {}

  lemma PublishHolds(s: State, e: Entry, carried: nat)
    requires Holds(s, carried) && Enabled(s, Publish(e))
    ensures Holds(Next(s, Publish(e)), carried)
  {
    hide EventsOf;
    var part, log := Chain(s), s.log + [e];
    assert Chain(Next(s, Publish(e))) == part;
    if part != [] {
      assert part[|part| - 1] in s.log;
      var k :| 0 <= k < |s.log| && s.log[k] == part[|part| - 1];
    }
    forall i | 0 <= i < |log| && carried < log[i].id <= LastIdOf(part, carried) ensures i < s.trimmed || log[i] in part {
      assert i < |s.log| ==> log[i] == s.log[i];
    }
  }

  lemma ReadHolds(s: State, carried: nat)
    requires Holds(s, carried) && Enabled(s, Read)
    ensures Holds(Next(s, Read), carried)
  {
    hide TailAfter, EventsOf, Ascending, LastIdOf, LacksOnlyTrimmed;
    var k := s.socket.value;
    assert Sent(s) + [] == Sent(s);
    ReadingExtends(s.log, s.trimmed, Sent(s), carried, READ_COUNT);
    EventsSplit(k.wire, [Heartbeat]);
    EventsOfOne(Heartbeat);
    assert EventsOf(k.wire) + [] == EventsOf(k.wire);
  }

  lemma SendHolds(s: State, carried: nat)
    requires Holds(s, carried) && Enabled(s, Send)
    ensures Holds(Next(s, Send), carried)
  {
    hide TailAfter, EventsOf, Ascending, LacksOnlyTrimmed, LastIdOf;
    var k, t := s.socket.value, Next(s, Send);
    EventsSplit(k.wire, [EventFrame(k.batch[0])]);
    EventsOfOne(EventFrame(k.batch[0]));
    assert Sent(t) == Sent(s) + [k.batch[0]];
    assert Chain(t) == Chain(s);
    LastOfAppend(Sent(s), k.batch[0], carried);
  }

  lemma DeliverHolds(s: State, carried: nat)
    requires Holds(s, carried) && Enabled(s, Deliver)
    ensures Holds(Next(s, Deliver), carried)
  {
    hide TailAfter, EventsOf, Ascending, LacksOnlyTrimmed, LastIdOf;
    var k, t := s.socket.value, Next(s, Deliver);
    assert k.wire == [k.wire[0]] + k.wire[1..];
    EventsSplit([k.wire[0]], k.wire[1..]);
    EventsOfOne(k.wire[0]);
    assert Sent(t) == Sent(s);
    if k.wire[0].EventFrame? { LastOfAppend(s.client.seen, k.wire[0].entry, carried); }
  }

  lemma ConnectOrDropHolds(s: State, step: Step, carried: nat)
    requires Holds(s, carried) && Enabled(s, step) && (step.Connect? || step.Drop?)
    ensures Holds(Next(s, step), carried)
  {
    hide EventsOf, Ascending, LacksOnlyTrimmed, LastIdOf;
    EventsOfOne(Hello);
    var t := Next(s, step);
    assert s.client.seen + [] == s.client.seen;
    if step.Connect? {
      assert Sent(t) == s.client.seen && Chain(t) == Chain(s);
    } else {
      var more := EventsOf(s.socket.value.wire) + s.socket.value.batch;
      assert Chain(s) == Chain(t) + more;
      PrefixLacksOnlyTrimmed(s.log, s.trimmed, Chain(t), more, carried);
    }
  }

  lemma StepHolds(s: State, step: Step, carried: nat)
    requires Holds(s, carried) && Enabled(s, step)
    ensures Holds(Next(s, step), carried)
  {
    match step {
      case Publish(e) => PublishHolds(s, e, carried);
      case Trim(n) => assert Chain(Next(s, step)) == Chain(s);
      case Connect => ConnectOrDropHolds(s, step, carried);
      case Read => ReadHolds(s, carried);
      case Send => SendHolds(s, carried);
      case Deliver => DeliverHolds(s, carried);
      case Drop => ConnectOrDropHolds(s, step, carried);
    }
  }

  lemma {:induction false} RunsHold(carried: nat, steps: seq<Step>)
    ensures Holds(Run(carried, steps), carried)
  {
    if steps != [] {
      hide Holds, Next, Enabled;
      var n := |steps| - 1;
      RunsHold(carried, steps[..n]);
      if Enabled(Run(carried, steps[..n]), steps[n]) {
        StepHolds(Run(carried, steps[..n]), steps[n], carried);
      }
    } else {
      assert Chain(Start(carried)) == [];
    }
  }

  /** However the stream is trimmed, sockets drop and frames are lost: what the client has seen
      is in order, each entry once and published, and up to its last id it lacks only trimmed ones. */
  lemma OnlyTrimmedEntriesAreMissed(carried: nat, steps: seq<Step>)
    ensures var s := Run(carried, steps);
      LacksOnlyTrimmed(s.log, s.trimmed, s.client.seen, carried) && s.client.lastId == LastIdOf(s.client.seen, carried)
  {
    RunsHold(carried, steps);
    hide Run, LacksOnlyTrimmed, LastIdOf, Ascending, EventsOf;
    var s := Run(carried, steps);
    if s.socket.Some? {
      var more := EventsOf(s.socket.value.wire) + s.socket.value.batch;
      assert Chain(s) == s.client.seen + more;
      PrefixLacksOnlyTrimmed(s.log, s.trimmed, s.client.seen, more, carried);
    }
  }
}
