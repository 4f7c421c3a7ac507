/** The inbox guard around a side effect, under crashes and concurrent attempts
    (packages/common/ancora_common/inbox.py). */
module Inbox {
  import opened Common

  type Key = string
  type Result = string

  /** A reserved key is pending, a committed one carries its result. */
  datatype Row = PendingRow | DoneRow(result: Result)

  // ---- The table, one statement or transaction at a time ---------------------------------

  function Reserve(rows: map<Key, Row>, key: Key): map<Key, Row> {
    if key in rows then rows else rows[key := PendingRow]
  }

  function Upsert(rows: map<Key, Row>, key: Key, result: Result): map<Key, Row> { rows[key := DoneRow(result)] }

  class InboxTable {
    var rows: map<Key, Row>

    constructor ()
      ensures rows == map[]
    {
      rows := map[];
    }

    method Select(key: Key) returns (row: Option<Row>)
      ensures row == if key in rows then Some(rows[key]) else None
    {
      row := if key in rows then Some(rows[key]) else None;
    }

    /** INSERT ... ON CONFLICT DO NOTHING */
    method InsertPending(key: Key)
      modifies this
      ensures rows == Reserve(old(rows), key)
    {
      if key !in rows {
        rows := rows[key := PendingRow];
      }
    }

    /** INSERT ... ON CONFLICT DO UPDATE */
    method UpsertDone(key: Key, result: Result)
      modifies this
      ensures rows == Upsert(old(rows), key, result)
    {
      rows := rows[key := DoneRow(result)];
    }
  }

  /** The process-local guard. The effect is a parameter: what it returns, or nothing if it raises. */
  class InMemoryInboxGuard {
    var store: map<Key, Result>
    var effectRuns: nat

    constructor ()
      ensures store == map[] && effectRuns == 0
    {
      store, effectRuns := map[], 0;
    }

    method GetOrRun(key: Key, effect: Option<Result>) returns (r: Option<Result>)
      modifies this
      ensures key in old(store) ==> r == Some(old(store)[key]) && store == old(store) && effectRuns == old(effectRuns)
      ensures key !in old(store) ==> r == effect && effectRuns == old(effectRuns) + 1
      ensures key !in old(store) ==> store == if effect.Some? then old(store)[key := effect.value] else old(store)
    {
      r := Lookup(key);
      if r.None? {
        r := effect;
        if r.Some? {
          Store(key, r.value);
        }
      }
    }

    /** Up to the point where the effect is awaited. */
    method Lookup(key: Key) returns (hit: Option<Result>)
      modifies this
      ensures store == old(store) && hit == if key in store then Some(store[key]) else None
      ensures effectRuns == old(effectRuns) + (if key in store then 0 else 1)
    {
      if key in store {
        return Some(store[key]);
      }
      effectRuns := effectRuns + 1;
      hit := None;
    }

    /** From there on, when the effect has returned. */
    method Store(key: Key, result: Result)
      modifies this
      ensures store == old(store)[key := result] && effectRuns == old(effectRuns)
    {
      store := store[key := result];
    }
  }

  /** Two calls that overlap both look up before either stores: both run the effect, and the
      one that stores last decides what is kept. */
  method OverlappingCalls(guard: InMemoryInboxGuard, key: Key, first: Result, second: Result) returns (a: Option<Result>, b: Option<Result>)
    requires key !in guard.store
    modifies guard
    ensures a == b == None && guard.effectRuns == old(guard.effectRuns) + 2
    ensures guard.store == old(guard.store)[key := second]
  {
    a := guard.Lookup(key);
    b := guard.Lookup(key);
    guard.Store(key, first);
    guard.Store(key, second);
  }

  // ---- Attempts as a transition system -------------------------------------------------------

  datatype Phase =
    | Selected(absent: bool)       // read the inbox, found no result
    | Ready                        // reservation done (or not needed)
    | Running                      // the effect has begun
    | Ran(result: Result)          // the effect has returned
    | Returned(result: Result)     // the guard has returned
    | Crashed

  /** `early`: the attempt read the inbox before anything was committed under its key. */
  datatype Attempt = Attempt(key: Key, phase: Phase, early: bool)

  /** Counters by key, kept for the statements only: effects begun, results committed, and
      effects begun by attempts that crashed before committing. */
  datatype State = State(
    rows: map<Key, Row>, attempts: map<nat, Attempt>,
    begun: map<Key, nat>, committed: map<Key, nat>, aborted: map<Key, nat>)

  const START := State(map[], map[], map[], map[], map[])

  datatype Step =
    | Select(a: nat, key: Key)
    | Insert(a: nat)
    | Begin(a: nat)
    | Finish(a: nat, result: Result)
    | Commit(a: nat)
    | Crash(a: nat)

  predicate Final(p: Phase) { p.Returned? || p.Crashed? }

  predicate Enabled(s: State, step: Step) {
    match step
    case Select(a, _) => a !in s.attempts
    case Insert(a) => a in s.attempts && s.attempts[a].phase.Selected?
    case Begin(a) => a in s.attempts && s.attempts[a].phase.Ready?
    case Finish(a, _) => a in s.attempts && s.attempts[a].phase.Running?
    case Commit(a) => a in s.attempts && s.attempts[a].phase.Ran?
    case Crash(a) => a in s.attempts && !Final(s.attempts[a].phase)
  }

  function Move(s: State, a: nat, p: Phase): State
    requires a in s.attempts
  {
    s.(attempts := s.attempts[a := s.attempts[a].(phase := p)])
  }

  function Next(s: State, step: Step): State
    requires Enabled(s, step)
  {
    match step
    case Select(a, key) =>
      var phase := if key in s.rows && s.rows[key].DoneRow? then Returned(s.rows[key].result) else Selected(key !in s.rows);
      s.(attempts := s.attempts[a := Attempt(key, phase, Count(s.committed, key) == 0)])
    case Insert(a) =>
      var at := s.attempts[a];
      Move(s.(rows := if at.phase.absent then Reserve(s.rows, at.key) else s.rows), a, Ready)
    case Begin(a) => Move(s.(begun := Bump(s.begun, s.attempts[a].key)), a, Running)
    case Finish(a, result) => Move(s, a, Ran(result))
    case Commit(a) =>
      var at := s.attempts[a];
      Move(s.(rows := Upsert(s.rows, at.key, at.phase.result), committed := Bump(s.committed, at.key)), a, Returned(at.phase.result))
    case Crash(a) =>
      var at := s.attempts[a];
      Move(if at.phase.Running? || at.phase.Ran? then s.(aborted := Bump(s.aborted, at.key)) else s, a, Crashed)
  }

  /** A step that is not enabled does nothing, so any sequence of steps is a run. */
  function Apply(s: State, step: Step): State { if Enabled(s, step) then Next(s, step) else s }

  function Run(steps: seq<Step>): State {
    if steps == [] then START else Apply(Run(steps[..|steps| - 1]), steps[|steps| - 1])
  }

  // ---- Any interleaving ------------------------------------------------------------------------

  /** The effects of a key that are under way or awaiting their commit. */
  function Underway(attempts: map<nat, Attempt>, key: Key): set<nat> {
    set a | a in attempts && attempts[a].key == key && (attempts[a].phase.Running? || attempts[a].phase.Ran?)
  }

  predicate DoneIffCommitted(s: State, k: Key) { Count(s.committed, k) > 0 <==> k in s.rows && s.rows[k].DoneRow? }

  predicate EarlyIfLive(s: State, a: nat)
    requires a in s.attempts
  {
    !Final(s.attempts[a].phase) ==> s.attempts[a].early
  }

  predicate Accounted(s: State, k: Key) {
    Count(s.begun, k) == Count(s.committed, k) + Count(s.aborted, k) + |Underway(s.attempts, k)|
  }

  /** What every interleaving keeps. */
  ghost predicate Invariant(s: State) {
    && (forall k :: DoneIffCommitted(s, k))
    && (forall a | a in s.attempts :: EarlyIfLive(s, a))
    && (forall k :: Accounted(s, k))
  }

  lemma UnderwayMoves(s: State, a: nat, p: Phase, key: Key)
    requires a in s.attempts
    ensures Underway(Move(s, a, p).attempts, key) ==
      if s.attempts[a].key == key && (p.Running? || p.Ran?) then Underway(s.attempts, key) + {a} else Underway(s.attempts, key) - {a}
  {}

  lemma StepKeepsAccounts(s: State, step: Step, k: Key)
    requires Enabled(s, step) && Accounted(s, k)
    ensures Accounted(Next(s, step), k)
  {
    hide Underway, Count, Bump, Reserve, Upsert;
    match step {
      case Select(a, key) =>
        assert Underway(Next(s, step).attempts, k) == Underway(s.attempts, k) by { SelectIsNotUnderway(s, step, k); }
      case Insert(a) => MoveKeeps(s, a, Ready, k);
      case Begin(a) =>
        MoveKeeps(s, a, Running, k);
        BumpCounts(s.begun, s.attempts[a].key, k);
      case Finish(a, result) => MoveKeeps(s, a, Ran(result), k);
      case Commit(a) =>
        MoveKeeps(s, a, Returned(s.attempts[a].phase.result), k);
        BumpCounts(s.committed, s.attempts[a].key, k);
      case Crash(a) =>
        MoveKeeps(s, a, Crashed, k);
        BumpCounts(s.aborted, s.attempts[a].key, k);
    }
  }

  lemma SelectIsNotUnderway(s: State, step: Step, k: Key)
    requires step.Select? && Enabled(s, step)
    ensures Underway(Next(s, step).attempts, k) == Underway(s.attempts, k)
  {}

  lemma MoveKeeps(s: State, a: nat, p: Phase, k: Key)
    requires a in s.attempts
    ensures |Underway(Move(s, a, p).attempts, k)| == |Underway(s.attempts, k)|
      + (if s.attempts[a].key == k && (p.Running? || p.Ran?) then 1 else 0)
      - (if s.attempts[a].key == k && (s.attempts[a].phase.Running? || s.attempts[a].phase.Ran?) then 1 else 0)
  {
    UnderwayMoves(s, a, p, k);
    var before := Underway(s.attempts, k);
    if s.attempts[a].key == k && (s.attempts[a].phase.Running? || s.attempts[a].phase.Ran?) {
      assert a in before && before + {a} == before;
    } else {
      assert a !in before && before - {a} == before;
    }
  }

  lemma StepKeepsDone(s: State, step: Step, k: Key)
    requires Enabled(s, step) && DoneIffCommitted(s, k)
    ensures DoneIffCommitted(Next(s, step), k)
  {
    hide Count, Bump;
    if step.Commit? { BumpCounts(s.committed, s.attempts[step.a].key, k); }
  }

  lemma StepKeepsEarly(s: State, step: Step, a: nat)
    requires Enabled(s, step) && a in Next(s, step).attempts
    requires (a in s.attempts ==> EarlyIfLive(s, a)) && (step.Select? ==> DoneIffCommitted(s, step.key))
    ensures EarlyIfLive(Next(s, step), a)
  {
    hide Count, Bump, Reserve, Upsert;
  }

  lemma StepKeepsInvariant(s: State, step: Step)
    requires Enabled(s, step) && Invariant(s)
    ensures Invariant(Next(s, step))
  {
    hide Next, Enabled, DoneIffCommitted, EarlyIfLive, Accounted;
    var s' := Next(s, step);
    forall k ensures DoneIffCommitted(s', k) && Accounted(s', k) {
      StepKeepsDone(s, step, k);
      StepKeepsAccounts(s, step, k);
    }
    forall a | a in s'.attempts ensures EarlyIfLive(s', a) { StepKeepsEarly(s, step, a); }
  }

  lemma {:induction false} ReachableKeepsInvariant(steps: seq<Step>)
    ensures Invariant(Run(steps))
  {
    if steps == [] {
      assert forall k :: Underway(START.attempts, k) == {};
    } else {
      hide Next, Invariant, Enabled;
      ReachableKeepsInvariant(steps[..|steps| - 1]);
      var s, step := Run(steps[..|steps| - 1]), steps[|steps| - 1];
      if Enabled(s, step) {
        StepKeepsInvariant(s, step);
      }
    }
  }

  /** A key that is done stays done, and as long as no attempt that read the inbox early is
      still under way, its result stays as it is. */
  lemma DoneStaysDone(steps: seq<Step>, step: Step, key: Key)
    requires var s := Run(steps); key in s.rows && s.rows[key].DoneRow?
    ensures var s, s' := Run(steps), Run(steps + [step]);
      && key in s'.rows && s'.rows[key].DoneRow?
      && (s'.rows[key] != s.rows[key] ==> step.Commit? && step.a in s.attempts && s.attempts[step.a].key == key && s.attempts[step.a].early)
  {
    ReachableKeepsInvariant(steps);
    hide Run;
    RunOneMore(steps, step);
    hide Underway, Count;
    var s := Run(steps);
    assert step.Commit? && step.a in s.attempts ==> EarlyIfLive(s, step.a);
  }

  lemma RunOneMore(steps: seq<Step>, step: Step)
    ensures Run(steps + [step]) == Apply(Run(steps), step)
  {
    hide Apply;
    assert (steps + [step])[..|steps|] == steps;
  }

  /** An effect begins only in an attempt whose read preceded the first commit of its key:
      once a result is committed, no later reader runs the effect. */
  lemma EffectsReadBeforeTheFirstCommit(steps: seq<Step>, a: nat)
    requires Enabled(Run(steps), Begin(a))
    ensures Run(steps).attempts[a].early
  {
    ReachableKeepsInvariant(steps);
    hide Run, Underway, Count;
    assert EarlyIfLive(Run(steps), a);
  }

  /** An attempt that reads after a commit returns the stored result without running anything. */
  lemma LateReadersReplay(steps: seq<Step>, a: nat, key: Key)
    requires Enabled(Run(steps), Select(a, key)) && Count(Run(steps).committed, key) > 0
    ensures var s := Run(steps);
      key in s.rows && s.rows[key].DoneRow? && Next(s, Select(a, key)).attempts[a].phase == Returned(s.rows[key].result)
  {
    ReachableKeepsInvariant(steps);
    hide Run, Underway;
    assert DoneIffCommitted(Run(steps), key);
  }

  // ---- One attempt at a time ---------------------------------------------------------------------

  /** Temporal's own retries: an attempt on a key starts when the earlier ones are over. */
  ghost predicate Sequential(steps: seq<Step>) {
    forall i | 0 <= i < |steps| && steps[i].Select? ::
      forall b | b in Run(steps[..i]).attempts && Run(steps[..i]).attempts[b].key == steps[i].key ::
        Final(Run(steps[..i]).attempts[b].phase)
  }

  /** At most one attempt per key is live, at most one ever commits, and everything returned
      under a key is what its row holds. */
  ghost predicate Serial(s: State) {
    && (forall a, b | a in s.attempts && b in s.attempts && s.attempts[a].key == s.attempts[b].key
          && !Final(s.attempts[a].phase) && !Final(s.attempts[b].phase) :: a == b)
    && (forall k :: Count(s.committed, k) <= 1)
    && (forall a | a in s.attempts && !Final(s.attempts[a].phase) :: Count(s.committed, s.attempts[a].key) == 0)
    && (forall a | a in s.attempts && s.attempts[a].phase.Returned? ::
          s.attempts[a].key in s.rows && s.rows[s.attempts[a].key] == DoneRow(s.attempts[a].phase.result))
  }

  lemma StepKeepsSerial(s: State, step: Step)
    requires Enabled(s, step) && Serial(s) && Invariant(s)
    requires step.Select? ==> forall b | b in s.attempts && s.attempts[b].key == step.key :: Final(s.attempts[b].phase)
    ensures Serial(Next(s, step))
  {
    if step.Commit? {
      CommitKeepsSerial(s, step.a);
    } else if step.Select? {
      SelectKeepsSerial(s, step.a, step.key);
    } else {
      MoveKeepsSerial(s, step);
    }
  }

  lemma SelectKeepsSerial(s: State, a: nat, key: Key)
    requires Enabled(s, Select(a, key)) && Serial(s) && DoneIffCommitted(s, key)
    requires forall b | b in s.attempts && s.attempts[b].key == key :: Final(s.attempts[b].phase)
    ensures Serial(Next(s, Select(a, key)))
  {
    hide Count;
  }

  lemma MoveKeepsSerial(s: State, step: Step)
    requires Enabled(s, step) && Serial(s) && !step.Commit? && !step.Select?
    ensures Serial(Next(s, step))
  {
    hide Count, Bump;
  }

  lemma CommitKeepsSerial(s: State, a: nat)
    requires Enabled(s, Commit(a)) && Serial(s) && Invariant(s)
    ensures Serial(Next(s, Commit(a)))
  {
    hide Underway, Count, Bump;
    var key, s' := s.attempts[a].key, Next(s, Commit(a));
    assert DoneIffCommitted(s, key);
    forall k ensures Count(s'.committed, k) == Count(s.committed, k) + (if k == key then 1 else 0) {
      BumpCounts(s.committed, key, k);
    }
    assert forall b | b in s.attempts && s.attempts[b].key == key && b != a :: Final(s.attempts[b].phase);
    assert forall b | b in s.attempts && s.attempts[b].phase.Returned? :: s.attempts[b].key != key;
  }

  lemma {:induction false} SequentialIsSerial(steps: seq<Step>)
    requires Sequential(steps)
    ensures Serial(Run(steps))
  {
    if steps != [] {
      hide Serial, Next, Enabled, Invariant;
      var n := |steps| - 1;
      assert Sequential(steps[..n]) by { SequentialPrefix(steps, n); }
      SequentialIsSerial(steps[..n]);
      ReachableKeepsInvariant(steps[..n]);
      if Enabled(Run(steps[..n]), steps[n]) {
        StepKeepsSerial(Run(steps[..n]), steps[n]);
      }
    }
  }

  lemma SequentialPrefix(steps: seq<Step>, n: nat)
    requires Sequential(steps) && n <= |steps|
    ensures Sequential(steps[..n])
  {
    hide Run;
    assert forall i | 0 <= i <= n :: steps[..n][..i] == steps[..i];
  }

  /** With sequential attempts the effect runs at most once more than attempts began it and
      crashed before committing; and once the result is stored the count is exact, so the effect
      ran exactly once if and only if no attempt that began it was cut off before its commit. */
  lemma EffectRunsOncePerAbortedAttempt(steps: seq<Step>, key: Key)
    requires Sequential(steps)
    ensures var s := Run(steps);
      && Count(s.begun, key) <= 1 + Count(s.aborted, key)
      && (key in s.rows && s.rows[key].DoneRow? ==>
            && Count(s.begun, key) == 1 + Count(s.aborted, key)
            && (Count(s.begun, key) == 1 <==> Count(s.aborted, key) == 0))
  {
    SequentialIsSerial(steps);
    ReachableKeepsInvariant(steps);
    hide Run;
    OneUnderwayAtMost(Run(steps), key);
  }

  lemma OneUnderwayAtMost(s: State, key: Key)
    requires Serial(s) && Invariant(s)
    ensures Count(s.begun, key) <= 1 + Count(s.aborted, key)
    ensures key in s.rows && s.rows[key].DoneRow? ==> Count(s.begun, key) == 1 + Count(s.aborted, key)
  {
    assert Accounted(s, key) && DoneIffCommitted(s, key);
    hide Count, Invariant;
    if Underway(s.attempts, key) != {} {
      var a :| a in Underway(s.attempts, key);
      assert Underway(s.attempts, key) == {a};
    }
  }

  /** With sequential attempts everybody who ever returns from a key returns the same result,
      however the run goes on. */
  lemma ReturnsAgreeForever(steps: seq<Step>, more: seq<Step>, a: nat, b: nat)
    requires Sequential(steps + more)
    requires a in Run(steps).attempts && Run(steps).attempts[a].phase.Returned?
    requires b in Run(steps + more).attempts && Run(steps + more).attempts[b].phase.Returned?
    requires Run(steps + more).attempts[b].key == Run(steps).attempts[a].key
    ensures Run(steps + more).attempts[b].phase == Run(steps).attempts[a].phase
  {
    SequentialIsSerial(steps + more);
    AttemptsStayReturned(steps, more, a);
    hide Run, Sequential, Count;
  }

  lemma {:induction false} AttemptsStayReturned(steps: seq<Step>, more: seq<Step>, a: nat)
    requires a in Run(steps).attempts && Run(steps).attempts[a].phase.Returned?
    ensures a in Run(steps + more).attempts && Run(steps + more).attempts[a] == Run(steps).attempts[a]
    decreases |more|
  {
    if more == [] {
      assert steps + more == steps;
    } else {
      var most, last := more[..|more| - 1], more[|more| - 1];
      assert steps + more == (steps + most) + [last];
      AttemptsStayReturned(steps, most, a);
      RunOneMore(steps + most, last);
      hide Run;
      ReturnedIsFinal(Run(steps + most), last, a);
    }
  }

  lemma ReturnedIsFinal(s: State, step: Step, a: nat)
    requires a in s.attempts && s.attempts[a].phase.Returned?
    ensures a in Apply(s, step).attempts && Apply(s, step).attempts[a] == s.attempts[a]
  {
    hide Count, Bump;
  }

  // ---- When a stored result is safe ----------------------------------------------------------------

  predicate Holds(s: State, key: Key, r: Result) { key in s.rows && s.rows[key] == DoneRow(r) }

  /** Every attempt on the key that is not over yet is about to commit this very result. */
  predicate LiveAttemptsAgree(s: State, key: Key, r: Result) {
    forall a | a in s.attempts && s.attempts[a].key == key && !Final(s.attempts[a].phase) :: s.attempts[a].phase == Ran(r)
  }

  /** The attempt returns under the key, and had not returned in `s`. */
  predicate ReturnsSince(s: State, later: State, a: nat, key: Key) {
    && a in later.attempts && later.attempts[a].key == key && later.attempts[a].phase.Returned?
    && (a in s.attempts ==> !s.attempts[a].phase.Returned?)
  }

  ghost predicate AgreesSince(s: State, later: State, key: Key, r: Result) {
    && Holds(later, key, r) && LiveAttemptsAgree(later, key, r)
    && forall a | ReturnsSince(s, later, a, key) :: later.attempts[a].phase == Returned(r)
  }

  lemma StepKeepsAgreement(s: State, later: State, step: Step, key: Key, r: Result)
    requires AgreesSince(s, later, key, r) && Enabled(later, step)
    ensures AgreesSince(s, Next(later, step), key, r)
  {
    hide Count, Bump;
    var next := Next(later, step);
    assert forall a | a in later.attempts && a != step.a :: a in next.attempts && next.attempts[a] == later.attempts[a];
    forall a | ReturnsSince(s, next, a, key) ensures next.attempts[a].phase == Returned(r) {
      if a in later.attempts && later.attempts[a].phase.Returned? { assert ReturnsSince(s, later, a, key); }
    }
  }

  lemma {:induction false} AgreementLasts(steps: seq<Step>, more: seq<Step>, key: Key, r: Result)
    requires Holds(Run(steps), key, r) && LiveAttemptsAgree(Run(steps), key, r)
    ensures AgreesSince(Run(steps), Run(steps + more), key, r)
    decreases |more|
  {
    if more == [] {
      assert steps + more == steps;
    } else {
      var most, last := more[..|more| - 1], more[|more| - 1];
      assert steps + more == (steps + most) + [last];
      AgreementLasts(steps, most, key, r);
      RunOneMore(steps + most, last);
      hide Run, AgreesSince, Next, Enabled;
      if Enabled(Run(steps + most), last) { StepKeepsAgreement(Run(steps), Run(steps + most), last, key, r); }
    }
  }

  /** What is left for an attempt to do. */
  function Rank(p: Phase): nat {
    match p
    case Selected(_) => 4
    case Ready => 3
    case Running => 2
    case Ran(_) => 1
    case _ => 0
  }

  /** The next step of a live attempt; an effect still running may return `t`. */
  function Onward(a: nat, p: Phase, t: Result): Step
    requires !Final(p)
  {
    match p
    case Selected(_) => Insert(a)
    case Ready => Begin(a)
    case Running => Finish(a, t)
    case Ran(_) => Commit(a)
  }

  function Advanced(p: Phase, t: Result): Phase
    requires !Final(p)
  {
    match p
    case Selected(_) => Ready
    case Ready => Running
    case Running => Ran(t)
    case Ran(x) => Returned(x)
  }

  lemma OnwardAdvances(s: State, a: nat, t: Result)
    requires a in s.attempts && !Final(s.attempts[a].phase)
    ensures
      var next := Apply(s, Onward(a, s.attempts[a].phase, t));
      && a in next.attempts && next.attempts[a] == s.attempts[a].(phase := Advanced(s.attempts[a].phase, t))
      && (s.attempts[a].phase.Ran? ==> Holds(next, s.attempts[a].key, s.attempts[a].phase.result))
  {
    hide Count, Bump;
    match s.attempts[a].phase {
      case Selected(_) =>
      case Ready =>
      case Running =>
      case Ran(_) =>
    }
  }

  /** Left alone, a live attempt that does not agree can be driven to commit something else. */
  lemma {:induction false} CanDisagree(steps: seq<Step>, a: nat, r: Result) returns (more: seq<Step>, x: Result)
    requires var s := Run(steps); a in s.attempts && !Final(s.attempts[a].phase) && s.attempts[a].phase != Ran(r)
    ensures x != r && Holds(Run(steps + more), Run(steps).attempts[a].key, x)
    ensures At(Run(steps + more), a, Run(steps).attempts[a].key, Returned(x))
    decreases Rank(Run(steps).attempts[a].phase)
  {
    hide Run, Apply, Onward;
    var phase := Run(steps).attempts[a].phase;
    var step := Onward(a, phase, r + "!");
    OnwardAdvances(Run(steps), a, r + "!");
    RunOneMore(steps, step);
    if phase.Ran? {
      more, x := [step], phase.result;
    } else {
      assert |r + "!"| != |r|;
      var rest;
      rest, x := CanDisagree(steps + [step], a, r);
      more := [step] + rest;
      assert steps + more == steps + [step] + rest;
    }
  }

  /** Exactly when a stored result is safe from now on: if and only if every attempt on its key
      that is not over is about to commit that same result. */
  lemma StoredResultIsSafeIff(steps: seq<Step>, key: Key, r: Result)
    requires Holds(Run(steps), key, r)
    ensures (forall more :: Holds(Run(steps + more), key, r)) <==> LiveAttemptsAgree(Run(steps), key, r)
  {
    hide Run, Rank;
    if LiveAttemptsAgree(Run(steps), key, r) {
      forall more ensures Holds(Run(steps + more), key, r) { AgreementLasts(steps, more, key, r); }
    } else {
      var a :| a in Run(steps).attempts && Run(steps).attempts[a].key == key
        && !Final(Run(steps).attempts[a].phase) && Run(steps).attempts[a].phase != Ran(r);
      var more, x := CanDisagree(steps, a, r);
    }
  }

  /** And exactly then every caller who returns from now on is told the stored result. */
  lemma LaterCallersAgreeIff(steps: seq<Step>, key: Key, r: Result)
    requires Holds(Run(steps), key, r)
    ensures
      (forall more, a | ReturnsSince(Run(steps), Run(steps + more), a, key) :: Run(steps + more).attempts[a].phase == Returned(r))
      <==> LiveAttemptsAgree(Run(steps), key, r)
  {
    hide Run, Rank;
    if LiveAttemptsAgree(Run(steps), key, r) {
      forall more, a | ReturnsSince(Run(steps), Run(steps + more), a, key)
        ensures Run(steps + more).attempts[a].phase == Returned(r)
      {
        AgreementLasts(steps, more, key, r);
      }
    } else {
      var a :| a in Run(steps).attempts && Run(steps).attempts[a].key == key
        && !Final(Run(steps).attempts[a].phase) && Run(steps).attempts[a].phase != Ran(r);
      var more, x := CanDisagree(steps, a, r);
      assert ReturnsSince(Run(steps), Run(steps + more), a, key);
    }
  }

  // ---- Where the guard stops short of "exactly once" -------------------------------------------------

  /** A reservation left behind by a crash does not stop the next attempt: here the effect
      runs twice under one key, with attempts that never overlap. */
  lemma StalePendingRunsAgain(key: Key) returns (steps: seq<Step>)
    ensures Sequential(steps) && Count(Run(steps).begun, key) == 2
  {
    var first := CrashesWhileRunning(key);
    var s1 := first + [Select(1, key)];
    var s2 := s1 + [Insert(1)];
    steps := s2 + [Begin(1)];
    RunOneMore(first, Select(1, key));
    RunOneMore(s1, Insert(1));
    RunOneMore(s2, Begin(1));
    hide Run, Sequential;
    SequentialGrows(first, Select(1, key));
    SequentialGrows(s1, Insert(1));
    SequentialGrows(s2, Begin(1));
  }

  lemma CrashesWhileRunning(key: Key) returns (steps: seq<Step>)
    ensures Sequential(steps)
    ensures Run(steps) == State(map[key := PendingRow], map[0 := Attempt(key, Crashed, true)], map[key := 1], map[], map[key := 1])
  {
    var s1 := [Select(0, key)];
    var s2 := s1 + [Insert(0)];
    var s3 := s2 + [Begin(0)];
    steps := s3 + [Crash(0)];
    assert s1 == [] + s1;
    RunOneMore([], Select(0, key));
    RunOneMore(s1, Insert(0));
    RunOneMore(s2, Begin(0));
    RunOneMore(s3, Crash(0));
    RunNothing();
    hide Run, Sequential;
    SequentialGrows([], Select(0, key));
    SequentialGrows(s1, Insert(0));
    SequentialGrows(s2, Begin(0));
    SequentialGrows(s3, Crash(0));
    assert Run(s2).attempts == map[0 := Attempt(key, Ready, true)];
    assert Run(steps).attempts == map[0 := Attempt(key, Crashed, true)];
  }

  lemma SequentialGrows(steps: seq<Step>, step: Step)
    requires steps == [] || Sequential(steps)
    requires step.Select? ==> forall b | b in Run(steps).attempts && Run(steps).attempts[b].key == step.key :: Final(Run(steps).attempts[b].phase)
    ensures Sequential(steps + [step])
  {
    hide Run;
    var all := steps + [step];
    assert all[..|steps|] == steps;
    assert forall i | 0 <= i < |steps| :: all[..i] == steps[..i] && all[i] == steps[i];
  }

  lemma RunNothing()
    ensures Run([]) == START
  {}

  /** Two attempts that read the empty inbox together may both run the effect. */
  lemma BothReady(key: Key) returns (steps: seq<Step>)
    ensures Run(steps) == State(
      map[key := PendingRow], map[0 := Attempt(key, Ready, true), 1 := Attempt(key, Ready, true)], map[], map[], map[])
  {
    var s1 := [Select(0, key)];
    var s2 := s1 + [Select(1, key)];
    var s3 := s2 + [Insert(0)];
    steps := s3 + [Insert(1)];
    assert s1 == [] + s1;
    RunOneMore([], Select(0, key));
    RunOneMore(s1, Select(1, key));
    RunOneMore(s2, Insert(0));
    RunOneMore(s3, Insert(1));
    RunNothing();
    hide Run;
    assert Run(s2).attempts == map[0 := Attempt(key, Selected(true), true), 1 := Attempt(key, Selected(true), true)];
    assert Run(steps).attempts == map[0 := Attempt(key, Ready, true), 1 := Attempt(key, Ready, true)];
  }

  /** Two concurrent attempts both run the effect; the later commit replaces the stored result,
      and the two callers are told different things. */
  lemma ConcurrentAttemptsDisagree(key: Key, r: Result, t: Result) returns (early: seq<Step>, late: seq<Step>)
    requires r != t
    ensures early <= late
    ensures Holds(Run(early), key, r) && Holds(Run(late), key, t)
    ensures At(Run(late), 0, key, Returned(r)) && At(Run(late), 1, key, Returned(t))
  {
    var s4 := BothReady(key);
    TwoCommits(Run(s4), key, r, t);
    hide Run, Apply;
    var s5 := s4 + [Begin(0)];
    var s6 := s5 + [Begin(1)];
    var s7 := s6 + [Finish(0, r)];
    early := s7 + [Commit(0)];
    var s9 := early + [Finish(1, t)];
    late := s9 + [Commit(1)];
    RunOneMore(s4, Begin(0));
    RunOneMore(s5, Begin(1));
    RunOneMore(s6, Finish(0, r));
    RunOneMore(s7, Commit(0));
    RunOneMore(early, Finish(1, t));
    RunOneMore(s9, Commit(1));
  }

  function BothRan(s: State, r: Result): State {
    Apply(Apply(Apply(Apply(s, Begin(0)), Begin(1)), Finish(0, r)), Commit(0))
  }

  predicate At(s: State, a: nat, key: Key, p: Phase) {
    a in s.attempts && s.attempts[a].key == key && s.attempts[a].phase == p
  }

  lemma TwoCommits(s: State, key: Key, r: Result, t: Result)
    requires At(s, 0, key, Ready) && At(s, 1, key, Ready)
    ensures Holds(BothRan(s, r), key, r)
    ensures var last := Apply(Apply(BothRan(s, r), Finish(1, t)), Commit(1));
      Holds(last, key, t) && At(last, 0, key, Returned(r)) && At(last, 1, key, Returned(t))
  {
    hide Count, Bump, Apply;
    var a := Apply(s, Begin(0));
    Moves(s, Begin(0), Running, 1);
    var b := Apply(a, Begin(1));
    Moves(a, Begin(1), Running, 0);
    var c := Apply(b, Finish(0, r));
    Moves(b, Finish(0, r), Ran(r), 1);
    var d := Apply(c, Commit(0));
    Moves(c, Commit(0), Returned(r), 1);
    var e := Apply(d, Finish(1, t));
    Moves(d, Finish(1, t), Ran(t), 0);
    Moves(e, Commit(1), Returned(t), 0);
  }

  /** A step moves its own attempt and leaves another one alone. */
  lemma Moves(s: State, step: Step, p: Phase, other: nat)
    requires Enabled(s, step) && !step.Select? && other in s.attempts && other != step.a
    requires match step
      case Begin(_) => p == Running
      case Finish(_, result) => p == Ran(result)
      case Commit(a) => p == Returned(s.attempts[a].phase.result)
      case _ => false
    ensures var s' := Apply(s, step);
      && At(s', step.a, s.attempts[step.a].key, p)
      && At(s', other, s.attempts[other].key, s.attempts[other].phase)
      && (step.Commit? ==> Holds(s', s.attempts[step.a].key, s.attempts[step.a].phase.result))
  {
    hide Count, Bump;
  }
}
