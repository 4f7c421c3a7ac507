/** A connected client does catch up: the stream's laws are not met by sending nothing. */
module CatchUp {
  import opened RunStream

  /** What the server, the wire and the client can still do by themselves. */
  predicate Serves(step: Step) { step.Read? || step.Send? || step.Deliver? }

  /** Three for each entry not read yet, two for each to be sent, one for each frame under way. */
  function Work(s: State, carried: nat): int {
    if s.socket.None? then 0
    else
      var k := s.socket.value;
      3 * (|Owed(s.log, carried)| - |s.client.seen + EventsOf(k.wire)| - |k.batch|) + 2 * |k.batch| + |k.wire|
  }

  /** The step to take next: deliver what is on the wire, send what has been read, read what is left. */
  function NextToDo(s: State): Step
    requires s.socket.Some?
  {
    if s.socket.value.wire != [] then Deliver
    else if s.socket.value.batch != [] then Send
    else Read
  }

  lemma WorkIsNonnegative(s: State, carried: nat)
    requires InStep(s, carried)
    ensures Work(s, carried) >= 0
  {
    hide EventsOf, TailAfter, Ascending, LastIdOf;
    if s.socket.Some? {
      var k := s.socket.value;
      var sent := s.client.seen + EventsOf(k.wire);
      assert |sent + k.batch| <= |Owed(s.log, carried)|;
    }
  }

  lemma DeliverIsWork(s: State, carried: nat)
    requires InStep(s, carried) && s.socket.Some? && s.socket.value.wire != []
    ensures Enabled(s, Deliver) && Work(Next(s, Deliver), carried) < Work(s, carried)
  {
    hide Owed, Ascending, LastIdOf, EventsOf;
    var k := s.socket.value;
    EventsSplit([k.wire[0]], k.wire[1..]);
    EventsOfOne(k.wire[0]);
    assert k.wire == [k.wire[0]] + k.wire[1..];
  }

  lemma SendIsWork(s: State, carried: nat)
    requires InStep(s, carried) && s.socket.Some? && s.socket.value.wire == [] && s.socket.value.batch != []
    ensures Enabled(s, Send) && Work(Next(s, Send), carried) < Work(s, carried)
  {
    hide Owed, Ascending, LastIdOf, EventsOf;
    var k := s.socket.value;
    EventsSplit(k.wire, [EventFrame(k.batch[0])]);
    EventsOfOne(EventFrame(k.batch[0]));
  }

  lemma ReadIsWork(s: State, carried: nat)
    requires InStep(s, carried) && s.socket.Some? && s.socket.value.wire == [] && s.socket.value.batch == []
    ensures Enabled(s, Read)
    ensures !Idle(s) ==> Work(Next(s, Read), carried) < Work(s, carried)
  {
    hide Owed, Ascending, LastIdOf, TailAfter, EventsOf;
    EventsOfNone();
  }

  lemma EventsOfNone()
    ensures EventsOf([]) == []
  {}

  lemma WorkDoes(s: State, carried: nat)
    requires InStep(s, carried) && s.socket.Some? && !Idle(s)
    ensures
      var step := NextToDo(s);
      Enabled(s, step) && Work(Next(s, step), carried) < Work(s, carried) && Next(s, step).socket.Some? && Next(s, step).log == s.log
  {
    if s.socket.value.wire != [] {
      DeliverIsWork(s, carried);
    } else if s.socket.value.batch != [] {
      SendIsWork(s, carried);
    } else {
      ReadIsWork(s, carried);
    }
    hide Work, InStep, Idle;
  }

  lemma OneMoreStep(carried: nat, steps: seq<Step>, step: Step)
    requires OnlyReadEntriesTrimmed(carried, steps) && !step.Trim?
    ensures OnlyReadEntriesTrimmed(carried, steps + [step])
    ensures Run(carried, steps + [step]) == Apply(Run(carried, steps), step)
  {
    hide Apply, TrimsOnlyRead;
    var all := steps + [step];
    assert all[..|steps|] == steps;
    forall i | 0 <= i < |all| && all[i].Trim? ensures TrimsOnlyRead(Run(carried, all[..i]), all[i].upTo) {
      assert i < |steps| && all[..i] == steps[..i] && all[i] == steps[i];
    }
  }

  /** From every reachable state with a socket, finitely many reads, sends and deliveries bring the
      socket to rest; then the client has seen all it is owed. */
  lemma {:induction false} ConnectedClientCatchesUp(carried: nat, steps: seq<Step>) returns (more: seq<Step>)
    requires OnlyReadEntriesTrimmed(carried, steps) && Run(carried, steps).socket.Some?
    ensures forall i | 0 <= i < |more| :: Serves(more[i])
    ensures OnlyReadEntriesTrimmed(carried, steps + more)
    ensures Run(carried, steps + more).log == Run(carried, steps).log
    ensures Idle(Run(carried, steps + more)) && Run(carried, steps + more).client.seen == TailAfter(Run(carried, steps).log, carried)
    decreases Work(Run(carried, steps), carried)
  {
    hide Run, Idle, Work, TailAfter, OnlyReadEntriesTrimmed, Serves;
    if Idle(Run(carried, steps)) {
      more := [];
      assert steps + more == steps;
      IdleMeansCaughtUp(carried, steps);
    } else {
      var step := OneStepCloser(carried, steps);
      var rest := ConnectedClientCatchesUp(carried, steps + [step]);
      more := [step] + rest;
      assert steps + more == steps + [step] + rest;
    }
  }

  lemma OneStepCloser(carried: nat, steps: seq<Step>) returns (step: Step)
    requires OnlyReadEntriesTrimmed(carried, steps) && Run(carried, steps).socket.Some? && !Idle(Run(carried, steps))
    ensures Serves(step) && OnlyReadEntriesTrimmed(carried, steps + [step])
    ensures Run(carried, steps + [step]).socket.Some? && Run(carried, steps + [step]).log == Run(carried, steps).log
    ensures 0 <= Work(Run(carried, steps + [step]), carried) < Work(Run(carried, steps), carried)
  {
    RunsStayInStep(carried, steps);
    hide Run, Idle, Work, InStep, TailAfter, OnlyReadEntriesTrimmed, Apply;
    var s := Run(carried, steps);
    WorkDoes(s, carried);
    step := NextToDo(s);
    OneMoreStep(carried, steps, step);
    RunsStayInStep(carried, steps + [step]);
    AppliedIsNext(s, step);
    WorkIsNonnegative(Next(s, step), carried);
  }

  lemma AppliedIsNext(s: State, step: Step)
    requires Enabled(s, step)
    ensures Apply(s, step) == Next(s, step)
  {}

  /** And so from every reachable state at all: a client without a socket connects first. */
  lemma EveryClientCanCatchUp(carried: nat, steps: seq<Step>) returns (more: seq<Step>)
    requires OnlyReadEntriesTrimmed(carried, steps)
    ensures forall i | 0 <= i < |more| :: Serves(more[i]) || more[i].Connect?
    ensures Run(carried, steps + more).log == Run(carried, steps).log
    ensures Run(carried, steps + more).client.seen == TailAfter(Run(carried, steps).log, carried)
  {
    hide Run, TailAfter, OnlyReadEntriesTrimmed, Idle;
    if Run(carried, steps).socket.Some? {
      more := ConnectedClientCatchesUp(carried, steps);
    } else {
      OneMoreStep(carried, steps, Connect);
      var rest := ConnectedClientCatchesUp(carried, steps + [Connect]);
      more := [Connect] + rest;
      assert steps + more == steps + [Connect] + rest;
    }
  }
}
