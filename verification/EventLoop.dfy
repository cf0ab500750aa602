/** The event loop's own passes over the poll entries, and the steps of the protocol they
    take. */
module Loop {
  import opened Bytes
  import opened Options
  import opened Server
  import Pool

  const CLOSED: int := -1

  /** The entry after some actions of the batch. */
  ghost predicate IsProcessed(now: PollEntry, was: PollEntry, actions: seq<ClientAction>) {
    if Names(actions, was.fd, CloseClient) then now.fd == CLOSED else now == Rearmed(was, actions)
  }

  ghost predicate AllOpen(fds: seq<PollEntry>) {
    forall i :: 0 <= i < |fds| ==> fds[i].fd >= 0
  }

  function OpenOnes(fds: seq<PollEntry>): seq<PollEntry> {
    if fds == [] then []
    else OpenOnes(fds[..|fds| - 1]) + if fds[|fds| - 1].fd == CLOSED then [] else [fds[|fds| - 1]]
  }

  lemma {:induction false} ProcessedSurvive(fds: seq<PollEntry>, was: seq<PollEntry>, actions: seq<ClientAction>)
    requires |fds| == |was| && AllOpen(was)
    requires forall i :: 0 <= i < |fds| ==> IsProcessed(fds[i], was[i], actions)
    ensures OpenOnes(fds) == Survivors(was, actions)
  {
    hide Names;
    if fds != [] {
      ProcessedSurvive(fds[..|fds| - 1], was[..|fds| - 1], actions);
    }
  }

  // ---- Sequences of loop steps on the clients ----

  /** The steps the loop itself takes, and when; `Accept` needs a new descriptor. */
  ghost predicate ClientEnabled(clients: seq<PollEntry>, step: Step) {
    match step
    case Accept(fd) => forall e :: e in clients ==> e.fd != fd
    case Receive(fd, data) => PollEntry(fd, true) in clients && data != []
    case HangUp(fd) => PollEntry(fd, true) in clients
    case Batch => true
    case DisconnectAll => true
    case _ => false
  }

  ghost function ClientRun(clients: seq<PollEntry>, actions: seq<ClientAction>, steps: seq<Step>): seq<PollEntry> {
    if steps == [] then clients
    else ClientStep(ClientRun(clients, actions, steps[..|steps| - 1]), actions, steps[|steps| - 1])
  }

  /** Each step is enabled where it is taken. */
  ghost predicate LoopSteps(clients: seq<PollEntry>, actions: seq<ClientAction>, steps: seq<Step>) {
    steps != [] ==>
      var before := steps[..|steps| - 1];
      LoopSteps(clients, actions, before)
      && ClientEnabled(ClientRun(clients, actions, before), steps[|steps| - 1])
  }

  /** The jobs the steps enqueue. */
  function JobsOf(steps: seq<Step>): seq<Pool.Job> {
    if steps == [] then []
    else
      var last := steps[|steps| - 1];
      JobsOf(steps[..|steps| - 1]) + if last.Receive? then [Pool.Job(last.fd, last.data)] else []
  }

  lemma StepAppended(clients: seq<PollEntry>, actions: seq<ClientAction>, steps: seq<Step>, step: Step)
    requires LoopSteps(clients, actions, steps) && ClientEnabled(ClientRun(clients, actions, steps), step)
    ensures LoopSteps(clients, actions, steps + [step])
    ensures ClientRun(clients, actions, steps + [step])
         == ClientStep(ClientRun(clients, actions, steps), actions, step)
    ensures JobsOf(steps + [step])
         == JobsOf(steps) + if step.Receive? then [Pool.Job(step.fd, step.data)] else []
  {
    hide ClientStep, ClientEnabled;
    assert (steps + [step])[..|steps|] == steps;
  }

  /** The descriptors accepted. */
  function AcceptedBy(steps: seq<Step>): set<int> {
    if steps == [] then {}
    else
      var last := steps[|steps| - 1];
      AcceptedBy(steps[..|steps| - 1]) + if last.Accept? then {last.fd as int} else {}
  }

  /** Every descriptor accepted is one that no one used. */
  ghost predicate FreshAccepts(used: set<int>, steps: seq<Step>) {
    steps != [] ==>
      var (before, last) := (steps[..|steps| - 1], steps[|steps| - 1]);
      FreshAccepts(used, before) && (last.Accept? ==> last.fd !in used + AcceptedBy(before))
  }

  lemma FreshAppended(used: set<int>, steps: seq<Step>, step: Step)
    requires FreshAccepts(used, steps)
    requires step.Accept? ==> step.fd !in used + AcceptedBy(steps)
    ensures FreshAccepts(used, steps + [step])
    ensures AcceptedBy(steps + [step]) == AcceptedBy(steps) + if step.Accept? then {step.fd as int} else {}
  {
    assert (steps + [step])[..|steps|] == steps;
  }

  predicate IsLoopStep(step: Step) {
    step.Accept? || step.Receive? || step.HangUp? || step.Batch? || step.DisconnectAll?
  }

  /** The loop's own steps among those of everyone. */
  function LoopPart(steps: seq<Step>): seq<Step> {
    if steps == [] then []
    else
      var last := steps[|steps| - 1];
      LoopPart(steps[..|steps| - 1]) + if IsLoopStep(last) then [last] else []
  }

  /** Where the steps lead, if those that are not enabled are skipped. */
  ghost function After(s: State, steps: seq<Step>): State {
    if steps == [] then s
    else
      var (t, last) := (After(s, steps[..|steps| - 1]), steps[|steps| - 1]);
      if Server.Enabled(t, last) then Server.Apply(t, last) else t
  }

  /** Workers, handlers and stray closes take steps that are enabled, anywhere between
      those of the loop, and the batch finds these actions. */
  ghost predicate Interleaves(s: State, actions: seq<ClientAction>, steps: seq<Step>) {
    steps != [] ==>
      var (before, last) := (steps[..|steps| - 1], steps[|steps| - 1]);
      && Interleaves(s, actions, before)
      && (!IsLoopStep(last) ==> Server.Enabled(After(s, before), last))
      && (last.Batch? ==> ActionsOf(After(s, before).pending) == actions)
  }

  /** What the loop does in an iteration, with any steps of workers, handlers and stray
      closes in between, is a run of the protocol: no step of the loop is disabled by
      them, and the pool accepts the loop's jobs in order. */
  lemma {:induction false} IterationIsRun(s: State, actions: seq<ClientAction>, steps: seq<Step>)
      returns (states: seq<State>)
    requires !s.pool.stop && Interleaves(s, actions, steps)
    requires LoopSteps(s.clients, actions, LoopPart(steps)) && FreshAccepts(s.used, LoopPart(steps))
    ensures Server.Run(states, steps) && states[0] == s && states[|steps|] == After(s, steps)
    ensures Ends(s, actions, LoopPart(steps), states[|steps|])
  {
    hide ClientRun, LoopSteps, FreshAccepts, AcceptedBy, JobsOf, Ends, Server.Enabled, Server.Apply, ActionsOf;
    if steps == [] {
      states := [s];
      EndsNow(s, actions);
    } else {
      var n := |steps| - 1;
      var part, before := LoopPart(steps), LoopPart(steps[..n]);
      var t := After(s, steps[..n]);
      if IsLoopStep(steps[n]) {
        assert part == before + [steps[n]];
        assert part[..|part| - 1] == before;
        LastStep(s.clients, actions, s.used, part);
        states := IterationIsRun(s, actions, steps[..n]);
        EndsNext(s, actions, part, t);
      } else {
        assert part == before;
        states := IterationIsRun(s, actions, steps[..n]);
        OtherStepApplies(s, actions, part, t, steps[n]);
      }
      states := RunAppended(states, steps, Server.Apply(t, steps[n]));
    }
  }

  lemma RunAppended(states: seq<State>, steps: seq<Step>, t: State) returns (more: seq<State>)
    requires steps != [] && Server.Run(states, steps[..|steps| - 1])
    requires Server.Steps(states[|steps| - 1], steps[|steps| - 1], t)
    ensures Server.Run(more, steps) && more[0] == states[0] && more[|steps|] == t
  {
    hide Server.Steps;
    more := states + [t];
    forall i | 0 <= i < |steps|
      ensures Server.Steps(more[i], steps[i], more[i + 1])
    {
      if i < |steps| - 1 {
        assert steps[..|steps| - 1][i] == steps[i];
        assert Server.Steps(states[i], steps[..|steps| - 1][i], states[i + 1]);
      }
    }
  }

  /** What the loop's steps have changed, whoever else took steps. */
  ghost predicate Ends(s: State, actions: seq<ClientAction>, steps: seq<Step>, t: State) {
    && t.clients == ClientRun(s.clients, actions, steps)
    && t.pool.accepted == s.pool.accepted + JobsOf(steps) && !t.pool.stop
    && t.used == s.used + AcceptedBy(steps)
  }

  lemma EndsNow(s: State, actions: seq<ClientAction>)
    requires !s.pool.stop
    ensures Ends(s, actions, [], s)
  {
  }

  lemma EndsNext(s: State, actions: seq<ClientAction>, steps: seq<Step>, t: State)
    requires steps != [] && Ends(s, actions, steps[..|steps| - 1], t)
    requires LoopSteps(s.clients, actions, steps) && FreshAccepts(s.used, steps)
    requires steps[|steps| - 1].Batch? ==> ActionsOf(t.pending) == actions
    ensures Server.Enabled(t, steps[|steps| - 1]) && Ends(s, actions, steps, Server.Apply(t, steps[|steps| - 1]))
  {
    hide ClientStep, ActionsOf, ClientEnabled, Server.Apply, Server.Enabled;
    hide LoopSteps, FreshAccepts, ClientRun, JobsOf, AcceptedBy;
    var step := steps[|steps| - 1];
    LastStep(s.clients, actions, s.used, steps);
    LoopStepApplies(t, actions, step);
    var u := Server.Apply(t, step);
    assert u.clients == ClientRun(s.clients, actions, steps);
    assert u.pool.accepted == s.pool.accepted + JobsOf(steps);
    assert u.used == s.used + AcceptedBy(steps);
  }

  lemma LastStep(clients: seq<PollEntry>, actions: seq<ClientAction>, used: set<int>, steps: seq<Step>)
    requires steps != [] && LoopSteps(clients, actions, steps) && FreshAccepts(used, steps)
    ensures var (before, last) := (steps[..|steps| - 1], steps[|steps| - 1]);
            && LoopSteps(clients, actions, before) && FreshAccepts(used, before)
            && ClientEnabled(ClientRun(clients, actions, before), last)
            && ClientRun(clients, actions, steps) == ClientStep(ClientRun(clients, actions, before), actions, last)
            && JobsOf(steps) == JobsOf(before) + (if last.Receive? then [Pool.Job(last.fd, last.data)] else [])
            && AcceptedBy(steps) == AcceptedBy(before) + (if last.Accept? then {last.fd as int} else {})
            && (last.Accept? ==> last.fd !in used + AcceptedBy(before))
  {
    hide ClientStep, ClientEnabled;
  }

  lemma OtherStepApplies(s: State, actions: seq<ClientAction>, steps: seq<Step>, t: State, step: Step)
    requires Server.Enabled(t, step) && !IsLoopStep(step) && Ends(s, actions, steps, t)
    ensures Ends(s, actions, steps, Server.Apply(t, step))
  {
    hide ClientRun, JobsOf, AcceptedBy;
  }

  /** One loop step of the protocol. */
  lemma LoopStepApplies(s: State, actions: seq<ClientAction>, step: Step)
    requires ClientEnabled(s.clients, step) && (step.Accept? ==> step.fd !in s.used) && !s.pool.stop
    requires step.Batch? ==> ActionsOf(s.pending) == actions
    ensures Server.Enabled(s, step)
    ensures var t := Server.Apply(s, step);
            && t.clients == ClientStep(s.clients, actions, step)
            && t.pool.accepted == s.pool.accepted
                                  + (if step.Receive? then [Pool.Job(step.fd, step.data)] else [])
            && !t.pool.stop
            && t.used == s.used + (if step.Accept? then {step.fd as int} else {})
  {
  }

  function ReceiveStep(fd: nat, data: Str): Step {
    if data == [] then HangUp(fd) else Receive(fd, data)
  }

  /** The steps of the receive loop: one for each armed entry that is readable, in order. */
  ghost function Readings(fds: seq<PollEntry>, readable: map<int, Str>): seq<Step>
    requires AllOpen(fds)
  {
    if fds == [] then []
    else
      var last := fds[|fds| - 1];
      Readings(fds[..|fds| - 1], readable)
      + if last.armed && last.fd in readable then [ReceiveStep(last.fd, readable[last.fd])] else []
  }

  // ---- The code ----

  class EventLoop {
    var fds: seq<PollEntry>
    var pendingActions: seq<ClientAction>

    /** The listener alone, before the loop starts. */
    constructor (listener: nat)
      ensures fds == [PollEntry(listener, true)] && pendingActions == []
    {
      fds := [PollEntry(listener, true)];
      pendingActions := [];
    }

    method CloseClientAction(fd: nat)
      modifies this`pendingActions
      ensures pendingActions == old(pendingActions) + [ClientAction(fd, CloseClient)]
    {
      pendingActions := pendingActions + [ClientAction(fd, CloseClient)];
    }

    method EnablePollingAction(fd: nat)
      modifies this`pendingActions
      ensures pendingActions == old(pendingActions) + [ClientAction(fd, EnablePolling)]
    {
      pendingActions := pendingActions + [ClientAction(fd, EnablePolling)];
    }

    /** The inner loop over the entries for one action. */
    method ProcessAction(action: ClientAction)
      modifies this`fds
      ensures |fds| == |old(fds)|
      ensures forall i :: 0 <= i < |fds| ==>
                            fds[i] == if old(fds)[i].fd != action.fd then old(fds)[i]
                                      else if action.kind == CloseClient then old(fds)[i].(fd := CLOSED)
                                      else old(fds)[i].(armed := true)
    {
      for i := 0 to |fds|
        invariant |fds| == |old(fds)|
        invariant forall j :: i <= j < |fds| ==> fds[j] == old(fds)[j]
        invariant forall j :: 0 <= j < i ==>
                                fds[j] == if old(fds)[j].fd != action.fd then old(fds)[j]
                                          else if action.kind == CloseClient then old(fds)[j].(fd := CLOSED)
                                          else old(fds)[j].(armed := true)
      {
        if fds[i].fd == action.fd {
          if action.kind == CloseClient {
            fds := fds[i := fds[i].(fd := CLOSED)];
          } else {
            fds := fds[i := fds[i].(armed := true)];
          }
        }
      }
    }

    /** `erase(remove_if(...))` of the closed entries. */
    method EraseClosed()
      modifies this`fds
      ensures fds == OpenOnes(old(fds))
    {
      var kept: seq<PollEntry> := [];
      for i := 0 to |fds|
        invariant fds == old(fds) && kept == OpenOnes(fds[..i])
      {
        assert fds[..i + 1][..i] == fds[..i];
        if fds[i].fd != CLOSED {
          kept := kept + [fds[i]];
        }
      }
      assert fds[..|fds|] == fds;
      fds := kept;
    }

    /** The pass over the pending actions at the top of the event loop. When no action
        closes the listener it stays in front, and the entries after it take one batch
        step of the protocol. */
    method ProcessPending()
      requires AllOpen(fds)
      modifies this
      ensures fds == Survivors(old(fds), old(pendingActions)) && pendingActions == []
      ensures old(fds) != [] && !Names(old(pendingActions), old(fds)[0].fd, CloseClient)
              ==> fds != [] && fds[0] == Rearmed(old(fds)[0], old(pendingActions))
                  && fds[1..] == Survivors(old(fds)[1..], old(pendingActions))
    {
      hide Survivors, OpenOnes;
      ghost var was, actions := fds, pendingActions;
      for a := 0 to |pendingActions|
        invariant pendingActions == actions && |fds| == |was|
        invariant forall i :: 0 <= i < |fds| ==> IsProcessed(fds[i], was[i], actions[..a])
      {
        ghost var before := fds;
        ProcessAction(pendingActions[a]);
        forall i | 0 <= i < |fds|
          ensures IsProcessed(fds[i], was[i], actions[..a + 1])
        {
          ProcessedNext(before[i], was[i], actions, a);
        }
      }
      assert actions[..|actions|] == actions;
      ProcessedSurvive(fds, was, actions);
      pendingActions := [];
      EraseClosed();
      if was != [] && !Names(actions, was[0].fd, CloseClient) {
        FirstStays(was, actions);
      }
    }

    /** Drops everything but the listener. */
    method DisconnectAll()
      requires fds != []
      modifies this`fds
      ensures fds == [old(fds)[0]]
    {
      fds := fds[..1];
    }

    /** The body of the receive loop for a readable entry; no data stands for a result
        of `recv` that is not positive. On the open clients it is one hang-up or one
        receive step of the protocol. */
    method ReceiveAt(i: nat, data: Str) returns (jobs: seq<Pool.Job>)
      requires 1 <= i < |fds| && fds[i].fd >= 0 && fds[i].armed && DistinctOpen(fds) && OpenOrClosed(fds)
      modifies this`fds
      ensures |fds| == |old(fds)| && forall j :: 0 <= j < |fds| && j != i ==> fds[j] == old(fds)[j]
      ensures data == [] ==> fds[i].fd == CLOSED && jobs == []
      ensures data != [] ==> fds[i] == PollEntry(old(fds)[i].fd, false) && jobs == [Pool.Job(old(fds)[i].fd, data)]
      ensures DistinctOpen(fds) && OpenOrClosed(fds)
      ensures OpenOnes(fds[1..]) == ClientStep(OpenOnes(old(fds)[1..]), [], ReceiveStep(old(fds)[i].fd, data))
    {
      hide DistinctOpen, OpenOrClosed, OpenOnes, ClientStep;
      ClosedEntry(fds, i);
      DisarmedEntry(fds, i, data);
      if data == [] {
        fds := fds[i := fds[i].(fd := CLOSED)];
        return [];
      }
      fds := fds[i := fds[i].(armed := false)];
      return [Pool.Job(fds[i].fd, data)];
    }

    /** The receive loop and the erase after it: they continue a sequence of steps on the
        clients by exactly its receive and hang-up steps. `readable` holds what `recv` yields for the
        descriptors `poll` reported; it reports only armed ones. */
    method ReceiveAll(readable: map<int, Str>, ghost start: seq<PollEntry>, ghost actions: seq<ClientAction>,
                      ghost used: set<int>, ghost taken: seq<Step>)
      returns (jobs: seq<Pool.Job>, ghost steps: seq<Step>)
      requires fds != [] && AllOpen(fds) && DistinctFds(fds)
      requires LoopSteps(start, actions, taken) && fds[1..] == ClientRun(start, actions, taken)
      requires FreshAccepts(used, taken)
      modifies this`fds
      ensures fds != [] && fds[0] == old(fds)[0] && AllOpen(fds) && DistinctFds(fds)
      ensures steps == taken + Readings(old(fds)[1..], readable)
      ensures LoopSteps(start, actions, steps) && fds[1..] == ClientRun(start, actions, steps)
      ensures JobsOf(steps) == JobsOf(taken) + jobs && FreshAccepts(used, steps)
    {
      hide ClientStep, OpenOnes, LoopSteps, ClientRun, JobsOf, FreshAccepts, Readings;
      hide AllOpen, DistinctFds, DistinctOpen, OpenOrClosed;
      jobs, steps := [], taken;
      ghost var was := fds;
      NoReadings(was, readable);
      StillOpen(fds);
      AllAreOpen(fds[1..]);
      for i := 1 to |fds|
        invariant |fds| == |was| && fds[0] == was[0] && DistinctOpen(fds) && OpenOrClosed(fds)
        invariant forall j :: i <= j < |fds| ==> fds[j] == was[j]
        invariant AllOpen(was[1..i])
        invariant steps == taken + Readings(was[1..i], readable) && LoopSteps(start, actions, steps)
        invariant OpenOnes(fds[1..]) == ClientRun(start, actions, steps)
        invariant JobsOf(steps) == JobsOf(taken) + jobs && FreshAccepts(used, steps)
      {
        NextReading(was, i, readable, taken);
        EntryOpen(was, i);
        if fds[i].armed && fds[i].fd in readable {
          ghost var fd := fds[i].fd;
          assert fds[1..][i - 1] == fds[i];
          OpenIn(fds[1..], i - 1);
          ReadingTaken(start, actions, used, steps, OpenOnes(fds[1..]), fd, readable[fd]);
          var more := ReceiveAt(i, readable[fds[i].fd]);
          assert JobsOf(taken) + jobs + more == JobsOf(taken) + (jobs + more);
          jobs := jobs + more;
          steps := steps + [ReceiveStep(fd, readable[fd])];
        }
      }
      assert was[1..|was|] == was[1..];
      EntryOpen(was, 0);
      OpenFirst(fds);
      OpenDistinct(fds);
      EraseClosed();
    }

    /** A lockdown that begins, and the pending actions: at most two steps of the
        protocol. */
    method BeginIteration(lockdown: bool) returns (ghost steps: seq<Step>)
      requires fds != [] && AllOpen(fds) && DistinctFds(fds)
      requires !Names(pendingActions, fds[0].fd, CloseClient)
      modifies this
      ensures fds != [] && fds[0].fd == old(fds)[0].fd && AllOpen(fds) && DistinctFds(fds) && pendingActions == []
      ensures forall e :: e in fds ==> exists i :: 0 <= i < |old(fds)| && old(fds)[i].fd == e.fd
      ensures steps == (if lockdown then [Step.DisconnectAll] else []) + [Batch]
      ensures LoopSteps(old(fds)[1..], old(pendingActions), steps)
      ensures fds[1..] == ClientRun(old(fds)[1..], old(pendingActions), steps)
      ensures JobsOf(steps) == []
    {
      hide ClientStep, Survivors, OpenOnes, Names, LoopSteps, ClientRun, JobsOf;
      ghost var start, actions := fds[1..], pendingActions;
      steps := [];
      NoStepsYet(start, actions);
      if lockdown {
        StepAppended(start, actions, steps, Step.DisconnectAll);
        steps := steps + [Step.DisconnectAll];
        DisconnectAll();
        DisconnectStep(start, actions);
      }
      ghost var before := fds;
      assert before[1..] == ClientRun(start, actions, steps);
      StepAppended(start, actions, steps, Batch);
      BatchStep(before[1..], actions);
      steps := steps + [Batch];
      ProcessPending();
      SurvivorsDistinct(before, actions);
      SurvivorsOpen(before, actions);
    }

    /** A new connection, armed: one step of the protocol. */
    method AcceptClient(fd: nat, ghost start: seq<PollEntry>, ghost actions: seq<ClientAction>, ghost taken: seq<Step>)
      returns (ghost steps: seq<Step>)
      requires fds != [] && AllOpen(fds) && DistinctFds(fds) && forall e :: e in fds ==> e.fd != fd
      requires LoopSteps(start, actions, taken) && fds[1..] == ClientRun(start, actions, taken)
      modifies this`fds
      ensures fds == old(fds) + [PollEntry(fd, true)] && AllOpen(fds) && DistinctFds(fds)
      ensures steps == taken + [Accept(fd)]
      ensures LoopSteps(start, actions, steps) && fds[1..] == ClientRun(start, actions, steps)
      ensures JobsOf(steps) == JobsOf(taken)
    {
      hide ClientStep, LoopSteps, ClientRun, JobsOf;
      AcceptStep(fds, actions, fd);
      StepAppended(start, actions, taken, Accept(fd));
      steps := taken + [Accept(fd)];
      fds := fds + [PollEntry(fd, true)];
    }

    /** One iteration of the event loop: a lockdown that begins, the pending actions, a
        new connection, and the receive loop, which does not read from the new one. The
        entries after the listener take steps of the protocol one after the other, and
        the loop is ready to go around. */
    method Iterate(lockdown: bool, accepted: Option<nat>, readable: map<int, Str>, ghost used: set<int>)
      returns (jobs: seq<Pool.Job>, ghost steps: seq<Step>)
      requires fds != [] && AllOpen(fds) && DistinctFds(fds)
      requires !Names(pendingActions, fds[0].fd, CloseClient)
      requires accepted.Some? ==> accepted.value !in readable && accepted.value !in used
      requires accepted.Some? ==> forall i :: 0 <= i < |fds| ==> fds[i].fd != accepted.value
      modifies this
      ensures fds != [] && fds[0].fd == old(fds)[0].fd && AllOpen(fds) && DistinctFds(fds) && pendingActions == []
      ensures LoopSteps(old(fds)[1..], old(pendingActions), steps)
      ensures fds[1..] == ClientRun(old(fds)[1..], old(pendingActions), steps)
      ensures jobs == JobsOf(steps) && FreshAccepts(used, steps)
      ensures var first := (if lockdown then [Step.DisconnectAll] else []) + [Batch]
                           + (if accepted.Some? then [Accept(accepted.value)] else []);
              var polled := ClientRun(old(fds)[1..], old(pendingActions), first);
              AllOpen(polled) && steps == first + Readings(polled, readable)
    {
      hide ClientStep, Survivors, OpenOnes, Names, LoopSteps, ClientRun, JobsOf, FreshAccepts;
      ghost var start, actions := fds[1..], pendingActions;
      steps := BeginIteration(lockdown);
      FirstSteps(used, lockdown);
      if accepted.Some? {
        FreshAppended(used, steps, Accept(accepted.value));
        steps := AcceptClient(accepted.value, start, actions, steps);
      }
      ghost var first := (if lockdown then [Step.DisconnectAll] else []) + [Batch]
                         + (if accepted.Some? then [Accept(accepted.value)] else []);
      assert steps == first && fds[1..] == ClientRun(start, actions, first);
      jobs, steps := ReceiveAll(readable, start, actions, used, steps);
    }
  }

  lemma NoReadings(fds: seq<PollEntry>, readable: map<int, Str>)
    requires fds != []
    ensures fds[1..1] == [] && AllOpen(fds[1..1]) && Readings(fds[1..1], readable) == []
  {
  }

  lemma NextReading(fds: seq<PollEntry>, i: nat, readable: map<int, Str>, taken: seq<Step>)
    requires AllOpen(fds) && 1 <= i < |fds|
    ensures AllOpen(fds[1..i]) && AllOpen(fds[1..i + 1])
    ensures taken + Readings(fds[1..i + 1], readable)
         == taken + Readings(fds[1..i], readable)
            + if fds[i].armed && fds[i].fd in readable then [ReceiveStep(fds[i].fd, readable[fds[i].fd])] else []
  {
    assert fds[1..i + 1][..i - 1] == fds[1..i];
  }

  lemma EntryOpen(fds: seq<PollEntry>, i: nat)
    requires AllOpen(fds) && i < |fds|
    ensures fds[i].fd >= 0
  {
  }

  lemma StillOpen(fds: seq<PollEntry>)
    requires fds != [] && AllOpen(fds) && DistinctFds(fds)
    ensures AllOpen(fds[1..]) && DistinctOpen(fds) && OpenOrClosed(fds)
  {
  }

  /** A reading continues the steps taken so far. */
  lemma ReadingTaken(start: seq<PollEntry>, actions: seq<ClientAction>, used: set<int>, steps: seq<Step>,
                     clients: seq<PollEntry>, fd: nat, data: Str)
    requires LoopSteps(start, actions, steps) && FreshAccepts(used, steps)
    requires clients == ClientRun(start, actions, steps) && PollEntry(fd, true) in clients
    ensures var (step, more) := (ReceiveStep(fd, data), steps + [ReceiveStep(fd, data)]);
            && LoopSteps(start, actions, more) && FreshAccepts(used, more)
            && ClientRun(start, actions, more) == ClientStep(clients, [], step)
            && JobsOf(more) == JobsOf(steps) + if data == [] then [] else [Pool.Job(fd, data)]
  {
    hide ClientStep, LoopSteps, FreshAccepts, ClientRun, JobsOf, ClientEnabled;
    ReceiveIgnoresActions(clients, actions, fd, data);
    StepAppended(start, actions, steps, ReceiveStep(fd, data));
    FreshAppended(used, steps, ReceiveStep(fd, data));
  }

  lemma DistinctTail(fds: seq<PollEntry>)
    requires fds != [] && DistinctOpen(fds)
    ensures DistinctOpen(fds[1..])
  {
  }

  lemma ClosedEntry(fds: seq<PollEntry>, i: nat)
    requires 1 <= i < |fds| && fds[i].fd >= 0 && DistinctOpen(fds) && OpenOrClosed(fds)
    ensures var now := fds[i := fds[i].(fd := CLOSED)];
            && DistinctOpen(now) && OpenOrClosed(now)
            && OpenOnes(now[1..]) == ClientStep(OpenOnes(fds[1..]), [], ReceiveStep(fds[i].fd, []))
  {
    hide OpenOnes, Remove;
    var now := fds[i := fds[i].(fd := CLOSED)];
    DistinctTail(fds);
    CloseIsRemove(fds[1..], i - 1);
    assert now[1..] == fds[1..][i - 1 := now[i]];
  }

  lemma DisarmedEntry(fds: seq<PollEntry>, i: nat, data: Str)
    requires 1 <= i < |fds| && fds[i].fd >= 0 && DistinctOpen(fds) && OpenOrClosed(fds)
    ensures var now := fds[i := fds[i].(armed := false)];
            && DistinctOpen(now) && OpenOrClosed(now)
            && (data != [] ==>
                  OpenOnes(now[1..]) == ClientStep(OpenOnes(fds[1..]), [], ReceiveStep(fds[i].fd, data)))
  {
    hide OpenOnes, Suspend;
    var now := fds[i := fds[i].(armed := false)];
    DistinctTail(fds);
    DisarmIsSuspend(fds[1..], i - 1);
    assert now[1..] == fds[1..][i - 1 := now[i]];
  }

  lemma FirstSteps(used: set<int>, lockdown: bool)
    ensures var steps := (if lockdown then [Step.DisconnectAll] else []) + [Batch];
            FreshAccepts(used, steps) && AcceptedBy(steps) == {}
  {
    var first := if lockdown then [Step.DisconnectAll] else [];
    assert FreshAccepts(used, []) && AcceptedBy([]) == {};
    if lockdown {
      FreshAppended(used, [], Step.DisconnectAll);
    }
    assert [] + first == first;
    FreshAppended(used, first, Batch);
  }

  lemma NoStepsYet(start: seq<PollEntry>, actions: seq<ClientAction>)
    ensures LoopSteps(start, actions, []) && ClientRun(start, actions, []) == start && JobsOf([]) == []
  {
  }

  lemma DisconnectStep(clients: seq<PollEntry>, actions: seq<ClientAction>)
    ensures ClientStep(clients, actions, Step.DisconnectAll) == []
  {
  }

  lemma BatchStep(clients: seq<PollEntry>, actions: seq<ClientAction>)
    ensures ClientStep(clients, actions, Batch) == Survivors(clients, actions)
  {
  }

  lemma AcceptStep(fds: seq<PollEntry>, actions: seq<ClientAction>, fd: nat)
    requires fds != [] && DistinctFds(fds) && AllOpen(fds) && forall e :: e in fds ==> e.fd != fd
    ensures var now := fds + [PollEntry(fd, true)];
            && now[1..] == ClientStep(fds[1..], actions, Accept(fd)) && now[0] == fds[0]
            && DistinctFds(now) && AllOpen(now)
    ensures ClientEnabled(fds[1..], Accept(fd))
  {
    forall e | e in fds[1..]
      ensures e in fds
    {
    }
  }

  lemma SurvivorsOpen(fds: seq<PollEntry>, actions: seq<ClientAction>)
    requires AllOpen(fds) && DistinctFds(fds)
    ensures AllOpen(Survivors(fds, actions))
    ensures forall e :: e in Survivors(fds, actions) ==> exists i :: 0 <= i < |fds| && fds[i].fd == e.fd
  {
    hide Survivors;
    SurvivorsDistinct(fds, actions);
    forall e | e in Survivors(fds, actions)
      ensures exists i :: 0 <= i < |fds| && fds[i].fd == e.fd
    {
      if PollEntry(e.fd, true) in fds {
        var i :| 0 <= i < |fds| && fds[i] == PollEntry(e.fd, true);
        assert fds[i].fd == e.fd;
      } else {
        var i :| 0 <= i < |fds| && fds[i] == PollEntry(e.fd, false);
        assert fds[i].fd == e.fd;
      }
    }
    forall k | 0 <= k < |Survivors(fds, actions)|
      ensures Survivors(fds, actions)[k].fd >= 0
    {
      assert Survivors(fds, actions)[k] in Survivors(fds, actions);
    }
  }

  lemma ReceiveIgnoresActions(clients: seq<PollEntry>, actions: seq<ClientAction>, fd: nat, data: Str)
    ensures ClientStep(clients, actions, ReceiveStep(fd, data)) == ClientStep(clients, [], ReceiveStep(fd, data))
    ensures PollEntry(fd, true) in clients ==> ClientEnabled(clients, ReceiveStep(fd, data))
  {
  }

  ghost predicate OpenOrClosed(fds: seq<PollEntry>) {
    forall i :: 0 <= i < |fds| ==> fds[i].fd == CLOSED || fds[i].fd >= 0
  }

  lemma OpenEnds(fds: seq<PollEntry>)
    ensures fds == [] ==> OpenOnes(fds) == []
    ensures fds != [] ==> var last := |fds| - 1;
                          OpenOnes(fds) == OpenOnes(fds[..last]) + if fds[last].fd == CLOSED then [] else [fds[last]]
  {
  }

  lemma {:induction false} AllAreOpen(fds: seq<PollEntry>)
    requires AllOpen(fds)
    ensures OpenOnes(fds) == fds
  {
    hide OpenOnes;
    OpenEnds(fds);
    if fds != [] {
      AllAreOpen(fds[..|fds| - 1]);
      assert fds == fds[..|fds| - 1] + [fds[|fds| - 1]];
    }
  }

  lemma {:induction false} OpenIn(fds: seq<PollEntry>, i: nat)
    requires i < |fds| && fds[i].fd != CLOSED
    ensures fds[i] in OpenOnes(fds)
  {
    if i < |fds| - 1 {
      OpenIn(fds[..|fds| - 1], i);
    }
  }

  lemma {:induction false} OpenFirst(fds: seq<PollEntry>)
    requires fds != [] && fds[0].fd != CLOSED
    ensures OpenOnes(fds) == [fds[0]] + OpenOnes(fds[1..])
  {
    hide OpenOnes;
    var last := |fds| - 1;
    OpenEnds(fds);
    OpenEnds(fds[1..]);
    if last == 0 {
      assert fds[..0] == [] && fds[1..] == [];
      OpenEnds(fds[..0]);
    } else {
      OpenFirst(fds[..last]);
      assert fds[1..][..last - 1] == fds[..last][1..];
    }
  }

  lemma {:induction false} OpenDistinct(fds: seq<PollEntry>)
    requires DistinctOpen(fds) && OpenOrClosed(fds)
    ensures DistinctFds(OpenOnes(fds)) && AllOpen(OpenOnes(fds))
    ensures forall e :: e in OpenOnes(fds) ==> e in fds
  {
    if fds != [] {
      var last := |fds| - 1;
      OpenDistinct(fds[..last]);
      assert fds == fds[..last] + [fds[last]];
      assert forall e :: e in fds[..last] && e.fd != CLOSED ==> e.fd != fds[last].fd;
    }
  }

  /** Entries closed in this pass aside, no descriptor occurs twice. */
  ghost predicate DistinctOpen(fds: seq<PollEntry>) {
    forall i, j :: 0 <= i < j < |fds| && fds[i].fd != CLOSED ==> fds[i].fd != fds[j].fd
  }

  lemma {:induction false} RemoveAbsent(fds: seq<PollEntry>, fd: int)
    requires fd != CLOSED && forall i :: 0 <= i < |fds| ==> fds[i].fd != fd
    ensures Remove(OpenOnes(fds), fd) == OpenOnes(fds) && Suspend(OpenOnes(fds), fd) == OpenOnes(fds)
  {
    if fds != [] {
      RemoveAbsent(fds[..|fds| - 1], fd);
      OpenLast(fds, fd);
    }
  }

  /** How the open entries, their removal and their suspension grow with the last entry. */
  lemma OpenLast(fds: seq<PollEntry>, fd: int)
    requires fds != []
    ensures var (before, e) := (OpenOnes(fds[..|fds| - 1]), fds[|fds| - 1]);
            var kept := if e.fd == CLOSED then [] else [e];
            && OpenOnes(fds) == before + kept
            && Remove(OpenOnes(fds), fd) == Remove(before, fd) + (if e.fd == fd then [] else kept)
            && Suspend(OpenOnes(fds), fd) == Suspend(before, fd) + Suspend(kept, fd)
  {
    hide Remove, Suspend;
    var before, e := OpenOnes(fds[..|fds| - 1]), fds[|fds| - 1];
    assert before + [] == before;
    SuspendConcat(before, if e.fd == CLOSED then [] else [e], fd);
    RemoveAppended(before, e, fd);
  }

  lemma SuspendConcat(a: seq<PollEntry>, b: seq<PollEntry>, fd: int)
    ensures Suspend(a + b, fd) == Suspend(a, fd) + Suspend(b, fd)
  {
  }

  lemma RemoveAppended(fds: seq<PollEntry>, e: PollEntry, fd: int)
    ensures Remove(fds + [e], fd) == Remove(fds, fd) + if e.fd == fd then [] else [e]
  {
    assert (fds + [e])[..|fds|] == fds;
  }

  lemma {:induction false} CloseIsRemove(fds: seq<PollEntry>, i: nat)
    requires i < |fds| && fds[i].fd != CLOSED && DistinctOpen(fds)
    ensures OpenOnes(fds[i := fds[i].(fd := CLOSED)]) == Remove(OpenOnes(fds), fds[i].fd)
  {
    hide Remove, Suspend;
    var last, fd := |fds| - 1, fds[i].fd;
    var closed := fds[i := fds[i].(fd := CLOSED)];
    OpenLast(fds, fd);
    if i == last {
      assert closed[..last] == fds[..last];
      RemoveAbsent(fds[..last], fd);
    } else {
      assert closed[..last] == fds[..last][i := fds[i].(fd := CLOSED)];
      CloseIsRemove(fds[..last], i);
    }
  }

  lemma {:induction false} DisarmIsSuspend(fds: seq<PollEntry>, i: nat)
    requires i < |fds| && fds[i].fd != CLOSED && DistinctOpen(fds)
    ensures OpenOnes(fds[i := fds[i].(armed := false)]) == Suspend(OpenOnes(fds), fds[i].fd)
  {
    hide Remove;
    var last, fd := |fds| - 1, fds[i].fd;
    var disarmed := fds[i := fds[i].(armed := false)];
    OpenLast(fds, fd);
    if i == last {
      assert disarmed[..last] == fds[..last];
      RemoveAbsent(fds[..last], fd);
    } else {
      assert disarmed[..last] == fds[..last][i := fds[i].(armed := false)];
      DisarmIsSuspend(fds[..last], i);
    }
  }

  lemma ProcessedNext(before: PollEntry, was: PollEntry, actions: seq<ClientAction>, a: nat)
    requires a < |actions| && was.fd >= 0 && IsProcessed(before, was, actions[..a])
    ensures var now := if before.fd != actions[a].fd then before
                       else if actions[a].kind == CloseClient then before.(fd := CLOSED)
                       else before.(armed := true);
            IsProcessed(now, was, actions[..a + 1])
  {
    hide Names;
    assert actions[..a + 1][..a] == actions[..a];
    NamesLast(actions[..a + 1], was.fd, CloseClient);
    NamesLast(actions[..a + 1], was.fd, EnablePolling);
  }
}
