/** What becomes of a connection over whole runs of the server: the action its handler
    posts decides whether it is polled again, and its chunks are answered in order. */
module Outcome {
  import opened Bytes
  import opened Server
  import Pool

  // ---- From a handler's action to the next batch ----

  /** Until the next batch nothing but a stray close adds an action for the connection,
      and nothing but a lockdown takes it off the poll entries. */
  lemma WaitingStep(s: State, step: Step, fd: nat)
    requires Inv(s) && HandlerActions(s.pending, fd) > 0 && Enabled(s, step) && step != Batch
    ensures var t := Apply(s, step);
            && HandlerActions(t.pending, fd) > 0
            && (forall armed :: PollEntry(fd, armed) in t.clients
                           <==> PollEntry(fd, armed) in s.clients && step != Step.DisconnectAll)
            && (forall kind :: Names(ActionsOf(t.pending), fd, kind)
                          <==> Names(ActionsOf(s.pending), fd, kind)
                               || (kind == CloseClient && step == StrayClose(fd)))
  {
    hide Pool.Inv, Names, OfConn, DistinctFds, InFlight, HandlerActions, Suspend, Remove, Survivors;
    var t := Apply(s, step);
    assert Serial(s, fd);
    match step
    case Accept(f) =>
      assert f != fd;
    case Receive(f, _) =>
      SuspendIn(s.clients, f, fd, true);
      SuspendIn(s.clients, f, fd, false);
    case HangUp(f) =>
      RemoveIn(s.clients, f, PollEntry(fd, true));
      RemoveIn(s.clients, f, PollEntry(fd, false));
    case StrayClose(f) =>
      PendingAppended(s.pending, Posted(ClientAction(f, CloseClient), false), fd);
    case Post(w, kind) =>
      var job := s.pool.workers[w].job;
      PostEffect(s, step, fd);
      OfConnOne(job, fd);
      PendingAppended(s.pending, Posted(ClientAction(job.fd, kind), true), fd);
    case _ =>
  }

  lemma PendingAppended(pending: seq<Posted>, p: Posted, fd: int)
    ensures HandlerActions(pending + [p], fd)
         == HandlerActions(pending, fd) + if p.byHandler && p.action.fd == fd then 1 else 0
    ensures forall kind :: Names(ActionsOf(pending + [p]), fd, kind)
                      <==> Names(ActionsOf(pending), fd, kind) || (p.action.fd == fd && p.action.kind == kind)
  {
    hide Names;
    ActionsAppended(pending, p, fd);
    var now := ActionsOf(pending + [p]);
    assert now == ActionsOf(pending) + [p.action];
    forall kind
      ensures Names(now, fd, kind)
         <==> Names(ActionsOf(pending), fd, kind) || (p.action.fd == fd && p.action.kind == kind)
    {
      NamesLast(now, fd, kind);
      assert now[..|now| - 1] == ActionsOf(pending);
    }
  }

  /** The posting itself. */
  lemma PostingStep(s: State, w: nat, kind: ActionType)
    requires Inv(s) && Enabled(s, Post(w, kind))
    ensures var (fd, t) := (s.pool.workers[w].job.fd, Apply(s, Post(w, kind)));
            && HandlerActions(t.pending, fd) > 0 && t.clients == s.clients
            && (Names(ActionsOf(t.pending), fd, EnablePolling) <==> kind == EnablePolling)
            && (Names(ActionsOf(t.pending), fd, CloseClient)
                <==> kind == CloseClient || Names(ActionsOf(s.pending), fd, CloseClient))
  {
    hide Pool.Inv, Names, OfConn, DistinctFds, InFlight, HandlerActions;
    var job := s.pool.workers[w].job;
    assert Serial(s, job.fd);
    PostEffect(s, Post(w, kind), job.fd);
    OfConnOne(job, job.fd);
    HandlerActionsNamed(s.pending, job.fd);
    PendingAppended(s.pending, Posted(ClientAction(job.fd, kind), true), job.fd);
  }

  /** The batch re-arms the connection, or drops it when a close names it. */
  lemma BatchDecides(s: State, fd: nat)
    requires Inv(s) && HandlerActions(s.pending, fd) > 0
    ensures var t := Apply(s, Batch);
            var keeps := Polled(s.clients, fd) && !Names(ActionsOf(s.pending), fd, CloseClient);
            && (PollEntry(fd, true) in t.clients <==> keeps)
            && PollEntry(fd, false) !in t.clients
  {
    hide Pool.Inv, Names, OfConn, DistinctFds, InFlight, HandlerActions, Survivors, ActionsOf;
    assert Serial(s, fd);
    HandlerActionsNamed(s.pending, fd);
    SurvivorIn(s.clients, ActionsOf(s.pending), fd, true);
    SurvivorIn(s.clients, ActionsOf(s.pending), fd, false);
  }

  /** What is known between the posting and the batch. */
  ghost predicate Waiting(states: seq<State>, steps: seq<Step>, i: nat, fd: nat, kind: ActionType)
    requires |states| > i && |steps| >= i
  {
    && Inv(states[i]) && HandlerActions(states[i].pending, fd) > 0
    && (Polled(states[i].clients, fd) <==> Polled(states[0].clients, fd) && Step.DisconnectAll !in steps[..i])
    && (Names(ActionsOf(states[i].pending), fd, CloseClient)
        <==> || kind == CloseClient
             || Names(ActionsOf(states[0].pending), fd, CloseClient)
             || StrayClose(fd) in steps[..i])
  }

  lemma {:induction false} WaitingKept(states: seq<State>, steps: seq<Step>, i: nat, w: nat, kind: ActionType, fd: nat)
    requires Run(states, steps) && Inv(states[0]) && 0 < i <= |steps|
    requires steps[0] == Post(w, kind) && Posts(states[0], w, fd) && Batch !in steps[..i]
    ensures Waiting(states, steps, i, fd, kind)
  {
    hide Inv, Names, HandlerActions, Apply, Enabled;
    var s, step := states[i - 1], steps[i - 1];
    assert Steps(s, step, states[i]);
    assert steps[..i] == steps[..i - 1] + [step];
    if i == 1 {
      PostingStep(s, w, kind);
    } else {
      WaitingKept(states, steps, i - 1, w, kind, fd);
      WaitingStep(s, step, fd);
    }
    StepInv(s, step);
  }

  lemma StepInv(s: State, step: Step)
    requires Inv(s) && Enabled(s, step)
    ensures Inv(Apply(s, step))
  {
    StepKeeps(s, step);
  }

  /** Worker `w` runs a handler of the connection. */
  ghost predicate Posts(s: State, w: nat, fd: nat) {
    w < |s.pool.workers| && s.pool.workers[w].Running? && s.pool.workers[w].job.fd == fd
  }

  /** When a handler posts its action, then at the next batch its connection, if it was
      polled, is armed again exactly when the action enables polling, no close of the
      connection was pending or came in, and no lockdown began. Otherwise it is not
      polled any more. */
  lemma PostedDecides(states: seq<State>, steps: seq<Step>, n: nat, w: nat, kind: ActionType, fd: nat)
    requires Run(states, steps) && Inv(states[0]) && 0 < n < |steps|
    requires steps[0] == Post(w, kind) && Posts(states[0], w, fd)
    requires steps[n] == Batch && Batch !in steps[..n]
    ensures var kept := && kind == EnablePolling
                        && !Names(ActionsOf(states[0].pending), fd, CloseClient) && StrayClose(fd) !in steps[..n]
                        && Polled(states[0].clients, fd) && Step.DisconnectAll !in steps[..n];
            && (PollEntry(fd, true) in states[n + 1].clients <==> kept)
            && PollEntry(fd, false) !in states[n + 1].clients
  {
    hide Inv, Names, HandlerActions, Apply, Enabled;
    WaitingKept(states, steps, n, w, kind, fd);
    assert Steps(states[n], steps[n], states[n + 1]);
    BatchDecides(states[n], fd);
  }

  // ---- The chunks of a connection ----

  /** The chunks received from a connection. */
  function ChunksOf(steps: seq<Step>, fd: int): seq<Str> {
    if steps == [] then []
    else
      var last := steps[|steps| - 1];
      ChunksOf(steps[..|steps| - 1], fd) + if last.Receive? && last.fd == fd then [last.data] else []
  }

  function DataOf(jobs: seq<Pool.Job>): (chunks: seq<Str>)
    ensures |chunks| == |jobs|
  {
    seq(|jobs|, i requires 0 <= i < |jobs| => jobs[i].data)
  }

  /** What a step adds to the jobs of a connection. */
  lemma AcceptedStep(s: State, step: Step, fd: int)
    requires Enabled(s, step) && !s.pool.stop
    ensures OfConn(Apply(s, step).pool.accepted, fd)
         == OfConn(s.pool.accepted, fd)
            + if step.Receive? && step.fd == fd then [Pool.Job(step.fd, step.data)] else []
  {
    hide OfConn, ClientStep;
    if step.Receive? {
      var job := Pool.Job(step.fd, step.data);
      OfConnConcat(s.pool.accepted, [job], fd);
      OfConnOne(job, fd);
    } else {
      assert OfConn(s.pool.accepted, fd) + [] == OfConn(s.pool.accepted, fd);
    }
  }

  /** In every run the jobs accepted for a connection hold exactly the chunks received
      from it, in order. */
  lemma {:induction false} ChunksAccepted(threads: nat, states: seq<State>, steps: seq<Step>, n: nat, fd: int)
    requires Run(states, steps) && states[0] == Init(threads) && n < |states|
    ensures DataOf(OfConn(states[n].pool.accepted, fd)) == ChunksOf(steps[..n], fd)
  {
    hide OfConn, Apply, Enabled, Inv;
    if n == 0 {
      NoJobs(fd);
    } else {
      var s, step := states[n - 1], steps[n - 1];
      ChunksAccepted(threads, states, steps, n - 1, fd);
      assert Steps(s, step, states[n]);
      RunSerial(threads, states, steps, n - 1);
      SaneFrom(s);
      AcceptedStep(s, step, fd);
      assert steps[..n][..n - 1] == steps[..n - 1];
    }
  }

  lemma NoJobs(fd: int)
    ensures OfConn([], fd) == []
  {
  }

  /** So the chunks answered are the first ones received, all but at most the last. */
  lemma ChunksAnswered(threads: nat, states: seq<State>, steps: seq<Step>, n: nat, fd: int)
    requires Run(states, steps) && states[0] == Init(threads) && n < |states|
    ensures DataOf(OfConn(states[n].replied, fd)) <= ChunksOf(steps[..n], fd)
    ensures |ChunksOf(steps[..n], fd)| <= |OfConn(states[n].replied, fd)| + 1
  {
    hide OfConn, Inv;
    RunSerial(threads, states, steps, n);
    AnsweredInOrder(states[n], fd);
    ChunksAccepted(threads, states, steps, n, fd);
  }
}
