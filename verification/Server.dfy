/** The event loop: poll entries, the queue of client actions, and the pool that runs
    the data handlers. */
module Server {
  import opened Bytes
  import Pool

  /** A `pollfd`: `armed` when its events are POLLIN, not when they are 0. */
  datatype PollEntry = PollEntry(fd: int, armed: bool)

  datatype ActionType = CloseClient | EnablePolling

  datatype ClientAction = ClientAction(fd: nat, kind: ActionType)

  // ---- The meaning of a batch of actions ----

  ghost predicate Names(actions: seq<ClientAction>, fd: int, kind: ActionType) {
    exists k :: 0 <= k < |actions| && actions[k].fd == fd && actions[k].kind == kind
  }

  ghost function Rearmed(e: PollEntry, actions: seq<ClientAction>): PollEntry {
    e.(armed := e.armed || Names(actions, e.fd, EnablePolling))
  }

  /** The entries no close action names, in order, armed if they were or an enable action
      names them. */
  ghost function Survivors(fds: seq<PollEntry>, actions: seq<ClientAction>): seq<PollEntry> {
    if fds == [] then []
    else
      var last := fds[|fds| - 1];
      Survivors(fds[..|fds| - 1], actions)
      + if Names(actions, last.fd, CloseClient) then [] else [Rearmed(last, actions)]
  }

  lemma {:induction false} SurvivorIn(fds: seq<PollEntry>, actions: seq<ClientAction>, fd: int, armed: bool)
    ensures PollEntry(fd, armed) in Survivors(fds, actions)
       <==> !Names(actions, fd, CloseClient)
            && exists before :: PollEntry(fd, before) in fds && armed == (before || Names(actions, fd, EnablePolling))
  {
    hide Names;
    if fds != [] {
      var last := |fds| - 1;
      SurvivorIn(fds[..last], actions, fd, armed);
      assert forall before :: PollEntry(fd, before) in fds
                         <==> PollEntry(fd, before) in fds[..last] || PollEntry(fd, before) == fds[last] by {
        assert fds == fds[..last] + [fds[last]];
      }
    }
  }

  /** The first entry stays in place when no action closes it. */
  lemma {:induction false} FirstStays(fds: seq<PollEntry>, actions: seq<ClientAction>)
    requires fds != [] && !Names(actions, fds[0].fd, CloseClient)
    ensures Survivors(fds, actions) != [] && Survivors(fds, actions)[0] == Rearmed(fds[0], actions)
    ensures Survivors(fds, actions)[1..] == Survivors(fds[1..], actions)
  {
    hide Names, Rearmed, Survivors;
    var last := |fds| - 1;
    SurvivorsLast(fds, actions);
    if last == 0 {
      assert fds[..0] == [] && fds[1..] == [];
      NoSurvivors(actions);
    } else {
      FirstStays(fds[..last], actions);
      SurvivorsLast(fds[1..], actions);
      assert fds[1..][..last - 1] == fds[..last][1..];
    }
  }

  lemma NoSurvivors(actions: seq<ClientAction>)
    ensures Survivors([], actions) == []
  {
  }

  lemma SurvivorsLast(fds: seq<PollEntry>, actions: seq<ClientAction>)
    requires fds != []
    ensures var last := |fds| - 1;
            Survivors(fds, actions)
            == Survivors(fds[..last], actions)
               + if Names(actions, fds[last].fd, CloseClient) then [] else [Rearmed(fds[last], actions)]
  {
    hide Names, Rearmed;
  }

  ghost predicate DistinctFds(fds: seq<PollEntry>) {
    forall i, j :: 0 <= i < j < |fds| ==> fds[i].fd != fds[j].fd
  }

  lemma DistinctLast(fds: seq<PollEntry>)
    requires fds != [] && DistinctFds(fds)
    ensures var last := |fds| - 1;
            && DistinctFds(fds[..last]) && fds[last] in fds
            && (forall e :: e in fds[..last] ==> e in fds && e.fd != fds[last].fd)
  {
  }

  lemma DistinctAppended(fds: seq<PollEntry>, e: PollEntry)
    requires DistinctFds(fds) && forall x :: x in fds ==> x.fd != e.fd
    ensures DistinctFds(fds + [e])
  {
  }

  /** The entry of a descriptor, armed or not. */
  ghost predicate Polled(fds: seq<PollEntry>, fd: int) {
    PollEntry(fd, true) in fds || PollEntry(fd, false) in fds
  }

  lemma {:induction false} SurvivorsDistinct(fds: seq<PollEntry>, actions: seq<ClientAction>)
    requires DistinctFds(fds)
    ensures DistinctFds(Survivors(fds, actions))
    ensures forall e :: e in Survivors(fds, actions) ==> Polled(fds, e.fd)
  {
    hide Names, DistinctFds;
    if fds == [] {
      assert DistinctFds([]) by { NoneDistinct(); }
    } else {
      var last := |fds| - 1;
      DistinctLast(fds);
      SurvivorsDistinct(fds[..last], actions);
      var before := Survivors(fds[..last], actions);
      var e := Rearmed(fds[last], actions);
      assert fds[last] == PollEntry(e.fd, fds[last].armed);
      if !Names(actions, fds[last].fd, CloseClient) {
        DistinctAppended(before, e);
      } else {
        assert before + [] == before;
      }
    }
  }

  lemma NoneDistinct()
    ensures DistinctFds([])
  {
  }

  // ---- The protocol ----

  /** A queued action; `byHandler` tells the one posted by the handler of the
      connection's data from those of the log and broadcast code. */
  datatype Posted = Posted(action: ClientAction, byHandler: bool)

  /** `clients` are the poll entries after the listener's. `answered` holds the workers
      whose handler has posted its action but not returned yet, `replied` the jobs whose
      handler has posted, in that order, and `used` every descriptor ever accepted. */
  datatype State = State(clients: seq<PollEntry>, pending: seq<Posted>, pool: Pool.State,
                         answered: set<nat>, replied: seq<Pool.Job>, used: set<int>)

  function Init(threads: nat): State {
    State([], [], Pool.Init(threads), {}, [], {})
  }

  /** One pass over the pending actions, a return of `accept` or `recv`, a lockdown, one
      posted action, the return of a handler, or a step of the pool. */
  datatype Step =
    | Accept(fd: nat)
    | Receive(fd: nat, data: Str)
    | HangUp(fd: nat)
    | Batch
    | DisconnectAll
    | StrayClose(fd: nat)
    | Post(w: nat, kind: ActionType)
    | Return(w: nat)
    | Internal(step: Pool.Step)

  predicate Enabled(s: State, step: Step) {
    match step
    case Accept(fd) => fd !in s.used
    case Receive(fd, data) => PollEntry(fd, true) in s.clients && data != []
    case HangUp(fd) => PollEntry(fd, true) in s.clients
    case Batch => true
    case DisconnectAll => true
    case StrayClose(fd) => fd in s.used
    case Post(w, _) => w < |s.pool.workers| && s.pool.workers[w].Running? && w !in s.answered
    case Return(w) => w in s.answered && Pool.Enabled(s.pool, Pool.Finish(w))
    case Internal(p) => (p.NotifyOne? || p.NotifyNobody? || p.Wake? || p.Enter?) && Pool.Enabled(s.pool, p)
  }

  function ActionsOf(pending: seq<Posted>): (actions: seq<ClientAction>)
    ensures |actions| == |pending|
  {
    seq(|pending|, i requires 0 <= i < |pending| => pending[i].action)
  }

  function Suspend(fds: seq<PollEntry>, fd: int): (r: seq<PollEntry>)
    ensures |r| == |fds|
  {
    seq(|fds|, i requires 0 <= i < |fds| => if fds[i].fd == fd then fds[i].(armed := false) else fds[i])
  }

  function Remove(fds: seq<PollEntry>, fd: int): seq<PollEntry> {
    if fds == [] then []
    else Remove(fds[..|fds| - 1], fd) + if fds[|fds| - 1].fd == fd then [] else [fds[|fds| - 1]]
  }

  /** What a step of the event loop does to the clients. */
  ghost function ClientStep(clients: seq<PollEntry>, actions: seq<ClientAction>, step: Step): seq<PollEntry> {
    match step
    case Accept(fd) => clients + [PollEntry(fd, true)]
    case Receive(fd, _) => Suspend(clients, fd)
    case HangUp(fd) => Remove(clients, fd)
    case Batch => Survivors(clients, actions)
    case DisconnectAll => []
    case _ => clients
  }

  ghost function Apply(s: State, step: Step): State
    requires Enabled(s, step)
  {
    match step
    case Accept(fd) => s.(clients := ClientStep(s.clients, [], step), used := s.used + {fd})
    case Receive(fd, data) =>
      s.(clients := ClientStep(s.clients, [], step), pool := Pool.Apply(s.pool, Pool.Enqueue(Pool.Job(fd, data))))
    case HangUp(_) => s.(clients := ClientStep(s.clients, [], step))
    case Batch => s.(clients := ClientStep(s.clients, ActionsOf(s.pending), step), pending := [])
    case DisconnectAll => s.(clients := ClientStep(s.clients, [], step))
    case StrayClose(fd) => s.(pending := s.pending + [Posted(ClientAction(fd, CloseClient), false)])
    case Post(w, kind) =>
      var job := s.pool.workers[w].job;
      s.(pending := s.pending + [Posted(ClientAction(job.fd, kind), true)],
         answered := s.answered + {w},
         replied := s.replied + [job])
    case Return(w) => s.(answered := s.answered - {w}, pool := Pool.Apply(s.pool, Pool.Finish(w)))
    case Internal(p) => s.(pool := Pool.Apply(s.pool, p))
  }

  // ---- The work outstanding for a connection ----

  /** The jobs of one connection, in order. */
  function OfConn(jobs: seq<Pool.Job>, fd: int): seq<Pool.Job> {
    if jobs == [] then []
    else OfConn(jobs[..|jobs| - 1], fd) + if jobs[|jobs| - 1].fd == fd then [jobs[|jobs| - 1]] else []
  }

  lemma {:induction false} OfConnConcat(a: seq<Pool.Job>, b: seq<Pool.Job>, fd: int)
    ensures OfConn(a + b, fd) == OfConn(a, fd) + OfConn(b, fd)
  {
    if b == [] {
      assert a + b == a;
    } else {
      var last := |b| - 1;
      OfConnConcat(a, b[..last], fd);
      assert (a + b)[..|a + b| - 1] == a + b[..last];
    }
  }

  lemma OfConnOne(job: Pool.Job, fd: int)
    ensures OfConn([job], fd) == if job.fd == fd then [job] else []
  {
    assert [job][..0] == [];
  }

  /** What worker `w` holds of the connection: the job of a handler that has not posted. */
  function Holds(workers: seq<Pool.Worker>, answered: set<nat>, fd: int, w: nat): seq<Pool.Job>
    requires w < |workers|
  {
    if workers[w].Running? && w !in answered && workers[w].job.fd == fd then [workers[w].job] else []
  }

  /** What the first `n` workers hold. */
  function Held(workers: seq<Pool.Worker>, answered: set<nat>, fd: int, n: nat): seq<Pool.Job>
    requires n <= |workers|
  {
    if n == 0 then [] else Held(workers, answered, fd, n - 1) + Holds(workers, answered, fd, n - 1)
  }

  /** Changing what one worker holds replaces its part. */
  lemma {:induction false} HeldReplace(workers: seq<Pool.Worker>, answered: set<nat>, workers': seq<Pool.Worker>,
                                       answered': set<nat>, fd: int, w: nat, n: nat)
      returns (before: seq<Pool.Job>, after: seq<Pool.Job>)
    requires w < n <= |workers| == |workers'|
    requires forall i :: 0 <= i < n && i != w ==> Holds(workers, answered, fd, i) == Holds(workers', answered', fd, i)
    ensures Held(workers, answered, fd, n) == before + Holds(workers, answered, fd, w) + after
    ensures Held(workers', answered', fd, n) == before + Holds(workers', answered', fd, w) + after
  {
    hide Holds;
    if w == n - 1 {
      HeldSame(workers, answered, workers', answered', fd, w);
      before, after := Held(workers, answered, fd, w), [];
    } else {
      before, after := HeldReplace(workers, answered, workers', answered', fd, w, n - 1);
      after := after + Holds(workers, answered, fd, n - 1);
    }
  }

  lemma {:induction false} HeldSame(workers: seq<Pool.Worker>, answered: set<nat>, workers': seq<Pool.Worker>,
                                    answered': set<nat>, fd: int, n: nat)
    requires n <= |workers| == |workers'|
    requires forall i :: 0 <= i < n ==> Holds(workers, answered, fd, i) == Holds(workers', answered', fd, i)
    ensures Held(workers, answered, fd, n) == Held(workers', answered', fd, n)
  {
    hide Holds;
    if n != 0 {
      HeldSame(workers, answered, workers', answered', fd, n - 1);
    }
  }

  /** Jobs of the connection in a handler that has not posted, then those queued. */
  function InFlight(s: State, fd: int): seq<Pool.Job> {
    Held(s.pool.workers, s.answered, fd, |s.pool.workers|) + OfConn(s.pool.tasks, fd)
  }

  /** Actions posted by handlers of the connection and not yet processed. */
  function HandlerActions(pending: seq<Posted>, fd: int): nat {
    if pending == [] then 0
    else
      var last := pending[|pending| - 1];
      HandlerActions(pending[..|pending| - 1], fd) + if last.byHandler && last.action.fd == fd then 1 else 0
  }

  function Outstanding(s: State, fd: int): nat {
    |InFlight(s, fd)| + HandlerActions(s.pending, fd)
  }

  /** An armed connection has no work outstanding, a suspended one has exactly one of: a
      queued job, a handler that has not posted, an action posted by its handler. Jobs
      are answered one at a time, in the order their data was received. */
  ghost predicate Serial(s: State, fd: int) {
    && (PollEntry(fd, true) in s.clients ==> Outstanding(s, fd) == 0)
    && (PollEntry(fd, false) in s.clients ==> Outstanding(s, fd) == 1)
    && Outstanding(s, fd) <= 1
    && (Outstanding(s, fd) > 0 ==> fd in s.used)
    && OfConn(s.pool.accepted, fd) == OfConn(s.replied, fd) + InFlight(s, fd)
  }

  ghost predicate Sane(s: State) {
    && DistinctFds(s.clients)
    && (forall e :: e in s.clients ==> e.fd in s.used)
    && (forall w :: w in s.answered ==> w < |s.pool.workers| && s.pool.workers[w].Running?)
    && (forall k :: 0 <= k < |s.pending| && s.pending[k].action.kind == EnablePolling ==> s.pending[k].byHandler)
    && !s.pool.stop
  }

  ghost predicate Inv(s: State) {
    Sane(s) && Pool.Inv(s.pool) && forall fd: int :: Serial(s, fd)
  }

  // ---- Each step keeps a connection serial ----

  lemma InFlightSame(s: State, t: State, fd: int)
    requires |s.pool.workers| == |t.pool.workers| && s.pool.tasks == t.pool.tasks
    requires forall i :: 0 <= i < |s.pool.workers| ==>
                           Holds(s.pool.workers, s.answered, fd, i) == Holds(t.pool.workers, t.answered, fd, i)
    ensures InFlight(s, fd) == InFlight(t, fd)
  {
    hide Holds;
    HeldSame(s.pool.workers, s.answered, t.pool.workers, t.answered, fd, |s.pool.workers|);
  }

  lemma AcceptKeeps(s: State, step: Step, fd: int)
    requires Sane(s) && Serial(s, fd) && Enabled(s, step) && step.Accept?
    ensures Serial(Apply(s, step), fd)
  {
    hide InFlight, OfConn, HandlerActions;
    var t := Apply(s, step);
    assert InFlight(t, fd) == InFlight(s, fd) by { InFlightSame(s, t, fd); }
    if step.fd == fd {
      assert forall armed :: PollEntry(fd, armed) !in s.clients;
    }
  }

  lemma SuspendIn(fds: seq<PollEntry>, fd: int, c: int, armed: bool)
    ensures PollEntry(c, armed) in Suspend(fds, fd)
       <==> if c == fd then !armed && exists b :: PollEntry(c, b) in fds else PollEntry(c, armed) in fds
  {
    var r := Suspend(fds, fd);
    if PollEntry(c, armed) in r {
      var i :| 0 <= i < |r| && r[i] == PollEntry(c, armed);
      assert fds[i] in fds;
      assert fds[i] == PollEntry(c, fds[i].armed);
    }
    if c != fd && PollEntry(c, armed) in fds {
      var i :| 0 <= i < |fds| && fds[i] == PollEntry(c, armed);
      assert r[i] == fds[i];
    }
    if c == fd && exists b :: PollEntry(c, b) in fds {
      var b :| PollEntry(c, b) in fds;
      var i :| 0 <= i < |fds| && fds[i] == PollEntry(c, b);
      assert r[i] == PollEntry(c, false);
    }
  }

  /** Receiving adds one job in flight, and one accepted, for its connection alone. */
  lemma ReceiveEffect(s: State, step: Step, fd: int)
    requires Sane(s) && Serial(s, fd) && Enabled(s, step) && step.Receive?
    ensures var t := Apply(s, step);
            var added := OfConn([Pool.Job(step.fd, step.data)], fd);
            && |added| == (if step.fd == fd then 1 else 0)
            && InFlight(t, fd) == InFlight(s, fd) + added
            && OfConn(t.pool.accepted, fd) == OfConn(s.pool.accepted, fd) + added
  {
    hide Holds, OfConn, DistinctFds, Suspend, Serial;
    var job := Pool.Job(step.fd, step.data);
    OfConnConcat(s.pool.tasks, [job], fd);
    OfConnConcat(s.pool.accepted, [job], fd);
    OfConnOne(job, fd);
  }

  lemma ReceiveKeeps(s: State, step: Step, fd: int)
    requires Sane(s) && Serial(s, fd) && Enabled(s, step) && step.Receive? && Serial(s, step.fd)
    ensures Serial(Apply(s, step), fd)
  {
    hide OfConn, HandlerActions, InFlight, DistinctFds, Suspend;
    SuspendIn(s.clients, step.fd, fd, true);
    SuspendIn(s.clients, step.fd, fd, false);
    ReceiveEffect(s, step, fd);
    assert step.fd in s.used by { assert PollEntry(step.fd, true) in s.clients; }
  }

  lemma {:induction false} RemoveIn(fds: seq<PollEntry>, fd: int, e: PollEntry)
    ensures e in Remove(fds, fd) <==> e in fds && e.fd != fd
  {
    if fds != [] {
      var last := |fds| - 1;
      RemoveIn(fds[..last], fd, e);
      assert fds == fds[..last] + [fds[last]];
    }
  }

  lemma ClientsKeep(s: State, step: Step, fd: int)
    requires Sane(s) && Serial(s, fd) && Enabled(s, step) && (step.HangUp? || step.DisconnectAll?)
    ensures Serial(Apply(s, step), fd)
  {
    hide Holds, HandlerActions, OfConn, DistinctFds, Remove;
    var t := Apply(s, step);
    assert InFlight(t, fd) == InFlight(s, fd);
    if step.HangUp? {
      RemoveIn(s.clients, step.fd, PollEntry(fd, true));
      RemoveIn(s.clients, step.fd, PollEntry(fd, false));
    }
  }

  /** What the handler actions of a connection say about the batch. */
  lemma {:induction false} HandlerActionsNamed(pending: seq<Posted>, fd: int)
    requires forall k :: 0 <= k < |pending| && pending[k].action.kind == EnablePolling ==> pending[k].byHandler
    ensures HandlerActions(pending, fd) == 0 ==> !Names(ActionsOf(pending), fd, EnablePolling)
    ensures HandlerActions(pending, fd) > 0 ==> Names(ActionsOf(pending), fd, EnablePolling)
                                                || Names(ActionsOf(pending), fd, CloseClient)
  {
    if pending != [] {
      var last := |pending| - 1;
      HandlerActionsNamed(pending[..last], fd);
      var now, before := ActionsOf(pending), ActionsOf(pending[..last]);
      forall kind
        ensures Names(now, fd, kind) <==> Names(before, fd, kind) || (now[last].fd == fd && now[last].kind == kind)
      {
        NamesLast(now, fd, kind);
        assert now[..last] == before;
      }
    }
  }

  lemma NamesLast(actions: seq<ClientAction>, fd: int, kind: ActionType)
    requires actions != []
    ensures var last := |actions| - 1;
            Names(actions, fd, kind)
            <==> Names(actions[..last], fd, kind) || (actions[last].fd == fd && actions[last].kind == kind)
  {
    var last := |actions| - 1;
    if Names(actions[..last], fd, kind) {
      var k :| 0 <= k < last && actions[..last][k].fd == fd && actions[..last][k].kind == kind;
      assert actions[k].fd == fd;
    }
  }

  lemma BatchKeeps(s: State, fd: int)
    requires Sane(s) && Serial(s, fd)
    ensures Serial(Apply(s, Batch), fd)
  {
    hide Holds, OfConn, DistinctFds, Survivors, Names, ActionsOf;
    var t := Apply(s, Batch);
    var actions := ActionsOf(s.pending);
    assert InFlight(t, fd) == InFlight(s, fd);
    HandlerActionsNamed(s.pending, fd);
    SurvivorIn(s.clients, actions, fd, true);
    SurvivorIn(s.clients, actions, fd, false);
  }

  lemma PendingKeeps(s: State, step: Step, fd: int)
    requires Sane(s) && Serial(s, fd) && Enabled(s, step) && step.StrayClose?
    ensures Serial(Apply(s, step), fd)
  {
    hide HandlerActions, InFlight, OfConn, DistinctFds;
    var t := Apply(s, step);
    assert InFlight(t, fd) == InFlight(s, fd) by { InFlightSame(s, t, fd); }
    ActionsAppended(s.pending, Posted(ClientAction(step.fd, CloseClient), false), fd);
  }

  lemma ActionsAppended(pending: seq<Posted>, p: Posted, fd: int)
    ensures HandlerActions(pending + [p], fd)
         == HandlerActions(pending, fd) + if p.byHandler && p.action.fd == fd then 1 else 0
  {
    assert (pending + [p])[..|pending|] == pending;
  }

  /** A handler that posts no longer holds its job. */
  lemma PostHeld(workers: seq<Pool.Worker>, answered: set<nat>, fd: int, w: nat)
    requires w < |workers| && workers[w].Running? && w !in answered
    requires |Held(workers, answered, fd, |workers|)| <= 1
    ensures Held(workers, answered, fd, |workers|)
         == OfConn([workers[w].job], fd) + Held(workers, answered + {w}, fd, |workers|)
  {
    OfConnOne(workers[w].job, fd);
    var before, after := HeldReplace(workers, answered, workers, answered + {w}, fd, w, |workers|);
  }

  /** A worker that pops a job holds it. */
  lemma EnterHeld(workers: seq<Pool.Worker>, answered: set<nat>, fd: int, w: nat, job: Pool.Job)
    requires w < |workers| && workers[w].Awake() && w !in answered
    requires job.fd == fd ==> Held(workers, answered, fd, |workers|) == []
    ensures Held(workers[w := Pool.Running(job)], answered, fd, |workers|)
         == Held(workers, answered, fd, |workers|) + OfConn([job], fd)
  {
    hide Held, OfConn;
    OfConnOne(job, fd);
    var running := workers[w := Pool.Running(job)];
    assert Holds(workers, answered, fd, w) == [] && Holds(running, answered, fd, w) == OfConn([job], fd);
    hide Holds;
    var before, after := HeldReplace(workers, answered, running, answered, fd, w, |workers|);
    if job.fd == fd {
      assert before == [] && after == [];
    } else {
      assert before + [] + after == before + after;
    }
  }

  /** Posting moves the job of its connection from in flight to replied and adds one
      handler action; other connections are not touched. */
  lemma PostEffect(s: State, step: Step, fd: int)
    requires Sane(s) && Serial(s, fd) && Enabled(s, step) && step.Post?
    ensures var t := Apply(s, step);
            var moved := OfConn([s.pool.workers[step.w].job], fd);
            && |moved| <= 1 && InFlight(s, fd) == moved + InFlight(t, fd)
            && OfConn(t.replied, fd) == OfConn(s.replied, fd) + moved
            && HandlerActions(t.pending, fd) == HandlerActions(s.pending, fd) + |moved|
  {
    hide OfConn, Held, DistinctFds, HandlerActions;
    var t, job := Apply(s, step), s.pool.workers[step.w].job;
    ActionsAppended(s.pending, Posted(ClientAction(job.fd, step.kind), true), fd);
    assert |InFlight(s, fd)| <= 1;
    PostHeld(s.pool.workers, s.answered, fd, step.w);
    OfConnConcat(s.replied, [job], fd);
    OfConnOne(job, fd);
  }

  lemma PostKeeps(s: State, step: Step, fd: int)
    requires Sane(s) && Serial(s, fd) && Enabled(s, step) && step.Post?
    ensures Serial(Apply(s, step), fd)
  {
    hide OfConn, DistinctFds, InFlight, HandlerActions;
    PostEffect(s, step, fd);
  }

  lemma ReturnKeeps(s: State, step: Step, fd: int)
    requires Sane(s) && Serial(s, fd) && Enabled(s, step) && step.Return?
    ensures Serial(Apply(s, step), fd)
  {
    hide OfConn, DistinctFds, HandlerActions, InFlight;
    var t := Apply(s, step);
    InFlightSame(s, t, fd);
  }

  lemma EnterMoves(workers: seq<Pool.Worker>, answered: set<nat>, tasks: seq<Pool.Job>, fd: int, w: nat)
    requires w < |workers| && workers[w].Awake() && w !in answered && tasks != []
    requires |Held(workers, answered, fd, |workers|) + OfConn(tasks, fd)| <= 1
    ensures Held(workers[w := Pool.Running(tasks[0])], answered, fd, |workers|) + OfConn(tasks[1..], fd)
         == Held(workers, answered, fd, |workers|) + OfConn(tasks, fd)
  {
    hide OfConn, Held;
    var job, rest := tasks[0], tasks[1..];
    assert tasks == [job] + rest;
    OfConnConcat([job], rest, fd);
    OfConnOne(job, fd);
    EnterHeld(workers, answered, fd, w, job);
  }

  lemma EnterEffect(s: State, w: nat, fd: int)
    requires Sane(s) && Serial(s, fd) && Enabled(s, Internal(Pool.Enter(w))) && s.pool.tasks != []
    ensures InFlight(Apply(s, Internal(Pool.Enter(w))), fd) == InFlight(s, fd)
  {
    hide OfConn, Held, DistinctFds;
    assert w !in s.answered;
    assert |InFlight(s, fd)| <= 1;
    EnterMoves(s.pool.workers, s.answered, s.pool.tasks, fd, w);
  }

  lemma InternalKeeps(s: State, step: Step, fd: int)
    requires Sane(s) && Serial(s, fd) && Enabled(s, step) && step.Internal?
    ensures Serial(Apply(s, step), fd)
  {
    hide OfConn, DistinctFds, HandlerActions, InFlight;
    var t := Apply(s, step);
    if step.step.Enter? && s.pool.tasks != [] {
      EnterEffect(s, step.step.w, fd);
    } else {
      InFlightSame(s, t, fd);
    }
  }

  lemma SaneKeeps(s: State, step: Step)
    requires Inv(s) && Enabled(s, step)
    ensures Sane(Apply(s, step))
  {
    hide Serial, Pool.Inv, Names, Survivors, Remove;
    match step
    case Accept(fd) =>
      assert forall e :: e in s.clients ==> e.fd != fd;
    case HangUp(fd) =>
      RemoveDistinct(s.clients, fd);
    case Batch =>
      SurvivorsDistinct(s.clients, ActionsOf(s.pending));
    case Receive(fd, _) =>
      forall e | e in Suspend(s.clients, fd)
        ensures e.fd in s.used
      {
        var i :| 0 <= i < |s.clients| && Suspend(s.clients, fd)[i] == e;
        assert s.clients[i] in s.clients;
      }
    case _ =>
  }

  lemma {:induction false} RemoveDistinct(fds: seq<PollEntry>, fd: int)
    requires DistinctFds(fds)
    ensures DistinctFds(Remove(fds, fd))
    ensures forall e :: e in Remove(fds, fd) ==> e in fds
  {
    hide DistinctFds;
    if fds == [] {
      assert DistinctFds([]) by { NoneDistinct(); }
    } else {
      var last := |fds| - 1;
      DistinctLast(fds);
      RemoveDistinct(fds[..last], fd);
      var before := Remove(fds[..last], fd);
      if fds[last].fd != fd {
        DistinctAppended(before, fds[last]);
      } else {
        assert before + [] == before;
      }
    }
  }

  lemma StepKeeps(s: State, step: Step)
    requires Inv(s) && Enabled(s, step)
    ensures Inv(Apply(s, step))
  {
    hide Serial, Pool.Inv, Pool.Apply, Pool.Enabled;
    SaneKeeps(s, step);
    PoolKept(s, step);
    forall fd: int
      ensures Serial(Apply(s, step), fd)
    {
      assert Serial(s, fd);
      match step
      case Accept(_) => AcceptKeeps(s, step, fd);
      case Receive(from, _) =>
        assert Serial(s, from);
        ReceiveKeeps(s, step, fd);
      case HangUp(_) => ClientsKeep(s, step, fd);
      case DisconnectAll => ClientsKeep(s, step, fd);
      case Batch => BatchKeeps(s, fd);
      case StrayClose(_) => PendingKeeps(s, step, fd);
      case Post(_, _) => PostKeeps(s, step, fd);
      case Return(_) => ReturnKeeps(s, step, fd);
      case Internal(_) => InternalKeeps(s, step, fd);
    }
  }

  lemma PoolKept(s: State, step: Step)
    requires Inv(s) && Enabled(s, step)
    ensures Pool.Inv(Apply(s, step).pool)
  {
    hide Serial, Pool.Inv;
    match step
    case Receive(fd, data) => Pool.StepKeeps(s.pool, Pool.Enqueue(Pool.Job(fd, data)));
    case Return(w) => Pool.StepKeeps(s.pool, Pool.Finish(w));
    case Internal(p) => Pool.StepKeeps(s.pool, p);
    case _ =>
  }

  // ---- Runs ----

  ghost predicate Steps(s: State, step: Step, t: State) {
    Enabled(s, step) && t == Apply(s, step)
  }

  ghost predicate Run(states: seq<State>, steps: seq<Step>) {
    && |states| == |steps| + 1
    && forall i :: 0 <= i < |steps| ==> Steps(states[i], steps[i], states[i + 1])
  }

  lemma {:induction false} NothingHeld(threads: nat, fd: int, n: nat)
    requires n <= threads
    ensures Held(Pool.Init(threads).workers, {}, fd, n) == []
  {
    if n != 0 {
      NothingHeld(threads, fd, n - 1);
    }
  }

  lemma InitInv(threads: nat)
    ensures Inv(Init(threads))
  {
    hide Pool.Inv;
    Pool.InitInv(threads);
    forall fd: int
      ensures Serial(Init(threads), fd)
    {
      NothingHeld(threads, fd, threads);
    }
  }

  /** In every state of every run of the server every connection is served serially, and
      the pool keeps its own invariants. */
  lemma {:induction false} RunSerial(threads: nat, states: seq<State>, steps: seq<Step>, n: nat)
    requires Run(states, steps) && states[0] == Init(threads) && n < |states|
    ensures Inv(states[n])
  {
    hide Inv;
    if n == 0 {
      InitInv(threads);
    } else {
      RunSerial(threads, states, steps, n - 1);
      assert Steps(states[n - 1], steps[n - 1], states[n]);
      StepKeeps(states[n - 1], steps[n - 1]);
    }
  }

  /** Two workers are never both in unanswered handlers of one connection. */
  lemma OneHandlerAtATime(s: State, v: nat, w: nat)
    requires Inv(s) && v < w < |s.pool.workers|
    requires s.pool.workers[v].Running? && s.pool.workers[w].Running? && v !in s.answered && w !in s.answered
    ensures s.pool.workers[v].job.fd != s.pool.workers[w].job.fd
  {
    hide Pool.Inv, OfConn;
    var fd := s.pool.workers[v].job.fd;
    assert Serial(s, fd);
    HeldAtLeast(s.pool.workers, s.answered, fd, v, w, |s.pool.workers|);
  }

  /** The jobs of a connection are answered in the order received, and at most the last
      one received is not answered yet. */
  lemma AnsweredInOrder(s: State, fd: int)
    requires Inv(s)
    ensures OfConn(s.replied, fd) <= OfConn(s.pool.accepted, fd)
    ensures |OfConn(s.pool.accepted, fd)| <= |OfConn(s.replied, fd)| + 1
  {
    hide Pool.Inv, Sane, OfConn, InFlight;
    assert Serial(s, fd);
  }

  lemma {:induction false} HeldAtLeast(workers: seq<Pool.Worker>, answered: set<nat>, fd: int, v: nat, w: nat, n: nat)
    requires v < w && v < n <= |workers|
    ensures |Held(workers, answered, fd, n)| >= |Holds(workers, answered, fd, v)|
                                               + if w < n then |Holds(workers, answered, fd, w)| else 0
  {
    hide Holds;
    if n > v + 1 {
      HeldAtLeast(workers, answered, fd, v, w, n - 1);
    }
  }

  lemma {:induction false} SomeoneHolds(workers: seq<Pool.Worker>, answered: set<nat>, fd: int, n: nat) returns (w: nat)
    requires n <= |workers| && Held(workers, answered, fd, n) != []
    ensures w < n && Holds(workers, answered, fd, w) != []
  {
    if Holds(workers, answered, fd, n - 1) != [] {
      w := n - 1;
    } else {
      w := SomeoneHolds(workers, answered, fd, n - 1);
    }
  }

  lemma NoActions(fd: int)
    ensures HandlerActions([], fd) == 0
  {
  }

  /** The work outstanding for a suspended connection, or for one it waits behind, can
      take a step. */
  lemma OutstandingNotStuck(s: State, fd: int) returns (step: Step)
    requires Pool.Inv(s.pool) && Outstanding(s, fd) > 0 && s.pool.workers != []
    ensures Enabled(s, step) && Serves(s, step)
    ensures step == Batch ==> HandlerActions(s.pending, fd) > 0
  {
    hide Pool.Inv, HandlerActions, Held;
    NoActions(fd);
    if HandlerActions(s.pending, fd) > 0 {
      step := Batch;
    } else if Held(s.pool.workers, s.answered, fd, |s.pool.workers|) != [] {
      var w := SomeoneHolds(s.pool.workers, s.answered, fd, |s.pool.workers|);
      step := Post(w, EnablePolling);
    } else {
      assert s.pool.tasks != [];
      var p := Pool.QueuedNotStuck(s.pool);
      if p.Finish? {
        step := if p.w in s.answered then Return(p.w) else Post(p.w, EnablePolling);
      } else {
        step := Internal(p);
      }
    }
  }

  /** A suspended connection is never stuck: its handler's action waits for the next
      batch, or its job is in a handler that can post, or a step of the pool can bring a
      worker closer to its job. */
  lemma SuspendedNotStuck(s: State, fd: int) returns (step: Step)
    requires Inv(s) && PollEntry(fd, false) in s.clients && s.pool.workers != []
    ensures Enabled(s, step) && Serves(s, step)
    ensures step == Batch ==> HandlerActions(s.pending, fd) > 0
  {
    hide Outstanding, Sane, Pool.Inv, HandlerActions;
    assert Serial(s, fd);
    step := OutstandingNotStuck(s, fd);
  }

  // ---- A bound on the waiting ----

  /** What a worker can still do: in steps, with the action its handler will post. */
  function Weight(worker: Pool.Worker, answered: bool): nat {
    match worker
    case Ready => 1
    case Notified => 1
    case Running(_) => if answered then 2 else 4
    case Blocked => 0
    case Exited => 0
  }

  function Weights(workers: seq<Pool.Worker>, answered: set<nat>, n: nat): nat
    requires n <= |workers|
  {
    if n == 0 then 0 else Weights(workers, answered, n - 1) + Weight(workers[n - 1], n - 1 in answered)
  }

  /** A bound on the useful steps left. */
  function Measure(s: State): nat {
    4 * |s.pool.tasks| + Weights(s.pool.workers, s.answered, |s.pool.workers|) + 2 * s.pool.notifies + |s.pending|
  }

  /** A step that serves connections: not an empty batch, a spurious wakeup, or an input
      from outside. */
  predicate Serves(s: State, step: Step) {
    match step
    case Batch => s.pending != []
    case Post(_, _) => true
    case Return(_) => true
    case Internal(p) => !p.Wake?
    case _ => false
  }

  /** What an input from outside adds to the measure. */
  function Cost(step: Step): nat {
    match step
    case Receive(_, _) => 6
    case StrayClose(_) => 1
    case Internal(p) => if p.Wake? then 1 else 0
    case _ => 0
  }

  /** Changing one worker changes its weight alone. */
  lemma {:induction false} WeightsReplace(workers: seq<Pool.Worker>, answered: set<nat>, workers': seq<Pool.Worker>,
                                          answered': set<nat>, w: nat, n: nat)
    requires n <= |workers| == |workers'| && w < |workers|
    requires forall i :: 0 <= i < n && i != w ==> workers[i] == workers'[i] && (i in answered <==> i in answered')
    ensures Weights(workers', answered', n) + (if w < n then Weight(workers[w], w in answered) else 0)
         == Weights(workers, answered, n) + (if w < n then Weight(workers'[w], w in answered') else 0)
  {
    hide Weight;
    if n != 0 {
      WeightsReplace(workers, answered, workers', answered', w, n - 1);
    }
  }

  lemma MeasureStep(s: State, step: Step)
    requires Sane(s) && Enabled(s, step)
    ensures Measure(Apply(s, step)) + (if Serves(s, step) then 1 else 0) <= Measure(s) + Cost(step)
  {
    hide Weights, Survivors, Suspend, Remove, DistinctFds;
    var t := Apply(s, step);
    var n := |s.pool.workers|;
    match step
    case Post(w, _) =>
      WeightsReplace(s.pool.workers, s.answered, t.pool.workers, t.answered, w, n);
    case Return(w) =>
      WeightsReplace(s.pool.workers, s.answered, t.pool.workers, t.answered, w, n);
    case Internal(p) =>
      if !p.NotifyNobody? {
        assert p.w !in s.answered;
        WeightsReplace(s.pool.workers, s.answered, t.pool.workers, t.answered, p.w, n);
      }
    case _ =>
  }

  function Served(states: seq<State>, steps: seq<Step>): nat
    requires |states| >= |steps|
  {
    if steps == [] then 0
    else
      var last := |steps| - 1;
      Served(states, steps[..last]) + if Serves(states[last], steps[last]) then 1 else 0
  }

  function Costs(steps: seq<Step>): nat {
    if steps == [] then 0 else Costs(steps[..|steps| - 1]) + Cost(steps[|steps| - 1])
  }

  /** Every run takes at most as many serving steps as its first measure and six for each
      chunk received, one for each stray close and one for each spurious wakeup. */
  lemma {:induction false} ServedBounded(states: seq<State>, steps: seq<Step>, n: nat)
    requires Run(states, steps) && Inv(states[0]) && n <= |steps|
    ensures Inv(states[n])
    ensures Served(states, steps[..n]) + Measure(states[n]) <= Measure(states[0]) + Costs(steps[..n])
  {
    hide Inv, Measure, Serves, Cost;
    if n != 0 {
      ServedBounded(states, steps, n - 1);
      assert Steps(states[n - 1], steps[n - 1], states[n]);
      assert steps[..n][..n - 1] == steps[..n - 1];
      StepKeeps(states[n - 1], steps[n - 1]);
      assert Sane(states[n - 1]) by { SaneFrom(states[n - 1]); }
      MeasureStep(states[n - 1], steps[n - 1]);
    }
  }

  lemma SaneFrom(s: State)
    requires Inv(s)
    ensures Sane(s)
  {
  }

  /** When no serving step is enabled no connection is suspended: with the bound above,
      every suspended connection is re-armed or closed after boundedly many of them. */
  lemma QuietMeansServed(s: State, fd: int)
    requires Inv(s) && s.pool.workers != []
    requires forall step: Step :: Enabled(s, step) ==> !Serves(s, step)
    ensures PollEntry(fd, false) !in s.clients
  {
    hide Inv;
    if PollEntry(fd, false) in s.clients {
      var step := SuspendedNotStuck(s, fd);
    }
  }
}
