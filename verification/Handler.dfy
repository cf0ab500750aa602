/** The data handler: its routes, and the one client action each of them posts. */
module Handler {
  import opened Bytes
  import opened Frames
  import opened Options
  import opened Index
  import opened Loop
  import opened Server
  import opened Service
  import opened Storage

  /** What the tests of the handler say about a chunk of data, with the insert event
      and the queried identifier it carries for those two routes. */
  datatype Request = Request(isHttp: bool, isOptions: bool, isInsert: bool, isExists: bool, isUpgrade: bool,
                             isAkkon: bool, insert: Event, identifier: Str)

  predicate TakesInsertRoute(req: Request, locked: bool, isWebSocket: bool) {
    !locked && !isWebSocket && req.isHttp && !req.isOptions && req.isInsert
  }

  predicate TakesExistsRoute(req: Request, locked: bool, isWebSocket: bool) {
    !locked && !isWebSocket && req.isHttp && !req.isOptions && !req.isInsert && req.isExists
  }

  predicate Upgrades(req: Request, locked: bool, isWebSocket: bool) {
    !locked && !isWebSocket && req.isHttp && !req.isOptions && !req.isInsert && !req.isExists && req.isUpgrade
  }

  /** The connection is kept only for an established or a new WebSocket. */
  function PostedKind(req: Request, locked: bool, isWebSocket: bool): ActionType {
    if !locked && (isWebSocket || Upgrades(req, locked, isWebSocket)) then EnablePolling else CloseClient
  }

  /** Decoding the chunk of a WebSocket client throws, and the exception leaves the handler. */
  predicate Throws(data: Str, locked: bool, isWebSocket: bool) {
    !locked && isWebSocket && Decode(data).LengthError?
  }

  /** The handler posts exactly one action, for its own connection, unless decoding
      throws, when it posts none. It changes the index and the store on the insert route
      alone, by one step of the system, and the set of WebSocket clients by an upgrade
      alone. */
  method HandleData(loop: EventLoop, engine: QueryEngine, storage: DataStorage, ghost lost: set<Str>,
                    wsClients: set<nat>, fd: nat, data: Str, req: Request, locked: bool)
    returns (clients: set<nat>, answer: Option<QueryResult>, threw: bool)
    requires engine.Valid() && storage.State().Valid() && req.insert.Insert? && |data| <= MAX_SIZE
    modifies loop`pendingActions, engine`exactStore, engine.filter.bits, storage
    ensures engine.Valid()
    ensures threw <==> Throws(data, locked, fd in wsClients)
    ensures loop.pendingActions
         == old(loop.pendingActions) + if threw then []
                                       else [ClientAction(fd, PostedKind(req, locked, fd in wsClients))]
    ensures !threw ==> loop.pendingActions[|old(loop.pendingActions)|].kind
                       == if !locked && fd in clients then EnablePolling else CloseClient
    ensures clients - {fd} == wsClients - {fd}
    ensures fd in clients
       <==> || fd in wsClients
            || (!locked && req.isHttp && !req.isOptions && !req.isInsert && !req.isExists && req.isUpgrade)
    ensures locked || fd in wsClients || !req.isHttp || req.isOptions || !req.isInsert
            ==> storage.State() == old(storage.State()) && engine.exactStore == old(engine.exactStore)
    ensures answer.Some? <==> && !locked && fd !in wsClients && req.isHttp && !req.isOptions && !req.isInsert
                              && req.isExists && |req.identifier| == 64
    ensures answer == Some(DefinitelyYes) ==> req.identifier in old(engine.exactStore)
    ensures answer.Some? && req.identifier in old(engine.exactStore) ==> answer == Some(DefinitelyYes)
    ensures answer == if TakesExistsRoute(req, locked, fd in wsClients) && |req.identifier| == 64 then
                        Some(Answer(old(engine.exactStore), req.identifier, old(engine.Size()), QUERY_HASHES))
                      else None
    ensures clients == if Upgrades(req, locked, fd in wsClients) then wsClients + {fd} else wsClients
    ensures var before := System(old(storage.State()), old(engine.exactStore), lost);
            var after := if TakesInsertRoute(req, locked, fd in wsClients) then Service.Step(before, req.insert)
                         else before;
            storage.State() == after.store && engine.exactStore == after.index
  {
    hide Service.Step, Decode;
    clients, answer, threw := wsClients, None, false;
    if locked {
      loop.CloseClientAction(fd);
      return;
    }
    if fd in wsClients {
      var outcome := DecodeFrames(data);
      if outcome.LengthError? {
        threw := true;
        return;
      }
      loop.EnablePollingAction(fd);
      return;
    }
    if req.isHttp || req.isOptions {
      if req.isOptions {
        loop.CloseClientAction(fd);
        return;
      }
      if req.isInsert {
        var _ := HandleInsert(engine, storage, lost, req.insert);
        loop.CloseClientAction(fd);
        return;
      }
      if req.isExists {
        answer := HandleExists(engine, req.identifier);
        loop.CloseClientAction(fd);
        return;
      }
      if req.isUpgrade {
        clients := clients + {fd};
        loop.EnablePollingAction(fd);
      } else {
        loop.CloseClientAction(fd);
      }
    } else if req.isAkkon {
      loop.CloseClientAction(fd);
    } else {
      loop.CloseClientAction(fd);
    }
  }
}
