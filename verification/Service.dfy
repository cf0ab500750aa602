/** The insert and exists requests on the index and the store, over whole runs with
    failing writes and reboots. */
module Service {
  import opened Bytes
  import opened Options
  import opened Storage
  import opened Index
  import Hex
  import Sha256

  /** `lost` holds the identifiers acknowledged since the last boot whose row was not
      written; the program does not keep it. */
  datatype System = System(store: Store, index: set<Str>, lost: set<Str>)

  datatype Status = Success | Conflict | BadRequest | InsufficientStorage

  /** A served request or a restart, with what the environment does to it. `imported`
      are the shard files that were not there before, found with their rows or created
      empty; `opens` and `rowsRead` say for every shard file whether it opens and how many
      of its rows the loading statement delivers. */
  datatype Event =
    | Insert(identifier: Str, pwk: Str, lowSpace: bool, lowDisk: bool, written: bool)
    | Exists(identifier: Str)
    | Reboot(imported: seq<seq<Row>>, opens: seq<bool>, rowsRead: seq<nat>)

  function EntityOf(identifier: Str, pwk: Str): Row {
    Row(Hex.WordsText(Sha256.Values(Sha256.WrappedDigest(identifier + pwk))), identifier, pwk)
  }

  function InsertCall(e: Event): Call
    requires e.Insert?
  {
    Call(EntityOf(e.identifier, e.pwk), e.lowDisk, e.written)
  }

  function InsertStatus(s: System, e: Event): Status
    requires e.Insert?
  {
    if |e.identifier| != 64 || |e.pwk| != 64 then BadRequest
    else if e.lowSpace then InsufficientStorage
    else if e.identifier in s.index then Conflict
    else Success
  }

  function Files(s: System, e: Event): seq<seq<Row>>
    requires e.Reboot?
  {
    s.store.disk + e.imported
  }

  ghost predicate Possible(s: System, e: Event) {
    s.store.Valid() && (e.Reboot? ==> |e.opens| == |e.rowsRead| == |Files(s, e)|)
  }

  /** The identifiers delivered while loading. */
  ghost function Read(files: seq<seq<Row>>, opens: seq<bool>, rowsRead: seq<nat>): set<Str>
    requires |opens| == |rowsRead| == |files|
  {
    set i, j | 0 <= i < |files| && 0 <= j < |files[i]| && opens[i] && j < rowsRead[i] :: files[i][j].identifier
  }

  ghost function Stored(disk: seq<seq<Row>>): set<Str> {
    set i, j | 0 <= i < |disk| && 0 <= j < |disk[i]| :: disk[i][j].identifier
  }

  /** The system after startup. */
  ghost function Booted(files: seq<seq<Row>>, opens: seq<bool>, rowsRead: seq<nat>): System
    requires |opens| == |rowsRead| == |files|
  {
    System(Opened(files, opens), Read(files, opens, rowsRead), {})
  }

  ghost function Step(s: System, e: Event): (t: System)
    requires Possible(s, e)
    ensures t.store.Valid()
  {
    match e
    case Insert(identifier, _, _, _, _) =>
      if InsertStatus(s, e) == Success then
        System(InsertStep(s.store, InsertCall(e)),
               s.index + {identifier},
               if Stores(s.store, InsertCall(e)) then s.lost else s.lost + {identifier})
      else s
    case Exists(_) => s
    case Reboot(_, opens, rowsRead) => Booted(Files(s, e), opens, rowsRead)
  }

  // ---- What every run keeps ----

  /** No identifier occurs in two rows. */
  ghost predicate Distinct(disk: seq<seq<Row>>) {
    forall i, j, k, l | 0 <= i < |disk| && 0 <= j < |disk[i]| && 0 <= k < |disk| && 0 <= l < |disk[k]| ::
      i != k || j != l ==> disk[i][j].identifier != disk[k][l].identifier
  }

  ghost predicate Inv(s: System) {
    && s.store.Valid() && Distinct(s.store.disk)
    && s.index == Stored(s.store.disk) + s.lost
    && Stored(s.store.disk) !! s.lost
  }

  /** Every row of every shard file is delivered. */
  ghost predicate Complete(files: seq<seq<Row>>, opens: seq<bool>, rowsRead: seq<nat>)
    requires |opens| == |rowsRead| == |files|
  {
    forall i :: 0 <= i < |files| && files[i] != [] ==> opens[i] && |files[i]| <= rowsRead[i]
  }

  lemma StoredAppend(disk: seq<seq<Row>>, shard: nat, row: Row)
    requires shard < |disk|
    ensures Stored(disk[shard := disk[shard] + [row]]) == Stored(disk) + {row.identifier}
  {
    var updated := disk[shard := disk[shard] + [row]];
    forall id | id in Stored(disk)
      ensures id in Stored(updated)
    {
      var i, j :| 0 <= i < |disk| && 0 <= j < |disk[i]| && disk[i][j].identifier == id;
      assert updated[i][j].identifier == id;
    }
    assert updated[shard][|disk[shard]|].identifier == row.identifier;
  }

  lemma DistinctAppend(disk: seq<seq<Row>>, shard: nat, row: Row)
    requires shard < |disk| && Distinct(disk)
    ensures Distinct(disk[shard := disk[shard] + [row]]) <==> row.identifier !in Stored(disk)
  {
    var updated := disk[shard := disk[shard] + [row]];
    var at := |disk[shard]|;
    assert updated[shard][at] == row;
    if row.identifier in Stored(disk) {
      var i, j :| 0 <= i < |disk| && 0 <= j < |disk[i]| && disk[i][j].identifier == row.identifier;
      assert updated[i][j] == disk[i][j];
    } else {
      forall i, j, k, l | 0 <= i < |updated| && 0 <= j < |updated[i]| && 0 <= k < |updated| && 0 <= l < |updated[k]|
                          && (i != k || j != l)
        ensures updated[i][j].identifier != updated[k][l].identifier
      {
        if i == shard && j == at {
          assert updated[k][l] == disk[k][l];
        } else if k == shard && l == at {
          assert updated[i][j] == disk[i][j];
        } else {
          assert updated[i][j] == disk[i][j] && updated[k][l] == disk[k][l];
        }
      }
    }
  }

  /** An insert keeps identifiers distinct exactly unless it writes a row for an
      identifier that is stored but not indexed. */
  lemma InsertDistinctExactly(s: System, e: Event)
    requires Possible(s, e) && e.Insert? && Distinct(s.store.disk)
    ensures Distinct(Step(s, e).store.disk)
       <==> !(InsertStatus(s, e) == Success && Stores(s.store, InsertCall(e)) && e.identifier in Stored(s.store.disk))
  {
    hide EntityOf, Distinct, Stored;
    if InsertStatus(s, e) == Success && Stores(s.store, InsertCall(e)) {
      DistinctAppend(s.store.disk, s.store.open[s.store.next], InsertCall(e).entity);
      assert InsertCall(e).entity.identifier == e.identifier by { EntityKeepsIdentifier(e.identifier, e.pwk); }
    }
  }

  lemma EntityKeepsIdentifier(identifier: Str, pwk: Str)
    ensures EntityOf(identifier, pwk).identifier == identifier
    ensures |EntityOf(identifier, pwk).uuid| == 64
  {
  }

  /** What an insert or a query adds to the index and to the rows. */
  lemma ServingEffect(s: System, e: Event)
    requires Possible(s, e) && !e.Reboot?
    ensures var (t, accepted) := (Step(s, e), e.Insert? && InsertStatus(s, e) == Success);
            && t.index == s.index + (if accepted then {e.identifier} else {})
            && t.store.open == s.store.open
            && Stored(t.store.disk) == Stored(s.store.disk)
                                       + if accepted && Stores(s.store, InsertCall(e)) then {e.identifier} else {}
  {
    hide EntityOf, Stored;
    if e.Insert? && InsertStatus(s, e) == Success && Stores(s.store, InsertCall(e)) {
      EntityKeepsIdentifier(e.identifier, e.pwk);
      StoredAppend(s.store.disk, s.store.open[s.store.next], InsertCall(e).entity);
    }
  }

  lemma InsertKeeps(s: System, e: Event)
    requires Inv(s) && e.Insert?
    ensures Inv(Step(s, e))
  {
    hide EntityOf, Distinct, Stored;
    InsertDistinctExactly(s, e);
    EntityKeepsIdentifier(e.identifier, e.pwk);
    if InsertStatus(s, e) == Success && Stores(s.store, InsertCall(e)) {
      StoredAppend(s.store.disk, s.store.open[s.store.next], InsertCall(e).entity);
    }
  }

  lemma FilesUnion(s: System, e: Event)
    requires e.Reboot?
    ensures Stored(Files(s, e)) == Stored(s.store.disk) + Stored(e.imported)
  {
    var files, n := Files(s, e), |s.store.disk|;
    forall id | id in Stored(s.store.disk)
      ensures id in Stored(files)
    {
      var i, j :| 0 <= i < n && 0 <= j < |s.store.disk[i]| && s.store.disk[i][j].identifier == id;
      assert files[i][j].identifier == id;
    }
    forall id | id in Stored(e.imported)
      ensures id in Stored(files)
    {
      var i, j :| 0 <= i < |e.imported| && 0 <= j < |e.imported[i]| && e.imported[i][j].identifier == id;
      assert files[n + i][j].identifier == id;
    }
    forall id | id in Stored(files)
      ensures id in Stored(s.store.disk) + Stored(e.imported)
    {
      var i, j :| 0 <= i < |files| && 0 <= j < |files[i]| && files[i][j].identifier == id;
      if i < n {
        assert s.store.disk[i][j].identifier == id;
      } else {
        assert e.imported[i - n][j].identifier == id;
      }
    }
  }

  /** After a restart the index holds every stored identifier exactly when every row of
      every shard file was delivered. */
  lemma ReadAllExactly(files: seq<seq<Row>>, opens: seq<bool>, rowsRead: seq<nat>)
    requires |opens| == |rowsRead| == |files| && Distinct(files)
    ensures Read(files, opens, rowsRead) <= Stored(files)
    ensures Read(files, opens, rowsRead) == Stored(files) <==> Complete(files, opens, rowsRead)
  {
    if Read(files, opens, rowsRead) == Stored(files) {
      forall i | 0 <= i < |files| && files[i] != []
        ensures opens[i] && |files[i]| <= rowsRead[i]
      {
        var j := |files[i]| - 1;
        assert files[i][j].identifier in Stored(files);
      }
    }
  }

  /** Startup gives a good system exactly when no identifier is twice in the files and
      every row is delivered. */
  lemma BootInv(files: seq<seq<Row>>, opens: seq<bool>, rowsRead: seq<nat>)
    requires |opens| == |rowsRead| == |files|
    ensures Inv(Booted(files, opens, rowsRead)) <==> Distinct(files) && Complete(files, opens, rowsRead)
  {
    hide Distinct, Stored, Read, Complete;
    if Distinct(files) {
      ReadAllExactly(files, opens, rowsRead);
    }
  }

  /** What a restart needs: no identifier twice in the files found, imported ones
      included, and every row delivered. */
  ghost predicate GoodRestart(s: System, e: Event)
    requires Possible(s, e)
  {
    e.Reboot? ==> Distinct(Files(s, e)) && Complete(Files(s, e), e.opens, e.rowsRead)
  }

  /** From a good system every event leads to a good system, except exactly the restarts
      that find an identifier twice or do not get every row. */
  lemma StepKeeps(s: System, e: Event)
    requires Inv(s) && Possible(s, e)
    ensures Inv(Step(s, e)) <==> GoodRestart(s, e)
  {
    hide Distinct, Stored, Read, Complete, EntityOf;
    match e
    case Insert(_, _, _, _, _) =>
      InsertKeeps(s, e);
    case Exists(_) =>
    case Reboot(_, opens, rowsRead) =>
      BootInv(Files(s, e), opens, rowsRead);
  }

  // ---- Runs ----

  /** Consecutive systems are related by one event each. */
  ghost predicate Run(states: seq<System>, events: seq<Event>) {
    && |states| == |events| + 1
    && forall i :: 0 <= i < |events| ==> Steps(states[i], events[i], states[i + 1])
  }

  ghost predicate Steps(s: System, e: Event, t: System) {
    Possible(s, e) && t == Step(s, e)
  }

  ghost predicate GoodAt(states: seq<System>, events: seq<Event>, i: nat)
    requires Run(states, events) && i < |events|
  {
    assert Steps(states[i], events[i], states[i + 1]);
    GoodRestart(states[i], events[i])
  }

  /** As long as all restarts were good: no identifier is in two rows, every stored
      identifier is indexed and answered DEFINITELY_YES, and whatever else is indexed was
      acknowledged without being written. */
  lemma {:induction false} RunKeeps(states: seq<System>, events: seq<Event>, n: nat)
    requires Run(states, events) && Inv(states[0]) && n < |states|
    requires forall i :: 0 <= i < n ==> GoodAt(states, events, i)
    ensures Inv(states[n])
    ensures forall id, size: nat, hashes :: size > 0 && id in Stored(states[n].store.disk)
              ==> Answer(states[n].index, id, size, hashes) == DefinitelyYes
  {
    hide Stored, Distinct, Complete;
    if n != 0 {
      RunKeeps(states, events, n - 1);
      assert GoodAt(states, events, n - 1);
      assert Steps(states[n - 1], events[n - 1], states[n]);
      StepKeeps(states[n - 1], events[n - 1]);
    }
  }

  /** A run is good throughout exactly when all its restarts are. */
  lemma RunKeepsExactly(states: seq<System>, events: seq<Event>)
    requires Run(states, events) && Inv(states[0])
    ensures (forall n :: 0 <= n < |states| ==> Inv(states[n]))
       <==> forall i :: 0 <= i < |events| ==> GoodAt(states, events, i)
  {
    hide Inv, GoodRestart;
    if forall i :: 0 <= i < |events| ==> GoodAt(states, events, i) {
      forall n | 0 <= n < |states|
        ensures Inv(states[n])
      {
        RunKeeps(states, events, n);
      }
    } else {
      var i :| 0 <= i < |events| && !GoodAt(states, events, i);
      assert Steps(states[i], events[i], states[i + 1]);
      if Inv(states[i]) {
        StepKeeps(states[i], events[i]);
        assert !Inv(states[i + 1]);
      }
    }
  }

  /** A run from startup is good throughout exactly when no identifier is twice in the
      shard files, startup gets every row, and all restarts are good. */
  lemma RunFromBootExactly(files: seq<seq<Row>>, opens: seq<bool>, rowsRead: seq<nat>,
                           states: seq<System>, events: seq<Event>)
    requires |opens| == |rowsRead| == |files|
    requires Run(states, events) && states[0] == Booted(files, opens, rowsRead)
    ensures (forall n :: 0 <= n < |states| ==> Inv(states[n]))
       <==> && Distinct(files) && Complete(files, opens, rowsRead)
            && forall i :: 0 <= i < |events| ==> GoodAt(states, events, i)
  {
    hide Inv, Booted, Distinct, Complete, GoodRestart;
    BootInv(files, opens, rowsRead);
    if Inv(states[0]) {
      RunKeepsExactly(states, events);
    }
  }

  /** The insert at `m` was acknowledged, and no restart follows before `n`. */
  ghost predicate AcknowledgedAt(states: seq<System>, events: seq<Event>, m: nat, n: nat)
    requires Run(states, events)
  {
    && m < n <= |events|
    && events[m].Insert? && InsertStatus(states[m], events[m]) == Success
    && forall i :: m < i < n ==> !events[i].Reboot?
  }

  /** Until the next restart an acknowledged identifier stays indexed, and it is stored
      exactly if its row was written at once. */
  lemma {:induction false} AcknowledgedUntil(states: seq<System>, events: seq<Event>, m: nat, n: nat)
    requires Run(states, events) && AcknowledgedAt(states, events, m, n) && Inv(states[m])
    ensures Inv(states[n]) && events[m].identifier in states[n].index
    ensures events[m].identifier in Stored(states[n].store.disk) <==> Stores(states[m].store, InsertCall(events[m]))
    decreases n
  {
    hide Distinct, Stored, EntityOf, Step, InsertStatus, Stores, GoodRestart, InsertCall;
    var s, e := states[n - 1], events[n - 1];
    assert Steps(s, e, states[n]);
    if n > m + 1 {
      AcknowledgedUntil(states, events, m, n - 1);
    }
    NewWhenAccepted(s, e);
    ServingKeeps(s, e);
    ServingEffect(s, e);
  }

  lemma NewWhenAccepted(s: System, e: Event)
    requires Inv(s)
    ensures e.Insert? && InsertStatus(s, e) == Success
            ==> e.identifier !in s.index && e.identifier !in Stored(s.store.disk)
  {
    hide Stored, Distinct;
  }

  lemma ServingKeeps(s: System, e: Event)
    requires Inv(s) && Possible(s, e) && !e.Reboot?
    ensures Inv(Step(s, e))
  {
    hide Inv, Step;
    StepKeeps(s, e);
  }

  /** An acknowledged insert, whatever inserts and queries follow, is known after the next
      good restart exactly when its row was written or an imported file holds it. */
  lemma AcknowledgedSurvives(states: seq<System>, events: seq<Event>, m: nat, n: nat)
    requires Run(states, events) && Inv(states[0]) && AcknowledgedAt(states, events, m, n)
    requires n < |events| && events[n].Reboot? && forall i :: 0 <= i <= n ==> GoodAt(states, events, i)
    ensures forall k :: m < k <= n ==> events[m].identifier in states[k].index
    ensures events[m].identifier in states[n + 1].index
       <==> Stores(states[m].store, InsertCall(events[m])) || events[m].identifier in Stored(events[n].imported)
  {
    hide Distinct, Stored, EntityOf, Complete, Read;
    RunKeeps(states, events, m);
    forall k | m < k <= n
      ensures events[m].identifier in states[k].index
    {
      AcknowledgedUntil(states, events, m, k);
    }
    AcknowledgedUntil(states, events, m, n);
    assert Steps(states[n], events[n], states[n + 1]);
    assert GoodAt(states, events, n);
    StepKeeps(states[n], events[n]);
    FilesUnion(states[n], events[n]);
  }

  // ---- Restarts that miss rows ----

  /** Every row whose identifier an insert could name was delivered. */
  ghost predicate Delivered(files: seq<seq<Row>>, opens: seq<bool>, rowsRead: seq<nat>)
    requires |opens| == |rowsRead| == |files|
  {
    forall i, j :: 0 <= i < |files| && 0 <= j < |files[i]| && |files[i][j].identifier| == 64
      ==> opens[i] && j < rowsRead[i]
  }

  ghost predicate Guarded(s: System) {
    forall id :: id in Stored(s.store.disk) && |id| == 64 ==> id in s.index
  }

  ghost predicate NoneOpens(opens: seq<bool>) {
    forall i :: 0 <= i < |opens| ==> !opens[i]
  }

  lemma NoneOpensExactly(files: seq<seq<Row>>, opens: seq<bool>)
    requires |opens| == |files|
    ensures NoneOpens(opens) <==> Opened(files, opens).open == []
  {
    var open := OpenedUpTo(opens, |opens|);
    if open != [] {
      assert opens[open[0]];
    }
  }

  lemma GuardedExactly(s: System, r: Event)
    requires r.Reboot? && Possible(s, r) && Distinct(Files(s, r))
    ensures Guarded(Step(s, r)) <==> Delivered(Files(s, r), r.opens, r.rowsRead)
  {
    var files: seq<seq<Row>> := Files(s, r);
    if Guarded(Step(s, r)) {
      forall i, j | 0 <= i < |files| && 0 <= j < |files[i]| && |files[i][j].identifier| == 64
        ensures r.opens[i] && j < r.rowsRead[i]
      {
        assert files[i][j].identifier in Stored(files);
      }
    }
  }

  /** After a restart that leaves a stored identifier of 64 characters undelivered, with a
      shard to write, inserting that identifier stores it a second time. */
  lemma MissedRowDuplicates(s: System, r: Event, id: Str, pwk: Str) returns (e: Event)
    requires r.Reboot? && Possible(s, r) && Distinct(Files(s, r)) && !NoneOpens(r.opens)
    requires |id| == 64 && |pwk| == 64 && id in Stored(Files(s, r)) && id !in Step(s, r).index
    ensures e == Insert(id, pwk, false, false, true) && Possible(Step(s, r), e)
    ensures !Distinct(Step(Step(s, r), e).store.disk)
  {
    hide EntityOf, Distinct, Stored, Read;
    e := Insert(id, pwk, false, false, true);
    EntityKeepsIdentifier(id, pwk);
    NoneOpensExactly(Files(s, r), r.opens);
    InsertDistinctExactly(Step(s, r), e);
  }

  ghost predicate ServingRun(states: seq<System>, events: seq<Event>) {
    Run(states, events) && forall i :: 0 <= i < |events| ==> !events[i].Reboot?
  }

  lemma {:induction false} GuardedRun(states: seq<System>, events: seq<Event>, n: nat)
    requires ServingRun(states, events) && Distinct(states[0].store.disk) && n < |states|
    requires states[0].store.open == [] || Guarded(states[0])
    ensures Distinct(states[n].store.disk)
    ensures states[n].store.open == states[0].store.open
    ensures states[n].store.open == [] || Guarded(states[n])
  {
    hide Distinct, Stored, EntityOf, Step, InsertStatus, Stores, InsertCall;
    if n != 0 {
      GuardedRun(states, events, n - 1);
      var s, e := states[n - 1], events[n - 1];
      assert Steps(s, e, states[n]);
      ServingEffect(s, e);
      GuardedStep(s, e);
    }
  }

  lemma GuardedStep(s: System, e: Event)
    requires Possible(s, e) && !e.Reboot? && Distinct(s.store.disk)
    requires s.store.open == [] || Guarded(s)
    ensures Distinct(Step(s, e).store.disk)
  {
    hide Distinct, Stored, EntityOf;
    if e.Insert? {
      InsertDistinctExactly(s, e);
    }
  }

  /** All the inserts and queries after a restart keep identifiers distinct exactly when
      the restart opens no shard or delivers every row with a 64-character identifier. */
  lemma RestartSafeExactly(s: System, r: Event)
    requires r.Reboot? && Possible(s, r) && Distinct(Files(s, r))
    ensures (forall states: seq<System>, events: seq<Event> :: ServingRun(states, events) && states[0] == Step(s, r)
                                      ==> Distinct(states[|events|].store.disk))
       <==> NoneOpens(r.opens) || Delivered(Files(s, r), r.opens, r.rowsRead)
  {
    hide Distinct, Stored, Delivered, NoneOpens, Read;
    var t := Step(s, r);
    NoneOpensExactly(Files(s, r), r.opens);
    GuardedExactly(s, r);
    if NoneOpens(r.opens) || Delivered(Files(s, r), r.opens, r.rowsRead) {
      forall states: seq<System>, events: seq<Event> | ServingRun(states, events) && states[0] == t
        ensures Distinct(states[|events|].store.disk)
      {
        GuardedRun(states, events, |events|);
      }
    } else {
      var states, events := DuplicatingRun(s, r);
      assert ServingRun(states, events) && states[0] == t;
    }
  }

  lemma DuplicatingRun(s: System, r: Event) returns (states: seq<System>, events: seq<Event>)
    requires r.Reboot? && Possible(s, r) && Distinct(Files(s, r))
    requires !NoneOpens(r.opens) && !Guarded(Step(s, r))
    ensures ServingRun(states, events) && states[0] == Step(s, r) && !Distinct(states[|events|].store.disk)
  {
    hide Distinct, Stored, NoneOpens, Read, Step;
    var t := Step(s, r);
    assert t.store.disk == Files(s, r) by { BootedFiles(s, r); }
    var id :| id in Stored(t.store.disk) && |id| == 64 && id !in t.index;
    var e := MissedRowDuplicates(s, r, id, id);
    states, events := [t, Step(t, e)], [e];
    assert Steps(states[0], events[0], states[1]);
  }

  lemma BootedFiles(s: System, r: Event)
    requires r.Reboot? && Possible(s, r)
    ensures Step(s, r).store.disk == Files(s, r)
  {
  }

  /** For instance: the first of two shards does not open, and its only identifier is
      inserted again into the second. */
  lemma MissedShardDuplicates(id: Str, pwk: Str) returns (s: System, r: Event, e: Event)
    requires |id| == 64 && |pwk| == 64
    ensures s.store.disk == [[EntityOf(id, pwk)], []]
    ensures r == Reboot([], [false, true], [0, 0]) && e == Insert(id, pwk, false, false, true)
    ensures Inv(s) && Possible(s, r) && Possible(Step(s, r), e)
    ensures !Distinct(Step(Step(s, r), e).store.disk)
  {
    EntityKeepsIdentifier(id, pwk);
    hide EntityOf;
    var row := EntityOf(id, pwk);
    s := System(Store([[row], []], [0, 1], 1), {id}, {});
    r := Reboot([], [false, true], [0, 0]);
    OneRow(s, row);
    assert Files(s, r) == s.store.disk;
    assert r.opens[1];
    e := MissedRowDuplicates(s, r, id, pwk);
  }

  lemma OneRow(s: System, row: Row)
    requires s == System(Store([[row], []], [0, 1], 1), {row.identifier}, {})
    ensures Inv(s) && row.identifier in Stored(s.store.disk)
  {
    assert s.store.disk[0][0] == row;
  }

  // ---- The code ----

  /** The rows one loading statement delivers. */
  method LoadShard(rows: seq<Row>, rowsRead: nat, engine: QueryEngine) returns (ghost n: nat)
    requires engine.Valid()
    modifies engine`exactStore, engine.filter.bits
    ensures engine.Valid()
    ensures n == if rowsRead < |rows| then rowsRead else |rows|
    ensures engine.exactStore == old(engine.exactStore) + FirstOf(rows, n)
  {
    var j := 0;
    while j < |rows| && j < rowsRead
      invariant j <= |rows| && j <= rowsRead && engine.Valid()
      invariant engine.exactStore == old(engine.exactStore) + FirstOf(rows, j)
    {
      engine.Insert(rows[j].identifier);
      j := j + 1;
    }
    n := j;
  }

  /** Loads the index from the open shards. */
  method LoadAllIdentifiers(storage: DataStorage, engine: QueryEngine, ghost opens: seq<bool>, rowsRead: seq<nat>)
    requires engine.Valid() && |opens| == |rowsRead| == |storage.disk|
    requires storage.dbs == OpenedUpTo(opens, |opens|)
    modifies engine`exactStore, engine.filter.bits
    ensures engine.Valid()
    ensures engine.exactStore == old(engine.exactStore) + Read(storage.disk, opens, rowsRead)
  {
    hide FirstOf, ReadFrom, Read;
    ghost var files := storage.disk;
    ReadFromNothing(files, storage.dbs, rowsRead);
    for i := 0 to |storage.dbs|
      invariant engine.Valid()
      invariant engine.exactStore == old(engine.exactStore) + ReadFrom(files, storage.dbs[..i], rowsRead)
    {
      var db := storage.dbs[i];
      ghost var n := LoadShard(storage.disk[db], rowsRead[db], engine);
      ReadFromNext(files, storage.dbs, i, rowsRead, n);
    }
    assert storage.dbs[..|storage.dbs|] == storage.dbs;
    ReadIsReadFrom(files, opens, rowsRead);
  }

  ghost function FirstOf(rows: seq<Row>, n: nat): set<Str>
    requires n <= |rows|
  {
    set j | 0 <= j < n :: rows[j].identifier
  }

  ghost function ReadFrom(files: seq<seq<Row>>, open: seq<nat>, rowsRead: seq<nat>): set<Str>
    requires |rowsRead| == |files| && forall i :: 0 <= i < |open| ==> open[i] < |files|
  {
    set k, j | 0 <= k < |open| && 0 <= j < |files[open[k]]| && j < rowsRead[open[k]] :: files[open[k]][j].identifier
  }

  lemma ReadFromNothing(files: seq<seq<Row>>, open: seq<nat>, rowsRead: seq<nat>)
    requires |rowsRead| == |files| && forall i :: 0 <= i < |open| ==> open[i] < |files|
    ensures ReadFrom(files, open[..0], rowsRead) == {}
  {
  }

  lemma ReadFromNext(files: seq<seq<Row>>, open: seq<nat>, i: nat, rowsRead: seq<nat>, n: nat)
    requires |rowsRead| == |files| && i < |open| && forall i :: 0 <= i < |open| ==> open[i] < |files|
    requires n == if rowsRead[open[i]] < |files[open[i]]| then rowsRead[open[i]] else |files[open[i]]|
    ensures ReadFrom(files, open[..i + 1], rowsRead)
         == ReadFrom(files, open[..i], rowsRead) + FirstOf(files[open[i]], n)
  {
    var now, next := open[..i], open[..i + 1];
    var before, last := ReadFrom(files, now, rowsRead), FirstOf(files[open[i]], n);
    var all := ReadFrom(files, next, rowsRead);
    assert next[i] == open[i];
    forall id | id in before
      ensures id in all
    {
      var k, j :| 0 <= k < i && 0 <= j < |files[now[k]]| && j < rowsRead[now[k]] && files[now[k]][j].identifier == id;
      assert next[k] == now[k];
    }
    forall id | id in last
      ensures id in all
    {
      var j :| 0 <= j < n && files[open[i]][j].identifier == id;
      assert files[next[i]][j].identifier == id;
    }
    forall id | id in all
      ensures id in before + last
    {
      var k, j :| 0 <= k < i + 1 && 0 <= j < |files[next[k]]| && j < rowsRead[next[k]]
        && files[next[k]][j].identifier == id;
      if k < i {
        assert now[k] == next[k];
      }
    }
  }

  lemma ReadIsReadFrom(files: seq<seq<Row>>, opens: seq<bool>, rowsRead: seq<nat>)
    requires |opens| == |rowsRead| == |files|
    ensures ReadFrom(files, OpenedUpTo(opens, |opens|), rowsRead) == Read(files, opens, rowsRead)
  {
    var open := OpenedUpTo(opens, |opens|);
    forall id | id in Read(files, opens, rowsRead)
      ensures id in ReadFrom(files, open, rowsRead)
    {
      var i, j :| 0 <= i < |files| && 0 <= j < |files[i]| && opens[i] && j < rowsRead[i]
        && files[i][j].identifier == id;
      assert i in open;
      var k :| 0 <= k < |open| && open[k] == i;
    }
  }

  /** Startup: open the shards and load the index. */
  method Boot(files: seq<seq<Row>>, opens: seq<bool>, rowsRead: seq<nat>)
    returns (engine: QueryEngine, storage: DataStorage)
    requires |opens| == |rowsRead| == |files|
    ensures fresh(engine) && fresh(storage) && fresh(engine.filter.bits) && engine.Valid()
    ensures System(storage.State(), engine.exactStore, {}) == Booted(files, opens, rowsRead)
  {
    storage := new DataStorage.Initialize(files, opens);
    engine := new QueryEngine(1000000);
    LoadAllIdentifiers(storage, engine, opens, rowsRead);
  }

  /** The insert route of the data handler. */
  method HandleInsert(engine: QueryEngine, storage: DataStorage, ghost lost: set<Str>, e: Event)
    returns (status: Status)
    requires engine.Valid() && storage.State().Valid() && e.Insert?
    modifies engine`exactStore, engine.filter.bits, storage
    ensures engine.Valid()
    ensures var before := System(old(storage.State()), old(engine.exactStore), lost);
            && status == InsertStatus(before, e)
            && storage.State() == Step(before, e).store
            && engine.exactStore == Step(before, e).index
  {
    hide Hex.WordsText, Sha256.Values, Sha256.WrappedDigest, InsertStep, Stores;
    if |e.identifier| == 64 && |e.pwk| == 64 {
      if e.lowSpace {
        return InsufficientStorage;
      }
      var answer := engine.Query(e.identifier);
      if answer == DefinitelyYes {
        return Conflict;
      }
      engine.Insert(e.identifier);
      var uuid := Sha256.Sha256(e.identifier + e.pwk);
      var _ := storage.InsertEntity(Row(uuid, e.identifier, e.pwk), e.lowDisk, e.written);
      status := Success;
    } else {
      status := BadRequest;
    }
  }

  /** The exists route: an answer for identifiers of 64 characters. */
  method HandleExists(engine: QueryEngine, identifier: Str) returns (answer: Option<QueryResult>)
    requires engine.Valid()
    ensures answer == if |identifier| == 64 then
                        Some(Answer(engine.exactStore, identifier, engine.Size(), QUERY_HASHES))
                      else None
  {
    if |identifier| == 64 {
      var r := engine.Query(identifier);
      return Some(r);
    }
    return None;
  }
}
