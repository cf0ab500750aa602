/** The sharded store: shards are row sequences whose append may fail, written in
    round-robin order. */
module Storage {
  import opened Bytes
  import opened Options

  /** A row of the `information` table, and the entity it is written from. */
  datatype Row = Row(uuid: Str, identifier: Str, pwk: Str)

  /** The shard files, the shards that were opened (as positions in `disk`), and the
      position in `open` that is written next. */
  datatype Store = Store(disk: seq<seq<Row>>, open: seq<nat>, next: nat) {
    ghost predicate Valid() {
      && (forall i :: 0 <= i < |open| ==> open[i] < |disk|)
      && (forall i, j :: 0 <= i < j < |open| ==> open[i] != open[j])
      && (open == [] || next < |open|)
    }
  }

  /** One `insertEntity` call with what the environment does to it: whether the free
      space is below the guard, and whether SQLite completes the statement. */
  datatype Call = Call(entity: Row, lowDisk: bool, written: bool)

  predicate Rejected(c: Call) {
    c.lowDisk || (c.entity.uuid != [] && c.entity.identifier == [])
  }

  /** The position whose shard the call tries to write. */
  function Attempt(s: Store, c: Call): Option<nat> {
    if s.open == [] || Rejected(c) then None else Some(s.next)
  }

  predicate Stores(s: Store, c: Call) {
    s.open != [] && !Rejected(c) && c.written
  }

  function InsertStep(s: Store, c: Call): Store
    requires s.Valid()
  {
    if s.open == [] || Rejected(c) then s
    else
      var shard := s.open[s.next];
      Store(if c.written then s.disk[shard := s.disk[shard] + [c.entity]] else s.disk,
            s.open,
            (s.next + 1) % |s.open|)
  }

  function InsertAll(s: Store, calls: seq<Call>): (t: Store)
    requires s.Valid()
    ensures t.Valid() && t.open == s.open && |t.disk| == |s.disk|
  {
    if calls == [] then s else InsertStep(InsertAll(s, calls[..|calls| - 1]), calls[|calls| - 1])
  }

  // ---- Round-robin balance ----

  /** How many of the calls tried to write the shard at position `i`. */
  function Attempts(s: Store, calls: seq<Call>, i: nat): nat
    requires s.Valid()
  {
    if calls == [] then 0
    else
      var before := calls[..|calls| - 1];
      Attempts(s, before, i) + if Attempt(InsertAll(s, before), calls[|calls| - 1]) == Some(i) then 1 else 0
  }

  /** Steps from position `start` forward to position `i` on a ring of `n`. */
  function Distance(start: nat, i: nat, n: nat): (d: nat)
    requires start < n && i < n
    ensures d < n
  {
    if i >= start then i - start else i - start + n
  }

  /** After any calls there is a number of full rounds `q` and a rest `r`: the first `r`
      shards from the start were tried q + 1 times and the others q times. */
  lemma {:induction false} Rounds(s: Store, calls: seq<Call>) returns (q: nat, r: nat)
    requires s.Valid() && s.open != []
    ensures r < |s.open|
    ensures InsertAll(s, calls).next < |s.open| && Distance(s.next, InsertAll(s, calls).next, |s.open|) == r
    ensures forall i :: 0 <= i < |s.open| ==>
                          Attempts(s, calls, i) == q + if Distance(s.next, i, |s.open|) < r then 1 else 0
  {
    hide Distance;
    var n := |s.open|;
    if calls == [] {
      q, r := 0, 0;
      StartOfRing(s.next, n);
    } else {
      var before, c := calls[..|calls| - 1], calls[|calls| - 1];
      q, r := Rounds(s, before);
      var t := InsertAll(s, before);
      if Attempt(t, c).Some? {
        NextOnRing(s.next, t.next, n);
        forall i | 0 <= i < n
          ensures Distance(s.next, i, n) == r <==> i == t.next
        {
          SameDistance(s.next, i, t.next, n);
        }
        if r + 1 == n {
          q, r := q + 1, 0;
        } else {
          r := r + 1;
        }
      }
    }
  }

  lemma StartOfRing(start: nat, n: nat)
    requires start < n
    ensures Distance(start, start, n) == 0
  {
  }

  lemma SameDistance(start: nat, i: nat, j: nat, n: nat)
    requires start < n && i < n && j < n
    ensures Distance(start, i, n) == Distance(start, j, n) <==> i == j
  {
  }

  lemma NextOnRing(start: nat, at: nat, n: nat)
    requires start < n && at < n
    ensures Distance(start, (at + 1) % n, n)
         == if Distance(start, at, n) + 1 == n then 0 else Distance(start, at, n) + 1
  {
    if at + 1 == n {
      assert n % n == 0;
    } else {
      assert (at + 1) % n == at + 1;
    }
  }

  /** The write attempts on any two opened shards differ by at most one. */
  lemma Balanced(s: Store, calls: seq<Call>, i: nat, j: nat)
    requires s.Valid() && i < |s.open| && j < |s.open|
    ensures Attempts(s, calls, i) <= Attempts(s, calls, j) + 1
  {
    hide Attempts;
    var q, r := Rounds(s, calls);
  }

  // ---- What is stored ----

  function TotalRows(disk: seq<seq<Row>>): nat {
    if disk == [] then 0 else TotalRows(disk[..|disk| - 1]) + |disk[|disk| - 1]|
  }

  lemma {:induction false} TotalRowsAppend(disk: seq<seq<Row>>, shard: nat, row: Row)
    requires shard < |disk|
    ensures TotalRows(disk[shard := disk[shard] + [row]]) == TotalRows(disk) + 1
  {
    var updated := disk[shard := disk[shard] + [row]];
    var last := |disk| - 1;
    if shard == last {
      assert updated[..last] == disk[..last];
    } else {
      assert updated[..last] == disk[..last][shard := disk[..last][shard] + [row]];
      TotalRowsAppend(disk[..last], shard, row);
    }
  }

  function Accepted(s: Store, calls: seq<Call>): nat
    requires s.Valid()
  {
    if calls == [] then 0
    else
      var before := calls[..|calls| - 1];
      Accepted(s, before) + if Stores(InsertAll(s, before), calls[|calls| - 1]) then 1 else 0
  }

  /** The new rows are as many as the calls that returned true. */
  lemma {:induction false} RowsConserved(s: Store, calls: seq<Call>)
    requires s.Valid()
    ensures TotalRows(InsertAll(s, calls).disk) == TotalRows(s.disk) + Accepted(s, calls)
  {
    if calls != [] {
      RowsConserved(s, calls[..|calls| - 1]);
      var t := InsertAll(s, calls[..|calls| - 1]);
      if t.open != [] {
        TotalRowsAppend(t.disk, t.open[t.next], calls[|calls| - 1].entity);
      }
    }
  }

  /** How many of the calls wrote the shard at position `i`. */
  function Writes(s: Store, calls: seq<Call>, i: nat): nat
    requires s.Valid()
  {
    if calls == [] then 0
    else
      var (before, last) := (calls[..|calls| - 1], calls[|calls| - 1]);
      Writes(s, before, i) + if last.written && Attempt(InsertAll(s, before), last) == Some(i) then 1 else 0
  }

  /** Each open shard gets exactly the rows written to it in turn, and no other shard
      gets any. */
  lemma {:induction false} RowsPerShard(s: Store, calls: seq<Call>, shard: nat)
    requires s.Valid() && shard < |s.disk|
    ensures forall i :: 0 <= i < |s.open| && s.open[i] == shard
                        ==> |InsertAll(s, calls).disk[shard]| == |s.disk[shard]| + Writes(s, calls, i)
    ensures shard !in s.open ==> InsertAll(s, calls).disk[shard] == s.disk[shard]
  {
    if calls != [] {
      RowsPerShard(s, calls[..|calls| - 1], shard);
    }
  }

  lemma {:induction false} AllWritten(s: Store, calls: seq<Call>, i: nat)
    requires s.Valid() && forall k :: 0 <= k < |calls| ==> calls[k].written
    ensures Writes(s, calls, i) == Attempts(s, calls, i)
  {
    if calls != [] {
      AllWritten(s, calls[..|calls| - 1], i);
    }
  }

  /** When every write succeeds the rows added to any two open shards differ by at most
      one. */
  lemma RowsBalanced(s: Store, calls: seq<Call>, i: nat, j: nat)
    requires s.Valid() && i < |s.open| && j < |s.open|
    requires forall k :: 0 <= k < |calls| ==> calls[k].written
    ensures var disk := InsertAll(s, calls).disk;
            |disk[s.open[i]]| - |s.disk[s.open[i]]| <= |disk[s.open[j]]| - |s.disk[s.open[j]]| + 1
  {
    hide Writes, Attempts;
    RowsPerShard(s, calls, s.open[i]);
    RowsPerShard(s, calls, s.open[j]);
    AllWritten(s, calls, i);
    AllWritten(s, calls, j);
    Balanced(s, calls, i, j);
  }

  /** A row with an empty identifier has an empty uuid too. */
  ghost predicate NoOrphans(disk: seq<seq<Row>>) {
    forall i, j :: 0 <= i < |disk| && 0 <= j < |disk[i]| && disk[i][j].identifier == [] ==> disk[i][j].uuid == []
  }

  lemma {:induction false} OrphansNeverStored(s: Store, calls: seq<Call>)
    requires s.Valid() && NoOrphans(s.disk)
    ensures NoOrphans(InsertAll(s, calls).disk)
  {
    if calls != [] {
      OrphansNeverStored(s, calls[..|calls| - 1]);
    }
  }

  // ---- The class ----

  class DataStorage {
    /** The files behind the connections. */
    var disk: seq<seq<Row>>
    /** The open connections. */
    var dbs: seq<nat>
    var roundRobinIdx: nat

    function State(): Store
      reads this
    {
      Store(disk, dbs, roundRobinIdx)
    }

    /** Opens the shard files one by one; `opens` says which ones SQLite can open. */
    constructor Initialize(files: seq<seq<Row>>, opens: seq<bool>)
      requires |opens| == |files|
      ensures State() == Opened(files, opens)
      ensures disk == files && roundRobinIdx == 0
    {
      disk, roundRobinIdx := files, 0;
      dbs := [];
      new;
      for i := 0 to |files|
        invariant disk == files && roundRobinIdx == 0
        invariant dbs == OpenedUpTo(opens, i)
      {
        if opens[i] {
          dbs := dbs + [i];
        }
      }
    }

    /** Appends a row to the next shard, or refuses. */
    method InsertEntity(entity: Row, lowDisk: bool, written: bool) returns (ok: bool)
      requires State().Valid()
      modifies this
      ensures State() == InsertStep(old(State()), Call(entity, lowDisk, written))
      ensures ok <==> Stores(old(State()), Call(entity, lowDisk, written))
      ensures ok <==> old(dbs) != [] && (entity.uuid == [] || entity.identifier != []) && !lowDisk && written
    {
      if dbs == [] {
        return false;
      }
      if entity.uuid != [] && entity.identifier == [] {
        return false;
      }
      if lowDisk {
        return false;
      }
      var target := dbs[roundRobinIdx];
      roundRobinIdx := (roundRobinIdx + 1) % |dbs|;
      if !written {
        return false;
      }
      disk := disk[target := disk[target] + [entity]];
      return true;
    }
  }

  /** The positions among the first `n` that could be opened. */
  function OpenedUpTo(opens: seq<bool>, n: nat): (open: seq<nat>)
    requires n <= |opens|
    ensures forall i :: 0 <= i < |open| ==> open[i] < n && opens[open[i]]
    ensures forall i, j :: 0 <= i < j < |open| ==> open[i] < open[j]
    ensures forall k :: 0 <= k < n && opens[k] ==> k in open
  {
    if n == 0 then []
    else OpenedUpTo(opens, n - 1) + if opens[n - 1] then [n - 1] else []
  }

  function Opened(files: seq<seq<Row>>, opens: seq<bool>): (s: Store)
    requires |opens| == |files|
    ensures s.Valid()
  {
    Store(files, OpenedUpTo(opens, |opens|), 0)
  }
}
