/** Over whole runs: what the rows of accepted inserts hold, that rows stay, and which
    status an insert gets. */
module Rows {
  import opened Bytes
  import opened Service
  import opened Storage
  import Hex
  import Padding
  import Sha256

  // ---- Rows stay where they are ----

  lemma RowStaysOnce(s: System, e: Event, i: nat, j: nat)
    requires Possible(s, e) && i < |s.store.disk| && j < |s.store.disk[i]|
    ensures var disk := Step(s, e).store.disk;
            i < |disk| && j < |disk[i]| && disk[i][j] == s.store.disk[i][j]
  {
    hide EntityOf, InsertStatus, Read;
  }

  /** Every row on disk is at the same place, unchanged, in all later states. */
  lemma {:induction false} RowStays(states: seq<System>, events: seq<Event>, m: nat, n: nat, i: nat, j: nat)
    requires Run(states, events) && m <= n < |states|
    requires i < |states[m].store.disk| && j < |states[m].store.disk[i]|
    ensures var disk := states[n].store.disk;
            i < |disk| && j < |disk[i]| && disk[i][j] == states[m].store.disk[i][j]
    decreases n
  {
    hide Step;
    if m < n {
      RowStays(states, events, m, n - 1, i, j);
      assert Steps(states[n - 1], events[n - 1], states[n]);
      RowStaysOnce(states[n - 1], events[n - 1], i, j);
    }
  }

  // ---- What is stored ----

  /** The insert is accepted and its row written. */
  ghost predicate WritesRow(s: System, e: Event) {
    && e.Insert? && InsertStatus(s, e) == Success
    && s.store.open != [] && !e.lowDisk && e.written
  }

  /** A row with the client's identifier and key, and the printed digest of both. */
  ghost predicate IsRowOf(row: Row, identifier: Str, pwk: Str) {
    && row.identifier == identifier
    && row.pwk == pwk
    && row.uuid == Hex.WordsText(Sha256.Values(Sha256.Digest(identifier + pwk)))
  }

  /** The row is appended to the shard whose turn it is. */
  lemma RowLands(s: System, e: Event)
    requires Possible(s, e) && WritesRow(s, e)
    ensures var (shard, disk) := (s.store.open[s.store.next], Step(s, e).store.disk);
            && shard < |disk| && |disk[shard]| == |s.store.disk[shard]| + 1
            && IsRowOf(disk[shard][|s.store.disk[shard]|], e.identifier, e.pwk)
  {
    hide Hex.WordsText, Sha256.Values, Sha256.WrappedDigest, Sha256.Digest, Padding.Pad;
    ShortEnough(e.identifier + e.pwk);
    Sha256.DigestExact(e.identifier + e.pwk);
  }

  lemma ShortEnough(input: Str)
    requires |input| == 128
    ensures |Padding.Pad(input)| <= TWO_32
  {
  }

  /** In every state after an accepted and written insert some row holds what the client
      sent. */
  lemma WrittenRowKept(states: seq<System>, events: seq<Event>, m: nat, n: nat) returns (i: nat, j: nat)
    requires Run(states, events) && m < n < |states| && WritesRow(states[m], events[m])
    ensures i < |states[n].store.disk| && j < |states[n].store.disk[i]|
    ensures IsRowOf(states[n].store.disk[i][j], events[m].identifier, events[m].pwk)
  {
    hide Step, IsRowOf, InsertStatus;
    assert Steps(states[m], events[m], states[m + 1]);
    RowLands(states[m], events[m]);
    i := states[m].store.open[states[m].store.next];
    j := |states[m].store.disk[i]|;
    RowStays(states, events, m + 1, n, i, j);
  }

  // ---- Which status an insert gets ----

  /** The identifier was accepted by an earlier event of the run, from `m` on. */
  ghost predicate AcceptedSince(states: seq<System>, events: seq<Event>, m: nat, n: nat, id: Str)
    requires |states| > |events| >= n
  {
    exists k :: m <= k < n && events[k].Insert? && events[k].identifier == id
                && InsertStatus(states[k], events[k]) == Success
  }

  lemma {:induction false} IndexGrows(states: seq<System>, events: seq<Event>, m: nat, n: nat, id: Str)
    requires Run(states, events) && m <= n < |states| && forall k :: m <= k < n ==> !events[k].Reboot?
    ensures id in states[n].index <==> id in states[m].index || AcceptedSince(states, events, m, n, id)
    decreases n
  {
    hide Step, InsertStatus;
    if m < n {
      IndexGrows(states, events, m, n - 1, id);
      assert Steps(states[n - 1], events[n - 1], states[n]);
      ServingEffect(states[n - 1], events[n - 1]);
      assert AcceptedSince(states, events, m, n, id)
        <==> AcceptedSince(states, events, m, n - 1, id)
             || (events[n - 1].Insert? && events[n - 1].identifier == id
                 && InsertStatus(states[n - 1], events[n - 1]) == Success);
    }
  }

  /** With no restart in between, an insert is refused as malformed exactly when a field
      has not 64 characters, then for lack of space exactly when space is low, then as a
      conflict exactly when its identifier was known before or accepted since; else it
      is accepted. So no identifier is accepted twice. */
  lemma StatusExactly(states: seq<System>, events: seq<Event>, m: nat, n: nat)
    requires Run(states, events) && m <= n < |events| && events[n].Insert?
    requires forall k :: m <= k < n ==> !events[k].Reboot?
    ensures var (e, status) := (events[n], InsertStatus(states[n], events[n]));
            var known := e.identifier in states[m].index || AcceptedSince(states, events, m, n, e.identifier);
            if |e.identifier| != 64 || |e.pwk| != 64 then status == BadRequest
            else if e.lowSpace then status == InsufficientStorage
            else if known then status == Conflict
            else status == Success
  {
    IndexGrows(states, events, m, n, events[n].identifier);
  }
}
