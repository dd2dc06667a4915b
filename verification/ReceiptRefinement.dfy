/** The store's operations are steps of the protocol. */
module ReceiptRefinement {
  import opened ReceiptEnvelope
  import opened ReceiptRetention
  import opened ReceiptProtocol

  /** A swept table is the one the step computes from the same evictions. */
  lemma SweptIsStep(c: Config, t: Table, swept: Table, now: int, e: Evictions)
    requires Swept(t, swept, c.limits, c.size, now, e)
    ensures SweepOk(c, t, now, e) && swept == SweepWith(c, t, now, e)
  {
  }

  /** What StoreReceipt leaves for a running call is the table and the files after a Store step. */
  lemma StoreIsStep(c: Config, s: State, key: Key, result: Fields, at: int, now: int, e: Evictions, written: bool,
                    swept: Table, files: map<string, map<Key, Saved>>)
    requires key in s.calls && s.calls[key].Running? && key in s.table
    requires Swept(s.table[key := Completed(s.table[key], result, at, c.size)], swept, c.limits, c.size, now, e)
    requires files == if written then s.files[key.workspace := Snapshot(swept, key.workspace)] else s.files
    ensures var l := Store(key, result, at, now, e, written);
            Enabled(c, s, l) && Take(c, s, l).table == swept && Take(c, s, l).files == files
  {
    var recording := Recording(c, s, key, result, at, s.table[key].checkpointed);
    assert recording == s.table[key := Completed(s.table[key], result, at, c.size)];
    SweptIsStep(c, recording, swept, now, e);
  }

  /** What Checkpoint leaves for a running call is the table and the files after a Checkpoint step. */
  lemma CheckpointIsStep(c: Config, s: State, key: Key, result: Fields, at: int, now: int, e: Evictions, written: bool,
                         swept: Table, table: Table, files: map<string, map<Key, Saved>>)
    requires key in s.calls && s.calls[key].Running? && key in s.table && key in swept
    requires Swept(s.table[key := Completed(s.table[key].(checkpointed := true), result, at, c.size)], swept, c.limits, c.size, now, e)
    requires table == if written then swept else swept[key := swept[key].(complete := false, checkpointed := false)]
    requires files == if written then s.files[key.workspace := Snapshot(swept, key.workspace)] else s.files
    ensures var l := Checkpoint(key, result, at, now, e, written);
            Enabled(c, s, l) && Take(c, s, l).table == table && Take(c, s, l).files == files
  {
    SweptIsStep(c, Recording(c, s, key, result, at, true), swept, now, e);
  }

  /** What AdoptReceipts leaves of a file still to be read is the table after an Adopt step. */
  lemma AdoptIsStep(c: Config, s: State, workspace: string, now: int, e: Evictions, swept: Table)
    requires workspace in s.loading
    requires Swept(s.table + AdoptedTable(FileOf(s, workspace), c.size, c.zero), swept, c.limits, c.size, now, e)
    ensures Enabled(c, s, Adopt(workspace, now, e)) && Take(c, s, Adopt(workspace, now, e)).table == swept
  {
    SweptIsStep(c, Restoring(c, s, workspace), swept, now, e);
  }
}
