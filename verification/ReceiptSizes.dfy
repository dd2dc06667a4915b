/** When the byte budget of the retention sweep bounds the payloads the store really holds. */
module ReceiptSizes {
  import opened Basics
  import opened ReceiptEnvelope
  import opened ReceiptRetention
  import opened ReceiptSweepLaws
  import opened ReceiptProtocol
  import opened ReceiptRuns

  /** The recorded size of a receipt with a payload is the payload's, unless the payload was replaced
      after a failed write. A sweep that trims such a receipt measures it again. */
  predicate Sized(c: Config, s: State, k: Key) {
    k in s.table && s.table[k].complete && !s.table[k].evicted && k !in s.replaced ==> s.table[k].bytes == c.size(s.table[k].result)
  }

  predicate SizedReceipt(c: Config, r: Receipt) { r.complete && !r.evicted ==> r.bytes == c.size(r.result) }

  lemma SweepSized(c: Config, t: Table, now: int, e: Evictions, k: Key)
    requires SweepOk(c, t, now, e) && k in SweepWith(c, t, now, e) && (k in t ==> SizedReceipt(c, t[k]))
    ensures SizedReceipt(c, SweepWith(c, t, now, e)[k])
  {
    SweptAt(t, SweepWith(c, t, now, e), c.limits, c.size, now, e, k);
  }

  lemma RecordingSized(c: Config, s: State, key: Key, result: Fields, at: int, flag: bool, k: Key)
    requires key in s.table && Sized(c, s, k) && k !in s.replaced && k in s.table
    ensures SizedReceipt(c, Recording(c, s, key, result, at, flag)[k])
  {
  }

  /** What the sweep after recording leaves of a receipt is sized. */
  lemma RecordedSized(c: Config, s: State, key: Key, result: Fields, at: int, flag: bool, now: int, e: Evictions, k: Key)
    requires key in s.table && Sized(c, s, k) && k !in s.replaced
    requires var recording := Recording(c, s, key, result, at, flag); SweepOk(c, recording, now, e) && k in SweepWith(c, recording, now, e)
    ensures SizedReceipt(c, SweepWith(c, Recording(c, s, key, result, at, flag), now, e)[k])
  {
    var recording := Recording(c, s, key, result, at, flag);
    SweepKey(c, recording, now, e, k);
    RecordingSized(c, s, key, result, at, flag, k);
    SweepSized(c, recording, now, e, k);
  }

  lemma StoreSized(c: Config, s: State, l: Label, k: Key)
    requires Inv(s) && l.Store? && Enabled(c, s, l) && Sized(c, s, k)
    ensures Sized(c, Take(c, s, l), k)
  {
    var flag := s.table[l.key].checkpointed;
    if k in SweepWith(c, Recording(c, s, l.key, l.result, l.at, flag), l.now, l.e) && k !in s.replaced {
      RecordedSized(c, s, l.key, l.result, l.at, flag, l.now, l.e, k);
    }
  }

  lemma CheckpointSized(c: Config, s: State, l: Label, k: Key)
    requires Inv(s) && l.Checkpoint? && Enabled(c, s, l) && Sized(c, s, k)
    ensures Sized(c, Take(c, s, l), k)
  {
    assert Take(c, s, l) == AfterCheckpoint(c, s, l.key, l.result, l.at, l.now, l.e, l.written);
    if k in SweepWith(c, Recording(c, s, l.key, l.result, l.at, true), l.now, l.e) && k !in s.replaced {
      RecordedSized(c, s, l.key, l.result, l.at, true, l.now, l.e, k);
    }
  }

  lemma AdoptedSized(c: Config, saved: Saved)
    ensures SizedReceipt(c, Adopted(saved, c.size, c.zero))
  {
  }

  lemma RestoringSized(c: Config, s: State, w: string, k: Key)
    requires KeyOk(s, k) && w in s.loading && Sized(c, s, k) && k !in s.replaced && k in Restoring(c, s, w)
    ensures SizedReceipt(c, Restoring(c, s, w)[k])
  {
    RestoredAt(c, s, w, k);
    if k in FileOf(s, w) { AdoptedSized(c, FileOf(s, w)[k]); }
  }

  lemma AdoptSized(c: Config, s: State, l: Label, k: Key)
    requires Inv(s) && l.Adopt? && Enabled(c, s, l) && Sized(c, s, k)
    ensures Sized(c, Take(c, s, l), k)
  {
    assert KeyOk(s, k);
    var restoring := Restoring(c, s, l.workspace);
    SweepKey(c, restoring, l.now, l.e, k);
    if k in SweepWith(c, restoring, l.now, l.e) && k !in s.replaced {
      RestoringSized(c, s, l.workspace, k);
      SweepSized(c, restoring, l.now, l.e, k);
    }
  }

  lemma FinishSized(c: Config, s: State, l: Label, k: Key)
    requires Inv(s) && l.Finish? && Enabled(c, s, l) && Sized(c, s, k)
    ensures Sized(c, Take(c, s, l), k)
  {
  }

  lemma SizedStep(c: Config, s: State, l: Label, k: Key)
    requires Inv(s) && Enabled(c, s, l) && Sized(c, s, k)
    ensures Sized(c, Take(c, s, l), k)
  {
    match l {
      case Checkpoint(_, _, _, _, _, _) => CheckpointSized(c, s, l, k);
      case Store(_, _, _, _, _, _) => StoreSized(c, s, l, k);
      case Adopt(_, _, _) => AdoptSized(c, s, l, k);
      case Finish(_, _) => FinishSized(c, s, l, k);
      case _ =>
    }
  }

  /** In every run the recorded sizes are right, except where a payload was replaced. */
  lemma {:induction false} SizedRun(c: Config, s: State, labels: seq<Label>, k: Key)
    requires Inv(s) && Sized(c, s, k) && IsRun(c, s, labels)
    ensures Sized(c, Final(c, s, labels), k)
    decreases |labels|
  {
    if labels != [] {
      StepKeeps(c, s, labels[0]);
      SizedStep(c, s, labels[0], k);
      SizedRun(c, Take(c, s, labels[0]), labels[1..], k);
    }
  }

  /** A finish leaves the recorded size right exactly when the payload was written, or the one that
      replaces it happens to be as long. */
  lemma FinishSizeIff(c: Config, s: State, l: Label)
    requires Inv(s) && l.Finish? && Enabled(c, s, l) && l.key !in s.replaced && Sized(c, s, l.key)
    ensures var r := Take(c, s, l).table[l.key];
            r.bytes == c.size(r.result) <==> s.calls[l.key].written || c.size(l.warned) == c.size(s.calls[l.key].answer)
  {
    InFlight(s, l.key);
  }

  ghost function Payload(c: Config, t: Table, s: set<Key>): nat
    requires s <= t.Keys
  {
    if s == {} then 0 else var k :| k in s; c.size(t[k].result) + Payload(c, t, s - {k})
  }

  lemma {:induction false} PayloadRemove(c: Config, t: Table, s: set<Key>, k: Key)
    requires s <= t.Keys && k in s
    ensures Payload(c, t, s) == c.size(t[k].result) + Payload(c, t, s - {k})
    decreases s
  {
    var x :| x in s && Payload(c, t, s) == c.size(t[x].result) + Payload(c, t, s - {x});
    if x != k {
      PayloadRemove(c, t, s - {x}, k);
      PayloadRemove(c, t, s - {k}, x);
      assert s - {x} - {k} == s - {k} - {x};
    }
  }

  /** Payloads and recorded sizes differ by what they differ by on the keys whose size is stale. */
  lemma {:induction false} PayloadDiffers(c: Config, t: Table, s: set<Key>, stale: set<Key>)
    requires s <= t.Keys && forall k :: k in s && k !in stale ==> t[k].bytes == c.size(t[k].result)
    ensures Payload(c, t, s) - Bytes(t, s) == Payload(c, t, s * stale) - Bytes(t, s * stale)
    decreases s
  {
    if s != {} {
      var k :| k in s;
      PayloadRemove(c, t, s, k);
      BytesRemove(t, s, k);
      PayloadDiffers(c, t, s - {k}, stale);
      if k in stale {
        PayloadRemove(c, t, s * stale, k);
        BytesRemove(t, s * stale, k);
        assert (s - {k}) * stale == s * stale - {k};
      } else {
        assert (s - {k}) * stale == s * stale;
      }
    }
  }

  /** The table whose sweep a step contains. */
  function Sweeping(c: Config, s: State, l: Label): Table
    requires (l.Store? || l.Checkpoint? ==> l.key in s.table) && (l.Store? || l.Checkpoint? || l.Adopt?)
  {
    if l.Adopt? then Restoring(c, s, l.workspace)
    else Recording(c, s, l.key, l.result, l.at, l.Checkpoint? || s.table[l.key].checkpointed)
  }

  /** A failed checkpoint changes only its own receipt, which is in flight. */
  lemma RetainedSwept(c: Config, s: State, l: Label)
    requires Inv(s) && Enabled(c, s, l) && (l.Store? || l.Checkpoint? || l.Adopt?)
    ensures var t, swept := Take(c, s, l).table, SweepWith(c, Sweeping(c, s, l), l.now, l.e);
            RetainedKeys(t) == RetainedKeys(swept) && forall k :: k in RetainedKeys(t) ==> t[k] == swept[k]
  {
    if l.Checkpoint? { RetainedCheckpoint(c, s, l); } else { PlainSwept(c, s, l); }
  }

  lemma PlainSwept(c: Config, s: State, l: Label)
    requires Enabled(c, s, l) && (l.Store? || l.Adopt?)
    ensures Take(c, s, l).table == SweepWith(c, Sweeping(c, s, l), l.now, l.e)
  {
  }

  lemma RetainedCheckpoint(c: Config, s: State, l: Label)
    requires Inv(s) && Enabled(c, s, l) && l.Checkpoint?
    ensures var t, swept := Take(c, s, l).table, SweepWith(c, Sweeping(c, s, l), l.now, l.e);
            RetainedKeys(t) == RetainedKeys(swept) && forall k :: k in RetainedKeys(t) ==> t[k] == swept[k]
  {
    InFlight(s, l.key);
    SweepInFlight(c, Sweeping(c, s, l), l.now, l.e, l.key);
  }

  lemma SweptBytes(c: Config, s: State, l: Label)
    requires Inv(s) && Enabled(c, s, l) && (l.Store? || l.Checkpoint? || l.Adopt?)
    ensures var t := Take(c, s, l).table; Bytes(t, RetainedKeys(t)) <= c.limits.totalBytes
  {
    var t, swept := Take(c, s, l).table, SweepWith(c, Sweeping(c, s, l), l.now, l.e);
    RetainedSwept(c, s, l);
    SweepBounds(Sweeping(c, s, l), swept, c.limits, c.size, l.now, l.e, "");
    BytesSame(t, swept, RetainedKeys(t));
  }

  /** After any step of any run that sweeps, the payloads of the finished receipts fit the byte budget
      exactly when those replaced after a failed write outgrew their recorded sizes by no more than the
      budget leaves; so they do if none was replaced. */
  lemma PayloadWithinBudget(c: Config, labels: seq<Label>, l: Label)
    requires IsRun(c, Initial, labels) && Enabled(c, Final(c, Initial, labels), l) && (l.Store? || l.Checkpoint? || l.Adopt?)
    ensures var s := Take(c, Final(c, Initial, labels), l);
            var retained := RetainedKeys(s.table);
            var stale := retained * s.replaced;
            && retained <= s.table.Keys && Bytes(s.table, retained) <= c.limits.totalBytes
            && (Payload(c, s.table, retained) <= c.limits.totalBytes <==>
                  Payload(c, s.table, stale) - Bytes(s.table, stale) <= c.limits.totalBytes - Bytes(s.table, retained))
            && (stale == {} ==> Payload(c, s.table, retained) <= c.limits.totalBytes)
  {
    var before := Final(c, Initial, labels);
    var s := Take(c, before, l);
    InitialInv();
    RunKeeps(c, Initial, labels);
    forall k | k in RetainedKeys(s.table) && k !in s.replaced ensures s.table[k].bytes == c.size(s.table[k].result) {
      SizedRun(c, Initial, labels, k);
      SizedStep(c, before, l, k);
    }
    SweptBytes(c, before, l);
    PayloadDiffers(c, s.table, RetainedKeys(s.table), s.replaced);
  }

  // ---------- A run over the budget ----------

  const NOTHING: Evictions := Evictions({}, {}, {})

  /** With at most one finished receipt, recent and within the recorded budget, a sweep does nothing. */
  lemma QuietSweep(c: Config, t: Table, k: Key)
    requires c.limits.perWorkspace >= 1 && c.limits.payloadWindow >= 0 && RetainedKeys(t) <= {k} && TombstoneKeys(t) == {}
    requires k in RetainedKeys(t) ==> t[k].bytes <= c.limits.totalBytes && t[k].completedAt == 0
    ensures SweepWith(c, t, 0, NOTHING) == t && SweepOk(c, t, 0, NOTHING)
  {
    QuietAges(c, t, k);
    assert EvictAll(t, {} + {}) - {} == t;
    forall w ensures CutTo(t, RetainedKeys(t), {}, c.limits.perWorkspace, w) {
      assert RetainedKeys(t) - {} == RetainedKeys(t) && Group({}, w) == {};
      SubsetSize(Group(RetainedKeys(t), w), {k});
    }
    forall w ensures CutTo(t, {}, {}, c.limits.tombstones, w) { assert Group({}, w) == {} && Group({} - {}, w) == {}; }
    assert TombstoneKeys(t) + {} + {} == {};
    QuietBytes(c, t, k);
  }

  lemma QuietAges(c: Config, t: Table, k: Key)
    requires c.limits.payloadWindow >= 0 && RetainedKeys(t) <= {k} && (k in RetainedKeys(t) ==> t[k].completedAt == 0)
    ensures AgedTable(t, c.limits, c.size, 0) == t
  {
    forall x | x in t ensures Aged(t[x], c.limits, c.size, 0) == t[x] {
      if Retained(t[x]) { assert x in RetainedKeys(t); }
    }
  }

  lemma QuietBytes(c: Config, t: Table, k: Key)
    requires RetainedKeys(t) <= {k} && (k in RetainedKeys(t) ==> t[k].bytes <= c.limits.totalBytes)
    ensures CutToBytes(t, RetainedKeys(t) - {}, {}, c.limits.totalBytes)
  {
    var live := RetainedKeys(t) - {};
    assert live - {} == live;
    if k in live {
      assert live == {k};
      BytesRemove(t, live, k);
    } else {
      assert live == {};
    }
  }

  ghost predicate Reachable(c: Config, s: State) { exists labels :: IsRun(c, Initial, labels) && Final(c, Initial, labels) == s }

  lemma ReachNext(c: Config, s: State, l: Label)
    requires Reachable(c, s) && Enabled(c, s, l)
    ensures Reachable(c, Take(c, s, l))
  {
    var labels :| IsRun(c, Initial, labels) && Final(c, Initial, labels) == s;
    RunSnoc(c, Initial, labels, l);
  }

  lemma ReachInitial(c: Config)
    ensures Reachable(c, Initial)
  {
    assert IsRun(c, Initial, []);
  }

  /** A receipt with a longer payload than the one its size was recorded for. */
  function Stale(c: Config, result: Fields, warned: Fields): Receipt {
    Receipt("", warned, true, true, false, false, false, 0, c.size(result))
  }

  predicate HoldsStale(c: Config, s: State, a: Key, result: Fields, warned: Fields) {
    s.loading == {} && s.table == map[a := Stale(c, result, warned)]
  }

  lemma FirstStores(c: Config, a: Key, result: Fields, l: Label)
    requires c.limits.perWorkspace >= 1 && c.limits.payloadWindow >= 0 && l == Store(a, result, 0, 0, NOTHING, false)
    ensures var s := AfterBegin(Initial, a, "");
            && Enabled(c, s, l)
            && Take(c, s, l) == s.(table := map[a := Completed(Pending(""), result, 0, c.size)], calls := map[a := Answering(result, false)])
  {
    var s := AfterBegin(Initial, a, "");
    var t := Recording(c, s, a, result, 0, false);
    assert t == map[a := Completed(Pending(""), result, 0, c.size)];
    QuietSweep(c, t, a);
  }

  /** A call whose receipt cannot be written leaves the longer payload with the shorter size. */
  lemma FirstCall(c: Config, a: Key, result: Fields, warned: Fields) returns (s: State)
    requires c.limits.perWorkspace >= 1 && c.limits.payloadWindow >= 0
    ensures Reachable(c, s) && HoldsStale(c, s, a, result, warned)
  {
    s := FirstStored(c, a, result);
    ReachNext(c, s, Finish(a, warned));
    s := AfterFinish(s, a, warned);
  }

  lemma FirstStored(c: Config, a: Key, result: Fields) returns (s: State)
    requires c.limits.perWorkspace >= 1 && c.limits.payloadWindow >= 0
    ensures Reachable(c, s) && s.loading == {} && s.calls == map[a := Answering(result, false)]
    ensures s.table == map[a := Completed(Pending(""), result, 0, c.size)]
  {
    FirstBegun(c, a);
    s := AfterBegin(Initial, a, "");
    var l := Store(a, result, 0, 0, NOTHING, false);
    FirstStores(c, a, result, l);
    ReachNext(c, s, l);
    s := Take(c, s, l);
  }

  lemma FirstBegun(c: Config, a: Key)
    ensures Reachable(c, AfterBegin(Initial, a, ""))
  {
    ReachInitial(c);
    ReachNext(c, Initial, Begin(a, ""));
  }

  lemma SecondStores(c: Config, a: Key, b: Key, result: Fields, warned: Fields, s: State, l: Label)
    requires a != b && c.limits.perWorkspace >= 1 && c.limits.payloadWindow >= 0 && c.size(result) <= c.limits.totalBytes
    requires HoldsStale(c, s, a, result, warned) && l == Store(b, result, 0, 0, NOTHING, false)
    ensures var s' := AfterBegin(s, b, "");
            && Enabled(c, s', l)
            && Take(c, s', l).table == map[a := Stale(c, result, warned), b := Completed(Pending(""), result, 0, c.size)]
  {
    var t := Recording(c, AfterBegin(s, b, ""), b, result, 0, false);
    assert t == map[a := Stale(c, result, warned), b := Completed(Pending(""), result, 0, c.size)];
    QuietSweep(c, t, a);
  }

  lemma StalePayload(c: Config, a: Key, b: Key, result: Fields, warned: Fields, t: Table)
    requires a != b && t == map[a := Stale(c, result, warned), b := Completed(Pending(""), result, 0, c.size)]
    ensures RetainedKeys(t) == {a} && Payload(c, t, RetainedKeys(t)) == c.size(warned)
  {
    assert RetainedKeys(t) == {a};
    PayloadRemove(c, t, {a}, a);
  }

  /** The budget can really be exceeded: whenever a result fits it and the result with its warning does
      not, a reachable state has a step with a sweep that leaves payloads above the budget. */
  lemma BudgetExceeded(c: Config, a: Key, b: Key, result: Fields, warned: Fields) returns (s: State, l: Label)
    requires a != b && c.limits.perWorkspace >= 1 && c.limits.payloadWindow >= 0
    requires c.size(result) <= c.limits.totalBytes < c.size(warned)
    ensures Reachable(c, s) && l.Store? && Enabled(c, s, l)
    ensures var t := Take(c, s, l).table; RetainedKeys(t) == {a} && Payload(c, t, RetainedKeys(t)) > c.limits.totalBytes
  {
    s := FirstCall(c, a, result, warned);
    l := Store(b, result, 0, 0, NOTHING, false);
    SecondStores(c, a, b, result, warned, s, l);
    ReachNext(c, s, Begin(b, ""));
    s := AfterBegin(s, b, "");
    StalePayload(c, a, b, result, warned, Take(c, s, l).table);
  }
}
