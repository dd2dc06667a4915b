/**
 Safety of the receipt protocol over every run: what every step keeps, how a key can leave the
 table, when a durable receipt stays durable, and what a replay answers.
 */
module ReceiptRuns {
  import opened Basics
  import opened ReceiptEnvelope
  import opened ReceiptRetention
  import opened ReceiptSweepLaws
  import opened ReceiptProtocol

  // ---------- Sweeps, one receipt at a time ----------

  /** What a sweep may make of a receipt that stays in the table. */
  predicate Survives(r: Receipt, r': Receipt) {
    || r' == r
    || (Retained(r) && r'.done && r'.complete
        && (r'.evicted || (r'.result == Trim(r.result) && r'.trimmed)))
  }

  lemma SweepKey(c: Config, t: Table, now: int, e: Evictions, k: Key)
    requires SweepOk(c, t, now, e)
    ensures k in SweepWith(c, t, now, e) <==> k in t && k !in e.dropped
    ensures k in SweepWith(c, t, now, e) ==> Survives(t[k], SweepWith(c, t, now, e)[k])
    ensures k in e.dropped ==> k in t && (t[k].evicted || Retained(t[k]))
  {
    SweptAt(t, SweepWith(c, t, now, e), c.limits, c.size, now, e, k);
  }

  lemma SurvivesFaithful(r: Receipt, r': Receipt, answer: Fields)
    requires Survives(r, r') && !r'.evicted && Faithful(r, answer)
    ensures Faithful(r', answer)
  {
    TrimIdempotent(answer);
  }

  // ---------- Steps that leave the table to a write ----------

  /** A table change at which k keeps its place. */
  predicate Kept(s: State, t: Table, k: Key) {
    && (k in s.calls ==> k in s.table && k in t && CallOk(t[k], s.calls[k]))
    && (k in t && k !in s.calls ==> k in s.table && Survives(s.table[k], t[k]))
  }

  lemma PersistTableOk(s: State, t: Table, w: string, written: bool, k: Key)
    requires TableOk(s, k) && Kept(s, t, k)
    ensures TableOk(Persisted(s, t, w, written), k)
  {
  }

  lemma PersistFilesOk(s: State, t: Table, w: string, written: bool, k: Key)
    requires FilesOk(s, k)
    ensures FilesOk(Persisted(s, t, w, written), k)
  {
  }

  lemma SnapshotAt(t: Table, w: string, k: Key)
    ensures k in Snapshot(t, w) <==> k in t && t[k].complete && k.workspace == w
    ensures k in Snapshot(t, w) ==> Snapshot(t, w)[k] == Save(t[k])
  {
  }

  lemma PersistAnswersOk(s: State, t: Table, w: string, written: bool, k: Key)
    requires TableOk(s, k) && AnswersOk(s, k) && Kept(s, t, k)
    ensures AnswersOk(Persisted(s, t, w, written), k)
  {
    if k in s.answers && k in t && !t[k].evicted {
      SurvivesFaithful(s.table[k], t[k], s.answers[k]);
    }
    if written { PersistFileOk(s, t, w, k); }
  }

  lemma PersistFileOk(s: State, t: Table, w: string, k: Key)
    requires TableOk(s, k) && AnswersOk(s, k) && Kept(s, t, k)
    requires k in s.answers && k in t && !t[k].evicted ==> Faithful(t[k], s.answers[k])
    ensures AnswersOk(Persisted(s, t, w, true), k)
  {
    SnapshotAt(t, w, k);
  }

  lemma PersistKeeps(s: State, t: Table, w: string, written: bool, k: Key)
    requires KeyOk(s, k) && Kept(s, t, k)
    ensures KeyOk(Persisted(s, t, w, written), k)
  {
    PersistTableOk(s, t, w, written, k);
    PersistFilesOk(s, t, w, written, k);
    PersistAnswersOk(s, t, w, written, k);
  }

  /** A sweep leaves a receipt in flight as it is. */
  lemma SweepInFlight(c: Config, t: Table, now: int, e: Evictions, k: Key)
    requires SweepOk(c, t, now, e) && k in t && !t[k].done && !t[k].evicted
    ensures k in SweepWith(c, t, now, e) && SweepWith(c, t, now, e)[k] == t[k]
  {
    SweepKey(c, t, now, e, k);
  }

  lemma SweptKept(c: Config, s: State, t: Table, now: int, e: Evictions, k: Key)
    requires SweepOk(c, t, now, e) && TableOk(s, k) && (k in t <==> k in s.table) && (k in t ==> t[k] == s.table[k])
    ensures Kept(s, SweepWith(c, t, now, e), k)
  {
    SweepKey(c, t, now, e, k);
  }

  lemma CheckpointKeeps(c: Config, s: State, l: Label, k: Key)
    requires l.Checkpoint? && Enabled(c, s, l) && KeyOk(s, k) && TableOk(s, l.key)
    ensures KeyOk(Take(c, s, l), k)
  {
    var recording := Recording(c, s, l.key, l.result, l.at, true);
    var swept := SweepWith(c, recording, l.now, l.e);
    SweepInFlight(c, recording, l.now, l.e, l.key);
    var t := if l.written then swept else swept[l.key := swept[l.key].(complete := false, checkpointed := false)];
    if k != l.key { SweptKept(c, s, recording, l.now, l.e, k); }
    assert Kept(s, t, k);
    PersistKeeps(s, t, l.key.workspace, l.written, k);
  }

  lemma StoreKeepsOther(c: Config, s: State, l: Label, k: Key)
    requires l.Store? && Enabled(c, s, l) && KeyOk(s, k) && TableOk(s, l.key) && k != l.key
    ensures KeyOk(Take(c, s, l), k)
  {
    var recording := Recording(c, s, l.key, l.result, l.at, s.table[l.key].checkpointed);
    var swept := SweepWith(c, recording, l.now, l.e);
    var answering := s.(calls := s.calls[l.key := Answering(l.result, l.written)]);
    SweptKept(c, s, recording, l.now, l.e, k);
    assert TableOk(answering, k) && AnswersOk(answering, k) && FilesOk(answering, k);
    assert Kept(answering, swept, k);
    PersistKeeps(answering, swept, l.key.workspace, l.written, k);
  }

  lemma StoreKeepsOwn(c: Config, s: State, l: Label)
    requires l.Store? && Enabled(c, s, l) && KeyOk(s, l.key)
    ensures KeyOk(Take(c, s, l), l.key)
  {
    var recording := Recording(c, s, l.key, l.result, l.at, s.table[l.key].checkpointed);
    var swept := SweepWith(c, recording, l.now, l.e);
    var answering := s.(calls := s.calls[l.key := Answering(l.result, l.written)]);
    SweepInFlight(c, recording, l.now, l.e, l.key);
    SnapshotAt(swept, l.key.workspace, l.key);
    PersistFilesOk(answering, swept, l.key.workspace, l.written, l.key);
  }

  lemma StoreKeeps(c: Config, s: State, l: Label, k: Key)
    requires l.Store? && Enabled(c, s, l) && KeyOk(s, k) && TableOk(s, l.key)
    ensures KeyOk(Take(c, s, l), k)
  {
    if k == l.key { StoreKeepsOwn(c, s, l); } else { StoreKeepsOther(c, s, l, k); }
  }

  lemma BeginKeeps(c: Config, s: State, l: Label, k: Key)
    requires l.Begin? && Enabled(c, s, l) && KeyOk(s, k)
    ensures KeyOk(Take(c, s, l), k)
  {
  }

  lemma FinishKeepsOwn(c: Config, s: State, l: Label)
    requires l.Finish? && Enabled(c, s, l) && KeyOk(s, l.key)
    ensures TableOk(Take(c, s, l), l.key) && AnswersOk(Take(c, s, l), l.key)
  {
  }

  lemma FinishKeepsOther(c: Config, s: State, l: Label, k: Key)
    requires l.Finish? && Enabled(c, s, l) && KeyOk(s, k) && k != l.key
    ensures TableOk(Take(c, s, l), k) && AnswersOk(Take(c, s, l), k)
  {
  }

  lemma FinishKeeps(c: Config, s: State, l: Label, k: Key)
    requires l.Finish? && Enabled(c, s, l) && KeyOk(s, k)
    ensures KeyOk(Take(c, s, l), k)
  {
    if k == l.key { FinishKeepsOwn(c, s, l); } else { FinishKeepsOther(c, s, l, k); }
    assert FilesOk(Take(c, s, l), k);
  }

  lemma AbandonKeeps(c: Config, s: State, l: Label, k: Key)
    requires l.Abandon? && Enabled(c, s, l) && KeyOk(s, k)
    ensures KeyOk(Take(c, s, l), k)
  {
  }

  lemma ForgetKeeps(c: Config, s: State, l: Label, k: Key)
    requires l.Forget? && Enabled(c, s, l) && KeyOk(s, k)
    ensures KeyOk(Take(c, s, l), k)
  {
  }

  lemma CrashKeeps(c: Config, s: State, l: Label, k: Key)
    requires l.Crash? && Enabled(c, s, l) && KeyOk(s, k)
    ensures KeyOk(Take(c, s, l), k)
  {
  }

  lemma AdoptedAt(c: Config, file: map<Key, Saved>, k: Key)
    ensures k in AdoptedTable(file, c.size, c.zero) <==> k in file && Adoptable(file[k])
    ensures k in AdoptedTable(file, c.size, c.zero) ==> AdoptedTable(file, c.size, c.zero)[k] == Adopted(file[k], c.size, c.zero)
  {
  }

  lemma AdoptedFaithful(c: Config, saved: Saved, answer: Fields)
    requires !saved.evicted && DerivedFrom(saved.result, answer)
    ensures Faithful(Adopted(saved, c.size, c.zero), answer)
  {
    TrimIdempotent(answer);
  }

  /** The state after the file is read and before the sweep. */
  function Restored(c: Config, s: State, w: string): State {
    s.(table := Restoring(c, s, w), loading := s.loading - {w})
  }

  lemma RestoredAt(c: Config, s: State, w: string, k: Key)
    requires KeyOk(s, k) && w in s.loading
    ensures (k !in FileOf(s, w) || !Adoptable(FileOf(s, w)[k])) ==>
              (k in Restoring(c, s, w) <==> k in s.table) && (k in s.table ==> Restoring(c, s, w)[k] == s.table[k])
    ensures k in FileOf(s, w) && Adoptable(FileOf(s, w)[k]) ==>
              && k.workspace == w && k !in s.calls && k in Restoring(c, s, w)
              && Restoring(c, s, w)[k] == Adopted(FileOf(s, w)[k], c.size, c.zero)
  {
    AdoptedAt(c, FileOf(s, w), k);
  }

  lemma RestoredTableOk(c: Config, s: State, w: string, k: Key)
    requires KeyOk(s, k) && w in s.loading
    ensures TableOk(Restored(c, s, w), k)
  {
    RestoredAt(c, s, w, k);
    if k in FileOf(s, w) { AdoptedDone(c, FileOf(s, w)[k]); }
  }

  lemma AdoptedDone(c: Config, saved: Saved)
    ensures Adopted(saved, c.size, c.zero).done && Adopted(saved, c.size, c.zero).complete
  {
  }

  lemma RestoredAnswersOk(c: Config, s: State, w: string, k: Key)
    requires KeyOk(s, k) && w in s.loading
    ensures AnswersOk(Restored(c, s, w), k)
  {
    RestoredAt(c, s, w, k);
    if k in FileOf(s, w) && Adoptable(FileOf(s, w)[k]) && !FileOf(s, w)[k].evicted && k in s.answers {
      AdoptedFaithful(c, FileOf(s, w)[k], s.answers[k]);
    }
  }

  lemma RestoredOk(c: Config, s: State, w: string, k: Key)
    requires KeyOk(s, k) && w in s.loading
    ensures KeyOk(Restored(c, s, w), k)
  {
    RestoredTableOk(c, s, w, k);
    RestoredAnswersOk(c, s, w, k);
    assert FilesOk(Restored(c, s, w), k);
  }

  lemma AdoptKeeps(c: Config, s: State, l: Label, k: Key)
    requires l.Adopt? && Enabled(c, s, l) && KeyOk(s, k)
    ensures KeyOk(Take(c, s, l), k)
  {
    var restored := Restored(c, s, l.workspace);
    RestoredOk(c, s, l.workspace, k);
    SweptKept(c, restored, restored.table, l.now, l.e, k);
    PersistKeeps(restored, SweepWith(c, restored.table, l.now, l.e), l.workspace, false, k);
  }

  lemma StepKeepsKey(c: Config, s: State, l: Label, k: Key)
    requires Enabled(c, s, l) && Inv(s)
    ensures KeyOk(Take(c, s, l), k)
  {
    assert KeyOk(s, k);
    match l {
      case Begin(_, _) => BeginKeeps(c, s, l, k);
      case Checkpoint(key, _, _, _, _, _) => assert KeyOk(s, key); CheckpointKeeps(c, s, l, k);
      case Store(key, _, _, _, _, _) => assert KeyOk(s, key); StoreKeeps(c, s, l, k);
      case Finish(_, _) => FinishKeeps(c, s, l, k);
      case Abandon(_) => AbandonKeeps(c, s, l, k);
      case Forget(_, _) => ForgetKeeps(c, s, l, k);
      case Crash => CrashKeeps(c, s, l, k);
      case Adopt(_, _, _) => AdoptKeeps(c, s, l, k);
    }
  }

  /** Every step keeps the invariant. */
  lemma StepKeeps(c: Config, s: State, l: Label)
    requires Enabled(c, s, l) && Inv(s)
    ensures Inv(Take(c, s, l))
  {
    forall k ensures KeyOk(Take(c, s, l), k) { StepKeepsKey(c, s, l, k); }
  }

  ghost predicate IsRun(c: Config, s: State, labels: seq<Label>)
    decreases |labels|
  {
    labels == [] || (Enabled(c, s, labels[0]) && IsRun(c, Take(c, s, labels[0]), labels[1..]))
  }

  /** The state a run ends in. */
  ghost function Final(c: Config, s: State, labels: seq<Label>): State
    requires IsRun(c, s, labels)
    decreases |labels|
  {
    if labels == [] then s else Final(c, Take(c, s, labels[0]), labels[1..])
  }

  lemma InitialInv()
    ensures Inv(Initial)
  {
  }

  /** The invariant holds after every run. */
  lemma {:induction false} RunKeeps(c: Config, s: State, labels: seq<Label>)
    requires Inv(s) && IsRun(c, s, labels)
    ensures Inv(Final(c, s, labels))
    decreases |labels|
  {
    if labels != [] {
      StepKeeps(c, s, labels[0]);
      RunKeeps(c, Take(c, s, labels[0]), labels[1..]);
    }
  }

  lemma {:induction false} RunSnoc(c: Config, s: State, labels: seq<Label>, l: Label)
    requires IsRun(c, s, labels) && Enabled(c, Final(c, s, labels), l)
    ensures IsRun(c, s, labels + [l]) && Final(c, s, labels + [l]) == Take(c, Final(c, s, labels), l)
    decreases |labels|
  {
    if labels == [] {
      assert (labels + [l])[1..] == [];
    } else {
      assert (labels + [l])[1..] == labels[1..] + [l];
      RunSnoc(c, Take(c, s, labels[0]), labels[1..], l);
    }
  }

  /** A call in flight has its receipt in the table, neither done nor evicted. */
  lemma InFlight(s: State, k: Key)
    requires Inv(s) && k in s.calls
    ensures k in s.table && CallOk(s.table[k], s.calls[k])
  {
    assert KeyOk(s, k);
  }

  // ---------- At most once ----------

  /** The key is in the table, or in a file the restart under way has still to adopt. */
  predicate Present(s: State, k: Key) {
    || k in s.table
    || (k.workspace in s.loading && InFile(s, k) && Adoptable(SavedOf(s, k)))
  }

  /** The ways a key is lost: abandoned, its tombstone beyond the cap, its workspace forgotten, or
      the service stopped with no record of it to adopt. */
  predicate Leaves(s: State, l: Label, k: Key) {
    match l
    case Begin(_, _) => false
    case Checkpoint(_, _, _, _, e, _) => k in e.dropped
    case Store(_, _, _, _, e, _) => k in e.dropped
    case Finish(_, _) => false
    case Abandon(key) => key == k
    case Forget(w, removed) => w == k.workspace && if k in s.table then s.table[k].done else removed
    case Crash => !InFile(s, k) || !Adoptable(SavedOf(s, k))
    case Adopt(_, _, e) => k in e.dropped
  }

  lemma RecordingPresent(c: Config, s: State, l: Label, k: Key)
    requires (l.Checkpoint? || l.Store?) && Enabled(c, s, l) && KeyOk(s, l.key)
    ensures k in Take(c, s, l).table <==> k in s.table && k !in l.e.dropped
    ensures Take(c, s, l).loading == s.loading
  {
    var flag := if l.Checkpoint? then true else s.table[l.key].checkpointed;
    var recording := Recording(c, s, l.key, l.result, l.at, flag);
    SweepKey(c, recording, l.now, l.e, k);
    SweepInFlight(c, recording, l.now, l.e, l.key);
  }

  lemma AdoptPresent(c: Config, s: State, l: Label, k: Key)
    requires l.Adopt? && Enabled(c, s, l) && KeyOk(s, k) && Present(s, k)
    ensures Present(Take(c, s, l), k) <==> k !in l.e.dropped
  {
    RestoredAt(c, s, l.workspace, k);
    SweepKey(c, Restoring(c, s, l.workspace), l.now, l.e, k);
  }

  /** A key present stays present exactly when the step is none of those; while it is present no
      execution is started for it. */
  lemma PresentStep(c: Config, s: State, l: Label, k: Key)
    requires Enabled(c, s, l) && Inv(s) && Present(s, k)
    ensures Present(Take(c, s, l), k) <==> !Leaves(s, l, k)
    ensures Take(c, s, l).started[k] == s.started[k]
  {
    assert KeyOk(s, k);
    match l {
      case Checkpoint(key, _, _, _, _, _) => assert KeyOk(s, key); RecordingPresent(c, s, l, k);
      case Store(key, _, _, _, _, _) => assert KeyOk(s, key); RecordingPresent(c, s, l, k);
      case Adopt(_, _, _) => AdoptPresent(c, s, l, k);
      case _ =>
    }
  }

  /** A key lost to the retention caps was a tombstone by then: finished and complete. */
  lemma DroppedWasTombstone(c: Config, s: State, l: Label, k: Key)
    requires Enabled(c, s, l) && Inv(s) && Leaves(s, l, k) && k in s.table && k !in Take(c, s, l).table
    requires l.Checkpoint? || l.Store? || l.Adopt?
    ensures s.table[k].done && s.table[k].complete && k !in s.calls
  {
    assert KeyOk(s, k);
    if l.Adopt? {
      RestoredAt(c, s, l.workspace, k);
      SweepKey(c, Restoring(c, s, l.workspace), l.now, l.e, k);
    } else {
      assert KeyOk(s, l.key);
      var flag := if l.Checkpoint? then true else s.table[l.key].checkpointed;
      var recording := Recording(c, s, l.key, l.result, l.at, flag);
      SweepInFlight(c, recording, l.now, l.e, l.key);
      SweepKey(c, recording, l.now, l.e, k);
    }
  }

  /** An execution starts only for a key that is not present, and makes it present. */
  lemma StartStep(c: Config, s: State, l: Label, k: Key)
    requires Enabled(c, s, l) && !Present(s, k)
    ensures Take(c, s, l).started[k] <= s.started[k] + if Present(Take(c, s, l), k) then 1 else 0
  {
  }

  /** How often the key is lost during a run. */
  ghost function Losses(c: Config, s: State, labels: seq<Label>, k: Key): nat
    requires IsRun(c, s, labels)
    decreases |labels|
  {
    if labels == [] then 0
    else (if Present(s, k) && Leaves(s, labels[0], k) then 1 else 0) + Losses(c, Take(c, s, labels[0]), labels[1..], k)
  }

  function One(b: bool): nat { if b then 1 else 0 }

  /** At most once: a key is executed at most once more than it is lost. */
  lemma {:induction false} ExecutionsBounded(c: Config, s: State, labels: seq<Label>, k: Key)
    requires Inv(s) && IsRun(c, s, labels)
    ensures var end := Final(c, s, labels);
            end.started[k] + One(Present(s, k)) <= s.started[k] + Losses(c, s, labels, k) + One(Present(end, k))
    decreases |labels|
  {
    if labels != [] {
      StepKeeps(c, s, labels[0]);
      ExecutionsBounded(c, Take(c, s, labels[0]), labels[1..], k);
      if Present(s, k) { PresentStep(c, s, labels[0], k); } else { StartStep(c, s, labels[0], k); }
    }
  }

  /** At most once, from the start of the service: a key never lost is executed at most once. */
  lemma AtMostOnce(c: Config, labels: seq<Label>, k: Key)
    requires IsRun(c, Initial, labels)
    ensures Final(c, Initial, labels).started[k] <= 1 + Losses(c, Initial, labels, k)
  {
    InitialInv();
    ExecutionsBounded(c, Initial, labels, k);
  }

  // ---------- Durability ----------

  predicate AdoptableReceipt(r: Receipt) { r.evicted || !ProviderBacked(r.result) }

  /** The key's record is on disk and would be adopted, and the table would write such a record again. */
  predicate Durable(s: State, k: Key) {
    && InFile(s, k) && Adoptable(SavedOf(s, k))
    && (k.workspace !in s.loading ==> k in s.table && s.table[k].complete && AdoptableReceipt(s.table[k]))
  }

  /** The steps that end durability: its own record becomes one a restart drops or is taken back, its
      tombstone goes beyond the cap, or its workspace is forgotten. A crash is not among them. */
  predicate Voids(s: State, l: Label, k: Key) {
    match l
    case Begin(_, _) => false
    case Checkpoint(key, result, _, _, e, written) => if key == k then !written || ProviderBacked(result) else k in e.dropped
    case Store(key, result, _, _, e, _) => if key == k then ProviderBacked(result) else k in e.dropped
    case Finish(key, warned) => key == k && key in s.calls && s.calls[key].Answering? && !s.calls[key].written && ProviderBacked(warned)
    case Abandon(_) => false
    case Forget(w, removed) => w == k.workspace && (removed || (k in s.table && s.table[k].done))
    case Crash => false
    case Adopt(_, _, e) => k in e.dropped
  }

  lemma TrimKeepsBacking(result: Fields)
    ensures ProviderBacked(Trim(result)) == ProviderBacked(result)
  {
    TrimAt(result, Transaction);
  }

  lemma SurvivesAdoptable(r: Receipt, r': Receipt)
    requires Survives(r, r') && AdoptableReceipt(r)
    ensures AdoptableReceipt(r') && (r.complete ==> r'.complete)
  {
    TrimKeepsBacking(r.result);
  }

  /** A write keeps or makes durable what the new table can vouch for. */
  lemma PersistDurable(s: State, t: Table, w: string, written: bool, k: Key)
    requires k.workspace !in s.loading && (Durable(s, k) || (written && w == k.workspace))
    ensures Durable(Persisted(s, t, w, written), k) <==> k in t && t[k].complete && AdoptableReceipt(t[k])
  {
    SnapshotAt(t, w, k);
  }

  lemma OtherWriteDurable(c: Config, s: State, l: Label, k: Key)
    requires (l.Checkpoint? || l.Store?) && Enabled(c, s, l) && KeyOk(s, l.key) && Durable(s, k) && k != l.key
    ensures Durable(Take(c, s, l), k) <==> k !in l.e.dropped
  {
    var flag := if l.Checkpoint? then true else s.table[l.key].checkpointed;
    var recording := Recording(c, s, l.key, l.result, l.at, flag);
    var t := Take(c, s, l).table;
    SweepKey(c, recording, l.now, l.e, k);
    SweepInFlight(c, recording, l.now, l.e, l.key);
    if k in t { SurvivesAdoptable(recording[k], t[k]); }
    var calls := if l.Checkpoint? then s.calls else s.calls[l.key := Answering(l.result, l.written)];
    PersistDurable(s.(calls := calls), t, l.key.workspace, l.written, k);
  }

  /** Writing a key's own receipt makes it durable unless a restart would drop it. */
  lemma OwnWriteDurable(c: Config, s: State, l: Label)
    requires (l.Checkpoint? || l.Store?) && Enabled(c, s, l) && KeyOk(s, l.key) && (l.written || Durable(s, l.key))
    ensures Durable(Take(c, s, l), l.key) <==> !ProviderBacked(l.result) && (l.written || l.Store?)
  {
    var flag := if l.Checkpoint? then true else s.table[l.key].checkpointed;
    var recording := Recording(c, s, l.key, l.result, l.at, flag);
    var t := Take(c, s, l).table;
    SweepInFlight(c, recording, l.now, l.e, l.key);
    var calls := if l.Checkpoint? then s.calls else s.calls[l.key := Answering(l.result, l.written)];
    PersistDurable(s.(calls := calls), t, l.key.workspace, l.written, l.key);
  }

  lemma AdoptedAdoptable(c: Config, saved: Saved)
    requires Adoptable(saved)
    ensures var r := Adopted(saved, c.size, c.zero); r.complete && AdoptableReceipt(r)
  {
    TrimKeepsBacking(saved.result);
  }

  lemma RestoredDurable(c: Config, s: State, w: string, k: Key)
    requires KeyOk(s, k) && w in s.loading && Durable(s, k)
    ensures Durable(Restored(c, s, w), k)
    ensures k in Restoring(c, s, w) || k.workspace in Restored(c, s, w).loading
  {
    RestoredAt(c, s, w, k);
    AdoptedAdoptable(c, SavedOf(s, k));
  }

  lemma SweepDurable(c: Config, s: State, now: int, e: Evictions, k: Key)
    requires SweepOk(c, s.table, now, e) && TableOk(s, k) && Durable(s, k)
    ensures Durable(s.(table := SweepWith(c, s.table, now, e)), k) <==> k !in e.dropped
  {
    var t := SweepWith(c, s.table, now, e);
    SweepKey(c, s.table, now, e, k);
    if k in t { SurvivesAdoptable(s.table[k], t[k]); }
  }

  lemma AdoptDurable(c: Config, s: State, l: Label, k: Key)
    requires l.Adopt? && Enabled(c, s, l) && KeyOk(s, k) && Durable(s, k)
    ensures Durable(Take(c, s, l), k) <==> k !in l.e.dropped
  {
    RestoredOk(c, s, l.workspace, k);
    RestoredDurable(c, s, l.workspace, k);
    SweepDurable(c, Restored(c, s, l.workspace), l.now, l.e, k);
  }

  lemma WriteDurable(c: Config, s: State, l: Label, k: Key)
    requires (l.Checkpoint? || l.Store?) && Enabled(c, s, l) && Inv(s) && Durable(s, k)
    ensures Durable(Take(c, s, l), k) <==> !Voids(s, l, k)
    ensures Take(c, s, l).started == s.started
  {
    assert KeyOk(s, k) && KeyOk(s, l.key);
    if l.key == k { OwnWriteDurable(c, s, l); } else { OtherWriteDurable(c, s, l, k); }
  }

  /** One step keeps a receipt durable exactly when it is not one of those steps. */
  lemma DurableStep(c: Config, s: State, l: Label, k: Key)
    requires Enabled(c, s, l) && Inv(s) && Durable(s, k)
    ensures Durable(Take(c, s, l), k) <==> !Voids(s, l, k)
    ensures Take(c, s, l).started[k] == s.started[k]
  {
    assert KeyOk(s, k);
    match l {
      case Checkpoint(_, _, _, _, _, _) => WriteDurable(c, s, l, k);
      case Store(_, _, _, _, _, _) => WriteDurable(c, s, l, k);
      case Adopt(_, _, _) => AdoptDurable(c, s, l, k);
      case _ => QuietDurable(c, s, l, k);
    }
  }

  lemma QuietDurable(c: Config, s: State, l: Label, k: Key)
    requires !l.Checkpoint? && !l.Store? && !l.Adopt? && Enabled(c, s, l) && KeyOk(s, k) && Durable(s, k)
    ensures Durable(Take(c, s, l), k) <==> !Voids(s, l, k)
    ensures Take(c, s, l).started[k] == s.started[k]
  {
  }

  /** No step of the run ends the key's durability. */
  ghost predicate NeverVoided(c: Config, s: State, labels: seq<Label>, k: Key)
    requires IsRun(c, s, labels)
    decreases |labels|
  {
    labels == [] || (!Voids(s, labels[0], k) && NeverVoided(c, Take(c, s, labels[0]), labels[1..], k))
  }

  /** A durable receipt is never executed again, through any number of crashes and restarts, until
      one of those steps. */
  lemma {:induction false} DurableRun(c: Config, s: State, labels: seq<Label>, k: Key)
    requires Inv(s) && IsRun(c, s, labels) && Durable(s, k) && NeverVoided(c, s, labels, k)
    ensures Durable(Final(c, s, labels), k) && Final(c, s, labels).started[k] == s.started[k]
    decreases |labels|
  {
    if labels != [] {
      StepKeeps(c, s, labels[0]);
      DurableStep(c, s, labels[0], k);
      DurableRun(c, Take(c, s, labels[0]), labels[1..], k);
    }
  }

  /** An edit whose checkpoint was durably written is not executed again before one of those steps,
      even if the service stops right after the write. */
  lemma CheckpointedNotRepeated(c: Config, s: State, l: Label, labels: seq<Label>)
    requires Inv(s) && l.Checkpoint? && Enabled(c, s, l) && l.written && !ProviderBacked(l.result)
    requires IsRun(c, Take(c, s, l), labels) && NeverVoided(c, Take(c, s, l), labels, l.key)
    ensures Final(c, Take(c, s, l), labels).started[l.key] == s.started[l.key]
  {
    assert KeyOk(s, l.key);
    OwnWriteDurable(c, s, l);
    StepKeeps(c, s, l);
    DurableRun(c, Take(c, s, l), labels, l.key);
  }

  // ---------- What a replay answers ----------

  /** A key's history starts afresh with its call: one more execution, and no answer, saved or replaced
      payload of an earlier one. */
  lemma BeginsAfresh(c: Config, s: State, l: Label)
    requires l.Begin? && Enabled(c, s, l)
    ensures var s' := Take(c, s, l);
            && s'.started == s.started + multiset{l.key} && l.key !in s'.answers && l.key !in s'.safe && l.key !in s'.replaced
            && l.key in s'.calls && s'.calls[l.key].Running? && l.key in s'.table && s'.table[l.key].argumentsHash == l.argumentsHash
            && !s'.table[l.key].done && !s'.table[l.key].complete
  {
  }

  /** A stored result is in the table as it is, with its time and size, whatever the sweep did to others. */
  lemma StoresResult(c: Config, s: State, l: Label)
    requires Inv(s) && (l.Store? || (l.Checkpoint? && l.written)) && Enabled(c, s, l)
    ensures var s' := Take(c, s, l);
            && l.key in s'.table
            && var r := s'.table[l.key];
               r.result == l.result && r.completedAt == l.at && r.bytes == c.size(l.result) && r.complete && !r.evicted && !r.trimmed
  {
    InFlight(s, l.key);
    var flag := l.Checkpoint? || s.table[l.key].checkpointed;
    SweepInFlight(c, Recording(c, s, l.key, l.result, l.at, flag), l.now, l.e, l.key);
  }

  /** The answer of a call that finishes survives a crash exactly when it was written. */
  lemma WrittenAnswerSurvives(c: Config, s: State, l: Label)
    requires l.Finish? && Enabled(c, s, l)
    ensures var s' := Take(c, Take(c, s, l), Crash);
            && (l.key in s'.answers <==> s.calls[l.key].written)
            && (l.key in s'.answers ==> s'.answers[l.key] == Take(c, s, l).answers[l.key])
            && s'.table == map[] && s'.loading == s'.files.Keys && s'.replaced == {}
  {
  }

  /** A durable write saves the answers of every finished call of its workspace, and of no other, from a crash. */
  lemma WriteSavesAnswers(c: Config, s: State, l: Label, k: Key)
    requires Inv(s) && (l.Store? || l.Checkpoint?) && Enabled(c, s, l) && k in s.answers
    ensures k in Take(c, Take(c, s, l), Crash).answers <==> k in s.safe || (l.written && k.workspace == l.key.workspace)
  {
    assert KeyOk(s, k);
    if l.Checkpoint? { CheckpointSaves(c, s, l, k); }
  }

  lemma CheckpointSaves(c: Config, s: State, l: Label, k: Key)
    requires l.Checkpoint? && Enabled(c, s, l) && k in s.answers
    ensures k in Take(c, Take(c, s, l), Crash).answers <==> k in s.safe || (l.written && k.workspace == l.key.workspace)
  {
    var s' := AfterCheckpoint(c, s, l.key, l.result, l.at, l.now, l.e, l.written);
    assert Take(c, s, l) == s';
    assert s'.answers == s.answers && (k in s'.safe <==> k in s.safe || (l.written && k.workspace == l.key.workspace));
  }

  /** Any replay of a finished call answers from that call's own envelope: whole, or trimmed and
      then so marked; an evicted receipt is refused. This holds after restarts too, for the
      envelopes a file write had included. */
  lemma ReplayAnswers(c: Config, labels: seq<Label>, k: Key, requestId: string, argumentsHash: string)
    requires IsRun(c, Initial, labels)
    requires var s := Final(c, Initial, labels); k in s.answers && k in s.table && s.table[k].argumentsHash == argumentsHash
    ensures var s := Final(c, Initial, labels);
            var r := s.table[k];
            var answer := Replay(requestId, argumentsHash, r.argumentsHash, r.evicted, r.trimmed, r.result);
            && r.done
            && (r.evicted ==> answer == Evicted)
            && (!r.evicted && !r.trimmed ==> answer == Replayed(ReplayEnvelope(requestId, false, s.answers[k])))
            && (!r.evicted && r.trimmed ==>
                  || answer == Replayed(ReplayEnvelope(requestId, true, Trim(s.answers[k])))
                  || answer == Replayed(ReplayEnvelope(requestId, true, s.answers[k])))
  {
    InitialInv();
    RunKeeps(c, Initial, labels);
    assert KeyOk(Final(c, Initial, labels), k);
  }
}
