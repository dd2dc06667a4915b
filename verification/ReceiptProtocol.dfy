/**
 The at-most-once protocol around the receipt store, as a state machine over the critical
 sections of calls, the workspace sweep, crashes and restarts.
 */
module ReceiptProtocol {
  import opened Basics
  import opened ReceiptEnvelope
  import opened ReceiptRetention
  import opened ReceiptSweepLaws

  datatype Config = Config(limits: Limits, size: Fields -> nat, zero: int)

  /** A call in flight: executing, or stored and about to answer. */
  datatype Phase = Running | Answering(answer: Fields, written: bool)

  /** The replay table, the receipt files, the calls in flight and the files a restart has still to
      read; the rest is history: `started` the executions begun, `answers` the envelope each finished
      call returned, `safe` the keys whose envelope some file write has included, `replaced` the keys
      whose payload was replaced because it could not be written. */
  datatype State = State(
    table: Table,
    files: map<string, map<Key, Saved>>,
    calls: map<Key, Phase>,
    loading: set<string>,
    started: multiset<Key>,
    answers: map<Key, Fields>,
    safe: set<Key>,
    replaced: set<Key>)

  /** One critical section. `e` is what the retention sweep inside it evicted, `written` whether the
      workspace's file was durably written. */
  datatype Label =
    | Begin(key: Key, argumentsHash: string)
    | Checkpoint(key: Key, result: Fields, at: int, now: int, e: Evictions, written: bool)
    | Store(key: Key, result: Fields, at: int, now: int, e: Evictions, written: bool)
    | Finish(key: Key, warned: Fields)
    | Abandon(key: Key)
    | Forget(workspace: string, removed: bool)
    | Crash
    | Adopt(workspace: string, now: int, e: Evictions)

  function SweepWith(c: Config, t: Table, now: int, e: Evictions): Table {
    EvictAll(AgedTable(t, c.limits, c.size, now), e.byCount + e.byBytes) - e.dropped
  }

  ghost predicate SweepOk(c: Config, t: Table, now: int, e: Evictions) {
    Swept(t, SweepWith(c, t, now, e), c.limits, c.size, now, e)
  }

  /** The table with a completed receipt, before the sweep. */
  function Recording(c: Config, s: State, key: Key, result: Fields, at: int, checkpointed: bool): Table
    requires key in s.table
  {
    s.table[key := Completed(s.table[key].(checkpointed := checkpointed), result, at, c.size)]
  }

  function AnsweredIn(s: State, workspace: string): (r: set<Key>) { set k | k in s.answers && k.workspace == workspace }

  /** The state with a new table whose workspace file was or was not written. */
  function Persisted(s: State, t: Table, workspace: string, written: bool): State {
    if written
    then s.(table := t, files := s.files[workspace := Snapshot(t, workspace)], safe := s.safe + AnsweredIn(s, workspace))
    else s.(table := t)
  }

  function FileOf(s: State, workspace: string): map<Key, Saved> {
    if workspace in s.files then s.files[workspace] else map[]
  }

  function Restoring(c: Config, s: State, workspace: string): Table {
    s.table + AdoptedTable(FileOf(s, workspace), c.size, c.zero)
  }

  ghost predicate Enabled(c: Config, s: State, l: Label) {
    match l
    case Begin(key, _) => s.loading == {} && key !in s.table
    case Checkpoint(key, result, at, now, e, _) =>
      && key in s.calls && s.calls[key].Running? && key in s.table
      && SweepOk(c, Recording(c, s, key, result, at, true), now, e)
    case Store(key, result, at, now, e, _) =>
      && key in s.calls && s.calls[key].Running? && key in s.table
      && SweepOk(c, Recording(c, s, key, result, at, s.table[key].checkpointed), now, e)
    case Finish(key, _) => key in s.calls && s.calls[key].Answering? && key in s.table
    case Abandon(key) => key in s.calls && s.calls[key].Running? && key in s.table && !s.table[key].checkpointed
    case Forget(_, _) => true
    case Crash => true
    case Adopt(workspace, now, e) => workspace in s.loading && SweepOk(c, Restoring(c, s, workspace), now, e)
  }

  function AfterBegin(s: State, key: Key, argumentsHash: string): State {
    s.(table := s.table[key := Pending(argumentsHash)], calls := s.calls[key := Running],
       started := s.started + multiset{key}, answers := s.answers - {key}, safe := s.safe - {key}, replaced := s.replaced - {key})
  }

  /** A failed write takes the checkpoint back. */
  function AfterCheckpoint(c: Config, s: State, key: Key, result: Fields, at: int, now: int, e: Evictions, written: bool): State
    requires key in s.table
  {
    var swept := SweepWith(c, Recording(c, s, key, result, at, true), now, e);
    var t := if written || key !in swept then swept else swept[key := swept[key].(complete := false, checkpointed := false)];
    Persisted(s, t, key.workspace, written)
  }

  function AfterStore(c: Config, s: State, key: Key, result: Fields, at: int, now: int, e: Evictions, written: bool): State
    requires key in s.table
  {
    var swept := SweepWith(c, Recording(c, s, key, result, at, s.table[key].checkpointed), now, e);
    Persisted(s.(calls := s.calls[key := Answering(result, written)]), swept, key.workspace, written)
  }

  /** The stored payload is replaced only when it was not persisted. The caller gets the envelope. */
  function AfterFinish(s: State, key: Key, warned: Fields): State
    requires key in s.table && key in s.calls && s.calls[key].Answering?
  {
    var phase, r := s.calls[key], s.table[key];
    var answer := if phase.written then phase.answer else warned;
    var kept := if phase.written then r.result else warned;
    s.(table := s.table[key := r.(result := kept, done := true)], calls := s.calls - {key},
       answers := s.answers[key := answer], safe := if phase.written then s.safe + {key} else s.safe - {key},
       replaced := if phase.written then s.replaced else s.replaced + {key})
  }

  function AfterForget(s: State, workspace: string, removed: bool): State {
    s.(table := s.table - Finished(s.table, workspace), files := if removed then s.files - {workspace} else s.files)
  }

  /** Memory is lost; of the history, what a file write had included still counts. */
  function AfterCrash(s: State): State {
    s.(table := map[], calls := map[], loading := s.files.Keys, replaced := {}, answers := map k | k in s.answers && k in s.safe :: s.answers[k])
  }

  function AfterAdopt(c: Config, s: State, workspace: string, now: int, e: Evictions): State {
    s.(table := SweepWith(c, Restoring(c, s, workspace), now, e), loading := s.loading - {workspace})
  }

  ghost function Take(c: Config, s: State, l: Label): State
    requires Enabled(c, s, l)
  {
    match l
    case Begin(key, argumentsHash) => AfterBegin(s, key, argumentsHash)
    case Checkpoint(key, result, at, now, e, written) => AfterCheckpoint(c, s, key, result, at, now, e, written)
    case Store(key, result, at, now, e, written) => AfterStore(c, s, key, result, at, now, e, written)
    case Finish(key, warned) => AfterFinish(s, key, warned)
    case Abandon(key) => s.(table := s.table - {key}, calls := s.calls - {key})
    case Forget(workspace, removed) => AfterForget(s, workspace, removed)
    case Crash => AfterCrash(s)
    case Adopt(workspace, now, e) => AfterAdopt(c, s, workspace, now, e)
  }

  const Initial: State := State(map[], map[], map[], {}, multiset{}, map[], {}, {})

  // ---------- The invariant, key by key ----------

  /** What replays of `answer` may be served from. */
  predicate DerivedFrom(result: Fields, answer: Fields) { result == answer || result == Trim(answer) }

  /** A stored receipt against the answer its call gave: the answer itself or, if so marked, its trimmed form. */
  predicate Faithful(r: Receipt, answer: Fields) { DerivedFrom(r.result, answer) && (!r.trimmed ==> r.result == answer) }

  predicate InFile(s: State, k: Key) { k in FileOf(s, k.workspace) }

  function SavedOf(s: State, k: Key): Saved
    requires InFile(s, k)
  {
    FileOf(s, k.workspace)[k]
  }

  predicate CallOk(r: Receipt, phase: Phase) {
    && !r.done && !r.evicted && !r.trimmed
    && (phase.Running? && r.complete ==> r.checkpointed)
    && (phase.Answering? ==> r.complete && r.result == phase.answer)
  }

  predicate TableOk(s: State, k: Key) {
    && (k in s.calls ==> k in s.table && s.loading == {} && CallOk(s.table[k], s.calls[k]))
    && (k in s.table && k !in s.calls ==> s.table[k].done && s.table[k].complete)
    && (k in s.table ==> k.workspace !in s.loading)
  }

  ghost predicate FilesOk(s: State, k: Key) {
    forall w :: w in s.files && k in s.files[w] ==> w == k.workspace
  }

  predicate AnswersOk(s: State, k: Key) {
    && (k in s.answers ==> k !in s.calls)
    && (k in s.answers && k.workspace in s.loading ==> k in s.safe)
    && (k in s.answers && k in s.table && !s.table[k].evicted ==> Faithful(s.table[k], s.answers[k]))
    && (k in s.safe && k in s.answers && InFile(s, k) && !SavedOf(s, k).evicted ==> DerivedFrom(SavedOf(s, k).result, s.answers[k]))
    && (k in s.calls && s.calls[k].Answering? && s.calls[k].written && InFile(s, k) ==>
          !SavedOf(s, k).evicted && SavedOf(s, k).result == s.calls[k].answer)
  }

  ghost predicate KeyOk(s: State, k: Key) { TableOk(s, k) && FilesOk(s, k) && AnswersOk(s, k) }

  ghost predicate Inv(s: State) { forall k :: KeyOk(s, k) }
}
