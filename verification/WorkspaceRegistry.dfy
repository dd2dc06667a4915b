/**
 The workspace registry: records opened on first use under two locks, adopted, persisted,
 rolled back and forgotten by any interleaving of threads.
 */
module WorkspaceRegistry {
  import opened Basics

  type Id = string

  /** An open workspace object, by identity. */
  type Object = nat

  type Thread = nat

  datatype Definition = Definition(kind: string, root: string, files: seq<string>)

  datatype Record = Record(definition: Definition, epoch: nat, stateSeq: nat)

  /** Where a thread stands between critical sections. */
  datatype Pc =
    | Idle
    | WantsOpen(id: Id)
    | Checking(id: Id)
    | Opening(id: Id)
    | WantsForget(ids: set<Id>)
    | Forgetting(ids: set<Id>)
    | Persisting(id: Id)

  /** `lock` is the holder of loadMu. `published`, `issued`, `gone` and `returned` are history: the
      object each ID was opened as, the IDs ever registered, the IDs forgotten or rolled back, and
      the objects resolved to. */
  datatype State = State(
    items: map<Id, Object>, records: map<Id, Record>, lock: Option<Thread>, threads: map<Thread, Pc>,
    published: map<Id, Object>, issued: set<Id>, gone: set<Id>, returned: set<(Id, Object)>)

  datatype Step =
    | Resolve(t: Thread, id: Id)
    | LockToOpen(t: Thread)
    | Recheck(t: Thread)
    | Publish(t: Thread, workspace: Object)
    | OpenFails(t: Thread)
    | AskForget(t: Thread, ids: set<Id>)
    | LockToForget(t: Thread)
    | Delete(t: Thread)
    | AdoptNew(t: Thread, id: Id, workspace: Object, record: Record)
    | PersistSucceeds(t: Thread)
    | PersistFails(t: Thread)
    | SaveIdentity(id: Id, epoch: nat, stateSeq: nat)

  function PcOf(s: State, t: Thread): Pc { if t in s.threads then s.threads[t] else Idle }

  predicate HoldsLock(pc: Pc) { pc.Checking? || pc.Opening? || pc.Forgetting? }

  /** An equivalent definition is registered. */
  ghost predicate Registered(s: State, d: Definition) { exists id :: id in s.records && s.records[id].definition == d }

  /** When a step can be taken. A new workspace's ID has never been used. */
  ghost predicate Enabled(s: State, step: Step) {
    match step
    case Resolve(t, _) => PcOf(s, t).Idle?
    case LockToOpen(t) => PcOf(s, t).WantsOpen? && s.lock.None?
    case Recheck(t) => PcOf(s, t).Checking?
    case Publish(t, _) => PcOf(s, t).Opening?
    case OpenFails(t) => PcOf(s, t).Opening?
    case AskForget(t, _) => PcOf(s, t).Idle?
    case LockToForget(t) => PcOf(s, t).WantsForget? && s.lock.None?
    case Delete(t) => PcOf(s, t).Forgetting?
    case AdoptNew(t, id, _, record) => PcOf(s, t).Idle? && id !in s.issued && !Registered(s, record.definition)
    case PersistSucceeds(t) => PcOf(s, t).Persisting?
    case PersistFails(t) => PcOf(s, t).Persisting?
    case SaveIdentity(id, _, _) => true
  }

  function To(s: State, t: Thread, pc: Pc): State { s.(threads := s.threads[t := pc]) }

  /** Answers with an open workspace, or with none if the ID is unknown, and stays out of the slow path. */
  function Answer(s: State, t: Thread, id: Id): State {
    To(s.(returned := if id in s.items then s.returned + {(id, s.items[id])} else s.returned), t, Idle)
  }

  ghost function Take(s: State, step: Step): State
    requires Enabled(s, step)
  {
    match step
    case Resolve(t, id) => if id in s.items || id !in s.records then Answer(s, t, id) else To(s, t, WantsOpen(id))
    case LockToOpen(t) => To(s.(lock := Some(t)), t, Checking(PcOf(s, t).id))
    case Recheck(t) =>
      var id := PcOf(s, t).id;
      if id in s.items || id !in s.records then Answer(s, t, id).(lock := None) else To(s, t, Opening(id))
    case Publish(t, workspace) =>
      var id := PcOf(s, t).id;
      To(s.(items := s.items[id := workspace], published := s.published[id := workspace],
            returned := s.returned + {(id, workspace)}, lock := None), t, Idle)
    case OpenFails(t) => To(s.(lock := None), t, Idle)
    case AskForget(t, ids) => To(s, t, WantsForget(ids))
    case LockToForget(t) => To(s.(lock := Some(t)), t, Forgetting(PcOf(s, t).ids))
    case Delete(t) =>
      var ids := PcOf(s, t).ids;
      To(s.(items := s.items - ids, records := s.records - ids, gone := s.gone + (ids * s.records.Keys), lock := None), t, Idle)
    case AdoptNew(t, id, workspace, record) =>
      To(s.(items := s.items[id := workspace], records := s.records[id := record],
            published := s.published[id := workspace], issued := s.issued + {id}), t, Persisting(id))
    case PersistSucceeds(t) =>
      var id := PcOf(s, t).id;
      To(s.(returned := if id in s.published then s.returned + {(id, s.published[id])} else s.returned), t, Idle)
    case PersistFails(t) =>
      var id := PcOf(s, t).id;
      To(s.(items := s.items - {id}, records := s.records - {id}, gone := s.gone + {id}), t, Idle)
    case SaveIdentity(id, epoch, stateSeq) =>
      if id in s.records && id in s.items
      then s.(records := s.records[id := s.records[id].(epoch := epoch, stateSeq := stateSeq)]) else s
  }

  // ---------- The invariant ----------

  predicate IdOk(s: State, id: Id) {
    && (id in s.items ==> id in s.records && id in s.published && s.published[id] == s.items[id])
    && (id in s.records ==> id in s.issued && id !in s.gone)
    && (id in s.published ==> id in s.issued && (id in s.items || id in s.gone))
    && (id in s.gone ==> id in s.issued)
  }

  predicate ThreadOk(s: State, t: Thread) {
    var pc := PcOf(s, t);
    && (HoldsLock(pc) <==> s.lock == Some(t))
    && (pc.Opening? ==> pc.id in s.records && pc.id !in s.items)
    && (pc.Persisting? ==> pc.id in s.published)
  }

  /** No two records share kind, root and file list. */
  ghost predicate OneRecordEach(s: State) {
    forall a, b :: a in s.records && b in s.records && s.records[a].definition == s.records[b].definition ==> a == b
  }

  ghost predicate ReturnedOk(s: State) {
    forall id, workspace :: (id, workspace) in s.returned ==> id in s.published && s.published[id] == workspace
  }

  ghost predicate Inv(s: State) {
    && (forall id :: IdOk(s, id)) && (forall t :: ThreadOk(s, t)) && OneRecordEach(s) && ReturnedOk(s)
  }

  /** At startup every record is closed. */
  ghost predicate Initial(s: State) {
    && s.items == map[] && s.published == map[] && s.gone == {} && s.returned == {} && s.lock == None && s.threads == map[]
    && s.issued == s.records.Keys && OneRecordEach(s)
  }

  lemma InitialInv(s: State)
    requires Initial(s)
    ensures Inv(s)
  {
    forall id ensures IdOk(s, id) {}
    forall t ensures ThreadOk(s, t) {}
  }

  // ---------- Every step keeps it ----------

  lemma IdsKept(s: State, step: Step, id: Id)
    requires Inv(s) && Enabled(s, step)
    ensures IdOk(Take(s, step), id)
  {
    assert IdOk(s, id);
    if !step.SaveIdentity? {
      assert ThreadOk(s, step.t);
      if step.Delete? || step.AdoptNew? || step.PersistFails? { IdKeptByWrite(s, step, id); } else { IdKept(s, step, id); }
    }
  }

  lemma IdKeptByWrite(s: State, step: Step, id: Id)
    requires Enabled(s, step) && (step.Delete? || step.AdoptNew? || step.PersistFails?) && IdOk(s, id) && ThreadOk(s, step.t)
    requires step.PersistFails? ==> IdOk(s, PcOf(s, step.t).id)
    ensures IdOk(Take(s, step), id)
  {
  }

  lemma IdKept(s: State, step: Step, id: Id)
    requires Enabled(s, step) && !step.Delete? && !step.AdoptNew? && !step.PersistFails? && !step.SaveIdentity?
    requires IdOk(s, id) && ThreadOk(s, step.t) && (step.Publish? ==> IdOk(s, PcOf(s, step.t).id))
    ensures IdOk(Take(s, step), id)
  {
  }

  /** A thread that stays where it is keeps its facts while another one moves. */
  lemma OthersKept(s: State, step: Step, t: Thread)
    requires Inv(s) && Enabled(s, step) && !step.SaveIdentity? && step.t != t
    ensures ThreadOk(Take(s, step), t)
  {
    assert ThreadOk(s, t) && ThreadOk(s, step.t);
    var pc := PcOf(s, t);
    assert PcOf(Take(s, step), t) == pc;
    if pc.Opening? {
      assert IdOk(s, pc.id);
      if step.PersistFails? { assert IdOk(s, PcOf(s, step.t).id); }
    }
  }

  lemma MoverKept(s: State, step: Step)
    requires Inv(s) && Enabled(s, step) && !step.SaveIdentity?
    ensures ThreadOk(Take(s, step), step.t)
  {
    assert ThreadOk(s, step.t);
  }

  lemma ThreadsKept(s: State, step: Step, t: Thread)
    requires Inv(s) && Enabled(s, step)
    ensures ThreadOk(Take(s, step), t)
  {
    if step.SaveIdentity? { assert ThreadOk(s, t); }
    else if step.t == t { MoverKept(s, step); }
    else { OthersKept(s, step, t); }
  }

  lemma RecordsKept(s: State, step: Step)
    requires Inv(s) && Enabled(s, step)
    ensures OneRecordEach(Take(s, step))
  {
    if step.AdoptNew? { NewDefinition(s, step.record.definition); }
  }

  lemma NewDefinition(s: State, d: Definition)
    requires !Registered(s, d)
    ensures forall id :: id in s.records ==> s.records[id].definition != d
  {
  }

  lemma ReturnsKept(s: State, step: Step)
    requires Inv(s) && Enabled(s, step)
    ensures ReturnedOk(Take(s, step))
  {
    var s' := Take(s, step);
    forall id, workspace | (id, workspace) in s'.returned ensures id in s'.published && s'.published[id] == workspace {
      assert IdOk(s, id);
      if step.Publish? { PublishedOnce(s, step); }
      if step.Recheck? || step.PersistSucceeds? { assert ThreadOk(s, step.t); }
    }
  }

  /** A workspace is opened at most once: whoever publishes is the first to. */
  lemma PublishedOnce(s: State, step: Step)
    requires Inv(s) && Enabled(s, step) && step.Publish?
    ensures PcOf(s, step.t).id !in s.published
  {
    assert ThreadOk(s, step.t);
    assert IdOk(s, PcOf(s, step.t).id);
  }

  lemma StepKeeps(s: State, step: Step)
    requires Inv(s) && Enabled(s, step)
    ensures Inv(Take(s, step))
  {
    forall id ensures IdOk(Take(s, step), id) { IdsKept(s, step, id); }
    forall t ensures ThreadOk(Take(s, step), t) { ThreadsKept(s, step, t); }
    RecordsKept(s, step);
    ReturnsKept(s, step);
  }

  // ---------- Over whole runs ----------

  ghost predicate IsRun(s: State, steps: seq<Step>)
    decreases |steps|
  {
    steps == [] || (Enabled(s, steps[0]) && IsRun(Take(s, steps[0]), steps[1..]))
  }

  ghost function Final(s: State, steps: seq<Step>): State
    requires IsRun(s, steps)
    decreases |steps|
  {
    if steps == [] then s else Final(Take(s, steps[0]), steps[1..])
  }

  lemma {:induction false} RunKeeps(s: State, steps: seq<Step>)
    requires Inv(s) && IsRun(s, steps)
    ensures Inv(Final(s, steps))
    decreases |steps|
  {
    if steps != [] {
      StepKeeps(s, steps[0]);
      RunKeeps(Take(s, steps[0]), steps[1..]);
    }
  }

  /** Opened workspaces are registered, and no two records share kind, root and file list. */
  lemma ItemsAreRecords(s: State, steps: seq<Step>, id: Id)
    requires Initial(s) && IsRun(s, steps)
    ensures var end := Final(s, steps); (id in end.items ==> id in end.records) && OneRecordEach(end)
  {
    InitialInv(s);
    RunKeeps(s, steps);
    assert IdOk(Final(s, steps), id);
  }

  /** Two resolves of one ID never return different objects. */
  lemma SameObject(s: State, steps: seq<Step>, id: Id, a: Object, b: Object)
    requires Initial(s) && IsRun(s, steps)
    requires (id, a) in Final(s, steps).returned && (id, b) in Final(s, steps).returned
    ensures a == b
  {
    InitialInv(s);
    RunKeeps(s, steps);
  }

  /** A registered workspace that is open stays open until it is forgotten or its adoption is rolled
      back, and until then every resolve returns it. */
  lemma OpenStays(s: State, step: Step, id: Id)
    requires Inv(s) && Enabled(s, step) && id in s.items
    ensures (id in Take(s, step).items && Take(s, step).items[id] == s.items[id]) || id in Take(s, step).gone
  {
    assert IdOk(s, id);
    if step.Publish? { PublishedOnce(s, step); }
  }

  lemma GoneStep(s: State, step: Step, id: Id)
    requires Inv(s) && Enabled(s, step) && id in s.gone
    ensures id in Take(s, step).gone
  {
  }

  /** A workspace forgotten or rolled back is never registered or opened again, whatever open was
      racing with it. */
  lemma {:induction false} ForgottenStaysForgotten(s: State, steps: seq<Step>, id: Id)
    requires Inv(s) && IsRun(s, steps) && id in s.gone
    ensures var end := Final(s, steps); id in end.gone && id !in end.records && id !in end.items
    decreases |steps|
  {
    if steps == [] {
      assert IdOk(s, id);
    } else {
      StepKeeps(s, steps[0]);
      GoneStep(s, steps[0], id);
      ForgottenStaysForgotten(Take(s, steps[0]), steps[1..], id);
    }
  }

  /** What a returning call answers is in the history: the open object of the workspace it asked for, or
      the one it has just opened or persisted. */
  lemma ReturnsRecorded(s: State, step: Step)
    requires Enabled(s, step)
    ensures step.Resolve? && step.id in s.items ==> (step.id, s.items[step.id]) in Take(s, step).returned
    ensures step.Recheck? && PcOf(s, step.t).id in s.items ==> (PcOf(s, step.t).id, s.items[PcOf(s, step.t).id]) in Take(s, step).returned
    ensures step.Publish? ==> (PcOf(s, step.t).id, step.workspace) in Take(s, step).returned
    ensures step.PersistSucceeds? && PcOf(s, step.t).id in s.published ==>
              (PcOf(s, step.t).id, s.published[PcOf(s, step.t).id]) in Take(s, step).returned
    ensures s.returned <= Take(s, step).returned
  {
  }

  // ---------- The registry as one thread sees it ----------

  /** What adopting a workspace returns. */
  datatype Adoption = Created(workspace: Object) | Reused(workspace: Object) | RestoreFailed | PersistFailed

  class Registry {
    var items: map<Id, Object>
    var records: map<Id, Record>

    ghost predicate Valid()
      reads this
    {
      && items.Keys <= records.Keys
      && forall a, b :: a in records && b in records && records[a].definition == records[b].definition ==> a == b
    }

    constructor (loaded: map<Id, Record>)
      requires forall a, b :: a in loaded && b in loaded && loaded[a].definition == loaded[b].definition ==> a == b
      ensures Valid() && items == map[] && records == loaded
    {
      items, records := map[], loaded;
    }

    /** The open workspace, opened from its record on first use; `restored` is what opening gives. */
    method Resolve(id: Id, restored: Option<Object>) returns (workspace: Option<Object>, failed: bool)
      requires Valid()
      modifies this`items
      ensures Valid()
      ensures id in old(items) ==> workspace == Some(old(items)[id]) && !failed && items == old(items)
      ensures id !in records ==> workspace == None && !failed && items == old(items)
      ensures id in records && id !in old(items) ==>
                workspace == restored && failed == restored.None? &&
                items == if restored.Some? then old(items)[id := restored.value] else old(items)
    {
      if id in items { return Some(items[id]), false; }
      if id !in records { return None, false; }
      if restored.None? { return None, true; }
      items := items[id := restored.value];
      return restored, false;
    }

    method Forget(ids: seq<Id>)
      requires Valid()
      modifies this
      ensures Valid()
      ensures items == old(items) - (set id | id in ids) && records == old(records) - (set id | id in ids)
    {
      for i := 0 to |ids|
        invariant items == old(items) - (set id | id in ids[..i]) && records == old(records) - (set id | id in ids[..i])
      {
        assert ids[..i + 1] == ids[..i] + [ids[i]];
        items, records := items - {ids[i]}, records - {ids[i]};
      }
      assert ids[..|ids|] == ids;
    }

    /** A record with the same definition, if there is one. */
    method FindEquivalent(d: Definition) returns (found: Option<Id>)
      ensures found.Some? ==> found.value in records && records[found.value].definition == d
      ensures found.None? ==> forall id :: id in records ==> records[id].definition != d
    {
      var rest := records.Keys;
      while rest != {}
        invariant rest <= records.Keys && forall id :: id in records && id !in rest ==> records[id].definition != d
        decreases |rest|
      {
        var id :| id in rest;
        if records[id].definition == d { return Some(id); }
        rest := rest - {id};
      }
      return None;
    }

    /** Adopt: an equivalent definition is reused; a new one is recorded, and taken back if it cannot
        be persisted. */
    method Adopt(id: Id, workspace: Object, record: Record, restored: Id -> Option<Object>, writable: bool) returns (r: Adoption)
      requires Valid() && id !in records
      modifies this
      ensures Valid()
      ensures r.Created? <==> writable && forall other :: other in old(records) ==> old(records)[other].definition != record.definition
      ensures r.Created? ==> r.workspace == workspace && items == old(items)[id := workspace] && records == old(records)[id := record]
      ensures !r.Created? ==> records == old(records)
      ensures r.PersistFailed? ==> items == old(items)
      ensures r.Reused? ==> exists other :: other in records && records[other].definition == record.definition
                                          && other in items && items[other] == r.workspace
    {
      var existing := FindEquivalent(record.definition);
      if existing.Some? {
        var reused, failed := Resolve(existing.value, restored(existing.value));
        if failed { return RestoreFailed; }
        return Reused(reused.value);
      }
      r := Create(id, workspace, record, writable);
    }

    /** Adds a new workspace, and takes it back if it cannot be persisted. */
    method Create(id: Id, workspace: Object, record: Record, writable: bool) returns (r: Adoption)
      requires Valid() && id !in records && forall other :: other in records ==> records[other].definition != record.definition
      modifies this
      ensures Valid() && r == if writable then Created(workspace) else PersistFailed
      ensures items == if writable then old(items)[id := workspace] else old(items)
      ensures records == if writable then old(records)[id := record] else old(records)
    {
      items, records := items[id := workspace], records[id := record];
      if !writable {
        items := items - {id};
        assert items == old(items);
        records := records - {id};
        assert records == old(records);
        return PersistFailed;
      }
      return Created(workspace);
    }
  }
}
