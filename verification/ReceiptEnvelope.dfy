/**
 Idempotency receipts as values: what trimming keeps of an envelope, the revision
 provenance read back from it, and the answer a replay gives.
 */
module ReceiptEnvelope {
  import opened Basics
  import opened Sorting

  /** The keys of an envelope, of its data and of a diff record. Every key the code names is a
      constructor of its own; `Named` holds the others. */
  datatype Name =
    | ApiVersion | RequestId | Outcome | Code | Summary | WorkspaceKey | Transaction | Evidence
    | Idempotency | IdempotencyPersisted | Warnings | Next | Data
    | CanonicalChanged | FromRevision | Revision | DocumentRevision | ChangedPaths | AppliedFromProvisional
    | ReceiptTrimmed | DiffList | Change | DiffKey | PlanKey | Preparation | CommittedKey
    | OriginalCanonicalChanged | ReplayedRequest | StateKey
    | Path | BeforeSha | AfterSha | Before | After | Patch
    | Named(s: string)

  datatype ExactDiff =
    ExactDiff(path: string, beforeSha: string, afterSha: string, before: string, after: string, patch: string)

  /** The dynamically typed values an envelope holds, one constructor per type the code tells
      apart: nil, bool, string, []string, []any, []map[string]any, map[string]any, a list of exact
      diffs, a plan record (with the committed diffs of its preparation), and anything else. */
  datatype Val =
    | Nil
    | Flag(b: bool)
    | Text(s: string)
    | Texts(texts: seq<string>)
    | List(items: seq<Val>)
    | Maps(maps: seq<map<Name, Val>>)
    | Dict(fields: map<Name, Val>)
    | Diffs(exact: seq<ExactDiff>)
    | Plan(committed: Option<seq<ExactDiff>>)
    | Other(id: int)

  type Fields = map<Name, Val>

  /** Indexing a map yields nil for an absent key. */
  function Get(m: Fields, k: Name): Val { if k in m then m[k] else Nil }

  /** A failed type assertion to a map yields an empty one. */
  function AsDict(v: Val): Fields { if v.Dict? then v.fields else map[] }

  function IsTrue(v: Val): bool { v.Flag? && v.b }

  /** The maps among the elements of a list. */
  function Dicts(items: seq<Val>): seq<Fields> {
    if items == [] then []
    else (if items[0].Dict? then [items[0].fields] else []) + Dicts(items[1..])
  }

  function ExactMap(d: ExactDiff): Fields {
    map[Path := Text(d.path), BeforeSha := Text(d.beforeSha), AfterSha := Text(d.afterSha),
        Before := Text(d.before), After := Text(d.after), Patch := Text(d.patch)]
  }

  function ExactMaps(ds: seq<ExactDiff>): (r: seq<Fields>)
    ensures |r| == |ds|
  {
    if ds == [] then [] else [ExactMap(ds[0])] + ExactMaps(ds[1..])
  }

  /** The records listed under `diffs`, typed or untyped. */
  function Listed(v: Val): seq<Fields> {
    match v
    case Maps(maps) => maps
    case List(items) => Dicts(items)
    case _ => []
  }

  /** The per-file diff records of an edit receipt, in either layout. */
  function EditDiffs(data: Fields): seq<Fields> {
    var listed := Listed(Get(data, DiffList));
    if |listed| > 0 then listed
    else
      var diff := Get(AsDict(Get(data, Change)), DiffKey);
      if diff.Dict? then [diff.fields] else []
  }

  /** editReceiptDiffs, with its loop over the untyped list. */
  method EditReceiptDiffs(data: Fields) returns (diffs: seq<Fields>)
    ensures diffs == EditDiffs(data)
  {
    diffs := [];
    match Get(data, DiffList) {
      case Maps(maps) => diffs := maps;
      case List(items) =>
        for i := 0 to |items|
          invariant diffs + Dicts(items[i..]) == Dicts(items)
        {
          assert items[i..][1..] == items[i + 1..];
          if items[i].Dict? { diffs := diffs + [items[i].fields]; }
        }
        assert items[|items|..] == [];
      case _ =>
    }
    if |diffs| > 0 { return; }
    var change := Get(data, Change);
    if change.Dict? {
      var diff := Get(change.fields, DiffKey);
      if diff.Dict? { return [diff.fields]; }
    }
    return [];
  }

  /** The committed diffs of a plan value, live or read back from disk. */
  function PlanDiffs(plan: Val): seq<Fields> {
    match plan
    case Plan(committed) => if committed.Some? then ExactMaps(committed.value) else []
    case Dict(fields) =>
      (match Get(AsDict(Get(fields, Preparation)), CommittedKey)
       case List(items) => Dicts(items)
       case Diffs(exact) => ExactMaps(exact)
       case _ => [])
    case _ => []
  }

  // ---------- Trimming ----------

  predicate EnvelopeKey(k: Name) {
    || k.ApiVersion? || k.RequestId? || k.Outcome? || k.Code? || k.Summary? || k.WorkspaceKey? || k.Transaction?
    || k.Evidence? || k.Idempotency? || k.IdempotencyPersisted?
  }

  predicate DataKey(k: Name) {
    || k.CanonicalChanged? || k.FromRevision? || k.Revision? || k.DocumentRevision? || k.ChangedPaths?
    || k.AppliedFromProvisional?
  }

  function KeptData(data: Fields): Fields { map k | k in data && DataKey(k) :: data[k] }

  function KeptEnvelope(result: Fields): Fields { map k | k in result && EnvelopeKey(k) :: result[k] }

  function CompactDiff(d: Fields): Fields {
    map[Path := Get(d, Path), BeforeSha := Get(d, BeforeSha), AfterSha := Get(d, AfterSha), Patch := Get(d, Patch)]
  }

  /** compactDiffReceipt over a list, as untyped maps. */
  function CompactList(ds: seq<Fields>): (r: seq<Val>)
    ensures |r| == |ds|
  {
    if ds == [] then [] else [Dict(CompactDiff(ds[0]))] + CompactList(ds[1..])
  }

  function PlanOf(committed: seq<Fields>): Val {
    Dict(map[Preparation := Dict(map[CommittedKey := List(CompactList(committed))])])
  }

  /** The list under its key, unless it is empty. */
  function PutDiffs(m: Fields, k: Name, diffs: seq<Fields>, v: Val): Fields { if |diffs| > 0 then m[k := v] else m }

  function CompactData(data: Fields): Fields {
    var diffs, committed := EditDiffs(data), PlanDiffs(Get(data, PlanKey));
    var withDiffs := PutDiffs(KeptData(data)[ReceiptTrimmed := Flag(true)], DiffList, diffs, List(CompactList(diffs)));
    PutDiffs(withDiffs, PlanKey, committed, PlanOf(committed))
  }

  function Trim(result: Fields): Fields {
    KeptEnvelope(result)[Warnings := Texts([])][Next := List([])]
    [Data := Dict(CompactData(AsDict(Get(result, Data))))]
  }

  predicate IsTrimmed(result: Fields) { IsTrue(Get(AsDict(Get(result, Data)), ReceiptTrimmed)) }

  lemma PutAt(m: Fields, key: Name, diffs: seq<Fields>, v: Val, k: Name)
    ensures k in PutDiffs(m, key, diffs, v) <==> k in m || (k == key && |diffs| > 0)
    ensures Get(PutDiffs(m, key, diffs, v), k) == if k == key && |diffs| > 0 then v else Get(m, k)
  {
  }

  lemma KeptAt(data: Fields, k: Name)
    ensures k in KeptData(data)[ReceiptTrimmed := Flag(true)] <==> (k in data && DataKey(k)) || k == ReceiptTrimmed
    ensures Get(KeptData(data)[ReceiptTrimmed := Flag(true)], k) ==
            if k == ReceiptTrimmed then Flag(true) else if DataKey(k) then Get(data, k) else Nil
  {
  }

  /** Which keys the trimmed data holds, and under each of them what. */
  lemma CompactAt(data: Fields, k: Name)
    ensures k in CompactData(data) <==>
            || (k in data && DataKey(k)) || k == ReceiptTrimmed
            || (k == DiffList && |EditDiffs(data)| > 0) || (k == PlanKey && |PlanDiffs(Get(data, PlanKey))| > 0)
    ensures Get(CompactData(data), k) ==
            if k == ReceiptTrimmed then Flag(true)
            else if DataKey(k) then Get(data, k)
            else if k == DiffList && |EditDiffs(data)| > 0 then List(CompactList(EditDiffs(data)))
            else if k == PlanKey && |PlanDiffs(Get(data, PlanKey))| > 0 then PlanOf(PlanDiffs(Get(data, PlanKey)))
            else Nil
  {
    var diffs, committed := EditDiffs(data), PlanDiffs(Get(data, PlanKey));
    var kept := KeptData(data)[ReceiptTrimmed := Flag(true)];
    KeptAt(data, k);
    PutAt(kept, DiffList, diffs, List(CompactList(diffs)), k);
    PutAt(PutDiffs(kept, DiffList, diffs, List(CompactList(diffs))), PlanKey, committed, PlanOf(committed), k);
  }

  lemma {:induction false} DictsOfCompact(ds: seq<Fields>)
    ensures |Dicts(CompactList(ds))| == |ds|
    ensures forall i :: 0 <= i < |ds| ==> Dicts(CompactList(ds))[i] == CompactDiff(ds[i])
  {
    if ds != [] {
      DictsOfCompact(ds[1..]);
      assert CompactList(ds)[1..] == CompactList(ds[1..]);
    }
  }

  lemma CompactEditDiffs(data: Fields)
    ensures EditDiffs(CompactData(data)) == Dicts(CompactList(EditDiffs(data)))
  {
    CompactAt(data, DiffList);
    CompactAt(data, Change);
    DictsOfCompact(EditDiffs(data));
    if EditDiffs(data) == [] { assert CompactList(EditDiffs(data)) == []; }
  }

  lemma CompactPlanDiffs(data: Fields)
    ensures PlanDiffs(Get(CompactData(data), PlanKey)) == Dicts(CompactList(PlanDiffs(Get(data, PlanKey))))
  {
    CompactAt(data, PlanKey);
    var ds := PlanDiffs(Get(data, PlanKey));
    DictsOfCompact(ds);
    if ds == [] { assert CompactList(ds) == []; }
  }

  lemma {:induction false} CompactTwice(ds: seq<Fields>, es: seq<Fields>)
    requires |ds| == |es| && forall i :: 0 <= i < |ds| ==> es[i] == CompactDiff(ds[i])
    ensures CompactList(es) == CompactList(ds)
    decreases |ds|
  {
    if ds != [] {
      assert CompactDiff(CompactDiff(ds[0])) == CompactDiff(ds[0]);
      CompactTwice(ds[1..], es[1..]);
    }
  }

  lemma CompactIdempotentAt(data: Fields, k: Name)
    ensures k in CompactData(CompactData(data)) <==> k in CompactData(data)
    ensures Get(CompactData(CompactData(data)), k) == Get(CompactData(data), k)
  {
    var c := CompactData(data);
    CompactAt(data, k);
    CompactAt(c, k);
    var edits, plans := EditDiffs(data), PlanDiffs(Get(data, PlanKey));
    CompactEditDiffs(data);
    CompactPlanDiffs(data);
    DictsOfCompact(edits);
    DictsOfCompact(plans);
    CompactTwice(edits, EditDiffs(c));
    CompactTwice(plans, PlanDiffs(Get(c, PlanKey)));
  }

  lemma SameFields(a: Fields, b: Fields)
    requires forall k :: (k in a <==> k in b) && Get(a, k) == Get(b, k)
    ensures a == b
  {
    forall k | k in a ensures k in b && a[k] == b[k] { assert Get(a, k) == Get(b, k); }
    forall k | k in b ensures k in a { assert Get(a, k) == Get(b, k); }
    assert a.Keys == b.Keys;
  }

  lemma CompactIdempotent(data: Fields)
    ensures CompactData(CompactData(data)) == CompactData(data)
  {
    var c := CompactData(data);
    var cc := CompactData(c);
    forall k ensures (k in cc <==> k in c) && Get(cc, k) == Get(c, k) {
      CompactIdempotentAt(data, k);
    }
    SameFields(cc, c);
  }

  lemma KeptEnvelopeAt(result: Fields, k: Name)
    ensures k in KeptEnvelope(result) <==> k in result && EnvelopeKey(k)
    ensures Get(KeptEnvelope(result), k) == if EnvelopeKey(k) then Get(result, k) else Nil
  {
  }

  lemma UpdateAt(m: Fields, key: Name, v: Val, k: Name)
    ensures k in m[key := v] <==> k in m || k == key
    ensures Get(m[key := v], k) == if k == key then v else Get(m, k)
  {
  }

  lemma TrimAt(result: Fields, k: Name)
    ensures k in Trim(result) <==> (k in result && EnvelopeKey(k)) || k == Warnings || k == Next || k == Data
    ensures Get(Trim(result), k) ==
            if k == Data then Dict(CompactData(AsDict(Get(result, Data))))
            else if k == Next then List([])
            else if k == Warnings then Texts([])
            else if EnvelopeKey(k) then Get(result, k)
            else Nil
  {
    var kept := KeptEnvelope(result);
    var warned := kept[Warnings := Texts([])];
    var next := warned[Next := List([])];
    KeptEnvelopeAt(result, k);
    UpdateAt(kept, Warnings, Texts([]), k);
    UpdateAt(warned, Next, List([]), k);
    UpdateAt(next, Data, Dict(CompactData(AsDict(Get(result, Data)))), k);
  }

  /** Trimming a trimmed receipt changes nothing, and a trimmed receipt is recognised as one. */
  lemma TrimIdempotent(result: Fields)
    ensures Trim(Trim(result)) == Trim(result) && IsTrimmed(Trim(result))
  {
    var t := Trim(result);
    var tt := Trim(t);
    TrimAt(result, Data);
    CompactIdempotent(AsDict(Get(result, Data)));
    CompactAt(AsDict(Get(result, Data)), ReceiptTrimmed);
    forall k ensures (k in tt <==> k in t) && Get(tt, k) == Get(t, k) {
      TrimAt(result, k);
      TrimAt(t, k);
    }
    SameFields(tt, t);
  }

  predicate Agree(a: Fields, b: Fields, k: Name) { (k in a <==> k in b) && Get(a, k) == Get(b, k) }

  /** What a trimmed receipt keeps of its envelope: the identity, the outcome and the evidence, no
      warnings, no next steps, and nothing else but the data. */
  lemma TrimmedEnvelope(result: Fields, k: Name)
    ensures k in {ApiVersion, RequestId, Outcome, Code, Summary, WorkspaceKey, Transaction, Evidence, Idempotency, IdempotencyPersisted} ==>
              Agree(Trim(result), result, k)
    ensures Get(Trim(result), Warnings) == Texts([]) && Get(Trim(result), Next) == List([]) && Get(Trim(result), Data).Dict?
    ensures k in Trim(result) ==>
              k in {ApiVersion, RequestId, Outcome, Code, Summary, WorkspaceKey, Transaction, Evidence, Idempotency,
                    IdempotencyPersisted, Warnings, Next, Data}
  {
    TrimmedMarks(result);
    TrimAt(result, k);
    EnvelopeKeys(k);
  }

  lemma TrimmedMarks(result: Fields)
    ensures Get(Trim(result), Warnings) == Texts([]) && Get(Trim(result), Next) == List([])
    ensures Get(Trim(result), Data) == Dict(CompactData(AsDict(Get(result, Data))))
  {
    TrimAt(result, Warnings);
    TrimAt(result, Next);
    TrimAt(result, Data);
  }

  lemma CompactExact(data: Fields, k: Name)
    ensures k in {CanonicalChanged, FromRevision, Revision, DocumentRevision, ChangedPaths, AppliedFromProvisional} ==>
              Agree(CompactData(data), data, k)
    ensures k in CompactData(data) ==>
              k in {CanonicalChanged, FromRevision, Revision, DocumentRevision, ChangedPaths, AppliedFromProvisional, ReceiptTrimmed, DiffList, PlanKey}
  {
    CompactAt(data, k);
    DataKeys(k);
  }

  lemma DataKeys(k: Name)
    ensures DataKey(k) <==> k in {CanonicalChanged, FromRevision, Revision, DocumentRevision, ChangedPaths, AppliedFromProvisional}
  {
  }

  lemma EnvelopeKeys(k: Name)
    ensures EnvelopeKey(k) <==>
              k in {ApiVersion, RequestId, Outcome, Code, Summary, WorkspaceKey, Transaction, Evidence, Idempotency, IdempotencyPersisted}
  {
  }

  /** What it keeps of the data: the revisions and changed paths, and besides them only the mark, the
      edit diffs and the plan's committed diffs. */
  lemma TrimmedData(result: Fields, k: Name)
    ensures var was, now := AsDict(Get(result, Data)), AsDict(Get(Trim(result), Data));
            && (k in {CanonicalChanged, FromRevision, Revision, DocumentRevision, ChangedPaths, AppliedFromProvisional} ==> Agree(now, was, k))
            && (k in now ==> k in {CanonicalChanged, FromRevision, Revision, DocumentRevision, ChangedPaths, AppliedFromProvisional,
                                   ReceiptTrimmed, DiffList, PlanKey})
            && Get(now, ReceiptTrimmed) == Flag(true)
  {
    TrimmedMarks(result);
    CompactExact(AsDict(Get(result, Data)), k);
    CompactAt(AsDict(Get(result, Data)), ReceiptTrimmed);
  }

  /** A compact diff record: the path, the two hashes and the patch of the original, and no bodies. */
  predicate Compacted(was: Fields, now: Fields) {
    && now.Keys == {Path, BeforeSha, AfterSha, Patch}
    && forall k :: k in now ==> now[k] == Get(was, k)
  }

  /** The diffs of a trimmed receipt are those of the original, compacted. */
  lemma TrimmedDiffs(result: Fields)
    ensures var was, now := AsDict(Get(result, Data)), AsDict(Get(Trim(result), Data));
            AllCompacted(EditDiffs(was), EditDiffs(now)) && AllCompacted(PlanDiffs(Get(was, PlanKey)), PlanDiffs(Get(now, PlanKey)))
  {
    var data := AsDict(Get(result, Data));
    TrimmedMarks(result);
    CompactEditDiffs(data);
    CompactPlanDiffs(data);
    CompactsAll(EditDiffs(data));
    CompactsAll(PlanDiffs(Get(data, PlanKey)));
  }

  predicate AllCompacted(was: seq<Fields>, now: seq<Fields>) {
    |now| == |was| && forall i :: 0 <= i < |was| ==> Compacted(was[i], now[i])
  }

  lemma CompactsAll(ds: seq<Fields>)
    ensures AllCompacted(ds, Dicts(CompactList(ds)))
  {
    DictsOfCompact(ds);
  }

  // ---------- Provenance ----------

  datatype Tool = EditApply | ChangePlan | OtherTool(name: string)

  datatype Key = Key(workspace: string, tool: Tool, id: string)

  /** One recorded revision step of one path, as the identity under which it is reported once. */
  datatype Recorded = Recorded(from: nat, to: nat, path: Val, before: Val, after: Val, patch: Val)

  function Record(from: nat, to: nat, d: Fields): Recorded {
    Recorded(from, to, Get(d, Path), Get(d, BeforeSha), Get(d, AfterSha), Get(d, Patch))
  }

  function Records(from: nat, to: nat, ds: seq<Fields>): (r: seq<Recorded>)
    ensures |r| == |ds| && forall i :: 0 <= i < |ds| ==> r[i] == Record(from, to, ds[i])
  {
    if ds == [] then [] else [Record(from, to, ds[0])] + Records(from, to, ds[1..])
  }

  function ReceiptDiffs(tool: Tool, data: Fields): seq<Fields> {
    match tool
    case EditApply => EditDiffs(data)
    case ChangePlan => PlanDiffs(Get(data, PlanKey))
    case OtherTool(_) => []
  }

  /** The revision step a receipt records inside [lo, hi], if any; `revision` reads a revision token. */
  function StepOf(data: Fields, revision: Val -> Option<nat>, lo: nat, hi: nat): Option<(nat, nat)> {
    var from, to := revision(Get(data, FromRevision)), revision(Get(data, Revision));
    if IsTrue(Get(data, CanonicalChanged)) && from.Some? && to.Some? && lo <= from.value && to.value <= hi
    then Some((from.value, to.value)) else None
  }

  /** What one receipt says about the revision range [lo, hi]. */
  function Provenance(tool: Tool, result: Fields, revision: Val -> Option<nat>, lo: nat, hi: nat): seq<Recorded> {
    var data := AsDict(Get(result, Data));
    var step := StepOf(data, revision, lo, hi);
    if step.Some? then Records(step.value.0, step.value.1, ReceiptDiffs(tool, data)) else []
  }

  // ---------- What a recorded tuple says ----------

  /** The tuple holds what the diff record d says. */
  predicate Describes(d: Fields, r: Recorded) {
    && r.path == Get(d, Path) && r.before == Get(d, BeforeSha) && r.after == Get(d, AfterSha) && r.patch == Get(d, Patch)
  }

  predicate DescribesExact(d: ExactDiff, r: Recorded) {
    && r.path == Text(d.path) && r.before == Text(d.beforeSha) && r.after == Text(d.afterSha) && r.patch == Text(d.patch)
  }

  /** d is one of the maps in a list of either type. */
  predicate InList(v: Val, d: Fields) { (v.Maps? && d in v.maps) || (v.List? && Dict(d) in v.items) }

  /** An edit lists d under `diffs`, or under `change.diff` when that list holds none. */
  ghost predicate EditTells(data: Fields, r: Recorded) {
    || (exists d :: InList(Get(data, DiffList), d) && Describes(d, r))
    || (&& (forall d :: !InList(Get(data, DiffList), d))
        && Get(data, Change).Dict? && Get(Get(data, Change).fields, DiffKey).Dict?
        && Describes(Get(Get(data, Change).fields, DiffKey).fields, r))
  }

  /** A plan, live or read back, lists it among the committed diffs of its preparation. */
  ghost predicate PlanTells(plan: Val, r: Recorded) {
    || (plan.Plan? && plan.committed.Some? && exists d :: d in plan.committed.value && DescribesExact(d, r))
    || (&& plan.Dict? && Get(plan.fields, Preparation).Dict?
        && CommittedTells(Get(Get(plan.fields, Preparation).fields, CommittedKey), r))
  }

  ghost predicate CommittedTells(committed: Val, r: Recorded) {
    || (committed.List? && exists d :: Dict(d) in committed.items && Describes(d, r))
    || (committed.Diffs? && exists d :: d in committed.exact && DescribesExact(d, r))
  }

  /** A receipt of a canonical change tells the revisions it went from and to, inside [lo, hi], and for
      each diff its path, its hashes before and after, and its patch. */
  ghost predicate Tells(tool: Tool, result: Fields, revision: Val -> Option<nat>, lo: nat, hi: nat, r: Recorded) {
    && Get(result, Data).Dict?
    && var data := Get(result, Data).fields;
       && Get(data, CanonicalChanged) == Flag(true)
       && revision(Get(data, FromRevision)) == Some(r.from) && revision(Get(data, Revision)) == Some(r.to)
       && lo <= r.from && r.to <= hi
       && ((tool.EditApply? && EditTells(data, r)) || (tool.ChangePlan? && PlanTells(Get(data, PlanKey), r)))
  }

  lemma RecordsTell(from: nat, to: nat, ds: seq<Fields>, r: Recorded)
    ensures r in Records(from, to, ds) <==> r.from == from && r.to == to && exists i :: 0 <= i < |ds| && Describes(ds[i], r)
  {
    var rs := Records(from, to, ds);
    if r in rs {
      var i :| 0 <= i < |rs| && rs[i] == r;
      assert Describes(ds[i], r);
    }
    if i :| r.from == from && r.to == to && 0 <= i < |ds| && Describes(ds[i], r) { assert rs[i] == r; }
  }

  lemma {:induction false} DictsMembers(items: seq<Val>, d: Fields)
    ensures d in Dicts(items) <==> Dict(d) in items
  {
    if items != [] { DictsMembers(items[1..], d); }
  }

  lemma ListedMembers(v: Val, d: Fields)
    ensures d in Listed(v) <==> InList(v, d)
  {
    if v.List? { DictsMembers(v.items, d); }
  }

  lemma {:induction false} ExactMembers(ds: seq<ExactDiff>, i: nat)
    requires i < |ds|
    ensures ExactMaps(ds)[i] == ExactMap(ds[i])
  {
    if i > 0 { ExactMembers(ds[1..], i - 1); }
  }

  /** Some element describes the tuple. */
  ghost predicate AnyDescribes(ds: seq<Fields>, r: Recorded) { exists i :: 0 <= i < |ds| && Describes(ds[i], r) }

  lemma AnyListed(v: Val, r: Recorded)
    ensures AnyDescribes(Listed(v), r) <==> exists d :: InList(v, d) && Describes(d, r)
    ensures Listed(v) == [] <==> forall d :: !InList(v, d)
  {
    var ds := Listed(v);
    if i :| 0 <= i < |ds| && Describes(ds[i], r) { ListedMembers(v, ds[i]); }
    if d :| InList(v, d) && Describes(d, r) {
      ListedMembers(v, d);
      var i :| 0 <= i < |ds| && ds[i] == d;
      assert Describes(ds[i], r);
    }
    forall d ensures InList(v, d) <==> d in ds { ListedMembers(v, d); }
    if ds != [] { assert InList(v, ds[0]); }
  }

  lemma AnyExact(ds: seq<ExactDiff>, r: Recorded)
    ensures AnyDescribes(ExactMaps(ds), r) <==> exists d :: d in ds && DescribesExact(d, r)
  {
    if i :| 0 <= i < |ds| && Describes(ExactMaps(ds)[i], r) {
      ExactMembers(ds, i);
      assert ds[i] in ds && DescribesExact(ds[i], r);
    }
    if d :| d in ds && DescribesExact(d, r) {
      var i :| 0 <= i < |ds| && ds[i] == d;
      ExactMembers(ds, i);
      assert Describes(ExactMaps(ds)[i], r);
    }
  }

  lemma AnyCommitted(committed: Val, r: Recorded)
    ensures AnyDescribes(match committed case List(items) => Dicts(items) case Diffs(exact) => ExactMaps(exact) case _ => [], r)
            <==> CommittedTells(committed, r)
  {
    match committed {
      case List(items) =>
        AnyListed(committed, r);
        assert forall d :: InList(committed, d) <==> Dict(d) in items;
      case Diffs(exact) => AnyExact(exact, r);
      case _ =>
    }
  }

  lemma EditTellsIff(data: Fields, r: Recorded)
    ensures AnyDescribes(EditDiffs(data), r) <==> EditTells(data, r)
  {
    AnyListed(Get(data, DiffList), r);
    var listed, diff := Listed(Get(data, DiffList)), Get(AsDict(Get(data, Change)), DiffKey);
    if listed == [] && diff.Dict? { assert EditDiffs(data) == [diff.fields] && EditDiffs(data)[0] == diff.fields; }
  }

  lemma PlanTellsIff(plan: Val, r: Recorded)
    ensures AnyDescribes(PlanDiffs(plan), r) <==> PlanTells(plan, r)
  {
    match plan {
      case Plan(committed) => if committed.Some? { AnyExact(committed.value, r); }
      case Dict(fields) => AnyCommitted(Get(AsDict(Get(fields, Preparation)), CommittedKey), r);
      case _ =>
    }
  }

  /** The tuples read back from a receipt are exactly those it tells. */
  lemma TellsIff(tool: Tool, result: Fields, revision: Val -> Option<nat>, lo: nat, hi: nat, r: Recorded)
    ensures r in Provenance(tool, result, revision, lo, hi) <==> Tells(tool, result, revision, lo, hi, r)
  {
    var data := AsDict(Get(result, Data));
    var step := StepOf(data, revision, lo, hi);
    EditTellsIff(data, r);
    PlanTellsIff(Get(data, PlanKey), r);
    if step.Some? { RecordsTell(step.value.0, step.value.1, ReceiptDiffs(tool, data), r); }
  }

  lemma SameRecord(from: nat, to: nat, d: Fields)
    ensures Record(from, to, CompactDiff(d)) == Record(from, to, d)
  {
  }

  lemma SameRecords(from: nat, to: nat, ds: seq<Fields>)
    ensures Records(from, to, Dicts(CompactList(ds))) == Records(from, to, ds)
  {
    var es := Dicts(CompactList(ds));
    DictsOfCompact(ds);
    var a, b := Records(from, to, es), Records(from, to, ds);
    forall i | 0 <= i < |ds| ensures a[i] == b[i] {
      assert es[i] == CompactDiff(ds[i]);
      SameRecord(from, to, ds[i]);
    }
    assert a == b;
  }

  lemma TrimKeepsStep(data: Fields, revision: Val -> Option<nat>, lo: nat, hi: nat)
    ensures StepOf(CompactData(data), revision, lo, hi) == StepOf(data, revision, lo, hi)
  {
    CompactAt(data, CanonicalChanged);
    CompactAt(data, FromRevision);
    CompactAt(data, Revision);
  }

  /** Trimming a receipt changes nothing the provenance query sees, for any revision range. */
  lemma TrimKeepsProvenance(tool: Tool, result: Fields, revision: Val -> Option<nat>, lo: nat, hi: nat)
    ensures Provenance(tool, Trim(result), revision, lo, hi) == Provenance(tool, result, revision, lo, hi)
  {
    var data := AsDict(Get(result, Data));
    TrimAt(result, Data);
    TrimKeepsStep(data, revision, lo, hi);
    var step := StepOf(data, revision, lo, hi);
    if step.Some? {
      CompactEditDiffs(data);
      CompactPlanDiffs(data);
      SameRecords(step.value.0, step.value.1, ReceiptDiffs(tool, data));
    }
  }

  /** What the provenance query reads of a stored receipt. */
  datatype Stored = Stored(complete: bool, result: Fields)

  ghost predicate Says(table: map<Key, Stored>, revision: Val -> Option<nat>, workspace: string, lo: nat, hi: nat, key: Key, r: Recorded) {
    && key in table && table[key].complete && key.workspace == workspace
    && Tells(key.tool, table[key].result, revision, lo, hi, r)
  }

  /** Some receipt of the workspace records r inside [lo, hi]. */
  ghost predicate RecordedIn(table: map<Key, Stored>, revision: Val -> Option<nat>, workspace: string, lo: nat, hi: nat, r: Recorded) {
    exists key :: Says(table, revision, workspace, lo, hi, key, r)
  }

  function TrimSome(table: map<Key, Stored>, chosen: set<Key>): map<Key, Stored> {
    map key | key in table :: if key in chosen then table[key].(result := Trim(table[key].result)) else table[key]
  }

  /** Replacing any set of receipts by their trimmed form leaves the recorded tuples unchanged. */
  lemma TrimSomeKeepsRecorded(table: map<Key, Stored>, chosen: set<Key>, revision: Val -> Option<nat>,
                              workspace: string, lo: nat, hi: nat, r: Recorded)
    ensures RecordedIn(TrimSome(table, chosen), revision, workspace, lo, hi, r)
            <==> RecordedIn(table, revision, workspace, lo, hi, r)
  {
    forall key ensures Says(TrimSome(table, chosen), revision, workspace, lo, hi, key, r)
                       <==> Says(table, revision, workspace, lo, hi, key, r) {
      if key in table {
        TrimKeepsProvenance(key.tool, table[key].result, revision, lo, hi);
        TellsIff(key.tool, table[key].result, revision, lo, hi, r);
        TellsIff(key.tool, Trim(table[key].result), revision, lo, hi, r);
      }
    }
  }

  /** Appends the records not yet seen. */
  method AppendUnseen(recorded: seq<Recorded>, records: seq<Recorded>) returns (out: seq<Recorded>)
    requires Distinct(recorded)
    ensures Distinct(out) && forall r :: r in out <==> r in recorded || r in records
  {
    out := recorded;
    for i := 0 to |records|
      invariant Distinct(out)
      invariant forall r :: r in out <==> r in recorded || r in records[..i]
    {
      assert records[..i + 1] == records[..i] + [records[i]];
      if records[i] !in out { out := out + [records[i]]; }
    }
    assert records[..|records|] == records;
  }

  /** RecordedRevisionDiffs: each recorded tuple of the workspace in [lo, hi] exactly once, and
      nothing else, whatever order the table is walked in. */
  method RecordedRevisionDiffs(table: map<Key, Stored>, revision: Val -> Option<nat>, workspace: string, lo: nat, hi: nat)
    returns (recorded: seq<Recorded>)
    ensures Distinct(recorded)
    ensures forall r :: r in recorded <==> RecordedIn(table, revision, workspace, lo, hi, r)
  {
    recorded := [];
    var rest := table.Keys;
    ghost var done: set<Key> := {};
    while rest != {}
      invariant done + rest == table.Keys
      invariant Distinct(recorded)
      invariant forall r :: r in recorded <==> exists key :: key in done && Says(table, revision, workspace, lo, hi, key, r)
      decreases |rest|
    {
      var key :| key in rest;
      var records := [];
      if table[key].complete && key.workspace == workspace {
        records := Provenance(key.tool, table[key].result, revision, lo, hi);
      }
      forall r ensures r in records <==> Says(table, revision, workspace, lo, hi, key, r) {
        TellsIff(key.tool, table[key].result, revision, lo, hi, r);
      }
      recorded := AppendUnseen(recorded, records);
      rest, done := rest - {key}, done + {key};
    }
  }

  // ---------- Replay ----------

  datatype Answer = KeyReused | Evicted | Replayed(envelope: Fields)

  const REPLAY_SUMMARY := "replayed receipt"
  const TRIMMED_WARNING := "trimmed receipt"

  /** The data of a replayed envelope: no new mutation, with the original flag kept beside it. */
  function ReplayData(data: Fields): Fields {
    var changed := Get(data, CanonicalChanged);
    var marked := if changed.Flag? then data[OriginalCanonicalChanged := changed][CanonicalChanged := Flag(false)] else data;
    marked[ReplayedRequest := Flag(true)]
  }

  function ReplayEnvelope(requestId: string, trimmed: bool, stored: Fields): Fields {
    var head := stored[RequestId := Text(requestId)][Idempotency := Text("replayed")][Summary := Text(REPLAY_SUMMARY)];
    var body := if Get(stored, Data).Dict? then head[Data := Dict(ReplayData(stored[Data].fields))] else head;
    if trimmed then body[Warnings := Texts([TRIMMED_WARNING])] else body
  }

  function Replay(requestId: string, argumentsHash: string, recordedHash: string, evicted: bool, trimmed: bool, stored: Fields): Answer {
    if recordedHash != argumentsHash then KeyReused
    else if evicted then Evicted
    else Replayed(ReplayEnvelope(requestId, trimmed, stored))
  }

  /** Reads the original data back out of a replayed one. */
  function OriginalData(data: Fields): Fields {
    var unmarked := data - {ReplayedRequest};
    if OriginalCanonicalChanged in data
    then (unmarked - {OriginalCanonicalChanged})[CanonicalChanged := data[OriginalCanonicalChanged]]
    else unmarked
  }

  /** The original data can be read back from the replay exactly when it did not already use the
      two keys a replay adds. */
  lemma ReplayDataRecovers(data: Fields)
    ensures OriginalData(ReplayData(data)) == data <==> ReplayedRequest !in data && OriginalCanonicalChanged !in data
  {
    var o := OriginalData(ReplayData(data));
    assert ReplayedRequest !in o && OriginalCanonicalChanged !in o;
    if ReplayedRequest !in data && OriginalCanonicalChanged !in data {
      forall k ensures (k in o <==> k in data) && Get(o, k) == Get(data, k) {}
      SameFields(o, data);
    }
  }

  /** A replay differs from the stored envelope in the request identity, the idempotency state, the
      summary, the data marks and, when trimmed, the warnings: every other field is the original's. */
  lemma ReplayFidelity(requestId: string, trimmed: bool, stored: Fields, k: Name)
    requires k !in {RequestId, Idempotency, Summary, Data} && (k == Warnings ==> !trimmed)
    ensures k in ReplayEnvelope(requestId, trimmed, stored) <==> k in stored
    ensures Get(ReplayEnvelope(requestId, trimmed, stored), k) == Get(stored, k)
    ensures Get(stored, Data).Dict? ==>
              Get(ReplayEnvelope(requestId, trimmed, stored), Data) == Dict(ReplayData(Get(stored, Data).fields))
    ensures !Get(stored, Data).Dict? ==> Get(ReplayEnvelope(requestId, trimmed, stored), Data) == Get(stored, Data)
  {
  }

  /** The data of a replay can be told apart: it does not already use the keys a replay adds. */
  predicate Unmarked(stored: Fields) {
    Get(stored, Data).Dict? ==> ReplayedRequest !in Get(stored, Data).fields && OriginalCanonicalChanged !in Get(stored, Data).fields
  }

  lemma ReplayDataInjective(a: Fields, b: Fields)
    requires ReplayedRequest !in a && OriginalCanonicalChanged !in a && ReplayedRequest !in b && OriginalCanonicalChanged !in b
    requires ReplayData(a) == ReplayData(b)
    ensures a == b
  {
    ReplayDataRecovers(a);
    ReplayDataRecovers(b);
  }

  lemma ReplaySameData(requestId: string, trimmed: bool, a: Fields, b: Fields)
    requires ReplayEnvelope(requestId, trimmed, a) == ReplayEnvelope(requestId, trimmed, b) && Unmarked(a) && Unmarked(b)
    ensures Agree(a, b, Data)
  {
    ReplayFidelity(requestId, trimmed, a, Next);
    ReplayFidelity(requestId, trimmed, b, Next);
    assert Data in a <==> Data in ReplayEnvelope(requestId, trimmed, a);
    assert Data in b <==> Data in ReplayEnvelope(requestId, trimmed, b);
    if Get(a, Data).Dict? && Get(b, Data).Dict? {
      ReplayDataInjective(Get(a, Data).fields, Get(b, Data).fields);
    } else if Get(a, Data).Dict? || Get(b, Data).Dict? {
      ReplayedIsMarked(requestId, trimmed, a, b);
    }
  }

  lemma ReplayedIsMarked(requestId: string, trimmed: bool, a: Fields, b: Fields)
    requires ReplayEnvelope(requestId, trimmed, a) == ReplayEnvelope(requestId, trimmed, b)
    ensures Get(a, Data).Dict? == Get(b, Data).Dict?
  {
    ReplayFidelity(requestId, trimmed, a, Next);
    ReplayFidelity(requestId, trimmed, b, Next);
  }

  /** No two receipts are replayed as the same envelope, beyond the fields every replay overwrites: a
      replay loses nothing else of what was stored. */
  lemma ReplayInjective(requestId: string, trimmed: bool, a: Fields, b: Fields)
    requires Unmarked(a) && Unmarked(b) && Agree(a, b, RequestId) && Agree(a, b, Idempotency) && Agree(a, b, Summary)
    requires trimmed ==> Agree(a, b, Warnings)
    ensures ReplayEnvelope(requestId, trimmed, a) == ReplayEnvelope(requestId, trimmed, b) <==> a == b
  {
    if ReplayEnvelope(requestId, trimmed, a) == ReplayEnvelope(requestId, trimmed, b) {
      ReplaySameData(requestId, trimmed, a, b);
      forall k ensures (k in a <==> k in b) && Get(a, k) == Get(b, k) {
        if k in {RequestId, Idempotency, Summary, Data} || (k == Warnings && trimmed) {
          assert Agree(a, b, RequestId) && Agree(a, b, Idempotency) && Agree(a, b, Summary) && Agree(a, b, Data);
        } else {
          ReplayFidelity(requestId, trimmed, a, k);
          ReplayFidelity(requestId, trimmed, b, k);
        }
      }
      SameFields(a, b);
    }
  }

  /** A replay of a trimmed receipt still gives the original outcome, code, workspace, transaction,
      evidence and persistence state. */
  lemma TrimmedReplayKeeps(requestId: string, original: Fields, k: Name)
    requires k in {ApiVersion, Outcome, Code, WorkspaceKey, Transaction, Evidence, IdempotencyPersisted}
    ensures k in ReplayEnvelope(requestId, true, Trim(original)) <==> k in original
    ensures Get(ReplayEnvelope(requestId, true, Trim(original)), k) == Get(original, k)
  {
    TrimAt(original, k);
    ReplayFidelity(requestId, true, Trim(original), k);
  }

  /** What whoever gets a replay can tell from it: it answers this request, is marked as a replay, warns
      when details were trimmed, and reports no canonical change of its own but the original's. */
  lemma ReplayTells(requestId: string, argumentsHash: string, recordedHash: string, evicted: bool, trimmed: bool, stored: Fields)
    ensures var answer := Replay(requestId, argumentsHash, recordedHash, evicted, trimmed, stored);
            && (answer.KeyReused? <==> recordedHash != argumentsHash)
            && (answer.Evicted? <==> recordedHash == argumentsHash && evicted)
            && (answer.Replayed? ==>
                  && Get(answer.envelope, RequestId) == Text(requestId) && Get(answer.envelope, Idempotency) == Text("replayed")
                  && Get(answer.envelope, Warnings) == (if trimmed then Texts([TRIMMED_WARNING]) else Get(stored, Warnings))
                  && (Get(stored, Data).Dict? ==>
                        var was, now := Get(stored, Data).fields, AsDict(Get(answer.envelope, Data));
                        && Get(now, ReplayedRequest) == Flag(true) && Get(now, CanonicalChanged) != Flag(true)
                        && (Get(was, CanonicalChanged).Flag? ==> Get(now, OriginalCanonicalChanged) == Get(was, CanonicalChanged))))
  {
  }

  /** A replayed envelope never claims a canonical change, so it records no revision step of its own. */
  lemma ReplayRecordsNothing(requestId: string, trimmed: bool, stored: Fields, tool: Tool, revision: Val -> Option<nat>, lo: nat, hi: nat)
    ensures Provenance(tool, ReplayEnvelope(requestId, trimmed, stored), revision, lo, hi) == []
  {
    var e := ReplayEnvelope(requestId, trimmed, stored);
    ReplayFidelity(requestId, trimmed, stored, Next);
    assert !IsTrue(Get(AsDict(Get(e, Data)), CanonicalChanged));
  }
}
