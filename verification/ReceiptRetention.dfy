/**
 The retention caps of the receipt store: trimming payloads outside the window, evicting the
 oldest receipts beyond the per-workspace count and the byte budget, bounding the tombstones.
 */
module ReceiptRetention {
  import opened Basics
  import opened Sorting
  import opened ReceiptEnvelope

  /** A receipt; `done` says that its request has finished, a nil result is the empty map. */
  datatype Receipt = Receipt(
    argumentsHash: string, result: Fields, done: bool, complete: bool, checkpointed: bool,
    evicted: bool, trimmed: bool, completedAt: int, bytes: nat)

  datatype Limits = Limits(perWorkspace: nat, totalBytes: nat, tombstones: nat, payloadWindow: int)

  type Table = map<Key, Receipt>

  /** What one sweep decided. */
  datatype Evictions = Evictions(byCount: set<Key>, byBytes: set<Key>, dropped: set<Key>)

  // ---------- What a sweep means ----------

  /** Receipts the caps apply to: finished, complete and not yet evicted. */
  predicate Retained(r: Receipt) { r.complete && !r.evicted && r.done }

  function RetainedKeys(t: Table): (s: set<Key>) { set k | k in t && Retained(t[k]) }

  function TombstoneKeys(t: Table): (s: set<Key>) { set k | k in t && t[k].evicted }

  function Group(s: set<Key>, workspace: string): (g: set<Key>) { set k | k in s && k.workspace == workspace }

  function Aged(r: Receipt, limits: Limits, size: Fields -> nat, now: int): Receipt {
    if Retained(r) && !r.trimmed && now - r.completedAt > limits.payloadWindow
    then var kept := Trim(r.result); r.(result := kept, trimmed := true, bytes := size(kept))
    else r
  }

  function AgedTable(t: Table, limits: Limits, size: Fields -> nat, now: int): Table {
    map k | k in t :: Aged(t[k], limits, size, now)
  }

  function Tombstone(r: Receipt): Receipt { r.(result := map[], evicted := true, bytes := 0) }

  function EvictAll(t: Table, gone: set<Key>): Table { map k | k in t :: if k in gone then Tombstone(t[k]) else t[k] }

  ghost function Bytes(t: Table, s: set<Key>): nat
    requires s <= t.Keys
  {
    if s == {} then 0 else var k :| k in s; t[k].bytes + Bytes(t, s - {k})
  }

  ghost predicate OldestFirst(t: Table, gone: set<Key>, kept: set<Key>) {
    forall a, b :: a in gone && b in kept && a in t && b in t ==> t[a].completedAt <= t[b].completedAt
  }

  /** A workspace's share of `s` is cut to the cap: no more than needed, and the oldest go. */
  ghost predicate CutTo(t: Table, s: set<Key>, gone: set<Key>, cap: nat, workspace: string) {
    var kept := Group(s - gone, workspace);
    && |kept| <= cap
    && (Group(gone, workspace) != {} ==> |kept| == cap)
    && OldestFirst(t, Group(gone, workspace), kept)
  }

  /** The byte budget holds after the evictions, the oldest went, and without the last of them it did not hold. */
  ghost predicate CutToBytes(t: Table, s: set<Key>, gone: set<Key>, cap: nat) {
    && gone <= s <= t.Keys
    && Bytes(t, s - gone) <= cap
    && OldestFirst(t, gone, s - gone)
    && (gone != {} ==> exists last :: last in gone && Bytes(t, s - gone + {last}) > cap && OldestFirst(t, gone, {last}))
  }

  /** `after` is `before` swept at `now` with the evictions `e`. */
  ghost predicate Swept(before: Table, after: Table, limits: Limits, size: Fields -> nat, now: int, e: Evictions) {
    var aged := AgedTable(before, limits, size, now);
    var live := RetainedKeys(before);
    var tombstones := TombstoneKeys(before) + e.byCount + e.byBytes;
    && e.byCount <= live && e.byBytes <= live - e.byCount && e.dropped <= tombstones
    && after == EvictAll(aged, e.byCount + e.byBytes) - e.dropped
    && (forall w :: CutTo(aged, live, e.byCount, limits.perWorkspace, w))
    && CutToBytes(aged, live - e.byCount, e.byBytes, limits.totalBytes)
    && (forall w :: CutTo(aged, tombstones, e.dropped, limits.tombstones, w))
  }

  // ---------- The other operations on the table ----------

  function Pending(argumentsHash: string): Receipt {
    Receipt(argumentsHash, map[], false, false, false, false, false, 0, 0)
  }

  function Completed(r: Receipt, result: Fields, at: int, size: Fields -> nat): Receipt {
    r.(result := result, complete := true, completedAt := at, bytes := size(result))
  }

  /** A receipt as its workspace's file holds it. */
  datatype Saved = Saved(argumentsHash: string, completedAt: int, evicted: bool, result: Fields)

  function Save(r: Receipt): Saved {
    Saved(r.argumentsHash, r.completedAt, r.evicted, if r.evicted then map[] else r.result)
  }

  function Snapshot(t: Table, workspace: string): map<Key, Saved> {
    map k | k in t && t[k].complete && k.workspace == workspace :: Save(t[k])
  }

  /** The receipt describes a plan that cannot go on without the provider it was prepared in. */
  predicate ProviderBacked(result: Fields) {
    var state := Get(AsDict(Get(result, Transaction)), StateKey);
    state.Text? && state.s in {"PREPARING", "READY", "PROVISIONAL", "ROLLING_BACK", "CONFLICTED"}
  }

  predicate Adoptable(saved: Saved) { saved.evicted || !ProviderBacked(saved.result) }

  const LEGACY_TRIM_BYTES: nat := 65536

  /** A saved receipt restored; `zero` is the zero time. */
  function Adopted(saved: Saved, size: Fields -> nat, zero: int): Receipt {
    var restored := Receipt(saved.argumentsHash, map[], true, true, false, saved.evicted, false, saved.completedAt, 0);
    if saved.evicted then restored
    else if IsTrimmed(saved.result) then restored.(result := saved.result, trimmed := true, bytes := size(saved.result))
    else if size(saved.result) > LEGACY_TRIM_BYTES || saved.completedAt == zero then
      restored.(result := Trim(saved.result), trimmed := true, bytes := size(Trim(saved.result)))
    else restored.(result := saved.result, bytes := size(saved.result))
  }

  /** A finished receipt saved and restored: it names the same arguments and time and is finished, a
      tombstone stays one, a payload comes back whole unless it is already trimmed, is larger than the
      limit for older files, or has no completion time; its size is measured again. */
  lemma RestoreSaved(r: Receipt, size: Fields -> nat, zero: int)
    requires r.complete
    ensures var s := Adopted(Save(r), size, zero);
            && s.done && s.complete && !s.checkpointed && s.evicted == r.evicted
            && s.argumentsHash == r.argumentsHash && s.completedAt == r.completedAt
            && (if r.evicted then s.result == map[] && s.bytes == 0 && !s.trimmed
                else
                  && (s.trimmed <==> IsTrimmed(r.result) || size(r.result) > 65536 || r.completedAt == zero)
                  && s.result == (if s.trimmed && !IsTrimmed(r.result) then Trim(r.result) else r.result)
                  && s.bytes == size(s.result))
  {
  }

  /** The receipts a restart does not take over: those not evicted whose transaction names a plan state
      that needs the sandbox and provider of the old process. */
  lemma AdoptableIff(saved: Saved)
    ensures !Adoptable(saved) <==>
              && !saved.evicted && Get(saved.result, Transaction).Dict?
              && var state := Get(Get(saved.result, Transaction).fields, StateKey);
                 || state == Text("PREPARING") || state == Text("READY") || state == Text("PROVISIONAL")
                 || state == Text("ROLLING_BACK") || state == Text("CONFLICTED")
  {
  }

  function AdoptedTable(file: map<Key, Saved>, size: Fields -> nat, zero: int): Table {
    map k | k in file && Adoptable(file[k]) :: Adopted(file[k], size, zero)
  }

  function Finished(t: Table, workspace: string): (s: set<Key>) { set k | k in t && k.workspace == workspace && t[k].done }

  // ---------- Helper facts ----------

  lemma {:induction false} BytesRemove(t: Table, s: set<Key>, k: Key)
    requires s <= t.Keys && k in s
    ensures Bytes(t, s) == t[k].bytes + Bytes(t, s - {k})
    decreases s
  {
    var x :| x in s && Bytes(t, s) == t[x].bytes + Bytes(t, s - {x});
    if x != k {
      BytesRemove(t, s - {x}, k);
      BytesRemove(t, s - {k}, x);
      assert s - {x} - {k} == s - {k} - {x};
    }
  }

  lemma {:induction false} BytesSame(t: Table, u: Table, s: set<Key>)
    requires s <= t.Keys && s <= u.Keys && forall k :: k in s ==> t[k].bytes == u[k].bytes
    ensures Bytes(t, s) == Bytes(u, s)
    decreases s
  {
    if s != {} {
      var k :| k in s;
      BytesRemove(t, s, k);
      BytesRemove(u, s, k);
      BytesSame(t, u, s - {k});
    }
  }

  function Elems(s: seq<Key>): (r: set<Key>) { set k | k in s }

  lemma {:induction false} DistinctCount(s: seq<Key>)
    requires Distinct(s)
    ensures |Elems(s)| == |s|
  {
    if s != [] {
      DistinctCount(s[1..]);
      assert Elems(s) == {s[0]} + Elems(s[1..]);
    }
  }

  /** Orders keys by completion time; which of two equal times comes first is left open. */
  method SortByCompletion(keys: seq<Key>, t: Table) returns (sorted: seq<Key>)
    requires Distinct(keys) && Elems(keys) <= t.Keys
    ensures Distinct(sorted) && Elems(sorted) == Elems(keys) && Sorted(t, sorted)
  {
    var le := (a: Key, b: Key) => CompletedAt(t, a) <= CompletedAt(t, b);
    sorted := Sort(keys, le);
    PermutedMembers(sorted, keys);
    PermutedDistinct(sorted, keys);
    forall i, j | 0 <= i < j < |sorted| && sorted[i] in t && sorted[j] in t
      ensures t[sorted[i]].completedAt <= t[sorted[j]].completedAt
    {
      assert le(sorted[i], sorted[j]);
    }
  }

  function CompletedAt(t: Table, k: Key): int { if k in t then t[k].completedAt else 0 }

  ghost predicate Sorted(t: Table, s: seq<Key>) {
    forall i, j :: 0 <= i < j < |s| && s[i] in t && s[j] in t ==> t[s[i]].completedAt <= t[s[j]].completedAt
  }
}
