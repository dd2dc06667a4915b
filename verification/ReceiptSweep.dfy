/**
 The receipt store sweeps its table in place: four loops over the table, each proved against
 the relation `Swept`.
 */
module ReceiptSweep {
  import opened Basics
  import opened Sorting
  import opened ReceiptEnvelope
  import opened ReceiptRetention
  import opened ReceiptSweepLaws
  import opened ReceiptProtocol
  import opened ReceiptRefinement
  import Runs = ReceiptRuns

  type Groups = map<string, seq<Key>>

  /** Every key of `s`, listed once, under its workspace. */
  ghost predicate Grouped(g: Groups, s: set<Key>) {
    && (forall w :: w in g ==> Distinct(g[w]) && Elems(g[w]) == Group(s, w))
    && (forall k :: k in s ==> k.workspace in g)
  }

  function AddToGroup(g: Groups, k: Key): Groups {
    g[k.workspace := (if k.workspace in g then g[k.workspace] else []) + [k]]
  }

  lemma GroupOfAdded(s: set<Key>, k: Key, w: string)
    requires k !in s
    ensures Group(s + {k}, w) == if w == k.workspace then Group(s, w) + {k} else Group(s, w)
  {
  }

  lemma AppendDistinct(s: seq<Key>, k: Key)
    requires Distinct(s) && k !in s
    ensures Distinct(s + [k]) && Elems(s + [k]) == Elems(s) + {k}
  {
  }

  lemma AddGrouped(g: Groups, s: set<Key>, k: Key)
    requires Grouped(g, s) && k !in s
    ensures Grouped(AddToGroup(g, k), s + {k})
  {
    var h := AddToGroup(g, k);
    forall w | w in h ensures Distinct(h[w]) && Elems(h[w]) == Group(s + {k}, w) {
      GroupOfAdded(s, k, w);
      if w == k.workspace {
        var before := if w in g then g[w] else [];
        assert Distinct(before) && Elems(before) == Group(s, w);
        AppendDistinct(before, k);
      }
    }
  }

  // ---------- Cutting a sorted list ----------

  lemma SplitDistinct(s: seq<Key>, n: nat)
    requires Distinct(s) && n <= |s|
    ensures Elems(s[..n]) !! Elems(s[n..]) && Elems(s) == Elems(s[..n]) + Elems(s[n..])
    ensures |Elems(s[n..])| == |s| - n && (n > 0 ==> Elems(s[..n]) != {})
  {
    assert s == s[..n] + s[n..];
    DistinctCount(s[n..]);
    if n > 0 { assert s[0] in Elems(s[..n]); }
  }

  lemma PrefixOldest(t: Table, s: seq<Key>, n: nat)
    requires Sorted(t, s) && n <= |s|
    ensures OldestFirst(t, Elems(s[..n]), Elems(s[n..]))
  {
    forall a, b | a in Elems(s[..n]) && b in Elems(s[n..]) && a in t && b in t
      ensures t[a].completedAt <= t[b].completedAt
    {
      var i :| 0 <= i < n && s[i] == a;
      var j :| 0 <= j < |s| - n && s[n..][j] == b;
      assert s[n + j] == b;
    }
  }

  lemma NotGone(gone: set<Key>, w: string, k: Key)
    requires Group(gone, w) == {} && k.workspace == w
    ensures k !in gone
  {
    assert k in gone ==> k in Group(gone, w);
  }

  /** How many go from the front of a list of that length. */
  function Excess(length: nat, cap: nat): nat { if length > cap then length - cap else 0 }

  /** Dropping the front of a workspace's sorted list cuts that workspace to the cap. */
  lemma CutFront(t: Table, s: set<Key>, gone: set<Key>, sorted: seq<Key>, cap: nat, w: string)
    requires Distinct(sorted) && Sorted(t, sorted) && Elems(sorted) == Group(s, w) && Group(gone, w) == {}
    ensures CutTo(t, s, gone + Elems(sorted[..Excess(|sorted|, cap)]), cap, w)
  {
    var n := Excess(|sorted|, cap);
    var out := gone + Elems(sorted[..n]);
    SplitDistinct(sorted, n);
    PrefixOldest(t, sorted, n);
    assert Elems(sorted[..n]) <= Group(s, w);
    assert Group(out, w) == Elems(sorted[..n]) by {
      forall k | k in Group(out, w) ensures k in Elems(sorted[..n]) {
        NotGone(gone, w, k);
      }
    }
    assert Group(s - out, w) == Elems(sorted[n..]) by {
      forall k | k in Group(s - out, w) ensures k in Elems(sorted[n..]) { assert k in Group(s, w); }
      forall k | k in Elems(sorted[n..]) ensures k in Group(s - out, w) {
        assert k in Group(s, w);
        NotGone(gone, w, k);
      }
    }
    if n == 0 { assert sorted[..n] == []; }
  }

  /** Evictions in one workspace leave the cut of another as it was. */
  lemma CutElsewhere(t: Table, s: set<Key>, gone: set<Key>, more: set<Key>, cap: nat, w: string)
    requires CutTo(t, s, gone, cap, w) && Group(more, w) == {}
    ensures CutTo(t, s, gone + more, cap, w)
  {
    assert Group(gone + more, w) == Group(gone, w) by {
      forall k | k in more ensures k.workspace != w { assert k.workspace == w ==> k in Group(more, w); }
    }
    assert Group(s - (gone + more), w) == Group(s - gone, w) by {
      forall k | k in more ensures k.workspace != w { assert k.workspace == w ==> k in Group(more, w); }
    }
  }

  lemma CutNothing(t: Table, s: set<Key>, gone: set<Key>, cap: nat, w: string)
    requires Group(s, w) == {} && gone <= s
    ensures CutTo(t, s, gone, cap, w)
  {
    forall k | k in s ensures k.workspace != w { assert k.workspace == w ==> k in Group(s, w); }
    assert Group(gone, w) == {} && Group(s - gone, w) == {};
  }

  // ---------- Evicting one receipt ----------

  lemma EvictOne(t: Table, gone: set<Key>, k: Key)
    requires k in t && k !in gone
    ensures EvictAll(t, gone)[k] == t[k]
    ensures EvictAll(t, gone)[k := Tombstone(t[k])] == EvictAll(t, gone + {k})
  {
  }

  lemma BytesOfRest(t: Table, s: set<Key>, gone: set<Key>, k: Key)
    requires s <= t.Keys && k in s && k !in gone
    ensures Bytes(t, s - gone) == t[k].bytes + Bytes(t, s - (gone + {k}))
  {
    BytesRemove(t, s - gone, k);
    assert s - gone - {k} == s - (gone + {k});
  }

  class ReceiptStore {
    var replays: Table
    var files: map<string, map<Key, Saved>>
    const limits: Limits
    const size: Fields -> nat
    const zero: int

    /** Where the protocol stands. */
    ghost var state: State

    ghost function Settings(): Config { Config(limits, size, zero) }

    /** The table and the files are those of a state every run of the protocol keeps sound. */
    ghost predicate Valid()
      reads this
    {
      state.table == replays && state.files == files && Inv(state)
    }

    constructor (limits: Limits, size: Fields -> nat, zero: int)
      ensures Valid() && state == Initial && this.limits == limits && this.size == size && this.zero == zero
    {
      replays, files := map[], map[];
      this.limits := limits;
      this.size := size;
      this.zero := zero;
      state := Initial;
      new;
      Runs.InitialInv();
    }

    /** Evicts one receipt, keeping the running byte total. */
    method Evict(k: Key, total: int, ghost t: Table, ghost s: set<Key>, ghost gone: set<Key>) returns (left: int)
      requires replays == EvictAll(t, gone) && s <= t.Keys && k in s && k !in gone
      requires total == Bytes(t, s - gone)
      modifies this`replays
      ensures replays == EvictAll(t, gone + {k}) && left == Bytes(t, s - (gone + {k}))
    {
      EvictOne(t, gone, k);
      BytesOfRest(t, s, gone, k);
      left := total - replays[k].bytes;
      replays := replays[k := Tombstone(replays[k])];
    }

    /** The first pass at one receipt: trims it outside the window and lists it if it is retained. */
    method AgeReceipt(k: Key, now: int, g: Groups, total: int, ghost t: Table, ghost aged: Table, ghost rest: set<Key>)
      returns (byWorkspace: Groups, sum: int)
      requires aged == AgedTable(t, limits, size, now) && replays == PartlyAged(t, aged, rest)
      requires rest <= t.Keys && k in rest
      requires Grouped(g, ListedKeys(t, rest)) && total == Bytes(aged, ListedKeys(t, rest))
      modifies this`replays
      ensures replays == PartlyAged(t, aged, rest - {k})
      ensures Grouped(byWorkspace, ListedKeys(t, rest - {k})) && sum == Bytes(aged, ListedKeys(t, rest - {k}))
    {
      AgeOne(t, aged, rest, k);
      ListOne(t, rest, k);
      if !Retained(replays[k]) { return g, total; }
      ghost var listed := ListedKeys(t, rest);
      AddGrouped(g, listed, k);
      BytesAdd(aged, listed, k);
      replays := replays[k := Aged(replays[k], limits, size, now)];
      byWorkspace := AddToGroup(g, k);
      sum := total + replays[k].bytes;
    }

    /** First pass: trims the payloads outside the window and lists the retained receipts. */
    method Age(now: int) returns (byWorkspace: Groups, total: int)
      modifies this`replays
      ensures replays == AgedTable(old(replays), limits, size, now)
      ensures Grouped(byWorkspace, RetainedKeys(old(replays)))
      ensures RetainedKeys(old(replays)) <= replays.Keys && total == Bytes(replays, RetainedKeys(old(replays)))
    {
      ghost var t, aged := replays, AgedTable(replays, limits, size, now);
      var rest := replays.Keys;
      byWorkspace, total := map[], 0;
      assert ListedKeys(t, rest) == {};
      while rest != {}
        invariant rest <= t.Keys && replays == PartlyAged(t, aged, rest)
        invariant Grouped(byWorkspace, ListedKeys(t, rest)) && total == Bytes(aged, ListedKeys(t, rest))
        decreases |rest|
      {
        var k :| k in rest;
        byWorkspace, total := AgeReceipt(k, now, byWorkspace, total, t, aged, rest);
        rest := rest - {k};
      }
      AllAged(t, aged);
      assert ListedKeys(t, rest) == RetainedKeys(t);
    }

    /** Evicts from the front of one workspace's sorted receipts down to the count cap. */
    method EvictFront(sorted: seq<Key>, total: int, ghost t: Table, ghost s: set<Key>, ghost gone: set<Key>)
      returns (kept: seq<Key>, left: int)
      requires replays == EvictAll(t, gone) && s <= t.Keys && total == Bytes(t, s - gone)
      requires Distinct(sorted) && Elems(sorted) <= s && Elems(sorted) !! gone
      modifies this`replays
      ensures kept == sorted[Excess(|sorted|, limits.perWorkspace)..]
      ensures var out := gone + Elems(sorted[..Excess(|sorted|, limits.perWorkspace)]);
              replays == EvictAll(t, out) && left == Bytes(t, s - out)
    {
      kept, left := sorted, total;
      ghost var n := 0;
      assert gone + Elems(sorted[..0]) == gone;
      while |kept| > limits.perWorkspace
        invariant n <= Excess(|sorted|, limits.perWorkspace) && kept == sorted[n..]
        invariant replays == EvictAll(t, gone + Elems(sorted[..n])) && left == Bytes(t, s - (gone + Elems(sorted[..n])))
      {
        NextGone(gone, sorted, n);
        left := Evict(kept[0], left, t, s, gone + Elems(sorted[..n]));
        kept := kept[1..];
        n := n + 1;
      }
    }

    /** Sorts one workspace's receipts, evicts the oldest beyond the cap and adds the others to `all`. */
    method CapWorkspace(w: string, g: Groups, all: seq<Key>, total: int, ghost t: Table, ghost s: set<Key>,
                        ghost gone: set<Key>, ghost rest: set<string>)
      returns (longer: seq<Key>, left: int, ghost out: set<Key>)
      requires gone <= s <= t.Keys && replays == EvictAll(t, gone) && total == Bytes(t, s - gone)
      requires Grouped(g, s) && w in rest && w in g
      requires WholeAhead(gone, rest) && CutBehind(t, s, gone, limits.perWorkspace, g.Keys - rest)
      requires Distinct(all) && Elems(all) == Outside(s - gone, rest)
      modifies this`replays
      ensures out <= s && replays == EvictAll(t, out) && left == Bytes(t, s - out)
      ensures WholeAhead(out, rest - {w}) && CutBehind(t, s, out, limits.perWorkspace, g.Keys - (rest - {w}))
      ensures Distinct(longer) && Elems(longer) == Outside(s - out, rest - {w})
    {
      var entries := SortByCompletion(g[w], replays);
      SortedSame(t, gone, entries);
      DisjointGroup(s, gone, w);
      ghost var n := Excess(|entries|, limits.perWorkspace);
      SplitDistinct(entries, n);
      CutMore(t, s, gone, entries, limits.perWorkspace, w, g.Keys, rest);
      AppendKept(s, gone, entries, n, w, rest, all);
      out := gone + Elems(entries[..n]);
      var kept;
      kept, left := EvictFront(entries, total, t, s, gone);
      longer := all + kept;
    }

    /** Second pass: each workspace down to the count cap. */
    method CapCounts(byWorkspace: Groups, total: int, ghost t: Table, ghost s: set<Key>)
      returns (all: seq<Key>, left: int, ghost gone: set<Key>)
      requires replays == t && s <= t.Keys && total == Bytes(t, s) && Grouped(byWorkspace, s)
      modifies this`replays
      ensures gone <= s && replays == EvictAll(t, gone) && left == Bytes(t, s - gone)
      ensures Distinct(all) && Elems(all) == s - gone
      ensures forall w :: CutTo(t, s, gone, limits.perWorkspace, w)
    {
      all, left, gone := [], total, {};
      var rest := byWorkspace.Keys;
      assert s - gone == s;
      assert EvictAll(t, gone) == t;
      while rest != {}
        invariant rest <= byWorkspace.Keys
        invariant gone <= s && replays == EvictAll(t, gone) && left == Bytes(t, s - gone)
        invariant WholeAhead(gone, rest) && CutBehind(t, s, gone, limits.perWorkspace, byWorkspace.Keys - rest)
        invariant Distinct(all) && Elems(all) == Outside(s - gone, rest)
        decreases |rest|
      {
        var w :| w in rest;
        all, left, gone := CapWorkspace(w, byWorkspace, all, left, t, s, gone, rest);
        rest := rest - {w};
      }
      CutAll(t, s, gone, limits.perWorkspace, byWorkspace);
      assert Elems(all) == s - gone;
    }

    /** Evicts from the front of the sorted receipts while the rest exceeds the byte budget. */
    method EvictUntilFits(sorted: seq<Key>, total: int, ghost t: Table, ghost s: set<Key>, ghost gone: set<Key>)
      returns (n: nat)
      requires replays == EvictAll(t, gone) && s <= t.Keys && total == Bytes(t, s - gone)
      requires Distinct(sorted) && Elems(sorted) <= s && Elems(sorted) !! gone
      modifies this`replays
      ensures n <= |sorted| && replays == EvictAll(t, gone + Elems(sorted[..n]))
      ensures n < |sorted| ==> Bytes(t, s - (gone + Elems(sorted[..n]))) <= limits.totalBytes
      ensures n > 0 ==> Bytes(t, s - (gone + Elems(sorted[..n - 1]))) > limits.totalBytes
    {
      var left := total;
      n := 0;
      ghost var out, previous := gone, gone;
      assert gone + Elems(sorted[..0]) == gone;
      while left > limits.totalBytes && n < |sorted|
        invariant n <= |sorted| && out == gone + Elems(sorted[..n])
        invariant replays == EvictAll(t, out) && left == Bytes(t, s - out)
        invariant n > 0 ==> previous == gone + Elems(sorted[..n - 1]) && Bytes(t, s - previous) > limits.totalBytes
        decreases |sorted| - n
      {
        NextGone(gone, sorted, n);
        previous := out;
        left := Evict(sorted[n], left, t, s, out);
        out := out + {sorted[n]};
        n := n + 1;
      }
    }

    /** Third pass: the oldest go until the rest fits the byte budget. */
    method CapBytes(all: seq<Key>, total: int, ghost t: Table, ghost s: set<Key>, ghost gone: set<Key>)
      returns (ghost more: set<Key>)
      requires gone <= s <= t.Keys && replays == EvictAll(t, gone) && total == Bytes(t, s - gone)
      requires Distinct(all) && Elems(all) == s - gone
      modifies this`replays
      ensures more <= s - gone && replays == EvictAll(t, gone + more)
      ensures CutToBytes(t, s - gone, more, limits.totalBytes)
    {
      assert Elems(all) <= replays.Keys;
      var sorted := SortByCompletion(all, replays);
      SortedSame(t, gone, sorted);
      var n := EvictUntilFits(sorted, total, t, s, gone);
      more := Elems(sorted[..n]);
      BytesCut(t, s, gone, sorted, n, limits.totalBytes);
    }

    /** Lists the tombstones by workspace. */
    method GroupTombstones() returns (byWorkspace: Groups)
      ensures Grouped(byWorkspace, TombstoneKeys(replays))
    {
      byWorkspace := map[];
      var rest := replays.Keys;
      ghost var listed := {};
      while rest != {}
        invariant rest <= replays.Keys && listed == TombstoneKeys(replays) - rest && Grouped(byWorkspace, listed)
        decreases |rest|
      {
        var k :| k in rest;
        if replays[k].evicted {
          AddGrouped(byWorkspace, listed, k);
          byWorkspace := AddToGroup(byWorkspace, k);
          listed := listed + {k};
        }
        rest := rest - {k};
      }
      assert listed == TombstoneKeys(replays);
    }

    /** Deletes from the front of one workspace's sorted tombstones down to their cap. */
    method DropFront(sorted: seq<Key>, ghost t: Table, ghost gone: set<Key>)
      requires replays == t - gone && Distinct(sorted)
      modifies this`replays
      ensures replays == t - (gone + Elems(sorted[..Excess(|sorted|, limits.tombstones)]))
    {
      var entries := sorted;
      ghost var n := 0;
      assert gone + Elems(sorted[..0]) == gone;
      while |entries| > limits.tombstones
        invariant n <= Excess(|sorted|, limits.tombstones) && entries == sorted[n..]
        invariant replays == t - (gone + Elems(sorted[..n]))
      {
        ExtendPrefix(sorted, n);
        DropOne(t, gone + Elems(sorted[..n]), sorted[n]);
        assert gone + Elems(sorted[..n]) + {sorted[n]} == gone + Elems(sorted[..n + 1]);
        replays := replays - {entries[0]};
        entries := entries[1..];
        n := n + 1;
      }
    }

    /** Sorts one workspace's tombstones and deletes the oldest beyond their cap. */
    method DropWorkspace(w: string, g: Groups, ghost t: Table, ghost s: set<Key>, ghost gone: set<Key>, ghost rest: set<string>)
      returns (ghost out: set<Key>)
      requires gone <= s <= t.Keys && replays == t - gone && Grouped(g, s) && w in rest && w in g
      requires WholeAhead(gone, rest) && CutBehind(t, s, gone, limits.tombstones, g.Keys - rest)
      modifies this`replays
      ensures out <= s && replays == t - out
      ensures WholeAhead(out, rest - {w}) && CutBehind(t, s, out, limits.tombstones, g.Keys - (rest - {w}))
    {
      DisjointGroup(s, gone, w);
      var entries := SortByCompletion(g[w], replays);
      SortedRest(t, gone, entries);
      ghost var n := Excess(|entries|, limits.tombstones);
      SplitDistinct(entries, n);
      CutMore(t, s, gone, entries, limits.tombstones, w, g.Keys, rest);
      DropFront(entries, t, gone);
      out := gone + Elems(entries[..n]);
    }

    /** Fourth pass: each workspace's tombstones down to their cap. */
    method CapTombstones() returns (ghost gone: set<Key>)
      modifies this`replays
      ensures gone <= TombstoneKeys(old(replays)) && replays == old(replays) - gone
      ensures forall w :: CutTo(old(replays), TombstoneKeys(old(replays)), gone, limits.tombstones, w)
    {
      ghost var t, s := replays, TombstoneKeys(replays);
      var byWorkspace := GroupTombstones();
      var rest := byWorkspace.Keys;
      gone := {};
      assert t - gone == t;
      while rest != {}
        invariant rest <= byWorkspace.Keys && gone <= s && replays == t - gone
        invariant WholeAhead(gone, rest) && CutBehind(t, s, gone, limits.tombstones, byWorkspace.Keys - rest)
        decreases |rest|
      {
        var w :| w in rest;
        gone := DropWorkspace(w, byWorkspace, t, s, gone, rest);
        rest := rest - {w};
      }
      CutAll(t, s, gone, limits.tombstones, byWorkspace);
    }

    /** applyReceiptCapsLocked. */
    method ApplyCaps(now: int) returns (ghost e: Evictions)
      modifies this`replays
      ensures Swept(old(replays), replays, limits, size, now, e)
    {
      ghost var before, aged, live := replays, AgedTable(replays, limits, size, now), RetainedKeys(replays);
      var byWorkspace, total := Age(now);
      var all, left;
      ghost var byCount;
      all, left, byCount := CapCounts(byWorkspace, total, aged, live);
      ghost var byBytes := CapBytes(all, left, aged, live, byCount);
      ghost var mid := replays;
      ghost var dropped := CapTombstones();
      e := Evictions(byCount, byBytes, dropped);
      TombstonesOfEvicted(before, aged, byCount + byBytes, limits, size, now);
      assert TombstoneKeys(mid) == TombstoneKeys(before) + byCount + byBytes;
      forall w ensures CutTo(aged, TombstoneKeys(mid), dropped, limits.tombstones, w) {
        CutSameTimes(mid, aged, TombstoneKeys(mid), dropped, limits.tombstones, w);
      }
    }

    /** lookupOrBegin: a key the table knows is answered from it and starts nothing; for any other an
        execution begins. */
    method LookupOrBegin(key: Key, argumentsHash: string) returns (existing: Option<Receipt>)
      requires Valid() && state.loading == {}
      modifies this`replays, this`state
      ensures Valid() && existing.None? == Enabled(Settings(), old(state), Label.Begin(key, argumentsHash))
      ensures existing.None? ==> state == Take(Settings(), old(state), Label.Begin(key, argumentsHash))
      ensures existing.Some? ==> state == old(state) && Runs.Present(state, key) && existing == Some(state.table[key])
    {
      if key in replays { return Some(replays[key]); }
      Runs.StepKeeps(Settings(), state, Label.Begin(key, argumentsHash));
      state := Take(Settings(), state, Label.Begin(key, argumentsHash));
      replays := replays[key := Pending(argumentsHash)];
      return None;
    }

    /** Collects what the workspace's file is to hold. */
    method CollectReceipts(workspace: string) returns (receipts: map<Key, Saved>)
      ensures receipts == Snapshot(replays, workspace)
    {
      var t := replays;
      receipts := map[];
      var rest := t.Keys;
      while rest != {}
        invariant rest <= t.Keys && receipts == SnapshotWithout(t, rest, workspace)
        decreases |rest|
      {
        var k :| k in rest;
        SnapshotGrows(t, rest, k, workspace);
        if t[k].complete && k.workspace == workspace { receipts := receipts[k := Save(t[k])]; }
        rest := rest - {k};
      }
      assert SnapshotWithout(t, {}, workspace) == Snapshot(t, workspace);
    }

    /** Writes the workspace's file; `writable` says whether the write succeeds. */
    method Persist(workspace: string, writable: bool) returns (ok: bool)
      modifies this`files
      ensures ok == writable
      ensures files == if writable then old(files)[workspace := Snapshot(replays, workspace)] else old(files)
    {
      var receipts := CollectReceipts(workspace);
      if writable { files := files[workspace := receipts]; }
      return writable;
    }

    /** Records a completed receipt, applies the caps and persists the workspace's file. */
    method StoreReceipt(key: Key, replay: Receipt, result: Fields, at: int, now: int, writable: bool)
      returns (ok: bool, ghost e: Evictions)
      modifies this`replays, this`files
      ensures ok == writable
      ensures Swept(old(replays)[key := Completed(replay, result, at, size)], replays, limits, size, now, e)
      ensures files == if writable then old(files)[key.workspace := Snapshot(replays, key.workspace)] else old(files)
    {
      replays := replays[key := Completed(replay, result, at, size)];
      e := ApplyCaps(now);
      ok := Persist(key.workspace, writable);
    }

    /** storeReceipt at the end of a call: a Store step of the protocol. */
    method Complete(key: Key, result: Fields, at: int, now: int, writable: bool) returns (ok: bool, ghost l: Label)
      requires Valid() && key in state.calls && state.calls[key].Running?
      modifies this`replays, this`files, this`state
      ensures Valid() && ok == writable && l.Store? && l.key == key && l.result == result && l.written == writable
      ensures Enabled(Settings(), old(state), l) && state == Take(Settings(), old(state), l)
    {
      Runs.InFlight(state, key);
      ghost var e;
      ghost var before := state;
      ok, e := StoreReceipt(key, replays[key], result, at, now, writable);
      l := Label.Store(key, result, at, now, e, writable);
      StoreIsStep(Settings(), before, key, result, at, now, e, writable, replays, files);
      Runs.StepKeeps(Settings(), before, l);
      state := Take(Settings(), before, l);
    }

    /** checkpoint: an early receipt of a call in flight, taken back if it could not be written. A
        Checkpoint step of the protocol. */
    method Checkpoint(key: Key, result: Fields, at: int, now: int, writable: bool) returns (ok: bool, ghost l: Label)
      requires Valid() && key in state.calls && state.calls[key].Running?
      modifies this`replays, this`files, this`state
      ensures Valid() && ok == writable && l.Checkpoint? && l.key == key && l.result == result && l.written == writable
      ensures Enabled(Settings(), old(state), l) && state == Take(Settings(), old(state), l)
    {
      Runs.InFlight(state, key);
      ghost var before, e := state, Evictions({}, {}, {});
      var replay := replays[key].(checkpointed := true);
      ok, e := StoreReceipt(key, replay, result, at, now, writable);
      l := Label.Checkpoint(key, result, at, now, e, writable);
      ghost var swept := replays;
      SweepSpares(before.table[key := Completed(replay, result, at, size)], swept, limits, size, now, e, key);
      if !ok { replays := replays[key := replays[key].(complete := false, checkpointed := false)]; }
      CheckpointIsStep(Settings(), before, key, result, at, now, e, writable, swept, replays, files);
      Runs.StepKeeps(Settings(), before, l);
      state := Take(Settings(), before, l);
    }

    /** abandon: an Abandon step; only a call whose checkpoint does not stand may take it. */
    method Abandon(key: Key)
      requires Valid() && key in state.calls && state.calls[key].Running? && key in replays && !replays[key].checkpointed
      modifies this`replays, this`state
      ensures Valid() && Enabled(Settings(), old(state), Label.Abandon(key)) && state == Take(Settings(), old(state), Label.Abandon(key))
    {
      Runs.StepKeeps(Settings(), state, Label.Abandon(key));
      state := Take(Settings(), state, Label.Abandon(key));
      replays := replays - {key};
    }

    /** finish: a Finish step; the payload is replaced exactly when it was not persisted, and either way
        the table then holds the envelope the caller gets. */
    method Finish(key: Key, result: Option<Fields>)
      requires Valid() && key in state.calls && state.calls[key].Answering? && result.Some? == !state.calls[key].written
      modifies this`replays, this`state
      ensures var l := Label.Finish(key, if result.Some? then result.value else map[]);
              Valid() && Enabled(Settings(), old(state), l) && state == Take(Settings(), old(state), l)
      ensures key in replays && key in state.answers && replays[key].done && replays[key].result == state.answers[key]
    {
      Runs.InFlight(state, key);
      ghost var l := Label.Finish(key, if result.Some? then result.value else map[]);
      Runs.StepKeeps(Settings(), state, l);
      state := Take(Settings(), state, l);
      if result.Some? { replays := replays[key := replays[key].(result := result.value)]; }
      replays := replays[key := replays[key].(done := true)];
    }

    /** The loop of forgetWorkspace: the finished receipts go, those in flight stay. */
    method DropFinished(workspace: string)
      modifies this`replays
      ensures replays == old(replays) - Finished(old(replays), workspace)
    {
      ghost var t := replays;
      var rest := replays.Keys;
      assert t - (Finished(t, workspace) - rest) == t;
      while rest != {}
        invariant rest <= t.Keys && replays == t - (Finished(t, workspace) - rest)
        decreases |rest|
      {
        var k :| k in rest;
        FinishedGrows(t, rest, k, workspace);
        if k.workspace == workspace && replays[k].done { replays := replays - {k}; }
        rest := rest - {k};
      }
      assert Finished(t, workspace) - {} == Finished(t, workspace);
    }

    /** forgetWorkspace with the removal of the workspace's file: a Forget step. */
    method ForgetWorkspace(workspace: string, removable: bool)
      requires Valid()
      modifies this`replays, this`files, this`state
      ensures Valid() && Enabled(Settings(), old(state), Forget(workspace, removable))
      ensures state == Take(Settings(), old(state), Forget(workspace, removable))
    {
      Runs.StepKeeps(Settings(), state, Forget(workspace, removable));
      state := Take(Settings(), state, Forget(workspace, removable));
      DropFinished(workspace);
      if removable { files := files - {workspace}; }
    }

    /** The service stops and starts again with nothing in memory: a Crash step. */
    method Restart()
      requires Valid()
      modifies this`replays, this`state
      ensures Valid() && state == Take(Settings(), old(state), Crash)
    {
      Runs.StepKeeps(Settings(), state, Crash);
      state := Take(Settings(), state, Crash);
      replays := map[];
    }

    /** Installs the receipts of one file that a restart can answer for. */
    method InstallReceipts(file: map<Key, Saved>) returns (loaded: nat, dropped: nat)
      modifies this`replays
      ensures loaded == |AdoptableKeys(file, {})| && loaded + dropped == |file|
      ensures replays == old(replays) + AdoptedTable(file, size, zero)
    {
      ghost var t := replays;
      loaded, dropped := 0, 0;
      var rest := file.Keys;
      NothingAdopted(t, file, size, zero);
      while rest != {}
        invariant rest <= file.Keys && replays == t + AdoptedWithout(file, rest, size, zero)
        invariant loaded == |AdoptableKeys(file, rest)| && loaded + dropped + |rest| == |file|
        decreases |rest|
      {
        var k :| k in rest;
        var one := InstallReceipt(file, k, t, rest);
        if one { loaded := loaded + 1; } else { dropped := dropped + 1; }
        rest := rest - {k};
      }
      AllAdopted(file, size, zero);
    }

    method InstallReceipt(file: map<Key, Saved>, k: Key, ghost t: Table, ghost rest: set<Key>) returns (loaded: bool)
      requires k in file && k in rest && replays == t + AdoptedWithout(file, rest, size, zero)
      modifies this`replays
      ensures replays == t + AdoptedWithout(file, rest - {k}, size, zero)
      ensures |AdoptableKeys(file, rest - {k})| == |AdoptableKeys(file, rest)| + if loaded then 1 else 0
    {
      AdoptedGrows(t, file, rest, k, size, zero);
      AdoptableGrows(file, rest, k);
      loaded := Adoptable(file[k]);
      if loaded { replays := replays[k := Adopted(file[k], size, zero)]; }
    }

    /** adoptReceipts for the file of one workspace: an Adopt step. */
    method AdoptReceipts(workspace: string, now: int) returns (loaded: nat, dropped: nat, ghost l: Label)
      requires Valid() && workspace in state.loading
      modifies this`replays, this`state
      ensures Valid() && l.Adopt? && l.workspace == workspace
      ensures Enabled(Settings(), old(state), l) && state == Take(Settings(), old(state), l)
      ensures loaded == |AdoptableKeys(FileOf(old(state), workspace), {})| && loaded + dropped == |FileOf(old(state), workspace)|
    {
      ghost var before := state;
      loaded, dropped := InstallReceipts(if workspace in files then files[workspace] else map[]);
      ghost var e := ApplyCaps(now);
      l := Adopt(workspace, now, e);
      AdoptIsStep(Settings(), before, workspace, now, e, replays);
      Runs.StepKeeps(Settings(), before, l);
      state := Take(Settings(), before, l);
    }

    /** Adopts one more file of a restart. */
    method AdoptNext(workspace: string, now: int, ghost start: State, ghost labels: seq<Label>) returns (ghost more: seq<Label>)
      requires Valid() && workspace in state.loading && Adopting(Settings(), start, labels, state)
      modifies this`replays, this`state
      ensures Valid() && state.loading == old(state).loading - {workspace} && Adopting(Settings(), start, more, state)
    {
      var loaded, dropped;
      ghost var l;
      ghost var before := state;
      loaded, dropped, l := AdoptReceipts(workspace, now);
      more := AdoptedMore(Settings(), start, labels, before, l);
    }

    /** loadReceipts: every file is adopted before the service answers calls. */
    method LoadReceipts(now: int) returns (ghost labels: seq<Label>)
      requires Valid() && state.loading == files.Keys
      modifies this`replays, this`state
      ensures Valid() && state.loading == {} && Adopting(Settings(), old(state), labels, state)
    {
      labels := [];
      var rest := files.Keys;
      while rest != {}
        invariant Valid() && state.loading == rest && Adopting(Settings(), old(state), labels, state)
        decreases |rest|
      {
        var w :| w in rest;
        labels := AdoptNext(w, now, old(state), labels);
        rest := rest - {w};
      }
    }
  }

  /** A run of Adopt steps from one state to another. */
  ghost predicate Adopting(c: Config, start: State, labels: seq<Label>, end: State) {
    && Runs.IsRun(c, start, labels) && end == Runs.Final(c, start, labels)
    && forall i :: 0 <= i < |labels| ==> labels[i].Adopt?
  }

  lemma AdoptedMore(c: Config, start: State, labels: seq<Label>, mid: State, l: Label) returns (more: seq<Label>)
    requires Adopting(c, start, labels, mid) && Enabled(c, mid, l) && l.Adopt?
    ensures Adopting(c, start, more, Take(c, mid, l))
  {
    Runs.RunSnoc(c, start, labels, l);
    more := labels + [l];
  }

  ghost predicate WholeAhead(gone: set<Key>, rest: set<string>) { forall w :: w in rest ==> Group(gone, w) == {} }

  ghost predicate CutBehind(t: Table, s: set<Key>, gone: set<Key>, cap: nat, done: set<string>) {
    forall w :: w in done ==> CutTo(t, s, gone, cap, w)
  }

  /** Another workspace cut: the ones cut before stay cut, the ones ahead stay whole. */
  lemma CutMore(t: Table, s: set<Key>, gone: set<Key>, sorted: seq<Key>, cap: nat, w: string, all: set<string>, rest: set<string>)
    requires Distinct(sorted) && Sorted(t, sorted) && Elems(sorted) == Group(s, w) && w in rest
    requires WholeAhead(gone, rest) && CutBehind(t, s, gone, cap, all - rest)
    ensures WholeAhead(gone + Elems(sorted[..Excess(|sorted|, cap)]), rest - {w})
    ensures CutBehind(t, s, gone + Elems(sorted[..Excess(|sorted|, cap)]), cap, all - (rest - {w}))
  {
    var more := Elems(sorted[..Excess(|sorted|, cap)]);
    forall v | v != w ensures Group(more, v) == {} {
      forall k | k in more ensures k.workspace == w { assert k in Elems(sorted); }
    }
    forall v | v in rest - {w} ensures Group(gone + more, v) == {} {
      assert Group(gone + more, v) == Group(gone, v) + Group(more, v);
    }
    forall v | v in all - (rest - {w}) ensures CutTo(t, s, gone + more, cap, v) {
      if v == w { CutFront(t, s, gone, sorted, cap, w); } else { CutElsewhere(t, s, gone, more, cap, v); }
    }
  }

  /** Every workspace is cut once the listed ones are. */
  lemma CutAll(t: Table, s: set<Key>, gone: set<Key>, cap: nat, g: Groups)
    requires gone <= s && Grouped(g, s) && forall w :: w in g ==> CutTo(t, s, gone, cap, w)
    ensures forall w :: CutTo(t, s, gone, cap, w)
  {
    forall w ensures CutTo(t, s, gone, cap, w) {
      if w !in g {
        assert Group(s, w) == {};
        CutNothing(t, s, gone, cap, w);
      }
    }
  }

  lemma ConcatDistinct(a: seq<Key>, b: seq<Key>)
    requires Distinct(a) && Distinct(b) && Elems(a) !! Elems(b)
    ensures Distinct(a + b) && Elems(a + b) == Elems(a) + Elems(b)
  {
    forall i, j | 0 <= i < |a| && 0 <= j < |b| ensures a[i] != b[j] {
      assert a[i] in Elems(a) && b[j] in Elems(b);
    }
  }

  lemma OutsideStep(s: set<Key>, gone: set<Key>, front: set<Key>, back: set<Key>, w: string, rest: set<string>)
    requires front !! back && front + back == Group(s, w) && Group(s, w) !! gone && w in rest
    ensures Outside(s - (gone + front), rest - {w}) == Outside(s - gone, rest) + back
  {
    forall k ensures k in Outside(s - (gone + front), rest - {w}) <==> k in Outside(s - gone, rest) + back {
      assert k in front + back <==> k in Group(s, w);
    }
  }

  lemma AppendKept(s: set<Key>, gone: set<Key>, sorted: seq<Key>, n: nat, w: string, rest: set<string>, all: seq<Key>)
    requires Distinct(sorted) && n <= |sorted| && Elems(sorted) == Group(s, w) && Group(s, w) !! gone && w in rest
    requires Distinct(all) && Elems(all) == Outside(s - gone, rest)
    ensures Distinct(all + sorted[n..])
    ensures Elems(all + sorted[n..]) == Outside(s - (gone + Elems(sorted[..n])), rest - {w})
  {
    SplitDistinct(sorted, n);
    var front, back := Elems(sorted[..n]), Elems(sorted[n..]);
    OutsideStep(s, gone, front, back, w, rest);
    forall k | k in Outside(s - gone, rest) ensures k !in back { assert k in back ==> k in Group(s, w); }
    ConcatDistinct(all, sorted[n..]);
  }

  lemma BytesCut(t: Table, s: set<Key>, gone: set<Key>, sorted: seq<Key>, n: nat, cap: nat)
    requires gone <= s <= t.Keys && Distinct(sorted) && Sorted(t, sorted) && Elems(sorted) == s - gone && n <= |sorted|
    requires n < |sorted| ==> Bytes(t, s - (gone + Elems(sorted[..n]))) <= cap
    requires n > 0 ==> Bytes(t, s - (gone + Elems(sorted[..n - 1]))) > cap
    ensures CutToBytes(t, s - gone, Elems(sorted[..n]), cap)
  {
    FitsAfter(t, s, gone, sorted, n, cap);
    if n == 0 { assert Elems(sorted[..0]) == {}; } else { TooBigBefore(t, s, gone, sorted, n, cap); }
  }

  lemma FitsAfter(t: Table, s: set<Key>, gone: set<Key>, sorted: seq<Key>, n: nat, cap: nat)
    requires s <= t.Keys && Distinct(sorted) && Sorted(t, sorted) && Elems(sorted) == s - gone && n <= |sorted|
    requires n < |sorted| ==> Bytes(t, s - (gone + Elems(sorted[..n]))) <= cap
    ensures Elems(sorted[..n]) <= s - gone && Bytes(t, s - gone - Elems(sorted[..n])) <= cap
    ensures OldestFirst(t, Elems(sorted[..n]), s - gone - Elems(sorted[..n]))
  {
    var more, back := Elems(sorted[..n]), Elems(sorted[n..]);
    SplitDistinct(sorted, n);
    PrefixOldest(t, sorted, n);
    RestOfRest(s, gone, more, back);
    if n == |sorted| { assert back == {}; }
  }

  lemma TooBigBefore(t: Table, s: set<Key>, gone: set<Key>, sorted: seq<Key>, n: nat, cap: nat)
    requires s <= t.Keys && Distinct(sorted) && Sorted(t, sorted) && Elems(sorted) == s - gone && 0 < n <= |sorted|
    requires Bytes(t, s - (gone + Elems(sorted[..n - 1]))) > cap
    ensures Elems(sorted[..n]) <= t.Keys
    ensures var more := Elems(sorted[..n]);
            exists k :: k in more && Bytes(t, s - gone - more + {k}) > cap && OldestFirst(t, more, {k})
  {
    SplitDistinct(sorted, n);
    ExtendPrefix(sorted, n - 1);
    LastOldest(t, sorted, n);
    LastNeeded(t, s, gone, Elems(sorted[..n - 1]), Elems(sorted[..n]), sorted[n - 1], cap);
  }

  lemma LastNeeded(t: Table, s: set<Key>, gone: set<Key>, before: set<Key>, more: set<Key>, last: Key, cap: nat)
    requires s <= t.Keys && more == before + {last} && last !in before && more <= s - gone
    requires Bytes(t, s - (gone + before)) > cap && OldestFirst(t, more, {last})
    ensures s - gone - more + {last} <= t.Keys
    ensures exists k :: k in more && Bytes(t, s - gone - more + {k}) > cap && OldestFirst(t, more, {k})
  {
    BackOne(s, gone, before, more, last);
  }

  lemma RestOfRest(s: set<Key>, gone: set<Key>, more: set<Key>, back: set<Key>)
    requires more !! back && more + back == s - gone
    ensures s - gone - more == back && s - (gone + more) == back
  {
    assert forall k :: k in more + back <==> k in s - gone;
  }

  lemma BackOne(s: set<Key>, gone: set<Key>, before: set<Key>, more: set<Key>, last: Key)
    requires more == before + {last} && last !in before && last in s - gone
    ensures s - gone - more + {last} == s - (gone + before)
  {
  }

  lemma LastOldest(t: Table, s: seq<Key>, n: nat)
    requires Sorted(t, s) && 0 < n <= |s|
    ensures OldestFirst(t, Elems(s[..n]), {s[n - 1]})
  {
    forall a | a in Elems(s[..n]) && a in t && s[n - 1] in t ensures t[a].completedAt <= t[s[n - 1]].completedAt {
      var i :| 0 <= i < n && s[i] == a;
    }
  }

  function SnapshotWithout(t: Table, rest: set<Key>, w: string): map<Key, Saved> {
    map k | k in t && k !in rest && t[k].complete && k.workspace == w :: Save(t[k])
  }

  lemma SnapshotGrows(t: Table, rest: set<Key>, k: Key, w: string)
    requires k in rest && k in t
    ensures t[k].complete && k.workspace == w ==> SnapshotWithout(t, rest - {k}, w) == SnapshotWithout(t, rest, w)[k := Save(t[k])]
    ensures !(t[k].complete && k.workspace == w) ==> SnapshotWithout(t, rest - {k}, w) == SnapshotWithout(t, rest, w)
  {
  }

  lemma FinishedGrows(t: Table, rest: set<Key>, k: Key, w: string)
    requires k in rest && k in t
    ensures k in t - (Finished(t, w) - rest) && (t - (Finished(t, w) - rest))[k] == t[k]
    ensures t - (Finished(t, w) - (rest - {k})) ==
            if k.workspace == w && t[k].done then t - (Finished(t, w) - rest) - {k} else t - (Finished(t, w) - rest)
  {
  }

  function AdoptedWithout(file: map<Key, Saved>, rest: set<Key>, size: Fields -> nat, zero: int): Table {
    map k | k in file && k !in rest && Adoptable(file[k]) :: Adopted(file[k], size, zero)
  }

  function AdoptableKeys(file: map<Key, Saved>, rest: set<Key>): (s: set<Key>) {
    set k | k in file && k !in rest && Adoptable(file[k])
  }

  lemma AdoptedGrows(t: Table, file: map<Key, Saved>, rest: set<Key>, k: Key, size: Fields -> nat, zero: int)
    requires k in rest && k in file
    ensures var before, after := AdoptedWithout(file, rest, size, zero), AdoptedWithout(file, rest - {k}, size, zero);
            && (Adoptable(file[k]) ==> t + after == (t + before)[k := Adopted(file[k], size, zero)])
            && (!Adoptable(file[k]) ==> t + after == t + before)
  {
    var before, after := AdoptedWithout(file, rest, size, zero), AdoptedWithout(file, rest - {k}, size, zero);
    if Adoptable(file[k]) {
      assert after == before[k := Adopted(file[k], size, zero)];
    } else {
      assert after == before;
    }
  }

  lemma NothingAdopted(t: Table, file: map<Key, Saved>, size: Fields -> nat, zero: int)
    ensures t + AdoptedWithout(file, file.Keys, size, zero) == t && AdoptableKeys(file, file.Keys) == {}
  {
  }

  lemma AllAdopted(file: map<Key, Saved>, size: Fields -> nat, zero: int)
    ensures AdoptedWithout(file, {}, size, zero) == AdoptedTable(file, size, zero)
  {
  }

  lemma AdoptableGrows(file: map<Key, Saved>, rest: set<Key>, k: Key)
    requires k in rest && k in file
    ensures |AdoptableKeys(file, rest - {k})| == |AdoptableKeys(file, rest)| + if Adoptable(file[k]) then 1 else 0
  {
    if Adoptable(file[k]) {
      assert AdoptableKeys(file, rest - {k}) == AdoptableKeys(file, rest) + {k};
    } else {
      assert AdoptableKeys(file, rest - {k}) == AdoptableKeys(file, rest);
    }
  }

  lemma DropOne(t: Table, gone: set<Key>, k: Key)
    ensures t - gone - {k} == t - (gone + {k})
  {
  }

  lemma SortedRest(t: Table, gone: set<Key>, s: seq<Key>)
    requires Sorted(t - gone, s) && Elems(s) !! gone
    ensures Sorted(t, s)
  {
    assert forall i :: 0 <= i < |s| ==> s[i] in Elems(s);
  }

  lemma TombstonesOfEvicted(before: Table, aged: Table, gone: set<Key>, limits: Limits, size: Fields -> nat, now: int)
    requires aged == AgedTable(before, limits, size, now) && gone <= before.Keys
    ensures TombstoneKeys(EvictAll(aged, gone)) == TombstoneKeys(before) + gone
  {
  }

  lemma CutSameTimes(t: Table, u: Table, s: set<Key>, gone: set<Key>, cap: nat, w: string)
    requires CutTo(t, s, gone, cap, w) && t.Keys == u.Keys
    requires forall k :: k in t ==> t[k].completedAt == u[k].completedAt
    ensures CutTo(u, s, gone, cap, w)
  {
  }

  /** The table while the receipts in `rest` have not been looked at. */
  function PartlyAged(t: Table, aged: Table, rest: set<Key>): Table
    requires t.Keys == aged.Keys
  {
    map k | k in t :: if k in rest then t[k] else aged[k]
  }

  lemma AgeOne(t: Table, aged: Table, rest: set<Key>, k: Key)
    requires t.Keys == aged.Keys && k in t && k in rest
    ensures PartlyAged(t, aged, rest)[k] == t[k]
    ensures PartlyAged(t, aged, rest)[k := aged[k]] == PartlyAged(t, aged, rest - {k})
    ensures aged[k] == t[k] ==> PartlyAged(t, aged, rest) == PartlyAged(t, aged, rest - {k})
  {
  }

  function ListedKeys(t: Table, rest: set<Key>): set<Key> { set k | k in t && Retained(t[k]) && k !in rest }

  lemma ListOne(t: Table, rest: set<Key>, k: Key)
    requires k in t && k in rest
    ensures Retained(t[k]) ==> ListedKeys(t, rest - {k}) == ListedKeys(t, rest) + {k}
    ensures !Retained(t[k]) ==> ListedKeys(t, rest - {k}) == ListedKeys(t, rest)
  {
  }

  lemma AllAged(t: Table, aged: Table)
    requires t.Keys == aged.Keys
    ensures PartlyAged(t, aged, {}) == aged
  {
  }

  lemma BytesAdd(t: Table, s: set<Key>, k: Key)
    requires s <= t.Keys && k in t && k !in s
    ensures Bytes(t, s + {k}) == Bytes(t, s) + t[k].bytes
  {
    BytesRemove(t, s + {k}, k);
    assert s + {k} - {k} == s;
  }

  lemma ExtendPrefix(s: seq<Key>, n: nat)
    requires Distinct(s) && n < |s|
    ensures Elems(s[..n + 1]) == Elems(s[..n]) + {s[n]} && s[n] !in Elems(s[..n])
  {
    assert s[..n + 1] == s[..n] + [s[n]];
  }

  lemma NextGone(gone: set<Key>, s: seq<Key>, n: nat)
    requires Distinct(s) && n < |s| && Elems(s) !! gone
    ensures gone + Elems(s[..n + 1]) == gone + Elems(s[..n]) + {s[n]}
    ensures s[n] in Elems(s) && s[n] !in gone + Elems(s[..n])
  {
    ExtendPrefix(s, n);
    assert s[n] in Elems(s);
  }

  /** The keys whose workspace is not among `rest`. */
  function Outside(s: set<Key>, rest: set<string>): (r: set<Key>) { set k | k in s && k.workspace !in rest }

  lemma SortedSame(t: Table, gone: set<Key>, s: seq<Key>)
    requires Sorted(EvictAll(t, gone), s)
    ensures Sorted(t, s)
  {
    forall i, j | 0 <= i < j < |s| && s[i] in t && s[j] in t ensures t[s[i]].completedAt <= t[s[j]].completedAt {
      var e := EvictAll(t, gone);
      assert e[s[i]].completedAt == t[s[i]].completedAt && e[s[j]].completedAt == t[s[j]].completedAt;
    }
  }

  lemma DisjointGroup(s: set<Key>, gone: set<Key>, w: string)
    requires Group(gone, w) == {}
    ensures Group(s, w) !! gone
  {
    forall k | k in gone ensures k !in Group(s, w) { assert k.workspace == w ==> k in Group(gone, w); }
  }
}
