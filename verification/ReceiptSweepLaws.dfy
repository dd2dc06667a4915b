/** What a sweep guarantees, whichever receipts it chose among equal completion times. */
module ReceiptSweepLaws {
  import opened Basics
  import opened ReceiptEnvelope
  import opened ReceiptRetention

  /** Which keys are left, and as what. */
  lemma SweptAt(before: Table, after: Table, limits: Limits, size: Fields -> nat, now: int, e: Evictions, k: Key)
    requires Swept(before, after, limits, size, now, e)
    ensures k in after <==> k in before && k !in e.dropped
    ensures k in after && k in e.byCount + e.byBytes ==> after[k] == Tombstone(Aged(before[k], limits, size, now))
    ensures k in after && k !in e.byCount + e.byBytes ==> after[k] == Aged(before[k], limits, size, now)
    ensures k in e.byCount + e.byBytes ==> k in before && Retained(before[k])
    ensures k in e.dropped ==> k in before && (before[k].evicted || k in e.byCount + e.byBytes)
  {
  }

  lemma RetainedAfter(before: Table, after: Table, limits: Limits, size: Fields -> nat, now: int, e: Evictions)
    requires Swept(before, after, limits, size, now, e)
    ensures RetainedKeys(after) == RetainedKeys(before) - e.byCount - e.byBytes
  {
    forall k ensures k in RetainedKeys(after) <==> k in RetainedKeys(before) - e.byCount - e.byBytes {
      SweptAt(before, after, limits, size, now, e, k);
    }
  }

  lemma TombstonesAfter(before: Table, after: Table, limits: Limits, size: Fields -> nat, now: int, e: Evictions)
    requires Swept(before, after, limits, size, now, e)
    ensures TombstoneKeys(after) == TombstoneKeys(before) + e.byCount + e.byBytes - e.dropped
  {
    forall k ensures k in TombstoneKeys(after) <==> k in TombstoneKeys(before) + e.byCount + e.byBytes - e.dropped {
      SweptAt(before, after, limits, size, now, e, k);
    }
  }

  lemma SmallerGroup(a: set<Key>, b: set<Key>, w: string)
    requires a <= b
    ensures |Group(a, w)| <= |Group(b, w)|
  {
    SubsetSize(Group(a, w), Group(b, w));
  }

  /** The caps hold afterwards: finished receipts by count and by bytes, tombstones by count. */
  lemma SweepBounds(before: Table, after: Table, limits: Limits, size: Fields -> nat, now: int, e: Evictions, w: string)
    requires Swept(before, after, limits, size, now, e)
    ensures |Group(RetainedKeys(after), w)| <= limits.perWorkspace
    ensures |Group(TombstoneKeys(after), w)| <= limits.tombstones
    ensures RetainedKeys(after) <= after.Keys && Bytes(after, RetainedKeys(after)) <= limits.totalBytes
  {
    RetainedAfter(before, after, limits, size, now, e);
    TombstonesAfter(before, after, limits, size, now, e);
    var aged, live := AgedTable(before, limits, size, now), RetainedKeys(before);
    assert CutTo(aged, live, e.byCount, limits.perWorkspace, w);
    assert CutTo(aged, TombstoneKeys(before) + e.byCount + e.byBytes, e.dropped, limits.tombstones, w);
    SmallerGroup(RetainedKeys(after), live - e.byCount, w);
    forall k | k in RetainedKeys(after) ensures after[k].bytes == aged[k].bytes {
      SweptAt(before, after, limits, size, now, e, k);
    }
    BytesSame(aged, after, RetainedKeys(after));
  }

  /** Receipts in flight, and any other that is neither retained nor a tombstone, are untouched. */
  lemma SweepSpares(before: Table, after: Table, limits: Limits, size: Fields -> nat, now: int, e: Evictions, k: Key)
    requires Swept(before, after, limits, size, now, e)
    requires k in before && !Retained(before[k]) && !before[k].evicted
    ensures k in after && after[k] == before[k]
  {
    SweptAt(before, after, limits, size, now, e, k);
  }

  /** A deleted key was a tombstone by then, and its workspace keeps a full quota of tombstones none
      of which is older. */
  lemma SweepDeletes(before: Table, after: Table, limits: Limits, size: Fields -> nat, now: int, e: Evictions, k: Key)
    requires Swept(before, after, limits, size, now, e)
    requires k in before && k !in after
    ensures before[k].evicted || Retained(before[k])
    ensures |Group(TombstoneKeys(after), k.workspace)| == limits.tombstones
    ensures forall b :: b in Group(TombstoneKeys(after), k.workspace) ==> b in before && before[k].completedAt <= before[b].completedAt
  {
    SweptAt(before, after, limits, size, now, e, k);
    TombstonesAfter(before, after, limits, size, now, e);
    var aged, tombs := AgedTable(before, limits, size, now), TombstoneKeys(before) + e.byCount + e.byBytes;
    assert CutTo(aged, tombs, e.dropped, limits.tombstones, k.workspace);
    assert k in Group(e.dropped, k.workspace);
    forall b | b in Group(TombstoneKeys(after), k.workspace) ensures b in before && before[k].completedAt <= before[b].completedAt {
      SweptAt(before, after, limits, size, now, e, b);
      assert aged[k].completedAt <= aged[b].completedAt;
    }
  }

  /** Eviction is oldest first within a workspace. */
  lemma SweepOldestFirst(before: Table, after: Table, limits: Limits, size: Fields -> nat, now: int, e: Evictions, a: Key, b: Key)
    requires Swept(before, after, limits, size, now, e)
    requires a.workspace == b.workspace && a in RetainedKeys(before) && a !in RetainedKeys(after) && b in RetainedKeys(after)
    ensures b in before && before[a].completedAt <= before[b].completedAt
  {
    RetainedAfter(before, after, limits, size, now, e);
    var aged, live, w := AgedTable(before, limits, size, now), RetainedKeys(before), a.workspace;
    if a in e.byCount {
      assert CutTo(aged, live, e.byCount, limits.perWorkspace, w);
      assert a in Group(e.byCount, w) && b in Group(live - e.byCount, w);
    }
    assert aged[a].completedAt <= aged[b].completedAt;
  }

  /** The byte budget evicts across workspaces, oldest first, and never one receipt too many. */
  lemma SweepByBytes(before: Table, after: Table, limits: Limits, size: Fields -> nat, now: int, e: Evictions)
    requires Swept(before, after, limits, size, now, e) && e.byBytes != {}
    ensures forall a, b :: a in e.byBytes && b in RetainedKeys(after) ==> a in before && b in before && before[a].completedAt <= before[b].completedAt
    ensures var aged := AgedTable(before, limits, size, now);
            exists last :: last in e.byBytes && RetainedKeys(after) + {last} <= aged.Keys
                        && Bytes(aged, RetainedKeys(after) + {last}) > limits.totalBytes
  {
    RetainedAfter(before, after, limits, size, now, e);
    var aged, s := AgedTable(before, limits, size, now), RetainedKeys(before) - e.byCount;
    assert CutToBytes(aged, s, e.byBytes, limits.totalBytes);
    forall a, b | a in e.byBytes && b in RetainedKeys(after) ensures a in before && b in before && before[a].completedAt <= before[b].completedAt {
      assert aged[a].completedAt <= aged[b].completedAt;
    }
    LastOverBudget(aged, s, e.byBytes, limits.totalBytes, RetainedKeys(after));
  }

  lemma LastOverBudget(t: Table, s: set<Key>, gone: set<Key>, cap: nat, kept: set<Key>)
    requires CutToBytes(t, s, gone, cap) && gone != {} && kept == s - gone
    ensures exists last :: last in gone && kept + {last} <= t.Keys && Bytes(t, kept + {last}) > cap
  {
  }

  lemma CutNone(t: Table, s: set<Key>, gone: set<Key>, cap: nat)
    requires gone <= s && (forall w :: CutTo(t, s, gone, cap, w)) && (forall w :: |Group(s, w)| <= cap)
    ensures gone == {}
  {
    if gone != {} {
      var k :| k in gone;
      var w := k.workspace;
      assert CutTo(t, s, gone, cap, w) && |Group(s, w)| <= cap;
      assert k in Group(gone, w) && k in Group(s, w) && k !in Group(s - gone, w);
      assert Group(s - gone, w) <= Group(s, w);
      SubsetSize(Group(s - gone, w), Group(s, w));
    }
  }

  lemma AgedAgain(r: Receipt, limits: Limits, size: Fields -> nat, now: int)
    ensures Aged(Aged(r, limits, size, now), limits, size, now) == Aged(r, limits, size, now)
    ensures Aged(Tombstone(r), limits, size, now) == Tombstone(r)
  {
  }

  lemma AgedStays(before: Table, after: Table, limits: Limits, size: Fields -> nat, now: int, e: Evictions)
    requires Swept(before, after, limits, size, now, e)
    ensures AgedTable(after, limits, size, now) == after
  {
    forall k | k in after ensures Aged(after[k], limits, size, now) == after[k] {
      SweptAt(before, after, limits, size, now, e, k);
      AgedAgain(before[k], limits, size, now);
      AgedAgain(Aged(before[k], limits, size, now), limits, size, now);
    }
  }

  lemma FitsAlready(t: Table, s: set<Key>, gone: set<Key>, cap: nat)
    requires CutToBytes(t, s, gone, cap) && Bytes(t, s) <= cap
    ensures gone == {}
  {
    if gone != {} {
      var last :| last in gone && Bytes(t, s - gone + {last}) > cap && OldestFirst(t, gone, {last});
      BytesMonotone(t, s - gone + {last}, s);
    }
  }

  lemma {:induction false} BytesMonotone(t: Table, a: set<Key>, b: set<Key>)
    requires a <= b <= t.Keys
    ensures Bytes(t, a) <= Bytes(t, b)
  {
    if a != {} {
      var k :| k in a;
      BytesRemove(t, a, k);
      BytesRemove(t, b, k);
      BytesMonotone(t, a - {k}, b - {k});
    }
  }

  /** Sweeping again at the same time changes nothing. */
  lemma SweepTwice(before: Table, after: Table, again: Table, limits: Limits, size: Fields -> nat, now: int, e: Evictions, f: Evictions)
    requires Swept(before, after, limits, size, now, e) && Swept(after, again, limits, size, now, f)
    ensures again == after && f == Evictions({}, {}, {})
  {
    AgedStays(before, after, limits, size, now, e);
    forall w ensures |Group(RetainedKeys(after), w)| <= limits.perWorkspace && |Group(TombstoneKeys(after), w)| <= limits.tombstones
      && RetainedKeys(after) <= after.Keys && Bytes(after, RetainedKeys(after)) <= limits.totalBytes {
      SweepBounds(before, after, limits, size, now, e, w);
    }
    SweepBounds(before, after, limits, size, now, e, "");
    NothingMore(after, again, limits, size, now, f);
  }

  lemma NothingMore(t: Table, again: Table, limits: Limits, size: Fields -> nat, now: int, f: Evictions)
    requires Swept(t, again, limits, size, now, f) && AgedTable(t, limits, size, now) == t
    requires forall w :: |Group(RetainedKeys(t), w)| <= limits.perWorkspace
    requires forall w :: |Group(TombstoneKeys(t), w)| <= limits.tombstones
    requires RetainedKeys(t) <= t.Keys && Bytes(t, RetainedKeys(t)) <= limits.totalBytes
    ensures again == t && f == Evictions({}, {}, {})
  {
    NoneEvicted(t, again, limits, size, now, f);
    NoneDropped(t, again, limits, size, now, f);
    assert EvictAll(t, {} + {}) - {} == t;
  }

  lemma NoneEvicted(t: Table, again: Table, limits: Limits, size: Fields -> nat, now: int, f: Evictions)
    requires Swept(t, again, limits, size, now, f) && AgedTable(t, limits, size, now) == t
    requires forall w :: |Group(RetainedKeys(t), w)| <= limits.perWorkspace
    requires RetainedKeys(t) <= t.Keys && Bytes(t, RetainedKeys(t)) <= limits.totalBytes
    ensures f.byCount == {} && f.byBytes == {}
  {
    CutNone(t, RetainedKeys(t), f.byCount, limits.perWorkspace);
    assert RetainedKeys(t) - f.byCount == RetainedKeys(t);
    FitsAlready(t, RetainedKeys(t), f.byBytes, limits.totalBytes);
  }

  lemma NoneDropped(t: Table, again: Table, limits: Limits, size: Fields -> nat, now: int, f: Evictions)
    requires Swept(t, again, limits, size, now, f) && AgedTable(t, limits, size, now) == t && f.byCount == {} && f.byBytes == {}
    requires forall w :: |Group(TombstoneKeys(t), w)| <= limits.tombstones
    ensures f.dropped == {}
  {
    assert TombstoneKeys(t) + f.byCount + f.byBytes == TombstoneKeys(t);
    CutNone(t, TombstoneKeys(t), f.dropped, limits.tombstones);
  }

  /** What a sweep evicts and keeps as a tombstone loses its payload and counts no bytes, and still names
      its arguments, so that a retry is refused rather than executed again. */
  lemma SweepTombstones(before: Table, after: Table, limits: Limits, size: Fields -> nat, now: int, e: Evictions, k: Key)
    requires Swept(before, after, limits, size, now, e) && k in after && k in e.byCount + e.byBytes
    ensures k in before && Retained(before[k]) && after[k].evicted && after[k].result == map[] && after[k].bytes == 0
    ensures after[k].argumentsHash == before[k].argumentsHash && after[k].completedAt == before[k].completedAt
    ensures after[k].done && after[k].complete && after[k].checkpointed == before[k].checkpointed
  {
    SweptAt(before, after, limits, size, now, e, k);
  }

  /** Of the receipts a sweep retains, it trims exactly those whose call ended more than the payload
      window ago; a payload within the window stays whole. */
  lemma SweepTrims(before: Table, after: Table, limits: Limits, size: Fields -> nat, now: int, e: Evictions, k: Key)
    requires Swept(before, after, limits, size, now, e) && k in RetainedKeys(after)
    ensures k in before && !before[k].evicted
    ensures after[k].trimmed <==> before[k].trimmed || before[k].completedAt + limits.payloadWindow < now
    ensures after[k].trimmed == before[k].trimmed ==> after[k] == before[k]
    ensures after[k].trimmed && !before[k].trimmed ==> after[k].result == Trim(before[k].result) && after[k].bytes == size(after[k].result)
    ensures after[k].completedAt == before[k].completedAt && after[k].argumentsHash == before[k].argumentsHash
  {
    SweptAt(before, after, limits, size, now, e, k);
  }

  /** A receipt the sweep retains still records the same revision steps. */
  lemma SweepKeepsProvenance(before: Table, after: Table, limits: Limits, size: Fields -> nat, now: int, e: Evictions,
                             k: Key, revision: Val -> Option<nat>, lo: nat, hi: nat)
    requires Swept(before, after, limits, size, now, e) && k in RetainedKeys(after)
    ensures k in before
    ensures Provenance(k.tool, after[k].result, revision, lo, hi) == Provenance(k.tool, before[k].result, revision, lo, hi)
  {
    SweptAt(before, after, limits, size, now, e, k);
    TrimKeepsProvenance(k.tool, before[k].result, revision, lo, hi);
  }
}
