/**
 The loops of the provider pool as one thread runs them: admission with its retry, eviction of
 the least recently used idle provider, and reaping. What other threads hold during the call is
 fixed: `busy` are the slots whose lock they hold.
 */
module PoolEviction {
  import opened Basics
  import opened Sorting
  import PoolProtocol

  type SlotId = PoolProtocol.SlotId
  type Provider = PoolProtocol.ProvId
  type Slot = PoolProtocol.Slot
  type Candidate = PoolProtocol.Cand

  type Slots = map<SlotId, Slot>

  /** What the environment decides: held slot locks, which closes succeed, generations, the clock and
      which roots are gone. */
  datatype World = World(
    busy: set<SlotId>, closes: Provider -> bool, epochOf: Provider -> nat,
    now: int, idleTimeout: int, rootMissing: SlotId -> bool)

  /** One minute, in nanoseconds. */
  const MISSING_ROOT_TIMEOUT := 60_000_000_000

  predicate Due(w: World, s: SlotId, x: Slot) {
    var idle := w.now - x.lastUsed;
    idle >= w.idleTimeout || (idle >= MISSING_ROOT_TIMEOUT && w.rootMissing(s))
  }

  /** A backend nobody leases in a slot whose lock can be taken. */
  predicate Idle(w: World, slots: Slots, s: SlotId) {
    s in slots && s !in w.busy && slots[s].backend.Some? && slots[s].users == 0
  }

  function IdleSlots(w: World, slots: Slots): (r: set<SlotId>) { set s | s in slots && Idle(w, slots, s) }

  function Closes(w: World, slots: Slots, s: SlotId): bool
    requires Idle(w, slots, s)
  {
    w.closes(slots[s].backend.value)
  }

  /** A slot whose backend's generation was noted before closing it. */
  function NotedSlot(w: World, x: Slot): Slot { if x.backend.Some? then x.(epoch := w.epochOf(x.backend.value)) else x }

  function Noted(w: World, slots: Slots, tried: set<SlotId>): Slots {
    map s | s in slots :: if s in tried then NotedSlot(w, slots[s]) else slots[s]
  }

  function Emptied(slots: Slots, gone: set<SlotId>): Slots {
    map s | s in slots :: if s in gone then slots[s].(backend := None) else slots[s]
  }

  /** Each backend belongs to one slot and holds a reservation. */
  ghost predicate Owning(slots: Slots, owned: set<Provider>) {
    && (forall s :: s in slots && slots[s].backend.Some? ==> slots[s].backend.value in owned)
    && (forall s, t :: s in slots && t in slots && slots[s].backend.Some? && slots[s].backend == slots[t].backend ==> s == t)
  }

  /** The eviction of `victim` after trying `tried` in vain: nobody tried was used later than the
      victim, nobody passed over was used earlier. */
  ghost predicate LeastRecent(w: World, slots: Slots, tried: set<SlotId>, victim: SlotId) {
    && Idle(w, slots, victim) && Closes(w, slots, victim) && victim !in tried
    && (forall s :: s in tried ==> Idle(w, slots, s) && !Closes(w, slots, s) && slots[s].lastUsed <= slots[victim].lastUsed)
    && (forall s :: s in IdleSlots(w, slots) && s !in tried ==> slots[victim].lastUsed <= slots[s].lastUsed)
  }

  /** The victim's backend and its reservation are gone; of the slots tried before it only the
      generation was noted. */
  ghost predicate EvictedOne(w: World, slots: Slots, owned: set<Provider>, tried: set<SlotId>, victim: SlotId, slots': Slots, owned': set<Provider>) {
    && LeastRecent(w, slots, tried, victim)
    && slots' == Emptied(Noted(w, slots, tried + {victim}), {victim})
    && owned' == owned - {slots[victim].backend.value}
  }

  /** Every idle slot was tried and none would close. */
  ghost predicate NoneCloses(w: World, slots: Slots, tried: set<SlotId>) {
    tried == IdleSlots(w, slots) && forall s :: s in tried ==> !Closes(w, slots, s)
  }

  datatype Admission = Granted | PoolClosed | Exhausted

  /** The idle slots due for reaping, apart from those still ahead. */
  function DueSlots(w: World, slots: Slots, todo: set<SlotId>): (r: set<SlotId>) {
    set s | s in slots && s !in todo && Idle(w, slots, s) && Due(w, s, slots[s])
  }

  /** Those of them that close. */
  function Reaped(w: World, slots: Slots, todo: set<SlotId>): (r: set<SlotId>) {
    set s | s in slots && s !in todo && Idle(w, slots, s) && Due(w, s, slots[s]) && Closes(w, slots, s)
  }

  function Backends(slots: Slots, chosen: set<SlotId>): (r: set<Provider>) {
    set s | s in chosen && s in slots && slots[s].backend.Some? :: slots[s].backend.value
  }

  ghost predicate Lists(w: World, slots: Slots, cands: seq<Candidate>, todo: set<SlotId>) {
    && (forall c :: c in cands ==> c.slot in slots && Idle(w, slots, c.slot) && c.used == slots[c.slot].lastUsed)
    && (forall s :: s in slots && Idle(w, slots, s) && s !in todo ==> PoolProtocol.Cand(s, slots[s].lastUsed) in cands)
    && Distinct(cands)
    && (forall c :: c in cands ==> c.slot !in todo)
  }

  class Pool {
    var slots: Slots
    var owned: set<Provider>
    var closed: bool
    const max: nat

    ghost predicate Valid()
      reads this
    {
      |owned| <= max && Owning(slots, owned)
    }

    constructor (max: nat)
      ensures Valid() && slots == map[] && owned == {} && !closed && this.max == max
    {
      slots, owned, closed := map[], {}, false;
      this.max := max;
    }

    /** closeSlotLocked: a failed close keeps the backend and its reservation. */
    method CloseSlot(w: World, s: SlotId) returns (ok: bool)
      requires s in slots
      modifies this`slots, this`owned
      ensures s in slots && (ok <==> slots[s].backend.None?)
      ensures var x := old(slots)[s];
              && (x.backend.None? ==> slots == old(slots) && owned == old(owned))
              && (x.backend.Some? && !w.closes(x.backend.value) ==> slots == old(slots)[s := NotedSlot(w, x)] && owned == old(owned))
              && (x.backend.Some? && w.closes(x.backend.value) ==>
                    slots == old(slots)[s := NotedSlot(w, x).(backend := None)] && owned == old(owned) - {x.backend.value})
    {
      if slots[s].backend.None? { return true; }
      var b := slots[s].backend.value;
      slots := slots[s := slots[s].(epoch := w.epochOf(b))];
      if !w.closes(b) { return false; }
      owned := owned - {b};
      slots := slots[s := slots[s].(backend := None)];
      return true;
    }

    /** The snapshot of evictLRU: idle slots whose lock is free, with their last use. */
    method Candidates(w: World) returns (cands: seq<Candidate>)
      ensures Lists(w, slots, cands, {})
    {
      cands := [];
      var todo := slots.Keys;
      while todo != {}
        invariant todo <= slots.Keys && Lists(w, slots, cands, todo)
        decreases |todo|
      {
        var s :| s in todo;
        if s !in w.busy && slots[s].backend.Some? && slots[s].users == 0 {
          AddCandidate(w, slots, cands, todo, s);
          cands := cands + [PoolProtocol.Cand(s, slots[s].lastUsed)];
        }
        todo := todo - {s};
      }
    }

    /** evictLRU. */
    method EvictLRU(w: World) returns (victim: Option<SlotId>, ghost tried: set<SlotId>)
      requires Valid()
      modifies this`slots, this`owned
      ensures Valid()
      ensures victim.Some? ==> EvictedOne(w, old(slots), old(owned), tried, victim.value, slots, owned)
      ensures victim.None? ==> NoneCloses(w, old(slots), tried) && slots == Noted(w, old(slots), tried) && owned == old(owned)
    {
      ghost var before := slots;
      var cands := Candidates(w);
      var sorted := Sort(cands, PoolProtocol.UsedLe);
      SortedLists(w, slots, cands, sorted);
      tried := {};
      assert Noted(w, before, {}) == before;
      for i := 0 to |sorted|
        invariant slots == Noted(w, before, tried) && owned == old(owned)
        invariant tried == TriedOf(sorted, i) && forall s :: s in tried ==> Idle(w, before, s) && !Closes(w, before, s)
      {
        var c := sorted[i];
        Fresh(w, before, sorted, i);
        if c.slot !in w.busy && slots[c.slot].backend.Some? && slots[c.slot].users == 0 && slots[c.slot].lastUsed == c.used {
          NoteOne(w, before, tried, c.slot);
          var ok := CloseSlot(w, c.slot);
          if ok {
            victim := Some(c.slot);
            VictimIsLeast(w, before, sorted, i, tried);
            OwningAfter(w, before, owned, tried, c.slot, old(owned));
            return;
          }
        }
        MoreTried(sorted, i);
        tried := tried + {c.slot};
      }
      victim := None;
      AllTried(w, before, sorted, tried);
      OwningNoted(w, before, tried, owned);
    }

    /** reserve: admission with its retry loop. At most one provider is evicted on the way. */
    method Reserve(w: World, b: Provider) returns (r: Admission, ghost evicted: Option<SlotId>, ghost tried: set<SlotId>)
      requires Valid() && b !in owned
      modifies this`slots, this`owned
      ensures Valid()
      ensures r.PoolClosed? <==> closed
      ensures r.PoolClosed? ==> slots == old(slots) && owned == old(owned)
      ensures r.Exhausted? ==> |owned| == max && NoneCloses(w, old(slots), tried) && slots == Noted(w, old(slots), tried) && owned == old(owned)
      ensures r.Granted? && evicted.None? ==> |old(owned)| < max && slots == old(slots) && owned == old(owned) + {b}
      ensures r.Granted? && evicted.Some? ==>
                && b in owned && |old(owned)| == max
                && EvictedOne(w, old(slots), old(owned), tried, evicted.value, slots, owned - {b})
    {
      evicted, tried := None, {};
      while true
        invariant Valid() && b !in owned
        invariant evicted.None? ==> slots == old(slots) && owned == old(owned)
        invariant evicted.Some? ==>
                    && !closed && |owned| < max && |old(owned)| == max
                    && EvictedOne(w, old(slots), old(owned), tried, evicted.value, slots, owned)
        decreases |owned|
      {
        if closed { return PoolClosed, evicted, tried; }
        if |owned| < max {
          OwningMore(slots, owned, b);
          assert owned + {b} - {b} == owned;
          owned := owned + {b};
          return Granted, evicted, tried;
        }
        var victim := Evict(w);
        if victim.None? { return Exhausted, None, IdleSlots(w, old(slots)); }
        tried := TriedBefore(w, old(slots), old(owned), victim.value, slots, owned);
        evicted := Some(victim.value);
      }
    }

    /** evictLRU without its trace. */
    method Evict(w: World) returns (victim: Option<SlotId>)
      requires Valid()
      modifies this`slots, this`owned
      ensures Valid()
      ensures victim.Some? ==> (exists tried :: EvictedOne(w, old(slots), old(owned), tried, victim.value, slots, owned)) && |owned| == |old(owned)| - 1
      ensures victim.Some? ==> owned <= old(owned)
      ensures victim.None? ==> NoneCloses(w, old(slots), IdleSlots(w, old(slots))) && slots == Noted(w, old(slots), IdleSlots(w, old(slots))) && owned == old(owned)
    {
      ghost var tried;
      victim, tried := EvictLRU(w);
      if victim.Some? { OneFewer(old(slots), old(owned), victim.value); }
    }

    /** reapSlotLocked for the next slot of the walk, if its lock can be taken. */
    method ReapSlot(w: World, s: SlotId, ghost before: Slots, ghost reserved: set<Provider>, ghost todo: set<SlotId>) returns (reaped: bool)
      requires s in todo && s in before && slots == Walked(w, before, todo) && owned == Left(w, before, reserved, todo)
      modifies this`slots, this`owned
      ensures slots == Walked(w, before, todo - {s}) && owned == Left(w, before, reserved, todo - {s})
      ensures |Reaped(w, before, todo - {s})| == |Reaped(w, before, todo)| + if reaped then 1 else 0
    {
      ReapOne(w, before, todo, s);
      ReapOwned(w, before, reserved, todo, s);
      if s in w.busy || slots[s].backend.None? || slots[s].users != 0 || !Due(w, s, slots[s]) { return false; }
      reaped := CloseSlot(w, s);
    }

    /** ReapIdle: closes every idle provider that is due, and counts those that closed. */
    method ReapIdle(w: World) returns (reaped: nat)
      requires Valid()
      modifies this`slots, this`owned
      ensures Valid()
      ensures slots == Walked(w, old(slots), {}) && owned == Left(w, old(slots), old(owned), {})
      ensures reaped == |Reaped(w, old(slots), {})|
    {
      ghost var before, reserved := slots, owned;
      var todo := slots.Keys;
      reaped := 0;
      NothingReaped(w, before, reserved);
      while todo != {}
        invariant todo <= before.Keys && reaped == |Reaped(w, before, todo)|
        invariant slots == Walked(w, before, todo) && owned == Left(w, before, reserved, todo)
        decreases |todo|
      {
        var s :| s in todo;
        var one := ReapSlot(w, s, before, reserved, todo);
        if one { reaped := reaped + 1; }
        todo := todo - {s};
      }
      OwningReaped(w, before, reserved);
    }
  }

  /** A walk empties exactly the slots nobody holds or uses whose backend was last used at least the idle
      timeout ago, or at least a minute ago with its root gone, and closes. */
  lemma ReapedIff(w: World, slots: Slots, s: SlotId)
    ensures s in Reaped(w, slots, {}) <==>
              && s in slots && s !in w.busy && slots[s].backend.Some? && slots[s].users == 0 && w.closes(slots[s].backend.value)
              && (slots[s].lastUsed + w.idleTimeout <= w.now || (w.rootMissing(s) && slots[s].lastUsed + 60_000_000_000 <= w.now))
    ensures s in slots ==> s in Walked(w, slots, {})
    ensures s in slots ==> Walked(w, slots, {})[s].backend == if s in Reaped(w, slots, {}) then None else slots[s].backend
  {
  }

  // ---------- Candidates ----------

  lemma AddCandidate(w: World, slots: Slots, cands: seq<Candidate>, todo: set<SlotId>, s: SlotId)
    requires Lists(w, slots, cands, todo) && s in todo && s in slots && Idle(w, slots, s)
    ensures Lists(w, slots, cands + [PoolProtocol.Cand(s, slots[s].lastUsed)], todo - {s})
  {
    var c := PoolProtocol.Cand(s, slots[s].lastUsed);
    assert c !in cands;
  }

  /** The slots of the first n candidates. */
  function TriedOf(sorted: seq<Candidate>, n: nat): (r: set<SlotId>)
    requires n <= |sorted|
  {
    set i | 0 <= i < n :: sorted[i].slot
  }

  lemma MoreTried(sorted: seq<Candidate>, n: nat)
    requires n < |sorted|
    ensures TriedOf(sorted, n + 1) == TriedOf(sorted, n) + {sorted[n].slot}
  {
  }

  lemma SortedLists(w: World, slots: Slots, cands: seq<Candidate>, sorted: seq<Candidate>)
    requires Lists(w, slots, cands, {}) && Permutes(sorted, cands)
    ensures Lists(w, slots, sorted, {})
  {
    PermutedMembers(sorted, cands);
    PermutedDistinct(sorted, cands);
  }

  /** Each candidate names an idle slot not tried before. */
  lemma Fresh(w: World, slots: Slots, sorted: seq<Candidate>, n: nat)
    requires Lists(w, slots, sorted, {}) && n < |sorted|
    ensures sorted[n].slot !in TriedOf(sorted, n) && sorted[n].slot in slots && Idle(w, slots, sorted[n].slot)
    ensures sorted[n].used == slots[sorted[n].slot].lastUsed
  {
    assert sorted[n] in sorted;
    forall i | 0 <= i < n ensures sorted[i].slot != sorted[n].slot {
      assert sorted[i] in sorted;
      assert sorted[i] != sorted[n];
    }
  }

  lemma NoteOne(w: World, slots: Slots, tried: set<SlotId>, s: SlotId)
    requires s in slots && s !in tried
    ensures Noted(w, slots, tried)[s] == slots[s]
    ensures Noted(w, slots, tried)[s := NotedSlot(w, slots[s])] == Noted(w, slots, tried + {s})
    ensures slots[s].backend.Some? ==>
              Noted(w, slots, tried)[s := NotedSlot(w, slots[s]).(backend := None)] == Emptied(Noted(w, slots, tried + {s}), {s})
  {
  }

  lemma VictimIsLeast(w: World, slots: Slots, sorted: seq<Candidate>, n: nat, tried: set<SlotId>)
    requires Lists(w, slots, sorted, {}) && InOrder(sorted, PoolProtocol.UsedLe) && n < |sorted| && tried == TriedOf(sorted, n)
    requires Idle(w, slots, sorted[n].slot) && Closes(w, slots, sorted[n].slot) && sorted[n].slot !in tried
    requires forall s :: s in tried ==> Idle(w, slots, s) && !Closes(w, slots, s)
    ensures LeastRecent(w, slots, tried, sorted[n].slot)
  {
    var victim := sorted[n].slot;
    assert sorted[n] in sorted;
    forall s | s in tried ensures slots[s].lastUsed <= slots[victim].lastUsed {
      var i :| 0 <= i < n && sorted[i].slot == s;
      assert sorted[i] in sorted && PoolProtocol.UsedLe(sorted[i], sorted[n]);
    }
    forall s | s in IdleSlots(w, slots) && s !in tried ensures slots[victim].lastUsed <= slots[s].lastUsed {
      assert PoolProtocol.Cand(s, slots[s].lastUsed) in sorted;
      var i :| 0 <= i < |sorted| && sorted[i] == PoolProtocol.Cand(s, slots[s].lastUsed);
      if i > n { assert PoolProtocol.UsedLe(sorted[n], sorted[i]); }
    }
  }

  lemma AllTried(w: World, slots: Slots, sorted: seq<Candidate>, tried: set<SlotId>)
    requires Lists(w, slots, sorted, {}) && tried == TriedOf(sorted, |sorted|)
    requires forall s :: s in tried ==> Idle(w, slots, s) && !Closes(w, slots, s)
    ensures NoneCloses(w, slots, tried)
  {
    forall s | s in IdleSlots(w, slots) ensures s in tried {
      assert PoolProtocol.Cand(s, slots[s].lastUsed) in sorted;
      var i :| 0 <= i < |sorted| && sorted[i] == PoolProtocol.Cand(s, slots[s].lastUsed);
    }
  }

  // ---------- Reservations ----------

  lemma OwningNoted(w: World, slots: Slots, tried: set<SlotId>, owned: set<Provider>)
    requires Owning(slots, owned)
    ensures Owning(Noted(w, slots, tried), owned)
  {
    var noted := Noted(w, slots, tried);
    assert forall s :: s in noted ==> noted[s].backend == slots[s].backend;
  }

  lemma OwningAfter(w: World, slots: Slots, owned: set<Provider>, tried: set<SlotId>, victim: SlotId, before: set<Provider>)
    requires Owning(slots, before) && victim in slots && slots[victim].backend.Some? && owned == before - {slots[victim].backend.value}
    ensures Owning(Emptied(Noted(w, slots, tried + {victim}), {victim}), owned) && |owned| < |before|
  {
    var noted := Noted(w, slots, tried + {victim});
    var after := Emptied(noted, {victim});
    assert forall s :: s in noted ==> noted[s].backend == slots[s].backend;
    assert slots[victim].backend.value in before;
  }

  lemma OwningMore(slots: Slots, owned: set<Provider>, b: Provider)
    requires Owning(slots, owned)
    ensures Owning(slots, owned + {b})
  {
  }

  lemma TriedBefore(w: World, slots: Slots, owned: set<Provider>, victim: SlotId, slots': Slots, owned': set<Provider>) returns (tried: set<SlotId>)
    requires exists tried :: EvictedOne(w, slots, owned, tried, victim, slots', owned')
    ensures EvictedOne(w, slots, owned, tried, victim, slots', owned')
  {
    tried :| EvictedOne(w, slots, owned, tried, victim, slots', owned');
  }

  lemma OneFewer(slots: Slots, owned: set<Provider>, victim: SlotId)
    requires Owning(slots, owned) && victim in slots && slots[victim].backend.Some?
    ensures |owned - {slots[victim].backend.value}| == |owned| - 1
  {
  }

  // ---------- Reaping ----------

  /** The slots once all but `todo` have been looked at: due ones have their generation noted, those
      that closed are empty. */
  function Walked(w: World, slots: Slots, todo: set<SlotId>): Slots {
    Emptied(Noted(w, slots, DueSlots(w, slots, todo)), Reaped(w, slots, todo))
  }

  function Left(w: World, slots: Slots, owned: set<Provider>, todo: set<SlotId>): set<Provider> {
    owned - Backends(slots, Reaped(w, slots, todo))
  }

  lemma NothingReaped(w: World, slots: Slots, owned: set<Provider>)
    ensures Walked(w, slots, slots.Keys) == slots && Left(w, slots, owned, slots.Keys) == owned && Reaped(w, slots, slots.Keys) == {}
  {
  }

  predicate Reapable(w: World, slots: Slots, s: SlotId) { Idle(w, slots, s) && Due(w, s, slots[s]) }

  /** The walk when slot s is next, and what each outcome makes of it. */
  lemma ReapOne(w: World, slots: Slots, todo: set<SlotId>, s: SlotId)
    requires s in todo && s in slots
    ensures var now, next := Walked(w, slots, todo), Walked(w, slots, todo - {s});
            && s in now && now[s] == slots[s]
            && (!Reapable(w, slots, s) ==> next == now)
            && (Reapable(w, slots, s) && !Closes(w, slots, s) ==> next == now[s := NotedSlot(w, slots[s])])
            && (Reapable(w, slots, s) && Closes(w, slots, s) ==> next == now[s := NotedSlot(w, slots[s]).(backend := None)])
  {
    var rest := todo - {s};
    var due := if Reapable(w, slots, s) then {s} else {};
    var reaped := if Reapable(w, slots, s) && Closes(w, slots, s) then {s} else {};
    assert DueSlots(w, slots, rest) == DueSlots(w, slots, todo) + due;
    assert Reaped(w, slots, rest) == Reaped(w, slots, todo) + reaped;
  }

  lemma ReapOwned(w: World, slots: Slots, owned: set<Provider>, todo: set<SlotId>, s: SlotId)
    requires s in todo && s in slots
    ensures var now, next := Reaped(w, slots, todo), Reaped(w, slots, todo - {s});
            && (Reapable(w, slots, s) && Closes(w, slots, s) ==>
                  |next| == |now| + 1 && Left(w, slots, owned, todo - {s}) == Left(w, slots, owned, todo) - {slots[s].backend.value})
            && (!(Reapable(w, slots, s) && Closes(w, slots, s)) ==>
                  next == now && Left(w, slots, owned, todo - {s}) == Left(w, slots, owned, todo))
  {
    var now, next := Reaped(w, slots, todo), Reaped(w, slots, todo - {s});
    if Reapable(w, slots, s) && Closes(w, slots, s) {
      assert next == now + {s};
      assert Backends(slots, next) == Backends(slots, now) + {slots[s].backend.value};
    } else {
      assert next == now;
    }
  }

  lemma OwningReaped(w: World, slots: Slots, owned: set<Provider>)
    requires Owning(slots, owned)
    ensures Owning(Walked(w, slots, {}), Left(w, slots, owned, {})) && |Left(w, slots, owned, {})| <= |owned|
  {
    var noted := Noted(w, slots, DueSlots(w, slots, {}));
    assert forall s :: s in noted ==> noted[s].backend == slots[s].backend;
    FewerOwned(owned, Backends(slots, Reaped(w, slots, {})));
  }

  lemma FewerOwned(owned: set<Provider>, gone: set<Provider>)
    ensures |owned - gone| <= |owned|
  {
    assert owned == (owned - gone) + (owned * gone);
  }
}
