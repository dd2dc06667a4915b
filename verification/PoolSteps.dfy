/** Every step of the pool protocol keeps the pool invariant. */
module PoolSteps {
  import opened Basics
  import opened PoolProtocol
  import opened PoolSafety

  lemma HeldIsFreeBut(st: State, t: Tid, l: Lock)
    requires Exclusive(st) && l in Holds(PcOf(st, t))
    ensures FreeBut(st, t, l)
  {
  }

  /** States that agree on everything a slot other than `s` can see. */
  predicate AgreeOff(st: State, st': State, s: SlotId) {
    && st'.closed == st.closed && st'.provs == st.provs
    && st'.slots.Keys == st.slots.Keys + {s}
    && (forall s2 :: s2 in st.slots && s2 != s ==> st'.slots[s2] == st.slots[s2])
    && (s in st.slots ==> st'.slots[s].lastUsed >= st.slots[s].lastUsed)
    && st.leases.Keys <= st'.leases.Keys
    && (forall l :: l in st'.leases ==>
          if l in st.leases then st'.leases[l] == st.leases[l] || (st'.leases[l].slot == s && st.leases[l].slot == s)
          else st'.leases[l].slot == s)
  }

  lemma OtherSlots(st: State, st': State, s: SlotId)
    requires (forall s2 :: s2 in st.slots ==> SlotOk(st, s2)) && AgreeOff(st, st', s)
    ensures forall s2 :: s2 in st'.slots && s2 != s ==> SlotOk(st', s2)
  {
    forall s2 | s2 in st'.slots && s2 != s ensures SlotOk(st', s2) {
      assert SlotOk(st, s2);
      assert ActiveLeases(st', s2) == ActiveLeases(st, s2);
    }
  }

  lemma OtherLeases(st: State, st': State, s: SlotId)
    requires (forall l :: l in st.leases ==> LeaseOk(st, l)) && AgreeOff(st, st', s)
    ensures forall l :: l in st'.leases && st'.leases[l].slot != s ==> LeaseOk(st', l)
  {
    forall l | l in st'.leases && st'.leases[l].slot != s ensures LeaseOk(st', l) {
      assert LeaseOk(st, l);
    }
  }

  lemma ProvsKeep(st: State, st': State, t: Tid)
    requires (forall p :: p in st.provs ==> ProvOk(st, p)) && st'.provs == st.provs && st'.owned == st.owned
    requires st'.threads == st.threads[t := PcOf(st', t)]
    requires !PcOf(st, t).OpenBusy? && !PcOf(st, t).CloseDelete?
    ensures forall p :: p in st'.provs ==> ProvOk(st', p)
  {
    forall p | p in st'.provs ensures ProvOk(st', p) { assert ProvOk(st, p); }
  }

  lemma SlotEvolves(st: State, st': State, t: Tid, s: SlotId)
    requires AgreeOff(st, st', s) && (s in st.slots ==> FreeBut(st, t, LSlot(s)))
    requires st'.max == st.max && st'.owned == st.owned
    requires forall l :: l in st.leases ==> LeaseChange(st, st', t, l)
    ensures Evolves(st, st', t)
  {
  }

  /** A step of `t` that changes one slot and leases of that slot only. */
  lemma SlotStep(st: State, st': State, t: Tid, s: SlotId)
    requires Inv(st) && AgreeOff(st, st', s) && (s in st.slots ==> FreeBut(st, t, LSlot(s)))
    requires st'.max == st.max && st'.owned == st.owned && st.visible <= st'.visible <= st'.slots.Keys
    requires t in st'.threads && st'.threads == st.threads[t := st'.threads[t]]
    requires !PcOf(st, t).OpenBusy? && !PcOf(st, t).CloseDelete?
    requires Acquirable(st, t, st'.threads[t]) && OkFor(st', t, st'.threads[t])
    requires forall l :: l in st.leases ==> LeaseChange(st, st', t, l)
    requires SlotOk(st', s)
    requires forall l :: l in st'.leases && st'.leases[l].slot == s ==> LeaseOk(st', l)
    ensures Inv(st')
  {
    OtherSlots(st, st', s);
    OtherLeases(st, st', s);
    ProvsKeep(st, st', t);
    SlotEvolves(st, st', t, s);
    Combine(st, st', t, st'.threads[t]);
  }

  lemma BeginCloseSlot(st: State, st': State, t: Tid, s: SlotId, c: Cause)
    requires s in st.slots && st.slots[s].backend.Some? && st.slots[s].users == 0 && SlotOk(st, s) && st' == BeginClose(st, t, s, c)
    ensures SlotOk(st', s) && Retired(st', s, st.slots[s].backend.value) && AgreeOff(st, st', s)
  {
    assert ActiveLeases(st', s) == ActiveLeases(st, s);
  }

  lemma BeginCloseLeases(st: State, st': State, t: Tid, s: SlotId, c: Cause)
    requires s in st.slots && st.slots[s].backend.Some? && st' == BeginClose(st, t, s, c) && (forall l :: l in st.leases ==> LeaseOk(st, l))
    ensures forall l :: l in st'.leases && st'.leases[l].slot == s ==> LeaseOk(st', l)
  {
    forall l | l in st'.leases && st'.leases[l].slot == s ensures LeaseOk(st', l) { assert LeaseOk(st, l); }
  }

  lemma BeginCloseKeeps(st: State, t: Tid, s: SlotId, c: Cause)
    requires Inv(st) && s in st.slots && st.slots[s].backend.Some? && st.slots[s].users == 0
    requires FreeBut(st, t, LSlot(s)) && !PcOf(st, t).OpenBusy? && !PcOf(st, t).CloseDelete?
    requires match c
             case Replace(s2) => s2 == s
             case RestartOf(s2) => s2 == s
             case Evict(why, s2, hunt) => s2 == s && WhyOk(st, why) && HuntOk(st, hunt) && Turn(st, s, hunt)
             case Reap(s2, todo) => s2 == s && todo <= st.slots.Keys
             case _ => false
    requires Acquirable(st, t, CloseWant(c, st.slots[s].backend.value))
    ensures Inv(BeginClose(st, t, s, c))
  {
    var st' := BeginClose(st, t, s, c);
    SlotFact(st, s);
    BeginCloseSlot(st, st', t, s, c);
    BeginCloseLeases(st, st', t, s, c);
    if c.Evict? { assert HuntOk(st', c.hunt) && Turn(st', s, c.hunt); }
    SlotStep(st, st', t, s);
  }

  lemma LeasedSlot(st: State, st': State, s: SlotId, p: ProvId, l: LeaseId, now: int)
    requires s in st.slots && SlotOk(st, s) && l !in st.leases
    requires st' == AddLease(st, s, p, l, now).(threads := st'.threads)
    ensures SlotOk(st', s)
  {
    assert ActiveLeases(st', s) == ActiveLeases(st, s) + {l};
  }

  lemma LeasedLeases(st: State, st': State, s: SlotId, p: ProvId, l: LeaseId, now: int)
    requires s in st.slots && (forall k :: k in st.leases ==> LeaseOk(st, k)) && st.slots[s].backend == Some(p)
    requires p in st.provs && st.provs[p].home == Some(s)
    requires st' == AddLease(st, s, p, l, now).(threads := st'.threads)
    ensures forall k :: k in st'.leases && st'.leases[k].slot == s ==> LeaseOk(st', k)
  {
    forall k | k in st'.leases && st'.leases[k].slot == s ensures LeaseOk(st', k) {
      if k != l { assert LeaseOk(st, k); }
    }
  }

  lemma LeasedShape(st: State, st': State, t: Tid, s: SlotId, p: ProvId, l: LeaseId, now: int)
    requires s in st.slots && l !in st.leases && Later(st, s, now) && st' == Goto(AddLease(st, s, p, l, now), t, Idle)
    ensures AgreeOff(st, st', s) && OkFor(st', t, Idle) && Acquirable(st, t, Idle)
    ensures forall k :: k in st.leases ==> LeaseChange(st, st', t, k)
  {
  }

  lemma AddLeaseKeeps(st: State, t: Tid, s: SlotId, p: ProvId, l: LeaseId, now: int)
    requires Inv(st) && s in st.slots && st.slots[s].backend == Some(p) && l !in st.leases && Later(st, s, now)
    requires FreeBut(st, t, LSlot(s)) && !PcOf(st, t).OpenBusy? && !PcOf(st, t).CloseDelete?
    ensures Inv(Goto(AddLease(st, s, p, l, now), t, Idle))
  {
    var st' := Goto(AddLease(st, s, p, l, now), t, Idle);
    SlotFact(st, s);
    LeasedShape(st, st', t, s, p, l, now);
    LeasedSlot(st, st', s, p, l, now);
    LeasedLeases(st, st', s, p, l, now);
    SlotStep(st, st', t, s);
  }

  lemma ReleasedSlot(st: State, st': State, t: Tid, s: SlotId, l: LeaseId, now: int)
    requires s in st.slots && SlotOk(st, s) && l in ActiveLeases(st, s)
    requires st' == DoReleaseUse(st, t, s, l, now)
    ensures SlotOk(st', s) && st.slots[s].users > 0
  {
    assert ActiveLeases(st', s) == ActiveLeases(st, s) - {l};
  }

  lemma ReleasedLeases(st: State, st': State, t: Tid, s: SlotId, l: LeaseId, now: int)
    requires s in st.slots && st.slots[s].users > 0 && (forall k :: k in st.leases ==> LeaseOk(st, k)) && Later(st, s, now)
    requires l in st.leases && st.leases[l].slot == s && st.leases[l].state == Releasing(t)
    requires st' == DoReleaseUse(st, t, s, l, now)
    ensures forall k :: k in st'.leases && st'.leases[k].slot == s ==> LeaseOk(st', k)
  {
    forall k | k in st'.leases && st'.leases[k].slot == s ensures LeaseOk(st', k) { assert LeaseOk(st, k); }
  }

  lemma ReleasedShape(st: State, st': State, t: Tid, s: SlotId, l: LeaseId, now: int)
    requires s in st.slots && st.slots[s].users > 0 && Later(st, s, now)
    requires l in st.leases && st.leases[l].slot == s && st.leases[l].state == Releasing(t)
    requires st' == DoReleaseUse(st, t, s, l, now)
    ensures AgreeOff(st, st', s) && (forall k :: k in st.leases ==> LeaseChange(st, st', t, k))
    ensures st'.threads == st.threads[t := Idle] && OkFor(st', t, Idle) && Acquirable(st, t, Idle)
  {
  }

  lemma ReleaseFacts(st: State, t: Tid, s: SlotId, l: LeaseId)
    requires Inv(st) && PcOf(st, t) == InSlot(s, OpRelease(l))
    ensures s in st.slots && SlotOk(st, s) && FreeBut(st, t, LSlot(s))
    ensures l in ActiveLeases(st, s) && st.leases[l].state == Releasing(t)
  {
    ThreadFact(st, t);
    SlotFact(st, s);
    HeldIsFreeBut(st, t, LSlot(s));
  }

  lemma ReleaseKeeps(st: State, t: Tid, s: SlotId, l: LeaseId, now: int)
    requires Inv(st) && PcOf(st, t) == InSlot(s, OpRelease(l)) && Later(st, s, now)
    ensures Inv(DoReleaseUse(st, t, s, l, now))
  {
    ReleaseFacts(st, t, s, l);
    var st' := DoReleaseUse(st, t, s, l, now);
    ReleasedSlot(st, st', t, s, l, now);
    ReleasedShape(st, st', t, s, l, now);
    ReleasedLeases(st, st', t, s, l, now);
    SlotStep(st, st', t, s);
  }

  lemma NewSlotShape(st: State, st': State, t: Tid, s: SlotId, op: Op)
    requires s !in st.slots && !op.OpRelease? && !op.OpShut? && st' == DoCallSlot(st, t, s, op)
    requires forall l :: l in st.leases ==> st.leases[l].slot != s
    ensures AgreeOff(st, st', s) && OkFor(st', t, PcOf(st', t)) && Acquirable(st, t, PcOf(st', t)) && SlotOk(st', s)
    ensures forall l :: l in st.leases ==> LeaseChange(st, st', t, l)
  {
    assert ActiveLeases(st', s) == {};
  }

  lemma CallSlotKeeps(st: State, t: Tid, s: SlotId, op: Op)
    requires Inv(st) && Enabled(st, CallSlot(t, s, op))
    ensures Inv(DoCallSlot(st, t, s, op))
  {
    var st' := DoCallSlot(st, t, s, op);
    if s in st.slots {
      PcOnly(st, t, WantSlot(s, op));
    } else {
      forall l | l in st.leases ensures st.leases[l].slot != s { assert LeaseOk(st, l); }
      NewSlotShape(st, st', t, s, op);
      SlotStep(st, st', t, s);
    }
  }

  /** Starting a release leaves the lease counted until the slot lock is taken. */
  lemma MarkSlots(st: State, st': State, l: LeaseId, t: Tid)
    requires (forall s :: s in st.slots ==> SlotOk(st, s)) && l in st.leases && !st.leases[l].state.Released?
    requires st' == st.(leases := st.leases[l := st.leases[l].(state := Releasing(t))], threads := st'.threads)
    ensures forall s :: s in st'.slots ==> SlotOk(st', s)
  {
    forall s | s in st'.slots ensures SlotOk(st', s) {
      assert SlotOk(st, s);
      assert ActiveLeases(st', s) == ActiveLeases(st, s);
    }
  }

  lemma MarkLeases(st: State, st': State, l: LeaseId, t: Tid)
    requires (forall k :: k in st.leases ==> LeaseOk(st, k)) && l in st.leases && st.leases[l].state.Held?
    requires st' == st.(leases := st.leases[l := st.leases[l].(state := Releasing(t))], threads := st'.threads)
    ensures (forall k :: k in st'.leases ==> LeaseOk(st', k)) && Evolves(st, st', t)
  {
    forall k | k in st'.leases ensures LeaseOk(st', k) { assert LeaseOk(st, k); }
  }

  lemma FirstReleaseThread(st: State, st': State, t: Tid, l: LeaseId)
    requires l in st.leases && st.leases[l].state.Held? && LeaseOk(st, l) && st' == DoCallRelease(st, t, l)
    ensures OkFor(st', t, PcOf(st', t)) && Acquirable(st, t, PcOf(st', t))
  {
  }

  lemma FirstReleaseKeeps(st: State, t: Tid, l: LeaseId)
    requires Inv(st) && PcOf(st, t).Idle? && l in st.leases && st.leases[l].state.Held?
    ensures Inv(DoCallRelease(st, t, l))
  {
    var st' := DoCallRelease(st, t, l);
    assert LeaseOk(st, l);
    FirstReleaseThread(st, st', t, l);
    MarkSlots(st, st', l, t);
    MarkLeases(st, st', l, t);
    ProvsKeep(st, st', t);
    Combine(st, st', t, st'.threads[t]);
  }

  lemma CallReleaseKeeps(st: State, t: Tid, l: LeaseId)
    requires Inv(st) && PcOf(st, t).Idle? && l in st.leases
    ensures Inv(DoCallRelease(st, t, l))
  {
    if st.leases[l].state.Held? {
      FirstReleaseKeeps(st, t, l);
    } else {
      assert OkFor(st, t, WaitRelease(l));
      PcOnly(st, t, WaitRelease(l));
    }
  }

  // ---------- Admission and opening ----------

  /** States that differ in one provider, its reservation and the thread `t`. */
  predicate AgreeButProv(st: State, st': State, t: Tid, p: ProvId) {
    && st'.slots == st.slots && st'.leases == st.leases && st'.closed == st.closed && st'.max == st.max
    && st'.visible == st.visible
    && st'.provs.Keys == st.provs.Keys + {p}
    && (forall q :: q in st.provs && q != p ==> st'.provs[q] == st.provs[q])
    && (st'.owned == st.owned + {p} || st'.owned == st.owned - {p})
    && t in st'.threads && st'.threads == st.threads[t := st'.threads[t]]
  }

  /** A provider that is no slot's backend can change without a slot noticing. */
  lemma NewProvSlots(st: State, st': State, t: Tid, p: ProvId)
    requires (forall s :: s in st.slots ==> SlotOk(st, s)) && (p in st.provs ==> !EverLive(st.provs[p].status))
    requires AgreeButProv(st, st', t, p)
    ensures forall s :: s in st'.slots ==> SlotOk(st', s)
  {
    forall s | s in st'.slots ensures SlotOk(st', s) {
      assert SlotOk(st, s);
      assert ActiveLeases(st', s) == ActiveLeases(st, s);
    }
  }

  lemma NewProvLeases(st: State, st': State, t: Tid, p: ProvId)
    requires (forall l :: l in st.leases ==> LeaseOk(st, l)) && AgreeButProv(st, st', t, p)
    requires p in st'.provs && (p in st.provs ==> st'.provs[p].home == st.provs[p].home)
    ensures forall l :: l in st'.leases ==> LeaseOk(st', l)
  {
    forall l | l in st'.leases ensures LeaseOk(st', l) { assert LeaseOk(st, l); }
  }

  lemma OtherProvs(st: State, st': State, t: Tid, p: ProvId)
    requires (forall q :: q in st.provs ==> ProvOk(st, q)) && AgreeButProv(st, st', t, p)
    requires !(PcOf(st, t).OpenBusy? || PcOf(st, t).CloseDelete?) || PcOf(st, t).prov == p
    requires p in st'.provs && ProvOk(st', p)
    ensures forall q :: q in st'.provs ==> ProvOk(st', q)
  {
    forall q | q in st'.provs && q != p ensures ProvOk(st', q) { assert ProvOk(st, q); }
  }

  lemma ProvEvolves(st: State, st': State, t: Tid, p: ProvId)
    requires AgreeButProv(st, st', t, p) && (p in st.provs ==> ProvChange(st, st', t, p))
    requires st'.provs[p].status.Opening? ==> !st.closed
    requires st'.owned <= st.owned || FreeBut(st, t, LAdmit)
    ensures Evolves(st, st', t)
  {
  }

  lemma Subset(st: State, t: Tid, pc: PC, pc': PC)
    requires PcOf(st, t) == pc && Holds(pc') <= Holds(pc)
    ensures Acquirable(st, t, pc')
  {
  }

  /** A step of `t` that changes one provider and its reservation only. */
  lemma ProvStep(st: State, st': State, t: Tid, p: ProvId, pc: PC, pc': PC)
    requires Inv(st) && AgreeButProv(st, st', t, p) && PcOf(st, t) == pc && PcOf(st', t) == pc'
    requires Holds(pc') <= Holds(pc) && OkFor(st', t, pc')
    requires !(pc.OpenBusy? || pc.CloseDelete?) || pc.prov == p
    requires p in st'.provs && ProvOk(st', p) && (p in st.provs ==> ProvChange(st, st', t, p))
    requires st'.provs[p].status.Opening? ==> !st.closed
    requires st'.owned <= st.owned || (FreeBut(st, t, LAdmit) && |st.owned| < st.max)
    requires forall s :: s in st'.slots ==> SlotOk(st', s)
    ensures Inv(st')
  {
    Subset(st, t, pc, pc');
    NewProvLeases(st, st', t, p);
    OtherProvs(st, st', t, p);
    ProvEvolves(st, st', t, p);
    CardSub(st'.owned, st.owned);
    Combine(st, st', t, pc');
  }

  lemma ReservedThread(st: State, st': State, t: Tid, why: Why, p: ProvId, pc: PC)
    requires pc.Admit? && pc.why == why && WhyOk(st, why) && p !in st.provs && !st.closed && |st.owned| < st.max && st' == DoAdmit(st, t, why, p)
    ensures OkFor(st', t, OpenBusy(why, p, AfterEpoch(st, why)))
  {
  }

  lemma ReservedProv(st: State, st': State, t: Tid, why: Why, p: ProvId)
    requires p !in st.provs && !st.closed && |st.owned| < st.max && st' == DoAdmit(st, t, why, p)
    ensures PcOf(st', t) == OpenBusy(why, p, AfterEpoch(st, why)) && p in st'.provs && st'.provs[p].status.Opening? && ProvOk(st', p)
  {
  }

  lemma ReservedLocks(st: State, why: Why, p: ProvId, pc: PC)
    requires pc.Admit? && pc.why == why
    ensures Holds(OpenBusy(why, p, AfterEpoch(st, why))) <= Holds(pc) && LAdmit in Holds(pc)
  {
  }

  lemma ReservedAgrees(st: State, st': State, t: Tid, why: Why, p: ProvId)
    requires p !in st.provs && !st.closed && |st.owned| < st.max && st' == DoAdmit(st, t, why, p)
    ensures AgreeButProv(st, st', t, p)
  {
    var mid := st.(owned := st.owned + {p}, provs := st.provs[p := Prov(HomeOf(why), Opening(t), 0)]);
    GotoAgrees(st, mid, t, p, OpenBusy(why, p, AfterEpoch(st, why)));
  }

  lemma GotoAgrees(st: State, mid: State, t: Tid, p: ProvId, pc: PC)
    requires p !in st.provs && p in mid.provs && mid == st.(owned := st.owned + {p}, provs := st.provs[p := mid.provs[p]])
    ensures AgreeButProv(st, Goto(mid, t, pc), t, p)
  {
  }

  lemma ReserveKeeps(st: State, t: Tid, why: Why, p: ProvId)
    requires Inv(st) && PcOf(st, t).Admit? && PcOf(st, t).why == why && p !in st.provs
    requires !st.closed && |st.owned| < st.max
    ensures Inv(DoAdmit(st, t, why, p))
  {
    ThreadFact(st, t);
    var st' := DoAdmit(st, t, why, p);
    ReservedThread(st, st', t, why, p, st.threads[t]);
    ReservedProv(st, st', t, why, p);
    ReservedLocks(st, why, p, st.threads[t]);
    ReservedAgrees(st, st', t, why, p);
    HeldIsFreeBut(st, t, LAdmit);
    NewProvSlots(st, st', t, p);
    ProvStep(st, st', t, p, st.threads[t], OpenBusy(why, p, AfterEpoch(st, why)));
  }

  lemma OpenReturnsOk(st: State, st': State, t: Tid, pc: PC, ok: bool, e: nat)
    requires pc.OpenBusy? && ThreadOk(st, t, pc) && (ok ==> e > pc.after)
    requires pc.prov in st.owned && st' == DoOpenReturns(st, t, pc.why, pc.prov, ok, e)
    ensures AgreeButProv(st, st', t, pc.prov) && ProvChange(st, st', t, pc.prov)
    ensures pc.prov in st'.provs && ProvOk(st', pc.prov)
  {
    assert st.owned + {pc.prov} == st.owned;
  }

  lemma OpenReturnsThread(st: State, st': State, t: Tid, pc: PC, ok: bool, e: nat)
    requires pc.OpenBusy? && ThreadOk(st, t, pc) && (ok ==> e > pc.after)
    requires st' == DoOpenReturns(st, t, pc.why, pc.prov, ok, e)
    ensures OkFor(st', t, PcOf(st', t)) && Holds(PcOf(st', t)) <= Holds(pc)
  {
  }

  lemma OpenReturnsKeeps(st: State, t: Tid, pc: PC, ok: bool, e: nat)
    requires Inv(st) && PcOf(st, t) == pc && pc.OpenBusy? && (ok ==> e > pc.after)
    ensures Inv(DoOpenReturns(st, t, pc.why, pc.prov, ok, e))
  {
    var p := pc.prov;
    ThreadFact(st, t);
    assert ProvOk(st, p);
    var st' := DoOpenReturns(st, t, pc.why, p, ok, e);
    OpenReturnsOk(st, st', t, pc, ok, e);
    OpenReturnsThread(st, st', t, pc, ok, e);
    NewProvSlots(st, st', t, p);
    ProvStep(st, st', t, p, pc, PcOf(st', t));
  }

  lemma InstallSlot(st: State, st': State, t: Tid, s: SlotId, p: ProvId, l: LeaseId, now: int)
    requires s in st.slots && SlotOk(st, s) && ThreadOk(st, t, Opened(s, p)) && l !in st.leases
    requires st' == DoInstall(st, t, s, p, l, now)
    ensures SlotOk(st', s)
  {
    assert ActiveLeases(st', s) == ActiveLeases(st, s) + {l};
  }

  lemma InstallLeases(st: State, st': State, t: Tid, s: SlotId, p: ProvId, l: LeaseId, now: int)
    requires s in st.slots && (forall k :: k in st.leases ==> LeaseOk(st, k)) && st.slots[s].backend == None
    requires p in st.provs && st.provs[p].home == Some(s)
    requires l !in st.leases && st' == DoInstall(st, t, s, p, l, now)
    ensures forall k :: k in st'.leases && st'.leases[k].slot == s ==> LeaseOk(st', k)
  {
    forall k | k in st'.leases && st'.leases[k].slot == s ensures LeaseOk(st', k) {
      if k != l { assert LeaseOk(st, k); }
    }
  }

  lemma InstallShape(st: State, st': State, t: Tid, s: SlotId, p: ProvId, l: LeaseId, now: int)
    requires s in st.slots && l !in st.leases && Later(st, s, now) && st' == DoInstall(st, t, s, p, l, now)
    ensures AgreeOff(st, st', s) && st'.max == st.max && st'.owned == st.owned && st'.visible == st.visible
    ensures t in st'.threads && st'.threads == st.threads[t := Idle]
    ensures forall k :: k in st.leases ==> LeaseChange(st, st', t, k)
  {
  }

  lemma InstallKeeps(st: State, t: Tid, s: SlotId, p: ProvId, l: LeaseId, now: int)
    requires Inv(st) && PcOf(st, t) == Opened(s, p) && l !in st.leases && Later(st, s, now)
    ensures Inv(DoInstall(st, t, s, p, l, now))
  {
    ThreadFact(st, t);
    HeldIsFreeBut(st, t, LSlot(s));
    var st' := DoInstall(st, t, s, p, l, now);
    InstallShape(st, st', t, s, p, l, now);
    InstallSlot(st, st', t, s, p, l, now);
    InstallLeases(st, st', t, s, p, l, now);
    SlotStep(st, st', t, s);
  }

  // ---------- Closing ----------

  /** The slot a cause detaches when the close counts as done. */
  function CauseSlot(c: Cause): Option<SlotId> {
    match c
    case Replace(s) => Some(s)
    case RestartOf(s) => Some(s)
    case Evict(_, s, _) => Some(s)
    case Reap(s, _) => Some(s)
    case ShutSlot(s, _) => Some(s)
    case _ => None
  }

  lemma RetiringOk(st: State, st': State, t: Tid, c: Cause, p: ProvId)
    requires ThreadOk(st, t, CloseBusy(c, p)) && p in st.owned && (st.closed || HomeHas(st, p))
    requires st' == Goto(SetStatus(st, p, Retiring(t)), t, CloseDelete(c, p)) && FreeBut(st, t, LProv(p))
    ensures AgreeButProv(st, st', t, p) && ProvChange(st, st', t, p) && ProvOk(st', p)
  {
    assert st.owned + {p} == st.owned;
  }

  lemma RetiringThread(st: State, st': State, t: Tid, c: Cause, p: ProvId)
    requires ThreadOk(st, t, CloseBusy(c, p)) && AgreeButProv(st, st', t, p)
    requires st' == Goto(SetStatus(st, p, Retiring(t)), t, CloseDelete(c, p))
    ensures OkFor(st', t, CloseDelete(c, p)) && Holds(CloseDelete(c, p)) <= Holds(CloseBusy(c, p))
  {
    CauseKeeps(st, st', t, c, p);
  }

  /** Outside shutdown only a slot's own backend, or a sandbox, is ever being closed. */
  lemma RetiringHome(st: State, t: Tid, c: Cause, p: ProvId)
    requires Inv(st) && CauseOk(st, c, p) && p in st.provs
    ensures st.closed || HomeHas(st, p)
  {
    if CauseSlot(c).Some? && !c.ShutSlot? {
      SlotFact(st, c.slot);
    }
  }

  /** A live backend that retires, or a retired one that ends up closed during shutdown. */
  lemma StatusSlots(st: State, st': State, t: Tid, p: ProvId)
    requires (forall s :: s in st.slots ==> SlotOk(st, s)) && p in st.provs && AgreeButProv(st, st', t, p)
    requires EverLive(st'.provs[p].status) && st'.provs[p] == st.provs[p].(status := st'.provs[p].status)
    requires st'.provs[p].status == Closed ==> st.closed || st.provs[p].home == None
    ensures forall s :: s in st'.slots ==> SlotOk(st', s)
  {
    forall s | s in st'.slots ensures SlotOk(st', s) {
      assert SlotOk(st, s);
      assert ActiveLeases(st', s) == ActiveLeases(st, s);
    }
  }

  lemma CauseKeeps(st: State, st': State, t: Tid, c: Cause, p: ProvId)
    requires CauseOk(st, c, p) && p in st.provs && EverLive(st.provs[p].status) && AgreeButProv(st, st', t, p)
    requires EverLive(st'.provs[p].status) && st'.provs[p] == st.provs[p].(status := st'.provs[p].status)
    ensures CauseOk(st', c, p)
  {
  }

  lemma RetiringKeeps(st: State, t: Tid, pc: PC)
    requires Inv(st) && PcOf(st, t) == pc && pc.CloseBusy?
    ensures Inv(Goto(SetStatus(st, pc.prov, Retiring(t)), t, CloseDelete(pc.cause, pc.prov)))
  {
    var p := pc.prov;
    ThreadFact(st, t);
    assert ProvOk(st, p);
    HeldIsFreeBut(st, t, LProv(p));
    RetiringHome(st, t, pc.cause, p);
    var st' := Goto(SetStatus(st, p, Retiring(t)), t, CloseDelete(pc.cause, p));
    RetiringOk(st, st', t, pc.cause, p);
    RetiringThread(st, st', t, pc.cause, p);
    StatusSlots(st, st', t, p);
    ProvStep(st, st', t, p, pc, CloseDelete(pc.cause, p));
  }

  /** The close of `p` is over: its reservation is gone, and slot `s` no longer holds it. */
  predicate Detached(st: State, st': State, t: Tid, s: SlotId, p: ProvId) {
    && s in st.slots && p in st.provs
    && st'.slots == st.slots[s := st.slots[s].(backend := None)]
    && Retracted(st, st', t, p)
  }

  predicate Retracted(st: State, st': State, t: Tid, p: ProvId) {
    && st'.leases == st.leases && st'.closed == st.closed && st'.max == st.max && st'.visible == st.visible
    && t in st'.threads && st'.threads == st.threads[t := st'.threads[t]]
    && p in st.provs
    && (|| (st'.provs == st.provs && st'.owned == st.owned && !PcOf(st, t).CloseDelete?)
        || (&& st.provs[p].status == Retiring(t) && st'.owned == st.owned - {p}
            && st'.provs == st.provs[p := st.provs[p].(status := Closed)]
            && PcOf(st, t).CloseDelete? && PcOf(st, t).prov == p))
  }

  lemma DetachSlots(st: State, st': State, t: Tid, s: SlotId, p: ProvId)
    requires (forall s2 :: s2 in st.slots ==> SlotOk(st, s2)) && Detached(st, st', t, s, p)
    requires st.closed || Retired(st, s, p)
    ensures forall s2 :: s2 in st'.slots ==> SlotOk(st', s2)
  {
    assert SlotOk(st, s);
    forall s2 | s2 in st'.slots ensures SlotOk(st', s2) {
      assert SlotOk(st, s2);
      assert ActiveLeases(st', s2) == ActiveLeases(st, s2);
    }
  }

  lemma DetachLeases(st: State, st': State, t: Tid, s: SlotId, p: ProvId)
    requires (forall l :: l in st.leases ==> LeaseOk(st, l)) && s in st.slots && SlotOk(st, s)
    requires Detached(st, st', t, s, p) && (st.closed || Retired(st, s, p))
    ensures forall l :: l in st'.leases ==> LeaseOk(st', l)
  {
    assert st.closed || ActiveLeases(st, s) == {};
    forall l | l in st'.leases ensures LeaseOk(st', l) {
      assert LeaseOk(st, l);
      assert l in ActiveLeases(st, s) || st.leases[l].slot != s || st.leases[l].state.Released?;
    }
  }

  lemma RetractProvs(st: State, st': State, t: Tid, p: ProvId)
    requires (forall q :: q in st.provs ==> ProvOk(st, q)) && Retracted(st, st', t, p) && !PcOf(st, t).OpenBusy?
    ensures forall q :: q in st'.provs ==> ProvOk(st', q)
    ensures st'.owned <= st.owned
  {
    forall q | q in st'.provs ensures ProvOk(st', q) { assert ProvOk(st, q); }
  }

  lemma RetractEvolves(st: State, st': State, t: Tid, p: ProvId)
    requires Retracted(st, st', t, p) && st.slots.Keys <= st'.slots.Keys
    requires forall s :: s in st.slots ==> SlotChange(st, st', t, s)
    ensures Evolves(st, st', t)
  {
    forall q | q in st.provs ensures q in st'.provs && ProvChange(st, st', t, q) {
    }
  }

  lemma DetachEvolves(st: State, st': State, t: Tid, s: SlotId, p: ProvId)
    requires Detached(st, st', t, s, p) && FreeBut(st, t, LSlot(s))
    ensures Evolves(st, st', t)
  {
    RetractEvolves(st, st', t, p);
  }

  /** Ending a close that detaches a slot. */
  lemma DetachKeeps(st: State, st': State, t: Tid, s: SlotId, p: ProvId, pc: PC)
    requires Inv(st) && PcOf(st, t) == pc && !pc.OpenBusy? && Detached(st, st', t, s, p)
    requires LSlot(s) in Holds(pc) && (st.closed || Retired(st, s, p))
    requires Holds(PcOf(st', t)) <= Holds(pc) && OkFor(st', t, PcOf(st', t))
    ensures Inv(st')
  {
    HeldIsFreeBut(st, t, LSlot(s));
    SlotFact(st, s);
    DetachSlots(st, st', t, s, p);
    DetachLeases(st, st', t, s, p);
    RetractProvs(st, st', t, p);
    DetachEvolves(st, st', t, s, p);
    CardSub(st'.owned, st.owned);
    Subset(st, t, pc, PcOf(st', t));
    Combine(st, st', t, PcOf(st', t));
  }

  /** Ending a close that has no slot: a sandbox, or the last pass of the shutdown. */
  lemma RetractKeeps(st: State, st': State, t: Tid, p: ProvId, pc: PC)
    requires Inv(st) && PcOf(st, t) == pc && !pc.OpenBusy? && Retracted(st, st', t, p) && st'.slots == st.slots
    requires st.closed || st.provs[p].home == None
    requires Holds(PcOf(st', t)) <= Holds(pc) && OkFor(st', t, PcOf(st', t))
    ensures Inv(st')
  {
    RetractSlots(st, st', t, p);
    RetractLeases(st, st', t, p);
    RetractProvs(st, st', t, p);
    RetractEvolves(st, st', t, p);
    CardSub(st'.owned, st.owned);
    Subset(st, t, pc, PcOf(st', t));
    Combine(st, st', t, PcOf(st', t));
  }

  lemma RetractSlots(st: State, st': State, t: Tid, p: ProvId)
    requires (forall s :: s in st.slots ==> SlotOk(st, s)) && Retracted(st, st', t, p) && st'.slots == st.slots
    requires st.closed || st.provs[p].home == None
    ensures forall s :: s in st'.slots ==> SlotOk(st', s)
  {
    forall s | s in st'.slots ensures SlotOk(st', s) {
      assert SlotOk(st, s);
      assert ActiveLeases(st', s) == ActiveLeases(st, s);
    }
  }

  lemma RetractLeases(st: State, st': State, t: Tid, p: ProvId)
    requires (forall l :: l in st.leases ==> LeaseOk(st, l)) && Retracted(st, st', t, p) && st'.slots == st.slots
    ensures forall l :: l in st'.leases ==> LeaseOk(st', l)
  {
    forall l | l in st'.leases ensures LeaseOk(st', l) { assert LeaseOk(st, l); }
  }

  /** The state in which a successful Close leaves the reservations. */
  function Reclaim(st: State, p: ProvId, pc: PC): State {
    if pc.CloseDelete? then SetStatus(st, p, Closed).(owned := st.owned - {p}) else st
  }

  predicate Ending(st: State, t: Tid, c: Cause, p: ProvId, pc: PC) {
    && PcOf(st, t) == pc && (pc == CloseWant(c, p) || pc == CloseDelete(c, p))
    && p in st.provs && EverLive(st.provs[p].status) && (pc.CloseDelete? ==> st.provs[p].status == Retiring(t))
  }

  lemma FinishShape(st: State, t: Tid, c: Cause, p: ProvId, pc: PC)
    requires Ending(st, t, c, p, pc) && (CauseSlot(c).Some? ==> CauseSlot(c).value in st.slots)
    ensures var st' := Finish(Reclaim(st, p, pc), t, c, true);
            if CauseSlot(c).Some? then Detached(st, st', t, CauseSlot(c).value, p)
            else Retracted(st, st', t, p) && st'.slots == st.slots
  {
  }

  lemma FinishLocks(st: State, t: Tid, c: Cause, p: ProvId, pc: PC)
    requires Ending(st, t, c, p, pc)
    ensures Holds(PcOf(Finish(Reclaim(st, p, pc), t, c, true), t)) <= Holds(pc)
    ensures CauseSlot(c).Some? ==> LSlot(CauseSlot(c).value) in Holds(pc)
  {
  }

  lemma FinishSlotOk(st: State, t: Tid, c: Cause, p: ProvId, pc: PC)
    requires Ending(st, t, c, p, pc) && CauseOk(st, c, p) && (c.Replace? || c.RestartOf? || c.Reap?) && SlotOk(st, c.slot)
    ensures var st' := Finish(Reclaim(st, p, pc), t, c, true); OkFor(st', t, PcOf(st', t))
  {
    var st' := Finish(Reclaim(st, p, pc), t, c, true);
    if c.Replace? { assert Vacant(st', c.slot); }
  }

  lemma FinishEvictOk(st: State, t: Tid, c: Cause, p: ProvId, pc: PC)
    requires Ending(st, t, c, p, pc) && CauseOk(st, c, p) && c.Evict?
    requires !st.closed ==> |Reclaim(st, p, pc).owned| < st.max
    ensures var st' := Finish(Reclaim(st, p, pc), t, c, true); OkFor(st', t, PcOf(st', t))
  {
    var st' := Finish(Reclaim(st, p, pc), t, c, true);
    assert WhyOk(st', c.why);
  }

  lemma FinishShutOk(st: State, t: Tid, c: Cause, p: ProvId, pc: PC)
    requires Ending(st, t, c, p, pc) && CauseOk(st, c, p) && (c.ShutSlot? || c.ShutOwned? || c.Sandbox?)
    ensures var st' := Finish(Reclaim(st, p, pc), t, c, true); OkFor(st', t, PcOf(st', t))
  {
    var st' := Finish(Reclaim(st, p, pc), t, c, true);
    if c.ShutOwned? { assert LeftOk(st', c.left); }
    if !c.Sandbox? { assert ShutPhase(st'); }
  }

  /** The program point reached when a close ended well is consistent with the new state. */
  lemma FinishOk(st: State, t: Tid, c: Cause, p: ProvId, pc: PC)
    requires Ending(st, t, c, p, pc) && CauseOk(st, c, p)
    requires CauseSlot(c).Some? && !c.ShutSlot? ==> SlotOk(st, c.slot)
    requires c.Evict? && !st.closed ==> |Reclaim(st, p, pc).owned| < st.max
    ensures var st' := Finish(Reclaim(st, p, pc), t, c, true); OkFor(st', t, PcOf(st', t))
  {
    if c.Evict? { FinishEvictOk(st, t, c, p, pc); }
    else if CauseSlot(c).Some? && !c.ShutSlot? { FinishSlotOk(st, t, c, p, pc); }
    else { FinishShutOk(st, t, c, p, pc); }
  }

  lemma FinishKeeps(st: State, t: Tid, c: Cause, p: ProvId, pc: PC)
    requires Inv(st) && PcOf(st, t) == pc && (pc == CloseWant(c, p) || pc == CloseDelete(c, p))
    requires pc.CloseWant? ==> IsReleased(st, p) && Free(st, LProv(p))
    ensures Inv(Finish(Reclaim(st, p, pc), t, c, true))
  {
    ThreadFact(st, t);
    ReleasedEnd(st, t, c, p, pc);
    var st' := Finish(Reclaim(st, p, pc), t, c, true);
    FinishShape(st, t, c, p, pc);
    FinishLocks(st, t, c, p, pc);
    FinishOk(st, t, c, p, pc);
    if CauseSlot(c).Some? {
      DetachKeeps(st, st', t, CauseSlot(c).value, p, pc);
    } else {
      RetractKeeps(st, st', t, p, pc);
    }
  }

  lemma RetiringHeld(st: State, p: ProvId)
    requires Inv(st) && p in st.provs
    ensures st.provs[p].status.Retiring? ==> !Free(st, LProv(p))
  {
    if st.provs[p].status.Retiring? {
      assert ProvOk(st, p);
      var u := st.provs[p].status.closer;
      assert u in st.threads && LProv(p) in Holds(st.threads[u]);
    }
  }

  /** What the closing thread knows when the close is over. */
  lemma ReleasedEnd(st: State, t: Tid, c: Cause, p: ProvId, pc: PC)
    requires Inv(st) && PcOf(st, t) == pc && (pc == CloseWant(c, p) || pc == CloseDelete(c, p))
    requires pc.CloseWant? ==> IsReleased(st, p) && Free(st, LProv(p))
    ensures Ending(st, t, c, p, pc) && CauseOk(st, c, p)
    ensures CauseSlot(c).Some? && !c.ShutSlot? ==> SlotOk(st, c.slot)
    ensures c.Evict? && !st.closed ==> |Reclaim(st, p, pc).owned| < st.max
    ensures CauseSlot(c).Some? ==> st.closed || Retired(st, CauseSlot(c).value, p)
    ensures CauseSlot(c).None? ==> st.closed || st.provs[p].home == None
  {
    ThreadFact(st, t);
    assert ProvOk(st, p);
    if CauseSlot(c).Some? && !c.ShutSlot? { SlotFact(st, c.slot); }
    RetiringHeld(st, p);
  }

  lemma FailMoves(st: State, t: Tid, c: Cause, p: ProvId)
    requires !c.ShutSlot?
    ensures var pc' := PcOf(Finish(st, t, c, false), t);
            Holds(pc') <= Holds(CloseBusy(c, p)) && Finish(st, t, c, false) == Goto(st, t, pc')
  {
  }

  lemma FailOk(st: State, t: Tid, c: Cause, p: ProvId)
    requires ThreadOk(st, t, CloseBusy(c, p)) && !c.ShutSlot?
    ensures OkFor(st, t, PcOf(Finish(st, t, c, false), t))
  {
  }

  lemma FailShutOk(st: State, t: Tid, c: Cause, p: ProvId)
    requires ThreadOk(st, t, CloseBusy(c, p)) && c.ShutSlot? && PcOf(st, t) == CloseBusy(c, p)
    ensures var st' := Finish(st, t, c, false);
            && OkFor(st', t, PcOf(st', t)) && Holds(PcOf(st', t)) <= Holds(CloseBusy(c, p))
            && Detached(st, st', t, c.slot, p)
  {
    assert ShutPhase(Finish(st, t, c, false));
  }

  lemma FailKeeps(st: State, t: Tid, c: Cause, p: ProvId)
    requires Inv(st) && PcOf(st, t) == CloseBusy(c, p)
    ensures Inv(Finish(st, t, c, false))
  {
    ThreadFact(st, t);
    var st' := Finish(st, t, c, false);
    if c.ShutSlot? {
      FailShutOk(st, t, c, p);
      DetachKeeps(st, st', t, c.slot, p, CloseBusy(c, p));
    } else {
      FailMoves(st, t, c, p);
      FailOk(st, t, c, p);
      Subset(st, t, CloseBusy(c, p), PcOf(st', t));
      PcOnly(st, t, PcOf(st', t));
    }
  }
}
