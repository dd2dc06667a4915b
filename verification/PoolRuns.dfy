/** Safety of the provider pool over whole runs. */
module PoolRuns {
  import opened Basics
  import opened PoolProtocol
  import opened PoolSafety
  import opened PoolSteps
  import opened PoolFrames

  /** A step that only moves its thread to a program point with no more locks. */
  lemma MoveKeeps(st: State, t: Tid, pc: PC, pc': PC)
    requires Inv(st) && PcOf(st, t) == pc && !pc.OpenBusy? && !pc.CloseDelete?
    requires Holds(pc') <= Holds(pc) && OkFor(st, t, pc')
    ensures Inv(Goto(st, t, pc'))
  {
    Subset(st, t, pc, pc');
    PcOnly(st, t, pc');
  }

  /** A step that takes one free lock. */
  lemma TakeKeeps(st: State, t: Tid, pc: PC, pc': PC, l: Lock)
    requires Inv(st) && PcOf(st, t) == pc && !pc.OpenBusy? && !pc.CloseDelete?
    requires Free(st, l) && Holds(pc') <= Holds(pc) + {l} && OkFor(st, t, pc')
    ensures Inv(Goto(st, t, pc'))
  {
    assert Acquirable(st, t, pc');
    PcOnly(st, t, pc');
  }

  lemma ShutdownKeeps(st: State, t: Tid, reaper: Option<Tid>)
    requires Inv(st) && PcOf(st, t).Idle?
    ensures Inv(Goto(st.(closed := true), t, ShutWait(reaper)))
  {
    var st' := Goto(st.(closed := true), t, ShutWait(reaper));
    ClosedSlots(st, st');
    ClosedLeases(st, st');
    ProvsKeep(st, st', t);
    ClosedEvolves(st, st', t);
    assert OkFor(st', t, ShutWait(reaper)) && Acquirable(st, t, ShutWait(reaper));
    Combine(st, st', t, ShutWait(reaper));
  }

  lemma ClosedSlots(st: State, st': State)
    requires (forall s :: s in st.slots ==> SlotOk(st, s)) && st' == st.(closed := true, threads := st'.threads)
    ensures forall s :: s in st'.slots ==> SlotOk(st', s)
  {
    forall s | s in st'.slots ensures SlotOk(st', s) {
      assert SlotOk(st, s) && ActiveLeases(st', s) == ActiveLeases(st, s);
    }
  }

  lemma ClosedLeases(st: State, st': State)
    requires (forall l :: l in st.leases ==> LeaseOk(st, l)) && st' == st.(closed := true, threads := st'.threads)
    ensures forall l :: l in st'.leases ==> LeaseOk(st', l)
  {
    forall l | l in st'.leases ensures LeaseOk(st', l) { assert LeaseOk(st, l); }
  }

  lemma ClosedEvolves(st: State, st': State, t: Tid)
    requires st' == st.(closed := true, threads := st'.threads)
    ensures Evolves(st, st', t)
  {
  }

  /** Detaching the slot map is invisible to everything but later scans. */
  lemma HideKeeps(st: State, t: Tid)
    requires Inv(st) && PcOf(st, t).ShutWait? && NoneOpening(st)
    ensures Inv(Goto(st.(visible := {}), t, ShutSlots(st.visible)))
  {
    ThreadFact(st, t);
    MoveKeeps(st, t, PcOf(st, t), ShutSlots(st.visible));
    var st1 := Goto(st, t, ShutSlots(st.visible));
    HiddenInv(st1, st1.(visible := {}));
  }

  lemma HiddenInv(st: State, st': State)
    requires Inv(st) && st' == st.(visible := {})
    ensures Inv(st')
  {
    forall u | u in st'.threads ensures ThreadOk(st', u, st'.threads[u]) { HiddenThread(st, st', u, st.threads[u]); }
    HiddenSlots(st, st');
    forall l | l in st'.leases ensures LeaseOk(st', l) { assert LeaseOk(st, l); }
    forall p | p in st'.provs ensures ProvOk(st', p) { assert ProvOk(st, p); }
  }

  lemma HiddenThread(st: State, st': State, u: Tid, pc: PC)
    requires ThreadOk(st, u, pc) && st' == st.(visible := {})
    ensures ThreadOk(st', u, pc)
  {
  }

  lemma HiddenSlots(st: State, st': State)
    requires (forall s :: s in st.slots ==> SlotOk(st, s)) && st' == st.(visible := {})
    ensures forall s :: s in st'.slots ==> SlotOk(st', s)
  {
    forall s | s in st'.slots ensures SlotOk(st', s) {
      assert SlotOk(st, s) && ActiveLeases(st', s) == ActiveLeases(st, s);
    }
  }

  // ---------- One lemma per critical section ----------

  lemma CanonicalUseKeeps(st: State, t: Tid, s: SlotId, healthy: bool, l: LeaseId, now: int)
    requires Inv(st) && PcOf(st, t) == Checked(s) && l !in st.leases && Later(st, s, now)
    ensures Inv(DoCanonicalUse(st, t, s, healthy, l, now))
  {
    ThreadFact(st, t);
    HeldIsFreeBut(st, t, LSlot(s));
    match st.slots[s].backend {
      case None =>
        assert OkFor(st, t, WantAdmit(ByCanonical(s)));
        MoveKeeps(st, t, Checked(s), WantAdmit(ByCanonical(s)));
      case Some(p) =>
        if healthy {
          AddLeaseKeeps(st, t, s, p, l, now);
        } else if st.slots[s].users != 0 {
          MoveKeeps(st, t, Checked(s), Idle);
        } else {
          Subset(st, t, Checked(s), CloseWant(Replace(s), p));
          BeginCloseKeeps(st, t, s, Replace(s));
        }
    }
  }

  lemma ExistingKeeps(st: State, t: Tid, s: SlotId, l: LeaseId, now: int)
    requires Inv(st) && PcOf(st, t) == InSlot(s, OpExisting) && l !in st.leases && Later(st, s, now)
    ensures Inv(DoExistingUse(st, t, s, l, now))
  {
    ThreadFact(st, t);
    HeldIsFreeBut(st, t, LSlot(s));
    if st.slots[s].backend.Some? && !st.closed {
      AddLeaseKeeps(st, t, s, st.slots[s].backend.value, l, now);
    } else {
      MoveKeeps(st, t, InSlot(s, OpExisting), Idle);
    }
  }

  lemma RestartKeeps(st: State, t: Tid, s: SlotId)
    requires Inv(st) && PcOf(st, t) == InSlot(s, OpRestart)
    ensures Inv(DoRestartUse(st, t, s))
  {
    ThreadFact(st, t);
    HeldIsFreeBut(st, t, LSlot(s));
    if st.slots[s].users != 0 {
      MoveKeeps(st, t, InSlot(s, OpRestart), Idle);
    } else if st.slots[s].backend.None? {
      MoveKeeps(st, t, InSlot(s, OpRestart), WantSlot(s, OpCanonical));
    } else {
      Subset(st, t, InSlot(s, OpRestart), CloseWant(RestartOf(s), st.slots[s].backend.value));
      BeginCloseKeeps(st, t, s, RestartOf(s));
    }
  }

  lemma ShutUseOk(st: State, t: Tid, s: SlotId, todo: set<SlotId>)
    requires ThreadOk(st, t, InSlot(s, OpShut(todo))) && SlotOk(st, s)
    ensures OkFor(st, t, PcOf(DoShutUse(st, t, s, todo), t))
    ensures Holds(PcOf(DoShutUse(st, t, s, todo), t)) <= {LSlot(s)}
    ensures DoShutUse(st, t, s, todo) == Goto(st, t, PcOf(DoShutUse(st, t, s, todo), t))
  {
  }

  lemma ShutUseKeeps(st: State, t: Tid, s: SlotId, todo: set<SlotId>)
    requires Inv(st) && PcOf(st, t) == InSlot(s, OpShut(todo))
    ensures Inv(DoShutUse(st, t, s, todo))
  {
    ThreadFact(st, t);
    SlotFact(st, s);
    ShutUseOk(st, t, s, todo);
    MoveKeeps(st, t, InSlot(s, OpShut(todo)), PcOf(DoShutUse(st, t, s, todo), t));
  }

  lemma AdmitKeeps(st: State, t: Tid, pc: PC, p: ProvId)
    requires Inv(st) && PcOf(st, t) == pc && pc.Admit? && p !in st.provs
    ensures Inv(DoAdmit(st, t, pc.why, p))
  {
    ThreadFact(st, t);
    if st.closed {
      MoveKeeps(st, t, pc, Idle);
    } else if |st.owned| < st.max {
      ReserveKeeps(st, t, pc.why, p);
    } else {
      MoveKeeps(st, t, pc, Scan(pc.why, st.visible, Hunt({}, [], 0)));
    }
  }

  lemma ScanOk(st: State, t: Tid, pc: PC, s: SlotId)
    requires pc.Scan? && ThreadOk(st, t, pc) && s in pc.todo
    ensures var st' := DoScanSlot(st, t, pc.why, pc.todo, pc.hunt, s);
            OkFor(st, t, PcOf(st', t)) && Holds(PcOf(st', t)) <= Holds(pc) && st' == Goto(st, t, PcOf(st', t))
  {
  }

  lemma ScanKeeps(st: State, t: Tid, pc: PC, s: SlotId)
    requires Inv(st) && PcOf(st, t) == pc && pc.Scan? && s in pc.todo
    ensures Inv(DoScanSlot(st, t, pc.why, pc.todo, pc.hunt, s))
  {
    ThreadFact(st, t);
    ScanOk(st, t, pc, s);
    MoveKeeps(st, t, pc, PcOf(DoScanSlot(st, t, pc.why, pc.todo, pc.hunt, s), t));
  }

  lemma SortedCands(st: State, sorted: seq<Cand>, cands: seq<Cand>)
    requires multiset(sorted) == multiset(cands) && CandsOk(st, cands)
    ensures CandsOk(st, sorted)
  {
    forall i | 0 <= i < |sorted| ensures sorted[i].slot in st.slots && sorted[i].used <= st.slots[sorted[i].slot].lastUsed {
      assert sorted[i] in multiset(sorted);
      assert sorted[i] in cands;
    }
  }

  lemma ScanDoneKeeps(st: State, t: Tid, pc: PC, sorted: seq<Cand>)
    requires Inv(st) && PcOf(st, t) == pc && pc.Scan? && multiset(sorted) == multiset(pc.hunt.cands) && SortedByUse(sorted)
    ensures Inv(Goto(st, t, Try(pc.why, Hunt(pc.hunt.seen, sorted, 0))))
  {
    ThreadFact(st, t);
    SortedCands(st, sorted, pc.hunt.cands);
    MoveKeeps(st, t, pc, Try(pc.why, Hunt(pc.hunt.seen, sorted, 0)));
  }

  lemma EvictAcquires(st: State, t: Tid, pc: PC, s: SlotId, p: ProvId)
    requires PcOf(st, t) == pc && pc.Try? && Free(st, LSlot(s))
    ensures Acquirable(st, t, CloseWant(Evict(pc.why, s, pc.hunt), p))
  {
  }

  lemma EvictKeeps(st: State, t: Tid, pc: PC, c: Cand)
    requires Inv(st) && PcOf(st, t) == pc && pc.Try? && pc.hunt.next < |pc.hunt.cands| && c == pc.hunt.cands[pc.hunt.next]
    requires StillIdle(st, c)
    ensures Inv(BeginClose(st, t, c.slot, Evict(pc.why, c.slot, pc.hunt)))
  {
    ThreadFact(st, t);
    EvictAcquires(st, t, pc, c.slot, st.slots[c.slot].backend.value);
    BeginCloseKeeps(st, t, c.slot, Evict(pc.why, c.slot, pc.hunt));
  }

  lemma PassKeeps(st: State, t: Tid, pc: PC)
    requires Inv(st) && PcOf(st, t) == pc && pc.Try? && pc.hunt.next < |pc.hunt.cands|
    ensures Inv(Goto(st, t, Try(pc.why, pc.hunt.(next := pc.hunt.next + 1))))
  {
    ThreadFact(st, t);
    MoveKeeps(st, t, pc, Try(pc.why, pc.hunt.(next := pc.hunt.next + 1)));
  }

  lemma TryKeeps(st: State, t: Tid, pc: PC, st': State)
    requires Inv(st) && PcOf(st, t) == pc && pc.Try? && st' == DoTryNext(st, t, pc.why, pc.hunt)
    ensures Inv(st')
  {
    TryShape(st, t, pc);
    if pc.hunt.next >= |pc.hunt.cands| { MoveKeeps(st, t, pc, Idle); }
    else if StillIdle(st, pc.hunt.cands[pc.hunt.next]) { EvictKeeps(st, t, pc, pc.hunt.cands[pc.hunt.next]); }
    else { PassKeeps(st, t, pc); }
  }

  lemma ReapAcquires(st: State, t: Tid, s: SlotId, p: ProvId, rest: set<SlotId>)
    requires Free(st, LSlot(s))
    ensures Acquirable(st, t, CloseWant(Reap(s, rest), p))
  {
  }

  lemma ReapKeeps(st: State, t: Tid, todo: set<SlotId>, s: SlotId, due: bool)
    requires Inv(st) && PcOf(st, t) == ReapScan(todo) && s in todo
    ensures Inv(DoReapSlot(st, t, s, due, todo - {s}))
  {
    ThreadFact(st, t);
    if IdleSlot(st, s) && due {
      ReapAcquires(st, t, s, st.slots[s].backend.value, todo - {s});
      BeginCloseKeeps(st, t, s, Reap(s, todo - {s}));
    } else {
      MoveKeeps(st, t, ReapScan(todo), ReapScan(todo - {s}));
    }
  }

  lemma ShutSnapshotKeeps(st: State, t: Tid)
    requires Inv(st) && PcOf(st, t) == ShutSlots({})
    ensures Inv(Goto(st, t, ShutProvs(st.owned)))
  {
    ThreadFact(st, t);
    forall p | p in st.owned ensures p in st.provs && EverLive(st.provs[p].status) {
      assert ProvOk(st, p);
    }
    assert OkFor(st, t, ShutProvs(st.owned));
    MoveKeeps(st, t, ShutSlots({}), ShutProvs(st.owned));
  }

  lemma LockedOk(st: State, t: Tid, c: Cause, p: ProvId)
    requires ThreadOk(st, t, CloseWant(c, p)) && !IsReleased(st, p)
    ensures OkFor(st, t, CloseBusy(c, p)) && Holds(CloseBusy(c, p)) <= Holds(CloseWant(c, p)) + {LProv(p)}
  {
  }

  lemma LockProvKeeps(st: State, t: Tid, c: Cause, p: ProvId)
    requires Inv(st) && PcOf(st, t) == CloseWant(c, p) && Free(st, LProv(p)) && !IsReleased(st, p)
    ensures Inv(Goto(st, t, CloseBusy(c, p)))
  {
    ThreadFact(st, t);
    LockedOk(st, t, c, p);
    TakeKeeps(st, t, CloseWant(c, p), CloseBusy(c, p), LProv(p));
  }

  lemma LockSlotKeeps(st: State, t: Tid, pc: PC)
    requires Inv(st) && PcOf(st, t) == pc && pc.WantSlot? && Free(st, LSlot(pc.slot))
    ensures Inv(Goto(st, t, InSlot(pc.slot, pc.op)))
  {
    ThreadFact(st, t);
    assert OkFor(st, t, InSlot(pc.slot, pc.op));
    TakeKeeps(st, t, pc, InSlot(pc.slot, pc.op), LSlot(pc.slot));
  }

  lemma DoneKeeps(st: State, t: Tid)
    requires Inv(st) && (PcOf(st, t).ReapScan? || PcOf(st, t).ShutProvs? || PcOf(st, t).WaitRelease?)
    ensures Inv(Goto(st, t, Idle))
  {
    assert OkFor(st, t, Idle);
    MoveKeeps(st, t, PcOf(st, t), Idle);
  }

  lemma CheckKeeps(st: State, t: Tid, s: SlotId)
    requires Inv(st) && PcOf(st, t) == InSlot(s, OpCanonical) && !st.closed
    ensures Inv(Goto(st, t, Checked(s)))
  {
    ThreadFact(st, t);
    SlotFact(st, s);
    assert OkFor(st, t, Checked(s));
    MoveKeeps(st, t, InSlot(s, OpCanonical), Checked(s));
  }

  lemma SandboxKeeps(st: State, t: Tid, p: ProvId)
    requires Inv(st) && Enabled(st, CallSandboxClose(t, p))
    ensures Inv(Goto(st, t, CloseWant(Sandbox, p)))
  {
    assert OkFor(st, t, CloseWant(Sandbox, p));
    MoveKeeps(st, t, Idle, CloseWant(Sandbox, p));
  }

  lemma LockAdmitKeeps(st: State, t: Tid, pc: PC)
    requires Inv(st) && PcOf(st, t) == pc && pc.WantAdmit? && Free(st, LAdmit)
    ensures Inv(Goto(st, t, Admit(pc.why, false)))
  {
    ThreadFact(st, t);
    assert OkFor(st, t, Admit(pc.why, false));
    TakeKeeps(st, t, pc, Admit(pc.why, false), LAdmit);
  }

  lemma ShutNextSlotKeeps(st: State, t: Tid, pc: PC, s: SlotId)
    requires Inv(st) && PcOf(st, t) == pc && pc.ShutSlots? && s in pc.todo
    ensures Inv(Goto(st, t, WantSlot(s, OpShut(pc.todo - {s}))))
  {
    ThreadFact(st, t);
    assert OkFor(st, t, WantSlot(s, OpShut(pc.todo - {s})));
    MoveKeeps(st, t, pc, WantSlot(s, OpShut(pc.todo - {s})));
  }

  lemma ShutNextProvKeeps(st: State, t: Tid, pc: PC, p: ProvId)
    requires Inv(st) && PcOf(st, t) == pc && pc.ShutProvs? && p in pc.left
    ensures Inv(Goto(st, t, CloseWant(ShutOwned(pc.left - {p}), p)))
  {
    ThreadFact(st, t);
    assert OkFor(st, t, CloseWant(ShutOwned(pc.left - {p}), p));
    MoveKeeps(st, t, pc, CloseWant(ShutOwned(pc.left - {p}), p));
  }

  // ---------- One lemma per kind of step ----------

  lemma CallSlotSafe(st: State, step: Step)
    requires Inv(st) && Enabled(st, step) && step.CallSlot?
    ensures Inv(Apply(st, step))
  {
    CallSlotKeeps(st, step.t, step.s, step.op);
  }

  lemma CallReleaseSafe(st: State, step: Step)
    requires Inv(st) && Enabled(st, step) && step.CallRelease?
    ensures Inv(Apply(st, step))
  {
    CallReleaseKeeps(st, step.t, step.l);
  }

  lemma CallOpenSafe(st: State, step: Step)
    requires Inv(st) && Enabled(st, step) && step.CallOpen?
    ensures Inv(Apply(st, step))
  {
    MoveKeeps(st, step.t, Idle, WantAdmit(ByPinned));
  }

  lemma CallReapSafe(st: State, step: Step)
    requires Inv(st) && Enabled(st, step) && step.CallReap?
    ensures Inv(Apply(st, step))
  {
    MoveKeeps(st, step.t, Idle, ReapScan(st.visible));
  }

  lemma CallShutdownSafe(st: State, step: Step)
    requires Inv(st) && Enabled(st, step) && step.CallShutdown?
    ensures Inv(Apply(st, step))
  {
    ShutdownKeeps(st, step.t, step.reaper);
  }

  lemma CallSandboxCloseSafe(st: State, step: Step)
    requires Inv(st) && Enabled(st, step) && step.CallSandboxClose?
    ensures Inv(Apply(st, step))
  {
    SandboxKeeps(st, step.t, step.p);
  }

  lemma LockSlotSafe(st: State, step: Step)
    requires Inv(st) && Enabled(st, step) && step.LockSlot?
    ensures Inv(Apply(st, step))
  {
    LockSlotKeeps(st, step.t, PcOf(st, step.t));
  }

  lemma CanonicalCheckSafe(st: State, step: Step)
    requires Inv(st) && Enabled(st, step) && step.CanonicalCheck?
    ensures Inv(Apply(st, step))
  {
    var pc := PcOf(st, step.t);
    if st.closed || step.cancelled { MoveKeeps(st, step.t, pc, Idle); } else { CheckKeeps(st, step.t, pc.slot); }
  }

  lemma CanonicalUseSafe(st: State, step: Step)
    requires Inv(st) && Enabled(st, step) && step.CanonicalUse?
    ensures Inv(Apply(st, step))
  {
    CanonicalUseKeeps(st, step.t, PcOf(st, step.t).slot, step.healthy, step.l, step.now);
  }

  lemma ExistingUseSafe(st: State, step: Step)
    requires Inv(st) && Enabled(st, step) && step.ExistingUse?
    ensures Inv(Apply(st, step))
  {
    ExistingKeeps(st, step.t, PcOf(st, step.t).slot, step.l, step.now);
  }

  lemma RestartUseSafe(st: State, step: Step)
    requires Inv(st) && Enabled(st, step) && step.RestartUse?
    ensures Inv(Apply(st, step))
  {
    RestartKeeps(st, step.t, PcOf(st, step.t).slot);
  }

  lemma ReleaseUseSafe(st: State, step: Step)
    requires Inv(st) && Enabled(st, step) && step.ReleaseUse?
    ensures Inv(Apply(st, step))
  {
    ReleaseKeeps(st, step.t, PcOf(st, step.t).slot, PcOf(st, step.t).op.lease, step.now);
  }

  lemma ShutUseSafe(st: State, step: Step)
    requires Inv(st) && Enabled(st, step) && step.ShutUse?
    ensures Inv(Apply(st, step))
  {
    ShutUseKeeps(st, step.t, PcOf(st, step.t).slot, PcOf(st, step.t).op.todo);
  }

  lemma LockAdmitSafe(st: State, step: Step)
    requires Inv(st) && Enabled(st, step) && step.LockAdmit?
    ensures Inv(Apply(st, step))
  {
    LockAdmitKeeps(st, step.t, PcOf(st, step.t));
  }

  lemma AdmitStepSafe(st: State, step: Step)
    requires Inv(st) && Enabled(st, step) && step.AdmitStep?
    ensures Inv(Apply(st, step))
  {
    AdmitKeeps(st, step.t, PcOf(st, step.t), step.p);
  }

  lemma ScanSlotSafe(st: State, step: Step)
    requires Inv(st) && Enabled(st, step) && step.ScanSlot?
    ensures Inv(Apply(st, step))
  {
    ScanKeeps(st, step.t, PcOf(st, step.t), step.s);
  }

  lemma ScanDoneSafe(st: State, step: Step)
    requires Inv(st) && Enabled(st, step) && step.ScanDone?
    ensures Inv(Apply(st, step))
  {
    ScanDoneKeeps(st, step.t, PcOf(st, step.t), step.sorted);
  }

  lemma TryNextSafe(st: State, step: Step)
    requires Inv(st) && Enabled(st, step) && step.TryNext?
    ensures Inv(Apply(st, step))
  {
    var pc := PcOf(st, step.t);
    TryKeeps(st, step.t, pc, DoTryNext(st, step.t, pc.why, pc.hunt));
  }

  lemma OpenReturnsSafe(st: State, step: Step)
    requires Inv(st) && Enabled(st, step) && step.OpenReturns?
    ensures Inv(Apply(st, step))
  {
    OpenReturnsKeeps(st, step.t, PcOf(st, step.t), step.ok, step.e);
  }

  lemma InstallSafe(st: State, step: Step)
    requires Inv(st) && Enabled(st, step) && step.Install?
    ensures Inv(Apply(st, step))
  {
    InstallKeeps(st, step.t, PcOf(st, step.t).slot, PcOf(st, step.t).prov, step.l, step.now);
  }

  lemma LockProvSafe(st: State, step: Step)
    requires Inv(st) && Enabled(st, step) && step.LockProv?
    ensures Inv(Apply(st, step))
  {
    var pc := PcOf(st, step.t);
    if IsReleased(st, pc.prov) { FinishKeeps(st, step.t, pc.cause, pc.prov, pc); }
    else { LockProvKeeps(st, step.t, pc.cause, pc.prov); }
  }

  lemma CloseReturnsSafe(st: State, step: Step)
    requires Inv(st) && Enabled(st, step) && step.CloseReturns?
    ensures Inv(Apply(st, step))
  {
    var pc := PcOf(st, step.t);
    if step.ok { RetiringKeeps(st, step.t, pc); } else { FailKeeps(st, step.t, pc.cause, pc.prov); }
  }

  lemma DeleteOwnedSafe(st: State, step: Step)
    requires Inv(st) && Enabled(st, step) && step.DeleteOwned?
    ensures Inv(Apply(st, step))
  {
    var pc := PcOf(st, step.t);
    FinishKeeps(st, step.t, pc.cause, pc.prov, pc);
  }

  lemma ReapSlotSafe(st: State, step: Step)
    requires Inv(st) && Enabled(st, step) && step.ReapSlot?
    ensures Inv(Apply(st, step))
  {
    ReapKeeps(st, step.t, PcOf(st, step.t).todo, step.s, step.due);
  }

  lemma ReapDoneSafe(st: State, step: Step)
    requires Inv(st) && Enabled(st, step) && step.ReapDone?
    ensures Inv(Apply(st, step))
  {
    DoneKeeps(st, step.t);
  }

  lemma ShutReadySafe(st: State, step: Step)
    requires Inv(st) && Enabled(st, step) && step.ShutReady?
    ensures Inv(Apply(st, step))
  {
    HideKeeps(st, step.t);
  }

  lemma ShutNextSlotSafe(st: State, step: Step)
    requires Inv(st) && Enabled(st, step) && step.ShutNextSlot?
    ensures Inv(Apply(st, step))
  {
    ShutNextSlotKeeps(st, step.t, PcOf(st, step.t), step.s);
  }

  lemma ShutSlotsDoneSafe(st: State, step: Step)
    requires Inv(st) && Enabled(st, step) && step.ShutSlotsDone?
    ensures Inv(Apply(st, step))
  {
    ShutSnapshotKeeps(st, step.t);
  }

  lemma ShutNextProvSafe(st: State, step: Step)
    requires Inv(st) && Enabled(st, step) && step.ShutNextProv?
    ensures Inv(Apply(st, step))
  {
    ShutNextProvKeeps(st, step.t, PcOf(st, step.t), step.p);
  }

  lemma ShutDoneSafe(st: State, step: Step)
    requires Inv(st) && Enabled(st, step) && step.ShutDone?
    ensures Inv(Apply(st, step))
  {
    DoneKeeps(st, step.t);
  }

  lemma ReleaseDoneSafe(st: State, step: Step)
    requires Inv(st) && Enabled(st, step) && step.ReleaseDone?
    ensures Inv(Apply(st, step))
  {
    DoneKeeps(st, step.t);
  }

  lemma CallsSafe(st: State, step: Step)
    requires Inv(st) && Enabled(st, step) && IsCall(step)
    ensures Inv(Apply(st, step))
  {
    if step.CallSlot? { CallSlotSafe(st, step); }
    else if step.CallRelease? { CallReleaseSafe(st, step); }
    else if step.CallOpen? { CallOpenSafe(st, step); }
    else if step.CallReap? { CallReapSafe(st, step); }
    else if step.CallShutdown? { CallShutdownSafe(st, step); }
    else { CallSandboxCloseSafe(st, step); }
  }

  lemma SectionsSafe(st: State, step: Step)
    requires Inv(st) && Enabled(st, step) && IsSlotSection(step)
    ensures Inv(Apply(st, step))
  {
    if step.LockSlot? { LockSlotSafe(st, step); }
    else if step.CanonicalCheck? { CanonicalCheckSafe(st, step); }
    else if step.CanonicalUse? { CanonicalUseSafe(st, step); }
    else if step.ExistingUse? { ExistingUseSafe(st, step); }
    else if step.RestartUse? { RestartUseSafe(st, step); }
    else if step.ReleaseUse? { ReleaseUseSafe(st, step); }
    else { ShutUseSafe(st, step); }
  }

  lemma AdmissionsSafe(st: State, step: Step)
    requires Inv(st) && Enabled(st, step) && IsAdmission(step)
    ensures Inv(Apply(st, step))
  {
    if step.LockAdmit? { LockAdmitSafe(st, step); }
    else if step.AdmitStep? { AdmitStepSafe(st, step); }
    else if step.ScanSlot? { ScanSlotSafe(st, step); }
    else if step.ScanDone? { ScanDoneSafe(st, step); }
    else { TryNextSafe(st, step); }
  }

  lemma OpeningsSafe(st: State, step: Step)
    requires Inv(st) && Enabled(st, step) && IsOpening(step)
    ensures Inv(Apply(st, step))
  {
    if step.OpenReturns? { OpenReturnsSafe(st, step); }
    else { InstallSafe(st, step); }
  }

  lemma ClosingsSafe(st: State, step: Step)
    requires Inv(st) && Enabled(st, step) && IsClosing(step)
    ensures Inv(Apply(st, step))
  {
    if step.LockProv? { LockProvSafe(st, step); }
    else if step.CloseReturns? { CloseReturnsSafe(st, step); }
    else { DeleteOwnedSafe(st, step); }
  }

  lemma ReapingsSafe(st: State, step: Step)
    requires Inv(st) && Enabled(st, step) && IsReaping(step)
    ensures Inv(Apply(st, step))
  {
    if step.ReapSlot? { ReapSlotSafe(st, step); }
    else if step.ReapDone? { ReapDoneSafe(st, step); }
    else { ReleaseDoneSafe(st, step); }
  }

  lemma ShutdownsSafe(st: State, step: Step)
    requires Inv(st) && Enabled(st, step) && IsShutdown(step)
    ensures Inv(Apply(st, step))
  {
    if step.ShutReady? { ShutReadySafe(st, step); }
    else if step.ShutNextSlot? { ShutNextSlotSafe(st, step); }
    else if step.ShutSlotsDone? { ShutSlotsDoneSafe(st, step); }
    else if step.ShutNextProv? { ShutNextProvSafe(st, step); }
    else { ShutDoneSafe(st, step); }
  }

  /** Every enabled step of every thread keeps the invariant. */
  lemma StepKeeps(st: State, step: Step)
    requires Inv(st) && Enabled(st, step)
    ensures Inv(Apply(st, step))
  {
    if IsCall(step) { CallsSafe(st, step); }
    else if IsSlotSection(step) { SectionsSafe(st, step); }
    else if IsAdmission(step) { AdmissionsSafe(st, step); }
    else if IsOpening(step) { OpeningsSafe(st, step); }
    else if IsClosing(step) { ClosingsSafe(st, step); }
    else if IsReaping(step) { ReapingsSafe(st, step); }
    else { ShutdownsSafe(st, step); }
  }

  /** The invariant holds after every run, whatever the interleaving. */
  lemma {:induction false} RunKeeps(st: State, steps: seq<Step>)
    requires Inv(st) && IsRun(st, steps)
    ensures Inv(After(st, steps))
    decreases |steps|
  {
    if steps != [] {
      StepKeeps(st, steps[0]);
      RunKeeps(Apply(st, steps[0]), steps[1..]);
    }
  }

  // ---------- Main results ----------

  /** Capacity: in every reachable state the reservations are within the limit, every
      provider that opened and was not successfully closed still holds one, and every
      reservation belongs to a provider that is opening, live or just being returned. */
  lemma CapacityBound(max: nat, steps: seq<Step>)
    requires IsRun(Init(max), steps)
    ensures var st := After(Init(max), steps);
            && |st.owned| <= max
            && st.owned <= st.provs.Keys
            && (forall p :: p in st.provs ==> (p in st.owned <==> Reserved(st.provs[p].status)))
  {
    InitOk(max);
    RunKeeps(Init(max), steps);
    MaxKept(Init(max), steps);
    var st := After(Init(max), steps);
    forall p | p in st.provs ensures p in st.owned <==> Reserved(st.provs[p].status) { assert ProvOk(st, p); }
  }

  lemma {:induction false} MaxKept(st: State, steps: seq<Step>)
    requires IsRun(st, steps)
    ensures After(st, steps).max == st.max
    decreases |steps|
  {
    if steps != [] {
      StepFrame(st, steps[0]);
      MaxKept(Apply(st, steps[0]), steps[1..]);
    }
  }

  /** Leases: a slot's user count is the number of its unreleased leases, however often
      release was called, and until shutdown each of them names the slot's live backend. */
  lemma LeasesCounted(max: nat, steps: seq<Step>)
    requires IsRun(Init(max), steps)
    ensures var st := After(Init(max), steps);
            && (forall s :: s in st.slots ==> st.slots[s].users == |ActiveLeases(st, s)|)
            && (forall l :: l in st.leases && !st.leases[l].state.Released? && !st.closed ==>
                  st.leases[l].slot in st.slots && st.slots[st.leases[l].slot].backend == Some(st.leases[l].prov))
  {
    InitOk(max);
    RunKeeps(Init(max), steps);
    var st := After(Init(max), steps);
    forall s | s in st.slots ensures st.slots[s].users == |ActiveLeases(st, s)| { SlotFact(st, s); }
    forall l | l in st.leases && !st.leases[l].state.Released? && !st.closed
      ensures st.leases[l].slot in st.slots && st.slots[st.leases[l].slot].backend == Some(st.leases[l].prov)
    {
      assert LeaseOk(st, l);
    }
  }

  /** Generations: the backends a slot ever held have strictly increasing epochs. */
  lemma GenerationsIncrease(max: nat, steps: seq<Step>)
    requires IsRun(Init(max), steps)
    ensures var st := After(Init(max), steps);
            forall s :: s in st.slots ==>
              && Increasing(st.slots[s].gens)
              && (st.slots[s].backend.Some? ==>
                    && st.slots[s].backend.value in st.provs && st.slots[s].gens != []
                    && st.slots[s].gens[|st.slots[s].gens| - 1] == st.provs[st.slots[s].backend.value].epoch)
  {
    InitOk(max);
    RunKeeps(Init(max), steps);
    var st := After(Init(max), steps);
    forall s | s in st.slots
      ensures Increasing(st.slots[s].gens)
      ensures st.slots[s].backend.Some? ==>
                && st.slots[s].backend.value in st.provs && st.slots[s].gens != []
                && st.slots[s].gens[|st.slots[s].gens| - 1] == st.provs[st.slots[s].backend.value].epoch
    {
      SlotFact(st, s);
    }
  }

  /** A provider is only ever closed once it is open: no step calls Close on a reservation
      whose open has not returned, in particular not the shutdown's last pass. */
  lemma NoHalfOpenedClosed(st: State, t: Tid)
    requires Inv(st) && (PcOf(st, t).CloseWant? || PcOf(st, t).CloseBusy?)
    ensures PcOf(st, t).prov in st.provs
    ensures EverLive(st.provs[PcOf(st, t).prov].status)
    ensures PcOf(st, t).CloseBusy? ==> st.provs[PcOf(st, t).prov].status == Live && PcOf(st, t).prov in st.owned
  {
    ThreadFact(st, t);
    assert ProvOk(st, PcOf(st, t).prov);
  }

  /** The closes Pool.Close makes, whatever the leases. */
  predicate ByShutdown(c: Cause) { c.ShutSlot? || c.ShutOwned? }

  /** A thread inside a provider's Close, other than one of the shutdown's own. */
  predicate ClosingFor(pc: PC, p: ProvId) {
    (pc.CloseWant? || pc.CloseBusy? || pc.CloseDelete?) && pc.prov == p && !ByShutdown(pc.cause)
  }

  /** While a lease on a provider is out, nobody but the shutdown is closing that provider. */
  lemma LeasedNotClosing(st: State, t: Tid, l: LeaseId)
    requires Inv(st) && l in st.leases && !st.leases[l].state.Released?
    ensures !ClosingFor(PcOf(st, t), st.leases[l].prov)
  {
    var pc, s := PcOf(st, t), st.leases[l].slot;
    assert LeaseOk(st, l);
    SlotFact(st, s);
    assert l in ActiveLeases(st, s);
    LeasedUsers(st, s, l);
    ThreadFact(st, t);
    if (pc.CloseWant? || pc.CloseBusy? || pc.CloseDelete?) && CauseSlot(pc.cause).Some? && !ByShutdown(pc.cause) {
      SlotFact(st, pc.cause.slot);
    }
  }

  lemma LeasedUsers(st: State, s: SlotId, l: LeaseId)
    requires s in st.slots && SlotOk(st, s) && l in ActiveLeases(st, s)
    ensures st.slots[s].users > 0
  {
  }

  /** A live provider is neither being opened nor being deleted. */
  lemma LiveNotEnding(st: State, t: Tid, p: ProvId)
    requires Inv(st) && p in st.provs && st.provs[p].status == Live
    ensures var pc := PcOf(st, t); pc.OpenBusy? || pc.CloseDelete? ==> pc.prov != p
  {
    ThreadFact(st, t);
  }

  /** Outside the return of its own Close, a live provider stays live. */
  lemma LiveKept(st: State, step: Step, p: ProvId)
    requires Inv(st) && Enabled(st, step) && p in st.provs && st.provs[p].status == Live
    requires !(PcOf(st, step.t).CloseBusy? && PcOf(st, step.t).prov == p)
    ensures p in Apply(st, step).provs && Apply(st, step).provs[p].status == Live
  {
    ProvFrame(st, step, p);
    LiveNotEnding(st, step.t, p);
  }

  /** No step other than one of the shutdown's own closes takes a leased provider out of life, during a
      shutdown or before it. */
  lemma LeaseStep(st: State, step: Step, l: LeaseId)
    requires Inv(st) && Enabled(st, step) && l in st.leases && !st.leases[l].state.Released?
    requires var p := st.leases[l].prov; p in st.provs && st.provs[p].status == Live
    requires var pc := PcOf(st, step.t); !(pc.CloseBusy? && ByShutdown(pc.cause))
    ensures var p := st.leases[l].prov; p in Apply(st, step).provs && Apply(st, step).provs[p].status == Live
  {
    LeasedNotClosing(st, step.t, l);
    LiveKept(st, step, st.leases[l].prov);
  }

  /** In every run: a step that takes a leased provider out of life is the return of a Close that
      Pool.Close itself made. */
  lemma CloseRespectsLeases(max: nat, steps: seq<Step>, step: Step, l: LeaseId)
    requires IsRun(Init(max), steps) && Enabled(After(Init(max), steps), step)
    ensures var st := After(Init(max), steps);
            l in st.leases && !st.leases[l].state.Released? ==>
              var p := st.leases[l].prov;
              && p in st.provs && p in Apply(st, step).provs
              && (st.provs[p].status == Live && Apply(st, step).provs[p].status != Live ==>
                    PcOf(st, step.t).CloseBusy? && ByShutdown(PcOf(st, step.t).cause) && PcOf(st, step.t).prov == p)
  {
    InitOk(max);
    RunKeeps(Init(max), steps);
    var st := After(Init(max), steps);
    if l in st.leases && !st.leases[l].state.Released? {
      var p := st.leases[l].prov;
      assert LeaseOk(st, l);
      StepFrame(st, step);
      if st.provs[p].status == Live && !(PcOf(st, step.t).CloseBusy? && ByShutdown(PcOf(st, step.t).cause)) {
        LeaseStep(st, step, l);
      } else if st.provs[p].status == Live && PcOf(st, step.t).prov != p {
        LiveKept(st, step, p);
      }
    }
  }

  /** Once shutdown began, no run ever grants a reservation again. */
  lemma {:induction false} ShutdownGrantsNothing(st: State, steps: seq<Step>)
    requires Inv(st) && IsRun(st, steps) && st.closed
    ensures After(st, steps).closed && After(st, steps).owned <= st.owned
    decreases |steps|
  {
    if steps != [] {
      StepKeeps(st, steps[0]);
      StepFrame(st, steps[0]);
      ShutdownGrantsNothing(Apply(st, steps[0]), steps[1..]);
    }
  }

  /** An admission that already evicted a provider finds room or a closed pool: it never
      scans for a second victim. */
  lemma EvictsAtMostOnce(st: State, t: Tid, p: ProvId)
    requires Inv(st) && PcOf(st, t).Admit? && PcOf(st, t).evicted && p !in st.provs
    ensures var pc' := PcOf(Apply(st, AdmitStep(t, p)), t); pc'.Idle? || pc'.OpenBusy?
    ensures PcOf(Apply(st, AdmitStep(t, p)), t).Idle? ==> st.closed
  {
    ThreadFact(st, t);
  }
}
