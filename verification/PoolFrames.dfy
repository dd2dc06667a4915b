/** What one step of the pool protocol can change. */
module PoolFrames {
  import opened Basics
  import opened PoolProtocol

  predicate IsCall(step: Step) {
    step.CallOpen? || step.CallReap? || step.CallShutdown? || step.CallSandboxClose? || step.CallSlot? || step.CallRelease?
  }

  predicate IsSlotSection(step: Step) {
    step.LockSlot? || step.CanonicalCheck? || step.CanonicalUse? || step.ExistingUse? || step.RestartUse?
             || step.ReleaseUse? || step.ShutUse?
  }

  predicate IsAdmission(step: Step) {
    step.LockAdmit? || step.AdmitStep? || step.ScanSlot? || step.ScanDone? || step.TryNext?
  }

  predicate IsOpening(step: Step) { step.OpenReturns? || step.Install? }

  predicate IsClosing(step: Step) {
    step.LockProv? || step.CloseReturns? || step.DeleteOwned?
  }

  predicate IsReaping(step: Step) { step.ReapSlot? || step.ReapDone? || step.ReleaseDone? }

  predicate IsShutdown(step: Step) {
    step.ShutReady? || step.ShutNextSlot? || step.ShutSlotsDone? || step.ShutNextProv? || step.ShutDone?
  }

  predicate IsLeasing(step: Step) { step.CanonicalUse? || step.ExistingUse? }

  /** What a step does to a lease. */
  predicate LeaseFramed(st: State, step: Step, st': State, l: LeaseId)
    requires l in st'.leases
  {
    || (l in st.leases && st'.leases[l] == st.leases[l])
    || (l !in st.leases && st'.leases[l].state.Held?)
    || (step.CallRelease? && st'.leases[l].state == Releasing(step.t) && PcOf(st', step.t).WantSlot? && PcOf(st', step.t).op == OpRelease(l))
    || (step.ReleaseUse? && st'.leases[l].state.Released?)
  }

  /** The thread is opening the provider or inside its Close. */
  predicate Handles(pc: PC, p: ProvId) { (pc.OpenBusy? || pc.CloseBusy? || pc.CloseDelete?) && pc.prov == p }

  /** What a step leaves alone unless it is the one step entitled to change it. */
  ghost predicate Framed(st: State, step: Step, st': State) {
    && st'.max == st.max && (st.closed ==> st'.closed)
    && (st'.owned <= st.owned || (step.AdmitStep? && !st.closed))
    && (forall p :: p in st.provs ==>
          p in st'.provs
          && (st'.provs[p] == st.provs[p] || Handles(PcOf(st, step.t), p)))
    && (forall u :: u != step.t ==> PcOf(st', u) == PcOf(st, u))
    && (forall l :: l in st'.leases ==> LeaseFramed(st, step, st', l))
  }

  /** A change under which no provider, lease or other thread notices anything, and no backend appears. */
  ghost predicate Silent(st: State, st': State, t: Tid) {
    && st'.max == st.max && st'.closed == st.closed && st'.owned == st.owned && st'.provs == st.provs && st'.leases == st.leases
    && (forall s :: s in st.slots ==> s in st'.slots && (st'.slots[s].backend == st.slots[s].backend || st'.slots[s].backend.None?))
    && (forall u :: u != t ==> PcOf(st', u) == PcOf(st, u))
  }

  lemma MoveSilent(st: State, t: Tid, pc: PC)
    ensures Silent(st, Goto(st, t, pc), t)
  {
  }

  lemma BeginCloseFrame(st: State, t: Tid, s: SlotId, c: Cause)
    requires s in st.slots && st.slots[s].backend.Some?
    ensures Silent(st, BeginClose(st, t, s, c), t)
  {
  }

  lemma DetachSilent(st: State, t: Tid, s: SlotId, pc: PC)
    ensures Silent(st, Goto(Detach(st, s), t, pc), t)
  {
  }

  lemma FinishFrame(st: State, t: Tid, c: Cause, ok: bool)
    ensures Silent(st, Finish(st, t, c, ok), t)
  {
    var pc := PcOf(Finish(st, t, c, ok), t);
    MoveSilent(st, t, pc);
    if !c.ShutOwned? && !c.Sandbox? { DetachSilent(st, t, c.slot, pc); }
  }

  lemma AddLeaseFrame(st: State, t: Tid, s: SlotId, p: ProvId, l: LeaseId, now: int)
    requires s in st.slots
    ensures var st' := Goto(AddLease(st, s, p, l, now), t, Idle);
            Silent(st, st'.(leases := st.leases), t) && st'.leases == st.leases[l := Lease(s, p, Held)]
  {
  }

  /** The three things a turn of the candidate loop can be. */
  lemma TryShape(st: State, t: Tid, pc: PC)
    requires pc.Try?
    ensures pc.hunt.next >= |pc.hunt.cands| ==> DoTryNext(st, t, pc.why, pc.hunt) == Goto(st, t, Idle)
    ensures pc.hunt.next < |pc.hunt.cands| && !StillIdle(st, pc.hunt.cands[pc.hunt.next]) ==>
              DoTryNext(st, t, pc.why, pc.hunt) == Goto(st, t, Try(pc.why, pc.hunt.(next := pc.hunt.next + 1)))
    ensures pc.hunt.next < |pc.hunt.cands| && StillIdle(st, pc.hunt.cands[pc.hunt.next]) ==>
              var s := pc.hunt.cands[pc.hunt.next].slot;
              DoTryNext(st, t, pc.why, pc.hunt) == BeginClose(st, t, s, Evict(pc.why, s, pc.hunt))
  {
  }

  lemma CallSlotFramed(st: State, step: Step)
    requires Enabled(st, step) && step.CallSlot?
    ensures Framed(st, step, Apply(st, step))
  {
  }

  lemma CallReleaseFramed(st: State, step: Step)
    requires Enabled(st, step) && step.CallRelease?
    ensures Framed(st, step, Apply(st, step))
  {
  }

  lemma CallOpenFramed(st: State, step: Step)
    requires Enabled(st, step) && step.CallOpen?
    ensures Framed(st, step, Apply(st, step))
  {
  }

  lemma CallReapFramed(st: State, step: Step)
    requires Enabled(st, step) && step.CallReap?
    ensures Framed(st, step, Apply(st, step))
  {
  }

  lemma CallShutdownFramed(st: State, step: Step)
    requires Enabled(st, step) && step.CallShutdown?
    ensures Framed(st, step, Apply(st, step))
  {
  }

  lemma CallSandboxCloseFramed(st: State, step: Step)
    requires Enabled(st, step) && step.CallSandboxClose?
    ensures Framed(st, step, Apply(st, step))
  {
  }

  lemma LockSlotFramed(st: State, step: Step)
    requires Enabled(st, step) && step.LockSlot?
    ensures Framed(st, step, Apply(st, step))
  {
  }

  lemma CanonicalCheckFramed(st: State, step: Step)
    requires Enabled(st, step) && step.CanonicalCheck?
    ensures Framed(st, step, Apply(st, step))
  {
  }

  lemma CanonicalUseFramed(st: State, step: Step)
    requires Enabled(st, step) && step.CanonicalUse?
    ensures Framed(st, step, Apply(st, step))
  {
  }

  lemma ExistingUseFramed(st: State, step: Step)
    requires Enabled(st, step) && step.ExistingUse?
    ensures Framed(st, step, Apply(st, step))
  {
    var s := PcOf(st, step.t).slot;
    if s in st.slots && st.slots[s].backend.Some? && !st.closed { AddLeaseFrame(st, step.t, s, st.slots[s].backend.value, step.l, step.now); }
    else { MoveSilent(st, step.t, Idle); }
  }

  lemma RestartUseFramed(st: State, step: Step)
    requires Enabled(st, step) && step.RestartUse?
    ensures Framed(st, step, Apply(st, step))
  {
    RestartUseSilent(st, step.t, PcOf(st, step.t).slot);
  }

  lemma RestartUseSilent(st: State, t: Tid, s: SlotId)
    ensures Silent(st, DoRestartUse(st, t, s), t)
  {
    if s in st.slots && st.slots[s].backend.Some? { BeginCloseFrame(st, t, s, RestartOf(s)); }
  }

  lemma ReleaseUseFramed(st: State, step: Step)
    requires Enabled(st, step) && step.ReleaseUse?
    ensures Framed(st, step, Apply(st, step))
  {
  }

  lemma ShutUseFramed(st: State, step: Step)
    requires Enabled(st, step) && step.ShutUse?
    ensures Framed(st, step, Apply(st, step))
  {
  }

  lemma LockAdmitFramed(st: State, step: Step)
    requires Enabled(st, step) && step.LockAdmit?
    ensures Framed(st, step, Apply(st, step))
  {
  }

  lemma AdmitStepFramed(st: State, step: Step)
    requires Enabled(st, step) && step.AdmitStep?
    ensures Framed(st, step, Apply(st, step))
  {
  }

  lemma ScanSlotFramed(st: State, step: Step)
    requires Enabled(st, step) && step.ScanSlot?
    ensures Framed(st, step, Apply(st, step))
  {
  }

  lemma ScanDoneFramed(st: State, step: Step)
    requires Enabled(st, step) && step.ScanDone?
    ensures Framed(st, step, Apply(st, step))
  {
  }

  lemma TryNextFramed(st: State, step: Step)
    requires Enabled(st, step) && step.TryNext?
    ensures Framed(st, step, Apply(st, step))
  {
    var pc := PcOf(st, step.t);
    TrySilent(st, step.t, pc);
  }

  lemma TrySilent(st: State, t: Tid, pc: PC)
    requires pc.Try?
    ensures Silent(st, DoTryNext(st, t, pc.why, pc.hunt), t)
  {
    TryShape(st, t, pc);
    if pc.hunt.next < |pc.hunt.cands| && StillIdle(st, pc.hunt.cands[pc.hunt.next]) {
      var s := pc.hunt.cands[pc.hunt.next].slot;
      BeginCloseFrame(st, t, s, Evict(pc.why, s, pc.hunt));
    }
  }

  lemma OpenReturnsFramed(st: State, step: Step)
    requires Enabled(st, step) && step.OpenReturns?
    ensures Framed(st, step, Apply(st, step))
  {
  }

  lemma InstallFramed(st: State, step: Step)
    requires Enabled(st, step) && step.Install?
    ensures Framed(st, step, Apply(st, step))
  {
  }

  lemma LockProvFramed(st: State, step: Step)
    requires Enabled(st, step) && step.LockProv?
    ensures Framed(st, step, Apply(st, step))
  {
    var pc := PcOf(st, step.t);
    if IsReleased(st, pc.prov) { FinishFrame(st, step.t, pc.cause, true); } else { MoveSilent(st, step.t, CloseBusy(pc.cause, pc.prov)); }
  }

  lemma CloseReturnsFramed(st: State, step: Step)
    requires Enabled(st, step) && step.CloseReturns?
    ensures Framed(st, step, Apply(st, step))
  {
    var pc := PcOf(st, step.t);
    if step.ok {
      MoveSilent(SetStatus(st, pc.prov, Retiring(step.t)), step.t, CloseDelete(pc.cause, pc.prov));
    } else {
      FinishFrame(st, step.t, pc.cause, false);
    }
  }

  lemma DeleteOwnedFramed(st: State, step: Step)
    requires Enabled(st, step) && step.DeleteOwned?
    ensures Framed(st, step, Apply(st, step))
  {
    var pc := PcOf(st, step.t);
    var freed := SetStatus(st, pc.prov, Closed).(owned := st.owned - {pc.prov});
    FinishFrame(freed, step.t, pc.cause, true);
  }

  lemma ReapSlotFramed(st: State, step: Step)
    requires Enabled(st, step) && step.ReapSlot?
    ensures Framed(st, step, Apply(st, step))
  {
    var todo := PcOf(st, step.t).todo - {step.s};
    if IdleSlot(st, step.s) && step.due { BeginCloseFrame(st, step.t, step.s, Reap(step.s, todo)); } else { MoveSilent(st, step.t, ReapScan(todo)); }
  }

  lemma ReapDoneFramed(st: State, step: Step)
    requires Enabled(st, step) && step.ReapDone?
    ensures Framed(st, step, Apply(st, step))
  {
  }

  lemma ReleaseDoneFramed(st: State, step: Step)
    requires Enabled(st, step) && step.ReleaseDone?
    ensures Framed(st, step, Apply(st, step))
  {
  }

  lemma ShutReadyFramed(st: State, step: Step)
    requires Enabled(st, step) && step.ShutReady?
    ensures Framed(st, step, Apply(st, step))
  {
  }

  lemma ShutNextSlotFramed(st: State, step: Step)
    requires Enabled(st, step) && step.ShutNextSlot?
    ensures Framed(st, step, Apply(st, step))
  {
  }

  lemma ShutSlotsDoneFramed(st: State, step: Step)
    requires Enabled(st, step) && step.ShutSlotsDone?
    ensures Framed(st, step, Apply(st, step))
  {
  }

  lemma ShutNextProvFramed(st: State, step: Step)
    requires Enabled(st, step) && step.ShutNextProv?
    ensures Framed(st, step, Apply(st, step))
  {
  }

  lemma ShutDoneFramed(st: State, step: Step)
    requires Enabled(st, step) && step.ShutDone?
    ensures Framed(st, step, Apply(st, step))
  {
  }

  lemma CallsFramed(st: State, step: Step)
    requires Enabled(st, step) && IsCall(step)
    ensures Framed(st, step, Apply(st, step))
  {
    if step.CallSlot? { CallSlotFramed(st, step); }
    else if step.CallRelease? { CallReleaseFramed(st, step); }
    else if step.CallOpen? { CallOpenFramed(st, step); }
    else if step.CallReap? { CallReapFramed(st, step); }
    else if step.CallShutdown? { CallShutdownFramed(st, step); }
    else { CallSandboxCloseFramed(st, step); }
  }

  lemma SectionsFramed(st: State, step: Step)
    requires Enabled(st, step) && IsSlotSection(step)
    ensures Framed(st, step, Apply(st, step))
  {
    if step.LockSlot? { LockSlotFramed(st, step); }
    else if step.CanonicalCheck? { CanonicalCheckFramed(st, step); }
    else if step.CanonicalUse? { CanonicalUseFramed(st, step); }
    else if step.ExistingUse? { ExistingUseFramed(st, step); }
    else if step.RestartUse? { RestartUseFramed(st, step); }
    else if step.ReleaseUse? { ReleaseUseFramed(st, step); }
    else { ShutUseFramed(st, step); }
  }

  lemma AdmissionsFramed(st: State, step: Step)
    requires Enabled(st, step) && IsAdmission(step)
    ensures Framed(st, step, Apply(st, step))
  {
    if step.LockAdmit? { LockAdmitFramed(st, step); }
    else if step.AdmitStep? { AdmitStepFramed(st, step); }
    else if step.ScanSlot? { ScanSlotFramed(st, step); }
    else if step.ScanDone? { ScanDoneFramed(st, step); }
    else { TryNextFramed(st, step); }
  }

  lemma OpeningsFramed(st: State, step: Step)
    requires Enabled(st, step) && IsOpening(step)
    ensures Framed(st, step, Apply(st, step))
  {
    if step.OpenReturns? { OpenReturnsFramed(st, step); }
    else { InstallFramed(st, step); }
  }

  lemma ClosingsFramed(st: State, step: Step)
    requires Enabled(st, step) && IsClosing(step)
    ensures Framed(st, step, Apply(st, step))
  {
    if step.LockProv? { LockProvFramed(st, step); }
    else if step.CloseReturns? { CloseReturnsFramed(st, step); }
    else { DeleteOwnedFramed(st, step); }
  }

  lemma ReapingsFramed(st: State, step: Step)
    requires Enabled(st, step) && IsReaping(step)
    ensures Framed(st, step, Apply(st, step))
  {
    if step.ReapSlot? { ReapSlotFramed(st, step); }
    else if step.ReapDone? { ReapDoneFramed(st, step); }
    else { ReleaseDoneFramed(st, step); }
  }

  lemma ShutdownsFramed(st: State, step: Step)
    requires Enabled(st, step) && IsShutdown(step)
    ensures Framed(st, step, Apply(st, step))
  {
    if step.ShutReady? { ShutReadyFramed(st, step); }
    else if step.ShutNextSlot? { ShutNextSlotFramed(st, step); }
    else if step.ShutSlotsDone? { ShutSlotsDoneFramed(st, step); }
    else if step.ShutNextProv? { ShutNextProvFramed(st, step); }
    else { ShutDoneFramed(st, step); }
  }

  lemma StepFrame(st: State, step: Step)
    requires Enabled(st, step)
    ensures Framed(st, step, Apply(st, step))
  {
    if IsCall(step) { CallsFramed(st, step); }
    else if IsSlotSection(step) { SectionsFramed(st, step); }
    else if IsAdmission(step) { AdmissionsFramed(st, step); }
    else if IsOpening(step) { OpeningsFramed(st, step); }
    else if IsClosing(step) { ClosingsFramed(st, step); }
    else if IsReaping(step) { ReapingsFramed(st, step); }
    else { ShutdownsFramed(st, step); }
  }

  /** A provider changes only under the thread that is opening or closing it. */
  lemma ProvFrame(st: State, step: Step, p: ProvId)
    requires Enabled(st, step) && p in st.provs
    ensures p in Apply(st, step).provs && (Apply(st, step).provs[p] == st.provs[p] || Handles(PcOf(st, step.t), p))
  {
    StepFrame(st, step);
  }

  /** A step moves no thread but its own. */
  lemma OthersStay(st: State, step: Step, u: Tid)
    requires Enabled(st, step) && u != step.t
    ensures PcOf(Apply(st, step), u) == PcOf(st, u)
  {
    StepFrame(st, step);
  }

  lemma LeaseFrame(st: State, step: Step, l: LeaseId)
    requires Enabled(st, step) && l in Apply(st, step).leases
    ensures LeaseFramed(st, step, Apply(st, step), l)
  {
    StepFrame(st, step);
  }
}
