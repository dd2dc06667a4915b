/**
 What a shutdown of the provider pool achieves, over every interleaving: no provider is left alive but
 for those whose close it tried and failed, and every slot it found in the map ends up empty.
 */
module PoolShutdown {
  import opened Basics
  import opened PoolProtocol
  import opened PoolSafety
  import opened PoolSteps
  import opened PoolFrames
  import opened PoolRuns
  import opened PoolOrder

  // ---------- The last pass ----------

  /** The providers a thread in the last pass of a shutdown has still to close, the current one included. */
  function Owed(pc: PC): Option<set<ProvId>> {
    if pc.ShutProvs? then Some(pc.left)
    else if Closing(pc) && pc.cause.ShutOwned? then Some(pc.cause.left + {pc.prov})
    else None
  }

  predicate Alive(st: State, p: ProvId) { p in st.provs && st.provs[p].status == Live }

  /** The step is the failed return of a close the shutdown itself made of p. */
  predicate FailsHere(st: State, step: Step, t: Tid, p: ProvId) {
    step == CloseReturns(t, false) && PcOf(st, t).CloseBusy? && PcOf(st, t).cause.ShutOwned? && PcOf(st, t).prov == p
  }

  /** Once nothing can open any more, nothing becomes alive. */
  lemma AliveBefore(st: State, step: Step, p: ProvId)
    requires Inv(st) && ShutPhase(st) && Enabled(st, step) && Inv(Apply(st, step)) && Alive(Apply(st, step), p)
    ensures Alive(st, p)
  {
    assert ProvOk(Apply(st, step), p) && p in Apply(st, step).owned;
    StepFrame(st, step);
    assert p in st.owned && ProvOk(st, p);
    ThreadFact(st, step.t);
    ProvFrame(st, step, p);
    if st.provs[p].status.Retiring? { RetiringEnds(st, step, p); }
  }

  lemma RetiringEnds(st: State, step: Step, p: ProvId)
    requires Inv(st) && Enabled(st, step) && p in st.provs && st.provs[p].status.Retiring?
    ensures !Alive(Apply(st, step), p)
  {
    ProvFrame(st, step, p);
    ThreadFact(st, step.t);
    if PcOf(st, step.t).CloseDelete? && PcOf(st, step.t).prov == p { DeletedCloses(st, step); }
  }

  lemma DeletedCloses(st: State, step: Step)
    requires Enabled(st, step) && PcOf(st, step.t).CloseDelete? && PcOf(st, step.t).prov in st.provs
    ensures !Alive(Apply(st, step), PcOf(st, step.t).prov)
  {
    var pc := PcOf(st, step.t);
    assert step.DeleteOwned?;
    FinishFrame(SetStatus(st, pc.prov, Closed).(owned := st.owned - {pc.prov}), step.t, pc.cause, true);
  }

  /** The last pass begins with everything alive, and then passes over a live provider only when closing it failed. */
  lemma OwedStep(st: State, step: Step, p: ProvId)
    requires Inv(st) && Enabled(st, step) && Inv(Apply(st, step))
    requires Owed(PcOf(Apply(st, step), step.t)).Some? && Alive(Apply(st, step), p)
    ensures step.ShutSlotsDone? ==> p in Owed(PcOf(Apply(st, step), step.t)).value
    ensures !step.ShutSlotsDone? ==>
              && Owed(PcOf(st, step.t)).Some?
              && (p in Owed(PcOf(st, step.t)).value ==>
                    p in Owed(PcOf(Apply(st, step), step.t)).value || FailsHere(st, step, step.t, p))
  {
    if step.ShutSlotsDone? {
      assert ProvOk(Apply(st, step), p);
    } else if IsShutdown(step) {
      PassNext(st, step, p);
    } else if IsClosing(step) {
      ClosingOwed(st, step, p);
    } else {
      OthersOweNothing(st, step);
    }
  }

  lemma PassNext(st: State, step: Step, p: ProvId)
    requires Enabled(st, step) && IsShutdown(step) && !step.ShutSlotsDone? && Owed(PcOf(Apply(st, step), step.t)).Some?
    ensures Owed(PcOf(st, step.t)).Some?
    ensures p in Owed(PcOf(st, step.t)).value ==> p in Owed(PcOf(Apply(st, step), step.t)).value
  {
  }

  lemma FinishOwed(st: State, t: Tid, c: Cause, ok: bool)
    ensures var pc := PcOf(Finish(st, t, c, ok), t);
            Owed(pc) == if c.ShutOwned? then Some(c.left) else None
  {
  }

  lemma ClosingOwed(st: State, step: Step, p: ProvId)
    requires Inv(st) && Enabled(st, step) && IsClosing(step)
    requires Owed(PcOf(Apply(st, step), step.t)).Some? && Alive(Apply(st, step), p)
    ensures Owed(PcOf(st, step.t)).Some?
    ensures p in Owed(PcOf(st, step.t)).value ==> p in Owed(PcOf(Apply(st, step), step.t)).value || FailsHere(st, step, step.t, p)
  {
    if step.LockProv? { LockOwed(st, step, p); }
    else if step.CloseReturns? { ReturnOwed(st, step, p); }
    else { DeleteOwed(st, step, p); }
  }

  lemma LockOwed(st: State, step: Step, p: ProvId)
    requires Enabled(st, step) && step.LockProv? && Owed(PcOf(Apply(st, step), step.t)).Some? && Alive(Apply(st, step), p)
    ensures Owed(PcOf(st, step.t)).Some?
    ensures p in Owed(PcOf(st, step.t)).value ==> p in Owed(PcOf(Apply(st, step), step.t)).value
  {
    var pc := PcOf(st, step.t);
    FinishOwed(st, step.t, pc.cause, true);
    FinishFrame(st, step.t, pc.cause, true);
  }

  lemma ReturnOwed(st: State, step: Step, p: ProvId)
    requires Enabled(st, step) && step.CloseReturns? && Owed(PcOf(Apply(st, step), step.t)).Some?
    ensures Owed(PcOf(st, step.t)).Some?
    ensures p in Owed(PcOf(st, step.t)).value ==> p in Owed(PcOf(Apply(st, step), step.t)).value || FailsHere(st, step, step.t, p)
  {
    FinishOwed(st, step.t, PcOf(st, step.t).cause, false);
  }

  lemma DeleteOwed(st: State, step: Step, p: ProvId)
    requires Inv(st) && Enabled(st, step) && step.DeleteOwned? && Owed(PcOf(Apply(st, step), step.t)).Some? && Alive(Apply(st, step), p)
    ensures Owed(PcOf(st, step.t)).Some?
    ensures p in Owed(PcOf(st, step.t)).value ==> p in Owed(PcOf(Apply(st, step), step.t)).value
  {
    var pc := PcOf(st, step.t);
    ThreadFact(st, step.t);
    DeletedCloses(st, step);
    FinishOwed(SetStatus(st, pc.prov, Closed).(owned := st.owned - {pc.prov}), step.t, pc.cause, true);
  }

  // ---------- Steps outside a shutdown ----------

  /** No program point of a shutdown, and not between an open and its install. */
  predicate Plain(pc: PC) {
    && !pc.Opened? && !pc.ShutSlots? && !pc.ShutProvs?
    && (pc.WantSlot? || pc.InSlot? ==> !pc.op.OpShut?)
    && (Closing(pc) ==> !ByShutdown(pc.cause))
  }

  lemma OthersPlain(st: State, step: Step)
    requires Enabled(st, step) && !IsShutdown(step) && !IsClosing(step) && !step.OpenReturns? && !step.LockSlot? && !step.ShutUse?
    ensures Plain(PcOf(Apply(st, step), step.t))
  {
    if step.CanonicalUse? || step.RestartUse? { UsesPlain(st, step); }
    else if IsSlotSection(step) { SectionsPlain(st, step); }
    else if step.TryNext? { TryPlain(st, step); }
    else if IsAdmission(step) { AdmissionsPlain(st, step); }
    else if IsCall(step) { CallsPlain(st, step); }
    else if step.Install? { InstallPlain(st, step); }
    else { RestPlain(st, step); }
  }

  lemma UsesPlain(st: State, step: Step)
    requires Enabled(st, step) && (step.CanonicalUse? || step.RestartUse?)
    ensures Plain(PcOf(Apply(st, step), step.t))
  {
  }

  lemma SectionsPlain(st: State, step: Step)
    requires Enabled(st, step) && (step.CanonicalCheck? || step.ReleaseUse? || step.ExistingUse?)
    ensures Plain(PcOf(Apply(st, step), step.t))
  {
  }

  lemma TryPlain(st: State, step: Step)
    requires Enabled(st, step) && step.TryNext?
    ensures Plain(PcOf(Apply(st, step), step.t))
  {
    var pc := PcOf(st, step.t);
    assert Apply(st, step) == DoTryNext(st, step.t, pc.why, pc.hunt);
    TryShape(st, step.t, pc);
  }

  lemma AdmissionsPlain(st: State, step: Step)
    requires Enabled(st, step) && IsAdmission(step) && !step.TryNext?
    ensures Plain(PcOf(Apply(st, step), step.t))
  {
  }

  lemma CallsPlain(st: State, step: Step)
    requires Enabled(st, step) && IsCall(step)
    ensures Plain(PcOf(Apply(st, step), step.t))
  {
  }

  lemma InstallPlain(st: State, step: Step)
    requires Enabled(st, step) && step.Install?
    ensures Plain(PcOf(Apply(st, step), step.t))
  {
  }

  lemma RestPlain(st: State, step: Step)
    requires Enabled(st, step) && IsReaping(step)
    ensures Plain(PcOf(Apply(st, step), step.t))
  {
  }

  lemma OthersOweNothing(st: State, step: Step)
    requires Enabled(st, step) && !IsShutdown(step) && !IsClosing(step)
    ensures Owed(PcOf(Apply(st, step), step.t)) == None
  {
    if step.OpenReturns? || step.LockSlot? || step.ShutUse? { NoLastPass(st, step); } else { OthersPlain(st, step); }
  }

  lemma NoLastPass(st: State, step: Step)
    requires Enabled(st, step) && (step.OpenReturns? || step.LockSlot? || step.ShutUse?)
    ensures Owed(PcOf(Apply(st, step), step.t)) == None
  {
  }

  // ---------- The slots ----------

  /** The slots of the map a shutdown has still to empty, the current one included. */
  function Unseen(pc: PC): Option<set<SlotId>> {
    if pc.ShutSlots? then Some(pc.todo)
    else if (pc.WantSlot? || pc.InSlot?) && pc.op.OpShut? then Some(pc.op.todo + {pc.slot})
    else if Closing(pc) && pc.cause.ShutSlot? then Some(pc.cause.todo + {pc.cause.slot})
    else if pc.ShutProvs? || (Closing(pc) && pc.cause.ShutOwned?) then Some({})
    else None
  }

  /** The slot is empty and nobody is about to install a backend there. */
  predicate Drained(st: State, s: SlotId) {
    && s in st.slots && st.slots[s].backend.None?
    && forall u :: u in st.threads ==> !Installing(st.threads[u], s)
  }

  predicate Installing(pc: PC, s: SlotId) { pc.Opened? && pc.slot == s }

  /** Who holds a slot and is not installing there excludes everybody who is. */
  lemma HeldNotInstalling(st: State, t: Tid, s: SlotId)
    requires Exclusive(st) && LSlot(s) in Holds(PcOf(st, t)) && !PcOf(st, t).Opened?
    ensures forall u :: u in st.threads ==> !Installing(st.threads[u], s)
  {
    forall u | u in st.threads ensures !Installing(st.threads[u], s) {
      if u != t { assert Holds(st.threads[u]) !! Holds(st.threads[t]); }
    }
  }

  /** Only an install gives an empty slot a backend. */
  lemma EmptyKept(st: State, step: Step, s: SlotId)
    requires Enabled(st, step) && s in st.slots && st.slots[s].backend.None? && !Installing(PcOf(st, step.t), s)
    ensures s in Apply(st, step).slots && Apply(st, step).slots[s].backend.None?
  {
    if IsClosing(step) { ClosingsEmpty(st, step, s); }
    else if step.CanonicalUse? || step.RestartUse? || step.TryNext? { BeginsEmpty(st, step, s); }
    else if step.ExistingUse? || step.ReleaseUse? { LeasesEmpty(st, step, s); }
    else if IsSlotSection(step) { SectionsEmpty(st, step, s); }
    else if IsAdmission(step) { AdmissionsEmpty(st, step, s); }
    else if IsCall(step) { CallsEmpty(st, step, s); }
    else if IsShutdown(step) { ShutdownsEmpty(st, step, s); }
    else if step.Install? { InstallsEmpty(st, step, s); }
    else if step.OpenReturns? { ReturnsEmpty(st, step, s); }
    else { ReapsEmpty(st, step, s); }
  }

  lemma ClosingsEmpty(st: State, step: Step, s: SlotId)
    requires Enabled(st, step) && IsClosing(step) && s in st.slots && st.slots[s].backend.None?
    ensures s in Apply(st, step).slots && Apply(st, step).slots[s].backend.None?
  {
    if step.LockProv? { LockEmpty(st, step, s); }
    else if step.CloseReturns? { ReturnEmpty(st, step, s); }
    else { DeleteEmpty(st, step, s); }
  }

  lemma LockEmpty(st: State, step: Step, s: SlotId)
    requires Enabled(st, step) && step.LockProv? && s in st.slots && st.slots[s].backend.None?
    ensures s in Apply(st, step).slots && Apply(st, step).slots[s].backend.None?
  {
    FinishFrame(st, step.t, PcOf(st, step.t).cause, true);
  }

  lemma ReturnEmpty(st: State, step: Step, s: SlotId)
    requires Enabled(st, step) && step.CloseReturns? && s in st.slots && st.slots[s].backend.None?
    ensures s in Apply(st, step).slots && Apply(st, step).slots[s].backend.None?
  {
    FinishFrame(st, step.t, PcOf(st, step.t).cause, false);
  }

  lemma DeleteEmpty(st: State, step: Step, s: SlotId)
    requires Enabled(st, step) && step.DeleteOwned? && s in st.slots && st.slots[s].backend.None?
    ensures s in Apply(st, step).slots && Apply(st, step).slots[s].backend.None?
  {
    var pc := PcOf(st, step.t);
    FinishFrame(SetStatus(st, pc.prov, Closed).(owned := st.owned - {pc.prov}), step.t, pc.cause, true);
  }

  lemma BeginsEmpty(st: State, step: Step, s: SlotId)
    requires Enabled(st, step) && (step.CanonicalUse? || step.RestartUse? || step.TryNext?) && s in st.slots && st.slots[s].backend.None?
    ensures s in Apply(st, step).slots && Apply(st, step).slots[s].backend.None?
  {
    if step.TryNext? { TrySilent(st, step.t, PcOf(st, step.t)); }
  }

  lemma SectionsEmpty(st: State, step: Step, s: SlotId)
    requires Enabled(st, step) && (step.LockSlot? || step.CanonicalCheck? || step.ShutUse?) && s in st.slots && st.slots[s].backend.None?
    ensures s in Apply(st, step).slots && Apply(st, step).slots[s].backend.None?
  {
  }

  lemma LeasesEmpty(st: State, step: Step, s: SlotId)
    requires Enabled(st, step) && (step.ExistingUse? || step.ReleaseUse?) && s in st.slots && st.slots[s].backend.None?
    ensures s in Apply(st, step).slots && Apply(st, step).slots[s].backend.None?
  {
  }

  lemma AdmissionsEmpty(st: State, step: Step, s: SlotId)
    requires Enabled(st, step) && IsAdmission(step) && !step.TryNext? && s in st.slots && st.slots[s].backend.None?
    ensures s in Apply(st, step).slots && Apply(st, step).slots[s].backend.None?
  {
  }

  lemma CallsEmpty(st: State, step: Step, s: SlotId)
    requires Enabled(st, step) && IsCall(step) && s in st.slots && st.slots[s].backend.None?
    ensures s in Apply(st, step).slots && Apply(st, step).slots[s].backend.None?
  {
  }

  lemma InstallsEmpty(st: State, step: Step, s: SlotId)
    requires Enabled(st, step) && step.Install? && s in st.slots && st.slots[s].backend.None?
    requires !Installing(PcOf(st, step.t), s)
    ensures s in Apply(st, step).slots && Apply(st, step).slots[s].backend.None?
  {
  }

  lemma ReapsEmpty(st: State, step: Step, s: SlotId)
    requires Enabled(st, step) && IsReaping(step) && s in st.slots && st.slots[s].backend.None?
    ensures s in Apply(st, step).slots && Apply(st, step).slots[s].backend.None?
  {
  }

  lemma ReturnsEmpty(st: State, step: Step, s: SlotId)
    requires Enabled(st, step) && step.OpenReturns? && s in st.slots && st.slots[s].backend.None?
    ensures s in Apply(st, step).slots && Apply(st, step).slots[s].backend.None?
  {
  }

  lemma ShutdownsEmpty(st: State, step: Step, s: SlotId)
    requires Enabled(st, step) && IsShutdown(step) && s in st.slots && st.slots[s].backend.None?
    ensures s in Apply(st, step).slots && Apply(st, step).slots[s].backend.None?
  {
  }

  lemma FinishNotOpened(st: State, t: Tid, c: Cause, ok: bool)
    ensures !PcOf(Finish(st, t, c, ok), t).Opened?
  {
  }

  /** Only a return from an open leads to an install. */
  lemma OpenedByOpen(st: State, step: Step)
    requires Enabled(st, step) && !step.OpenReturns?
    ensures !PcOf(Apply(st, step), step.t).Opened?
  {
    if IsClosing(step) { ClosingsNotOpened(st, step); }
    else if IsShutdown(step) { ShutdownsNotOpened(st, step); }
    else if step.LockSlot? || step.ShutUse? { SectionsNotOpened(st, step); }
    else { OthersPlain(st, step); }
  }

  lemma ClosingsNotOpened(st: State, step: Step)
    requires Enabled(st, step) && IsClosing(step)
    ensures !PcOf(Apply(st, step), step.t).Opened?
  {
    var pc := PcOf(st, step.t);
    FinishNotOpened(st, step.t, pc.cause, true);
    FinishNotOpened(st, step.t, pc.cause, false);
    FinishNotOpened(SetStatus(st, pc.prov, Closed).(owned := st.owned - {pc.prov}), step.t, pc.cause, true);
  }

  lemma SectionsNotOpened(st: State, step: Step)
    requires Enabled(st, step) && (step.LockSlot? || step.ShutUse?)
    ensures !PcOf(Apply(st, step), step.t).Opened?
  {
  }

  lemma ShutdownsNotOpened(st: State, step: Step)
    requires Enabled(st, step) && IsShutdown(step)
    ensures !PcOf(Apply(st, step), step.t).Opened?
  {
  }

  /** During a shutdown an emptied slot stays empty. */
  lemma DrainedStep(st: State, step: Step, s: SlotId)
    requires Inv(st) && ShutPhase(st) && Enabled(st, step) && Drained(st, s)
    ensures Drained(Apply(st, step), s)
  {
    var st' := Apply(st, step);
    NothingOpens(st, step);
    EmptyKept(st, step, s);
    OpenedByOpen(st, step);
    forall u | u in st'.threads ensures !Installing(st'.threads[u], s) {
      if u != step.t { OthersStay(st, step, u); }
    }
  }

  lemma NothingOpens(st: State, step: Step)
    requires Inv(st) && ShutPhase(st) && Enabled(st, step)
    ensures !step.OpenReturns?
  {
    ThreadFact(st, step.t);
  }

  /** A slot the shutdown leaves behind is empty. */
  lemma UnseenStep(st: State, step: Step, s: SlotId)
    requires Inv(st) && Enabled(st, step) && !step.ShutReady? && Unseen(PcOf(Apply(st, step), step.t)).Some?
    ensures Unseen(PcOf(st, step.t)).Some?
    ensures s in Unseen(PcOf(st, step.t)).value ==> s in Unseen(PcOf(Apply(st, step), step.t)).value || Drained(Apply(st, step), s)
  {
    ThreadFact(st, step.t);
    if IsShutdown(step) || step.LockSlot? { MovesUnseen(st, step, s); }
    else if step.ShutUse? { UseUnseen(st, step, s); }
    else if IsClosing(step) { ClosingUnseen(st, step, s); }
    else if step.OpenReturns? { OpensUnseen(st, step); }
    else { OthersPlain(st, step); }
  }

  lemma OpensUnseen(st: State, step: Step)
    requires Enabled(st, step) && step.OpenReturns?
    ensures Unseen(PcOf(Apply(st, step), step.t)) == None
  {
  }

  lemma MovesUnseen(st: State, step: Step, s: SlotId)
    requires Enabled(st, step) && !step.ShutReady? && (IsShutdown(step) || step.LockSlot?) && Unseen(PcOf(Apply(st, step), step.t)).Some?
    ensures Unseen(PcOf(st, step.t)).Some?
    ensures s in Unseen(PcOf(st, step.t)).value ==> s in Unseen(PcOf(Apply(st, step), step.t)).value
  {
  }

  lemma UseUnseen(st: State, step: Step, s: SlotId)
    requires Inv(st) && Enabled(st, step) && step.ShutUse?
    ensures Unseen(PcOf(st, step.t)).Some?
    ensures Unseen(PcOf(Apply(st, step), step.t)).Some?
    ensures s in Unseen(PcOf(st, step.t)).value ==> s in Unseen(PcOf(Apply(st, step), step.t)).value || Drained(Apply(st, step), s)
  {
    ThreadFact(st, step.t);
    HeldNotInstalling(st, step.t, PcOf(st, step.t).slot);
    UseDrains(st, step);
  }

  lemma UseDrains(st: State, step: Step)
    requires Enabled(st, step) && step.ShutUse? && PcOf(st, step.t).slot in st.slots
    requires forall u :: u in st.threads ==> !Installing(st.threads[u], PcOf(st, step.t).slot)
    ensures var pc, pc' := PcOf(st, step.t), PcOf(Apply(st, step), step.t);
            || (pc'.CloseWant? && pc'.cause == ShutSlot(pc.slot, pc.op.todo))
            || (pc' == ShutSlots(pc.op.todo) && Drained(Apply(st, step), pc.slot))
  {
  }

  lemma FinishUnseen(st: State, t: Tid, c: Cause, ok: bool)
    ensures var pc := PcOf(Finish(st, t, c, ok), t);
            Unseen(pc) == if c.ShutSlot? then Some(c.todo) else if c.ShutOwned? then Some({}) else None
  {
  }

  lemma FinishDrains(st: State, t: Tid, c: Cause, ok: bool)
    requires c.ShutSlot? && c.slot in st.slots && forall u :: u in st.threads ==> !Installing(st.threads[u], c.slot)
    ensures Drained(Finish(st, t, c, ok), c.slot)
  {
  }

  lemma ClosingUnseen(st: State, step: Step, s: SlotId)
    requires Inv(st) && Enabled(st, step) && IsClosing(step) && Unseen(PcOf(Apply(st, step), step.t)).Some?
    ensures Unseen(PcOf(st, step.t)).Some?
    ensures s in Unseen(PcOf(st, step.t)).value ==> s in Unseen(PcOf(Apply(st, step), step.t)).value || Drained(Apply(st, step), s)
  {
    NobodyInstalls(st, step.t);
    if step.LockProv? { LockLeaves(st, step, s); }
    else if step.CloseReturns? { ReturnLeaves(st, step, s); }
    else { DeleteLeaves(st, step, s); }
  }

  /** Nobody is installing in the slot this close detaches. */
  predicate Quieted(st: State, c: Cause) {
    c.ShutSlot? ==> c.slot in st.slots && forall u :: u in st.threads ==> !Installing(st.threads[u], c.slot)
  }

  lemma NobodyInstalls(st: State, t: Tid)
    requires Inv(st) && Closing(PcOf(st, t))
    ensures Quieted(st, PcOf(st, t).cause)
  {
    ThreadFact(st, t);
    if PcOf(st, t).cause.ShutSlot? { HeldNotInstalling(st, t, PcOf(st, t).cause.slot); }
  }

  lemma FinishLeaves(st: State, t: Tid, c: Cause, ok: bool)
    requires Quieted(st, c)
    ensures var st' := Finish(st, t, c, ok);
            && Unseen(PcOf(st', t)) == (if c.ShutSlot? then Some(c.todo) else if c.ShutOwned? then Some({}) else None)
            && (c.ShutSlot? ==> Drained(st', c.slot))
  {
    FinishUnseen(st, t, c, ok);
    if c.ShutSlot? { FinishDrains(st, t, c, ok); }
  }

  lemma LockLeaves(st: State, step: Step, s: SlotId)
    requires Enabled(st, step) && step.LockProv? && Unseen(PcOf(Apply(st, step), step.t)).Some? && Quieted(st, PcOf(st, step.t).cause)
    ensures Unseen(PcOf(st, step.t)).Some?
    ensures s in Unseen(PcOf(st, step.t)).value ==> s in Unseen(PcOf(Apply(st, step), step.t)).value || Drained(Apply(st, step), s)
  {
    FinishLeaves(st, step.t, PcOf(st, step.t).cause, true);
  }

  lemma ReturnLeaves(st: State, step: Step, s: SlotId)
    requires Enabled(st, step) && step.CloseReturns? && Unseen(PcOf(Apply(st, step), step.t)).Some? && Quieted(st, PcOf(st, step.t).cause)
    ensures Unseen(PcOf(st, step.t)).Some?
    ensures s in Unseen(PcOf(st, step.t)).value ==> s in Unseen(PcOf(Apply(st, step), step.t)).value || Drained(Apply(st, step), s)
  {
    FinishLeaves(st, step.t, PcOf(st, step.t).cause, false);
  }

  lemma DeleteLeaves(st: State, step: Step, s: SlotId)
    requires Enabled(st, step) && step.DeleteOwned? && Unseen(PcOf(Apply(st, step), step.t)).Some? && Quieted(st, PcOf(st, step.t).cause)
    ensures Unseen(PcOf(st, step.t)).Some?
    ensures s in Unseen(PcOf(st, step.t)).value ==> s in Unseen(PcOf(Apply(st, step), step.t)).value || Drained(Apply(st, step), s)
  {
    var pc := PcOf(st, step.t);
    FinishLeaves(SetStatus(st, pc.prov, Closed).(owned := st.owned - {pc.prov}), step.t, pc.cause, true);
  }

  // ---------- Over whole runs ----------

  lemma PassPhase(st: State, t: Tid)
    requires Inv(st)
    ensures Owed(PcOf(st, t)).Some? || Unseen(PcOf(st, t)).Some? ==> ShutPhase(st)
  {
    ThreadFact(st, t);
    PointPhase(st, t, PcOf(st, t));
  }

  lemma PointPhase(st: State, t: Tid, pc: PC)
    requires ThreadOk(st, t, pc)
    ensures Owed(pc).Some? || Unseen(pc).Some? ==> ShutPhase(st)
  {
    if Closing(pc) && ByShutdown(pc.cause) { assert CauseOk(st, pc.cause, pc.prov); }
    else if pc.WantSlot? || pc.InSlot? { assert OpOk(st, t, pc.slot, pc.op); }
  }

  /** While t is in the last pass of a shutdown it owes p, if p is alive. */
  predicate Owing(st: State, t: Tid, p: ProvId) { Owed(PcOf(st, t)).Some? && Alive(st, p) ==> p in Owed(PcOf(st, t)).value }

  /** While t is in a shutdown it has still to empty s, or has emptied it. */
  predicate Passing(st: State, t: Tid, s: SlotId) {
    Unseen(PcOf(st, t)).Some? ==> s in Unseen(PcOf(st, t)).value || Drained(st, s)
  }

  /** A live provider that is not owed was not owed before, or its close has just failed. */
  lemma PassedOver(st: State, step: Step, t: Tid, p: ProvId)
    requires Inv(st) && Enabled(st, step) && Inv(Apply(st, step))
    requires var owed := Owed(PcOf(Apply(st, step), t)); owed.Some? && Alive(Apply(st, step), p) && p !in owed.value
    ensures FailsHere(st, step, t, p) || (Owed(PcOf(st, t)).Some? && Alive(st, p) && p !in Owed(PcOf(st, t)).value && step != ShutReady(t))
  {
    if step.t == t { OwedStep(st, step, p); } else { OthersStay(st, step, t); }
    PassPhase(st, t);
    AliveBefore(st, step, p);
    if step == ShutReady(t) { ReadyOwesNothing(st, t); }
  }

  lemma ReadyOwesNothing(st: State, t: Tid)
    requires Enabled(st, ShutReady(t))
    ensures Owed(PcOf(Apply(st, ShutReady(t)), t)) == None
  {
  }

  lemma SlotPassStep(st: State, step: Step, t: Tid, s: SlotId)
    requires Inv(st) && Enabled(st, step) && step != ShutReady(t)
    requires Passing(st, t, s)
    ensures Passing(Apply(st, step), t, s)
  {
    if Unseen(PcOf(Apply(st, step), t)).Some? {
      if step.t == t { UnseenStep(st, step, s); } else { OthersStay(st, step, t); }
      PassPhase(st, t);
      if Drained(st, s) { DrainedStep(st, step, s); }
    }
  }

  lemma ReadyPoint(st: State, t: Tid)
    requires Enabled(st, ShutReady(t))
    ensures PcOf(Apply(st, ShutReady(t)), t) == ShutSlots(st.visible) && Apply(st, ShutReady(t)).visible == {}
  {
  }

  /** Some step of the run is the failed return of the shutdown's own close of p. */
  ghost predicate CloseFailed(st: State, steps: seq<Step>, t: Tid, p: ProvId)
    requires IsRun(st, steps)
    decreases |steps|
  {
    steps != [] && (FailsHere(st, steps[0], t, p) || CloseFailed(Apply(st, steps[0]), steps[1..], t, p))
  }

  /** In the last pass, what is alive and not owed any more is what could not be closed. */
  lemma {:induction false} LastPass(st: State, steps: seq<Step>, t: Tid, p: ProvId)
    requires Inv(st) && IsRun(st, steps) && Owing(st, t, p)
    ensures Owing(After(st, steps), t, p) || CloseFailed(st, steps, t, p)
    decreases |steps|
  {
    if steps != [] {
      StepKeeps(st, steps[0]);
      if !Owing(Apply(st, steps[0]), t, p) { PassedOver(st, steps[0], t, p); }
      else { LastPass(Apply(st, steps[0]), steps[1..], t, p); }
    }
  }

  lemma {:induction false} SlotPass(st: State, steps: seq<Step>, t: Tid, s: SlotId)
    requires Inv(st) && IsRun(st, steps) && Passing(st, t, s) && ShutReady(t) !in steps
    ensures Passing(After(st, steps), t, s)
    decreases |steps|
  {
    if steps != [] {
      StepKeeps(st, steps[0]);
      SlotPassStep(st, steps[0], t, s);
      SlotPass(Apply(st, steps[0]), steps[1..], t, s);
    }
  }

  /** From st, where the shutdown of t has just detached the map, the run leads to the point where it returns. */
  ghost predicate Closes(st: State, t: Tid, during: seq<Step>) {
    PcOf(st, t).ShutSlots? && IsRun(st, during) && ShutReady(t) !in during && PcOf(After(st, during), t) == ShutProvs({})
  }

  lemma PassEnds(st: State, t: Tid, during: seq<Step>, p: ProvId)
    requires Inv(st) && Closes(st, t, during) && Alive(After(st, during), p)
    ensures CloseFailed(st, during, t, p)
  {
    LastPass(st, during, t, p);
  }

  lemma PhaseEnds(st: State, t: Tid)
    requires Inv(st) && PcOf(st, t) == ShutProvs({})
    ensures ShutPhase(st)
  {
    PassPhase(st, t);
  }

  /** What Pool.Close achieves: when it returns nothing is opening, and every provider still alive, a
      sandbox or a slot's, is one whose close it tried in its last pass and that returned an error. */
  lemma ShutdownCloses(st: State, t: Tid, during: seq<Step>)
    requires Inv(st) && Closes(st, t, during)
    ensures var end := After(st, during); end.closed && NoneOpening(end) && forall p :: Alive(end, p) ==> CloseFailed(st, during, t, p)
  {
    RunKeeps(st, during);
    PhaseEnds(After(st, during), t);
    forall p | Alive(After(st, during), p) ensures CloseFailed(st, during, t, p) { PassEnds(st, t, during, p); }
  }

  lemma {:induction false} FailedClose(st: State, steps: seq<Step>, t: Tid, p: ProvId)
    requires IsRun(st, steps) && CloseFailed(st, steps, t, p)
    ensures CloseReturns(t, false) in steps
    decreases |steps|
  {
    if !FailsHere(st, steps[0], t, p) { FailedClose(Apply(st, steps[0]), steps[1..], t, p); }
  }

  /** What is reserved when nothing is alive or opening is being returned. */
  lemma BeingReturned(st: State, p: ProvId)
    requires Inv(st) && NoneOpening(st) && !Alive(st, p) && p in st.owned
    ensures p in st.provs && st.provs[p].status.Retiring?
  {
    assert ProvOk(st, p);
  }

  /** If none of its closes failed, no provider is left alive when Pool.Close returns, and every remaining
      reservation is being returned by a thread inside that provider's Close. */
  lemma CleanShutdown(st: State, t: Tid, during: seq<Step>)
    requires Inv(st) && Closes(st, t, during) && CloseReturns(t, false) !in during
    ensures var end := After(st, during);
            (forall p :: !Alive(end, p)) && (forall p :: p in end.owned ==> p in end.provs && end.provs[p].status.Retiring?)
  {
    var end := After(st, during);
    RunKeeps(st, during);
    PhaseEnds(end, t);
    forall p ensures !Alive(end, p) && (p in end.owned ==> p in end.provs && end.provs[p].status.Retiring?) {
      if Alive(end, p) {
        PassEnds(st, t, during, p);
        FailedClose(st, during, t, p);
        assert false;
      }
      if p in end.owned { BeingReturned(end, p); }
    }
  }

  /** Every slot of the map Pool.Close detached is empty when it returns, whether or not its close
      succeeded, and nobody is about to install a backend there. */
  lemma SlotsEmptied(st: State, t: Tid, during: seq<Step>, s: SlotId)
    requires Inv(st) && Closes(st, t, during) && s in PcOf(st, t).todo
    ensures Drained(After(st, during), s)
  {
    SlotPass(st, during, t, s);
  }

  /** In every run: a shutdown detaches the map only when nothing is opening and the reaper it joined has
      stopped, and takes over exactly the slots then in the map, in a state the results above are about. */
  lemma ShutdownBegins(max: nat, before: seq<Step>, t: Tid)
    requires IsRun(Init(max), before) && Enabled(After(Init(max), before), ShutReady(t))
    ensures var st := Apply(After(Init(max), before), ShutReady(t));
            Inv(st) && PcOf(st, t) == ShutSlots(After(Init(max), before).visible) && st.visible == {}
    ensures var st := After(Init(max), before);
            && PcOf(st, t).ShutWait? && st.closed
            && (forall p :: p in st.provs ==> !st.provs[p].status.Opening?)
            && forall u :: PcOf(st, t).reaper == Some(u) ==> !PcOf(st, u).ReapScan? && !(Closing(PcOf(st, u)) && PcOf(st, u).cause.Reap?)
  {
    InitOk(max);
    RunKeeps(Init(max), before);
    StepKeeps(After(Init(max), before), ShutReady(t));
    ReadyPoint(After(Init(max), before), t);
    JoinedAll(After(Init(max), before), t);
  }

  lemma JoinedAll(st: State, t: Tid)
    requires Inv(st) && Enabled(st, ShutReady(t))
    ensures PcOf(st, t).ShutWait? && st.closed
    ensures forall p :: p in st.provs ==> !st.provs[p].status.Opening?
    ensures forall u :: PcOf(st, t).reaper == Some(u) ==> !PcOf(st, u).ReapScan? && !(Closing(PcOf(st, u)) && PcOf(st, u).cause.Reap?)
  {
    ThreadFact(st, t);
  }
}
