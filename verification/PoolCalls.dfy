/** What the callers of the provider pool get: when a call returns, with a lease or refused, and why. */
module PoolCalls {
  import opened Basics
  import opened PoolProtocol
  import opened PoolSafety
  import opened PoolSteps
  import opened PoolFrames
  import opened PoolRuns
  import opened PoolOrder
  import opened PoolShutdown

  /** The thread is inside Canonical for slot s, past the slot's lock. */
  predicate Serving(pc: PC, s: SlotId) {
    || (pc.InSlot? && pc.slot == s && pc.op.OpCanonical?)
    || (pc.Checked? && pc.slot == s)
    || ((pc.WantAdmit? || pc.Admit? || pc.Scan? || pc.Try? || pc.OpenBusy?) && pc.why == ByCanonical(s))
    || (pc.Opened? && pc.slot == s)
    || (Closing(pc) && (pc.cause == Replace(s) || (pc.cause.Evict? && pc.cause.why == ByCanonical(s))))
  }

  /** The step leases the backend p of slot s to the caller: one new lease, one more user, no other change
      to the leases. */
  predicate Leases(st: State, st': State, s: SlotId, p: ProvId, l: LeaseId) {
    && l !in st.leases && st'.leases == st.leases[l := Lease(s, p, Held)]
    && s in st.slots && s in st'.slots && st'.slots[s].backend == Some(p) && st'.slots[s].users == st.slots[s].users + 1
  }

  /** Why a call of Canonical ends without a provider. */
  predicate Refused(st: State, step: Step) {
    match step
    case CanonicalCheck(_, cancelled) => st.closed || cancelled
    case CanonicalUse(_, healthy, _, _) => !healthy
    case AdmitStep(_, _) => st.closed
    case TryNext(_) => PcOf(st, step.t).Try? && PcOf(st, step.t).hunt.next >= |PcOf(st, step.t).hunt.cands|
    case OpenReturns(_, ok, _) => !ok
    case CloseReturns(_, ok) => !ok
    case _ => false
  }

  /** The lease a step would give. */
  function LeaseOf(step: Step): Option<LeaseId> {
    if step.CanonicalUse? || step.ExistingUse? || step.Install? then Some(step.l) else None
  }

  /** The step ends the call with a lease on the backend of slot s. */
  ghost predicate Granted(st: State, step: Step, s: SlotId)
    requires Enabled(st, step)
  {
    LeaseOf(step).Some? && exists p :: Leases(st, Apply(st, step), s, p, LeaseOf(step).value)
  }

  /** A call of Canonical returns only with a lease on the backend of its slot, or because the pool is
      closed, the call was cancelled, the backend is unhealthy and in use, no slot could be evicted, or an
      open or close failed. */
  lemma CanonicalReturns(st: State, step: Step, s: SlotId)
    requires Inv(st) && Enabled(st, step) && Serving(PcOf(st, step.t), s) && PcOf(Apply(st, step), step.t).Idle?
    ensures Refused(st, step) || Granted(st, step, s)
  {
    if step.CanonicalUse? { UseReturns(st, step, s); }
    else if step.Install? { InstallReturns(st, step, s); }
    else if IsClosing(step) { ClosingReturns(st, step, s); }
    else if IsAdmission(step) { AdmissionReturns(st, step, s); }
    else { OtherReturns(st, step, s); }
  }

  lemma UseReturns(st: State, step: Step, s: SlotId)
    requires Inv(st) && Enabled(st, step) && step.CanonicalUse? && Serving(PcOf(st, step.t), s) && PcOf(Apply(st, step), step.t).Idle?
    ensures Refused(st, step) || Granted(st, step, s)
  {
    CanonicalDecides(st, step);
    if step.healthy { assert Leases(st, Apply(st, step), s, st.slots[s].backend.value, step.l); }
  }

  /** What Canonical does with the backend it finds: a healthy one is leased as it is, an unhealthy one
      nobody uses is closed, an unhealthy one in use refuses the call, and with none it asks for admission. */
  lemma CanonicalDecides(st: State, step: Step)
    requires Inv(st) && Enabled(st, step) && step.CanonicalUse?
    ensures var s := PcOf(st, step.t).slot;
            var st' := Apply(st, step);
            && s in st.slots
            && var x, pc' := st.slots[s], PcOf(st', step.t);
               && (x.backend.Some? && step.healthy <==> pc'.Idle? && Leases(st, st', s, if x.backend.Some? then x.backend.value else 0, step.l))
               && (x.backend.Some? && !step.healthy && x.users == 0 <==>
                     pc'.CloseWant? && x.backend == Some(pc'.prov) && pc'.cause == Replace(s) && st'.leases == st.leases)
               && (x.backend.Some? && !step.healthy && x.users > 0 <==> pc'.Idle? && st'.leases == st.leases)
               && (x.backend.None? <==> pc' == WantAdmit(ByCanonical(s)))
  {
    ThreadFact(st, step.t);
    Decides(st, step, PcOf(st, step.t).slot);
  }

  lemma Decides(st: State, step: Step, s: SlotId)
    requires Enabled(st, step) && step.CanonicalUse? && s == PcOf(st, step.t).slot && s in st.slots
    ensures var st' := Apply(st, step);
            var x, pc' := st.slots[s], PcOf(st', step.t);
            && (x.backend.Some? && step.healthy ==> pc'.Idle? && Leases(st, st', s, x.backend.value, step.l))
            && (x.backend.Some? && !step.healthy && x.users == 0 ==> pc' == CloseWant(Replace(s), x.backend.value) && st'.leases == st.leases)
            && (x.backend.Some? && !step.healthy && x.users > 0 ==> pc'.Idle? && st'.leases == st.leases)
            && (x.backend.None? ==> pc' == WantAdmit(ByCanonical(s)) && st'.leases == st.leases)
  {
  }

  /** An opened provider is leased to the caller it was opened for. */
  lemma InstallLeases(st: State, step: Step)
    requires Inv(st) && Enabled(st, step) && step.Install?
    ensures Leases(st, Apply(st, step), PcOf(st, step.t).slot, PcOf(st, step.t).prov, step.l) && PcOf(Apply(st, step), step.t).Idle?
  {
    ThreadFact(st, step.t);
    Installs(st, step, PcOf(st, step.t).slot);
  }

  lemma InstallReturns(st: State, step: Step, s: SlotId)
    requires Inv(st) && Enabled(st, step) && step.Install? && Serving(PcOf(st, step.t), s)
    ensures Granted(st, step, s)
  {
    InstallLeases(st, step);
  }

  lemma Installs(st: State, step: Step, s: SlotId)
    requires Enabled(st, step) && step.Install? && s == PcOf(st, step.t).slot && s in st.slots
    ensures Leases(st, Apply(st, step), s, PcOf(st, step.t).prov, step.l) && PcOf(Apply(st, step), step.t).Idle?
  {
  }

  lemma ClosingReturns(st: State, step: Step, s: SlotId)
    requires Enabled(st, step) && IsClosing(step) && Serving(PcOf(st, step.t), s) && PcOf(Apply(st, step), step.t).Idle?
    ensures Refused(st, step)
  {
    var pc := PcOf(st, step.t);
    if step.LockProv? || step.DeleteOwned? { FinishServes(st, step.t, pc.cause, s); }
    FinishServes(SetStatus(st, pc.prov, Closed).(owned := st.owned - {pc.prov}), step.t, pc.cause, s);
  }

  lemma FinishServes(st: State, t: Tid, c: Cause, s: SlotId)
    requires c == Replace(s) || (c.Evict? && c.why == ByCanonical(s))
    ensures !PcOf(Finish(st, t, c, true), t).Idle?
  {
  }

  lemma AdmissionReturns(st: State, step: Step, s: SlotId)
    requires Enabled(st, step) && IsAdmission(step) && Serving(PcOf(st, step.t), s) && PcOf(Apply(st, step), step.t).Idle?
    ensures Refused(st, step)
  {
    var pc := PcOf(st, step.t);
    if step.TryNext? {
      TryShape(st, step.t, pc);
      assert Apply(st, step) == DoTryNext(st, step.t, pc.why, pc.hunt);
    }
  }

  lemma OtherReturns(st: State, step: Step, s: SlotId)
    requires Enabled(st, step) && !IsClosing(step) && !IsAdmission(step) && !step.CanonicalUse? && !step.Install?
    requires Serving(PcOf(st, step.t), s) && PcOf(Apply(st, step), step.t).Idle?
    ensures Refused(st, step)
  {
    assert step.CanonicalCheck? || step.OpenReturns?;
  }

  /** Existing leases the backend of the slot exactly when there is one and the pool is open; otherwise it
      changes nothing but its own thread. */
  lemma ExistingReturns(st: State, step: Step)
    requires Inv(st) && Enabled(st, step) && step.ExistingUse?
    ensures var s := PcOf(st, step.t).slot;
            var st' := Apply(st, step);
            && s in st.slots && PcOf(st', step.t).Idle?
            && (st.slots[s].backend.Some? && !st.closed ==> Leases(st, st', s, st.slots[s].backend.value, step.l))
            && (st.slots[s].backend.None? || st.closed ==> st' == Goto(st, step.t, Idle))
  {
    ThreadFact(st, step.t);
    Existing(st, step, PcOf(st, step.t).slot);
  }

  lemma Existing(st: State, step: Step, s: SlotId)
    requires Enabled(st, step) && step.ExistingUse? && s == PcOf(st, step.t).slot && s in st.slots
    ensures var st' := Apply(st, step);
            && PcOf(st', step.t).Idle?
            && (st.slots[s].backend.Some? && !st.closed ==> Leases(st, st', s, st.slots[s].backend.value, step.l))
            && (st.slots[s].backend.None? || st.closed ==> st' == Goto(st, step.t, Idle))
  {
  }

  /** The first call of a release function, once it holds the slot, takes exactly that lease back and
      records the time; afterwards it is released for good. */
  lemma ReleaseReturns(st: State, step: Step)
    requires Inv(st) && Enabled(st, step) && step.ReleaseUse?
    ensures var pc := PcOf(st, step.t);
            var l, s, st' := pc.op.lease, pc.slot, Apply(st, step);
            && s in st.slots && l in st.leases && PcOf(st', step.t).Idle?
            && st'.leases == st.leases[l := st.leases[l].(state := Released)]
            && st'.slots == st.slots[s := st.slots[s].(users := st.slots[s].users - 1, lastUsed := step.now)]
  {
    ReleaseFacts(st, step.t, PcOf(st, step.t).slot, PcOf(st, step.t).op.lease);
    LeasedUsers(st, PcOf(st, step.t).slot, PcOf(st, step.t).op.lease);
    Releases(st, step);
  }

  lemma Releases(st: State, step: Step)
    requires Enabled(st, step) && step.ReleaseUse?
    requires var pc := PcOf(st, step.t); pc.slot in st.slots && pc.op.lease in st.leases && st.slots[pc.slot].users > 0
    ensures var pc := PcOf(st, step.t);
            var l, s, st' := pc.op.lease, pc.slot, Apply(st, step);
            && PcOf(st', step.t).Idle?
            && st'.leases == st.leases[l := st.leases[l].(state := Released)]
            && st'.slots == st.slots[s := st.slots[s].(users := st.slots[s].users - 1, lastUsed := step.now)]
  {
  }

  /** How a thread evicting a candidate goes on: inside the close, to the next candidate when the close
      failed, or back to its admission, marked as one that has evicted, with the slot emptied. */
  predicate EvictGoesOn(st: State, step: Step, pc: PC, st': State)
    requires Closing(pc) && pc.cause.Evict?
  {
    var c, pc' := pc.cause, PcOf(st', step.t);
    if step.CloseReturns? && !step.ok then pc' == Try(c.why, c.hunt.(next := c.hunt.next + 1)) && st'.slots == st.slots
    else if Closing(pc') then pc'.cause == c && pc'.prov == pc.prov
    else pc' == Admit(c.why, true) && (c.slot in st'.slots ==> st'.slots[c.slot].backend.None?)
  }

  /** What comes of an eviction, so that `EvictsAtMostOnce` holds of whoever has evicted. */
  lemma EvictionEnds(st: State, step: Step)
    requires Enabled(st, step) && IsClosing(step) && PcOf(st, step.t).cause.Evict?
    ensures EvictGoesOn(st, step, PcOf(st, step.t), Apply(st, step))
  {
    if step.LockProv? { LockEvicts(st, step); }
    else if step.CloseReturns? { ReturnEvicts(st, step); }
    else { DeleteEvicts(st, step); }
  }

  lemma LockEvicts(st: State, step: Step)
    requires Enabled(st, step) && step.LockProv? && PcOf(st, step.t).cause.Evict?
    ensures EvictGoesOn(st, step, PcOf(st, step.t), Apply(st, step))
  {
    EvictFinish(st, step.t, PcOf(st, step.t).cause, true);
  }

  lemma ReturnEvicts(st: State, step: Step)
    requires Enabled(st, step) && step.CloseReturns? && PcOf(st, step.t).cause.Evict?
    ensures EvictGoesOn(st, step, PcOf(st, step.t), Apply(st, step))
  {
    EvictFinish(st, step.t, PcOf(st, step.t).cause, false);
  }

  lemma DeleteEvicts(st: State, step: Step)
    requires Enabled(st, step) && step.DeleteOwned? && PcOf(st, step.t).cause.Evict?
    ensures EvictGoesOn(st, step, PcOf(st, step.t), Apply(st, step))
  {
    var pc := PcOf(st, step.t);
    EvictFinish(SetStatus(st, pc.prov, Closed).(owned := st.owned - {pc.prov}), step.t, pc.cause, true);
  }

  lemma EvictFinish(st: State, t: Tid, c: Cause, ok: bool)
    requires c.Evict?
    ensures var st' := Finish(st, t, c, ok);
            && (ok ==> PcOf(st', t) == Admit(c.why, true) && (c.slot in st'.slots ==> st'.slots[c.slot].backend.None?))
            && (!ok ==> PcOf(st', t) == Try(c.why, c.hunt.(next := c.hunt.next + 1)) && st'.slots == st.slots)
  {
  }

  /** The model restricts no caller: an idle thread may make any call at any time, for any workspace with a
      slot in the map or with none yet, and release or close whatever was given out. */
  lemma AnyCall(st: State, t: Tid, s: SlotId, l: LeaseId, p: ProvId, reaper: Option<Tid>)
    requires PcOf(st, t).Idle?
    ensures s in st.visible || s !in st.slots ==>
              Enabled(st, CallSlot(t, s, OpCanonical)) && Enabled(st, CallSlot(t, s, OpExisting)) && Enabled(st, CallSlot(t, s, OpRestart))
    ensures Enabled(st, CallOpen(t)) && Enabled(st, CallReap(t)) && Enabled(st, CallShutdown(t, reaper))
    ensures l in st.leases ==> Enabled(st, CallRelease(t, l))
    ensures p in st.provs && st.provs[p].home == None && st.provs[p].status.Live? ==> Enabled(st, CallSandboxClose(t, p))
    ensures p in st.provs && st.provs[p].home == None && st.provs[p].status.Closed? ==> Enabled(st, CallSandboxClose(t, p))
  {
  }

  /** Nor the outcome of what it calls: a check may find any health or a cancelled call, a slot may be due
      or not, and opens and closes may fail or succeed. */
  lemma AnyOutcome(st: State, t: Tid, b: bool, l: LeaseId, now: int, e: nat)
    requires l !in st.leases
    ensures var pc := PcOf(st, t);
            && (pc.InSlot? && pc.op.OpCanonical? ==> Enabled(st, CanonicalCheck(t, b)))
            && (pc.Checked? && Later(st, pc.slot, now) ==> Enabled(st, CanonicalUse(t, b, l, now)))
            && (pc.OpenBusy? ==> Enabled(st, OpenReturns(t, false, e)) && (e > pc.after ==> Enabled(st, OpenReturns(t, true, e))))
            && (pc.CloseBusy? ==> Enabled(st, CloseReturns(t, b)))
            && (pc.ReapScan? ==> forall s :: s in pc.todo ==> Enabled(st, ReapSlot(t, s, b)))
  {
  }

  // ---------- Admission, restart, reaping ----------

  /** One turn of the admission: refused exactly when the pool is closed, granted with one reservation of
      its own exactly when there is room, and otherwise hunting among all slots of the map. */
  lemma AdmitDecides(st: State, step: Step)
    requires Enabled(st, step) && step.AdmitStep?
    ensures var st' := Apply(st, step);
            var pc, pc' := PcOf(st, step.t), PcOf(st', step.t);
            && (pc'.Idle? <==> st.closed) && (pc'.Idle? ==> st'.owned == st.owned)
            && (pc'.OpenBusy? <==> !st.closed && |st.owned| < st.max)
            && (pc'.OpenBusy? ==>
                  && pc'.prov == step.p && pc'.why == pc.why && st'.owned == st.owned + {step.p}
                  && step.p !in st.provs && step.p in st'.provs && st'.provs[step.p].status == Opening(step.t))
            && (pc'.Scan? <==> !st.closed && |st.owned| >= st.max)
            && (pc'.Scan? ==> pc'.todo == st.visible && pc'.why == pc.why && st'.owned == st.owned)
  {
    assert Apply(st, step) == DoAdmit(st, step.t, PcOf(st, step.t).why, step.p);
  }

  /** Once the pool is closed, a call of Canonical or Existing that takes its slot is refused at once. */
  lemma ClosedRefuses(st: State, step: Step)
    requires Enabled(st, step) && st.closed && (step.CanonicalCheck? || step.ExistingUse?)
    ensures Apply(st, step) == Goto(st, step.t, Idle)
  {
  }

  /** Restart refuses a slot in use, closes the backend of an unused one, and then, or if there is none,
      goes on as a call of Canonical for the same slot. */
  lemma RestartDecides(st: State, step: Step)
    requires Inv(st) && Enabled(st, step) && step.RestartUse?
    ensures var s := PcOf(st, step.t).slot;
            var st' := Apply(st, step);
            && s in st.slots
            && var x, pc' := st.slots[s], PcOf(st', step.t);
               && (x.users > 0 ==> st' == Goto(st, step.t, Idle))
               && (x.users == 0 && x.backend.Some? ==> pc' == CloseWant(RestartOf(s), x.backend.value) && st'.leases == st.leases)
               && (x.users == 0 && x.backend.None? ==> st' == Goto(st, step.t, WantSlot(s, OpCanonical)))
  {
    ThreadFact(st, step.t);
    Restarts(st, step, PcOf(st, step.t).slot);
  }

  lemma Restarts(st: State, step: Step, s: SlotId)
    requires Enabled(st, step) && step.RestartUse? && s == PcOf(st, step.t).slot && s in st.slots
    ensures var st' := Apply(st, step);
            var x, pc' := st.slots[s], PcOf(st', step.t);
            && (x.users > 0 ==> st' == Goto(st, step.t, Idle))
            && (x.users == 0 && x.backend.Some? ==> pc' == CloseWant(RestartOf(s), x.backend.value) && st'.leases == st.leases)
            && (x.users == 0 && x.backend.None? ==> st' == Goto(st, step.t, WantSlot(s, OpCanonical)))
  {
  }

  lemma RestartGoesOn(st: State, t: Tid, s: SlotId, ok: bool)
    ensures PcOf(Finish(st, t, RestartOf(s), ok), t) == if ok then WantSlot(s, OpCanonical) else Idle
  {
  }

  /** One turn of the reaper closes a slot's backend exactly when nobody holds or uses the slot and it is
      due, and otherwise leaves the slot alone. */
  lemma ReapDecides(st: State, step: Step)
    requires Enabled(st, step) && step.ReapSlot?
    ensures var st', s := Apply(st, step), step.s;
            var idle := (forall u :: u in st.threads ==> LSlot(s) !in Holds(st.threads[u])) && s in st.slots
                        && st.slots[s].backend.Some? && st.slots[s].users == 0;
            && (PcOf(st', step.t).CloseWant? <==> idle && step.due)
            && (PcOf(st', step.t).CloseWant? ==> st.slots[s].backend == Some(PcOf(st', step.t).prov))
            && (!(idle && step.due) ==> st' == Goto(st, step.t, ReapScan(PcOf(st, step.t).todo - {s})))
  {
  }

  /** The slots a reaper has still to look at. */
  function ToReap(pc: PC): Option<set<SlotId>> {
    if pc.ReapScan? then Some(pc.todo) else if Closing(pc) && pc.cause.Reap? then Some(pc.cause.todo) else None
  }

  predicate Looks(step: Step, t: Tid, s: SlotId) { step.ReapSlot? && step.t == t && step.s == s }

  lemma FinishToReap(st: State, t: Tid, c: Cause, ok: bool)
    requires c.Reap?
    ensures PcOf(Finish(st, t, c, ok), t) == ReapScan(c.todo)
  {
  }

  lemma ReapNext(st: State, step: Step, s: SlotId)
    requires Enabled(st, step) && ToReap(PcOf(st, step.t)).Some? && s in ToReap(PcOf(st, step.t)).value
    ensures Looks(step, step.t, s) || (ToReap(PcOf(Apply(st, step), step.t)).Some? && s in ToReap(PcOf(Apply(st, step), step.t)).value)
  {
    if IsClosing(step) { ReapCloses(st, step, s); } else { ReapMoves(st, step, s); }
  }

  lemma ReapMoves(st: State, step: Step, s: SlotId)
    requires Enabled(st, step) && PcOf(st, step.t).ReapScan? && s in PcOf(st, step.t).todo
    ensures Looks(step, step.t, s) || (ToReap(PcOf(Apply(st, step), step.t)).Some? && s in ToReap(PcOf(Apply(st, step), step.t)).value)
  {
    assert step.ReapSlot?;
  }

  lemma ReapCloses(st: State, step: Step, s: SlotId)
    requires Enabled(st, step) && IsClosing(step) && PcOf(st, step.t).cause.Reap? && s in PcOf(st, step.t).cause.todo
    ensures ToReap(PcOf(Apply(st, step), step.t)).Some? && s in ToReap(PcOf(Apply(st, step), step.t)).value
  {
    if step.LockProv? { ReapLocks(st, step); }
    else if step.CloseReturns? { ReapReturns(st, step); }
    else { ReapDeletes(st, step); }
  }

  lemma ReapLocks(st: State, step: Step)
    requires Enabled(st, step) && step.LockProv? && PcOf(st, step.t).cause.Reap?
    ensures ToReap(PcOf(Apply(st, step), step.t)) == Some(PcOf(st, step.t).cause.todo)
  {
    FinishToReap(st, step.t, PcOf(st, step.t).cause, true);
  }

  lemma ReapReturns(st: State, step: Step)
    requires Enabled(st, step) && step.CloseReturns? && PcOf(st, step.t).cause.Reap?
    ensures ToReap(PcOf(Apply(st, step), step.t)) == Some(PcOf(st, step.t).cause.todo)
  {
    FinishToReap(st, step.t, PcOf(st, step.t).cause, false);
  }

  lemma ReapDeletes(st: State, step: Step)
    requires Enabled(st, step) && step.DeleteOwned? && PcOf(st, step.t).cause.Reap?
    ensures ToReap(PcOf(Apply(st, step), step.t)) == Some(PcOf(st, step.t).cause.todo)
  {
    var pc := PcOf(st, step.t);
    FinishToReap(SetStatus(st, pc.prov, Closed).(owned := st.owned - {pc.prov}), step.t, pc.cause, true);
  }

  /** A reaper looks at every slot of the map it set out with before it is done. */
  lemma {:induction false} ReapVisitsAll(st: State, steps: seq<Step>, t: Tid, s: SlotId)
    requires IsRun(st, steps) && ToReap(PcOf(st, t)).Some? && s in ToReap(PcOf(st, t)).value && PcOf(After(st, steps), t) == ReapScan({})
    ensures exists step :: step in steps && Looks(step, t, s)
    decreases |steps|
  {
    if Looks(steps[0], t, s) {
      assert steps[0] in steps;
    } else {
      if steps[0].t == t { ReapNext(st, steps[0], s); } else { OthersStay(st, steps[0], t); }
      ReapVisitsAll(Apply(st, steps[0]), steps[1..], t, s);
    }
  }

  lemma ReapBegins(st: State, t: Tid)
    requires Enabled(st, CallReap(t))
    ensures ToReap(PcOf(Apply(st, CallReap(t)), t)) == Some(st.visible)
  {
  }
}
