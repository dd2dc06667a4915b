/**
 The provider pool as an interleaving state machine. Every critical section of
 provider_limits.go, provider_pool.go and provider_reap.go is one step of one thread; slow
 operations (opening, closing) are split into the step that starts them and the step in
 which they return, so any other thread may run in between.

 Three kinds of mutex are modelled as locks a thread holds across steps: the per-slot
 mutex, the admission mutex and the per-provider mutex. The map mutex and the capacity
 mutex guard sections that acquire nothing else, so each such section is a single step.
 */
module PoolProtocol {
  import opened Basics

  type SlotId = nat
  type ProvId = nat
  type LeaseId = nat
  type Tid = nat

  /** The life of one reservation. `Retiring` is a provider whose Close succeeded and whose
      reservation the closing thread has not deleted yet; `Dead` is a failed open. */
  datatype Status = Opening(opener: Tid) | Live | Retiring(closer: Tid) | Closed | Dead

  /** `home` is the slot the provider was opened for, or None for a pinned sandbox. */
  datatype Prov = Prov(home: Option<SlotId>, status: Status, epoch: nat)

  /** `gens` records the epoch of every backend ever installed in the slot, oldest first. */
  datatype Slot = Slot(backend: Option<ProvId>, users: nat, lastUsed: int, epoch: nat, gens: seq<nat>)

  datatype LeaseState = Held | Releasing(releaser: Tid) | Released

  datatype Lease = Lease(slot: SlotId, prov: ProvId, state: LeaseState)

  datatype Cand = Cand(slot: SlotId, used: int)

  /** evictLRU's progress: the slots looked at, the idle ones among them with their last use then,
      and how many of those have been tried. */
  datatype Hunt = Hunt(seen: set<SlotId>, cands: seq<Cand>, next: nat)

  /** On whose behalf an admission runs. */
  datatype Why = ByCanonical(slot: SlotId) | ByPinned

  /** Why a provider is being closed, with what the thread does next. */
  datatype Cause =
    | Replace(slot: SlotId)
    | RestartOf(slot: SlotId)
    | Evict(why: Why, slot: SlotId, hunt: Hunt)
    | Reap(slot: SlotId, todo: set<SlotId>)
    | ShutSlot(slot: SlotId, todo: set<SlotId>)
    | ShutOwned(left: set<ProvId>)
    | Sandbox

  datatype Op = OpCanonical | OpExisting | OpRestart | OpRelease(lease: LeaseId) | OpShut(todo: set<SlotId>)

  datatype PC =
    | Idle
    | WantSlot(slot: SlotId, op: Op)
    | InSlot(slot: SlotId, op: Op)
    | Checked(slot: SlotId)
    | WantAdmit(why: Why)
    | Admit(why: Why, evicted: bool)
    | Scan(why: Why, todo: set<SlotId>, hunt: Hunt)
    | Try(why: Why, hunt: Hunt)
    | OpenBusy(why: Why, prov: ProvId, after: nat)
    | Opened(slot: SlotId, prov: ProvId)
    | CloseWant(cause: Cause, prov: ProvId)
    | CloseBusy(cause: Cause, prov: ProvId)
    | CloseDelete(cause: Cause, prov: ProvId)
    | ReapScan(todo: set<SlotId>)
    | ShutWait(reaper: Option<Tid>)
    | WaitRelease(lease: LeaseId)
    | ShutSlots(todo: set<SlotId>)
    | ShutProvs(left: set<ProvId>)

  datatype Lock = LSlot(slot: SlotId) | LAdmit | LProv(prov: ProvId)

  datatype State = State(
    max: nat,
    closed: bool,
    owned: set<ProvId>,
    provs: map<ProvId, Prov>,
    slots: map<SlotId, Slot>,
    visible: set<SlotId>,
    leases: map<LeaseId, Lease>,
    threads: map<Tid, PC>)

  // ---------- Locks ----------

  function WhyLocks(why: Why): set<Lock> {
    match why
    case ByCanonical(s) => {LSlot(s)}
    case ByPinned => {}
  }

  function CauseLocks(c: Cause): set<Lock> {
    match c
    case Replace(s) => {LSlot(s)}
    case RestartOf(s) => {LSlot(s)}
    case Evict(why, s, _) => WhyLocks(why) + {LAdmit, LSlot(s)}
    case Reap(s, _) => {LSlot(s)}
    case ShutSlot(s, _) => {LSlot(s)}
    case ShutOwned(_) => {}
    case Sandbox => {}
  }

  /** The locks a thread holds at a program point. */
  function Holds(pc: PC): set<Lock> {
    match pc
    case InSlot(s, _) => {LSlot(s)}
    case Checked(s) => {LSlot(s)}
    case Opened(s, _) => {LSlot(s)}
    case WantAdmit(why) => WhyLocks(why)
    case Admit(why, _) => WhyLocks(why) + {LAdmit}
    case Scan(why, _, _) => WhyLocks(why) + {LAdmit}
    case Try(why, _) => WhyLocks(why) + {LAdmit}
    case OpenBusy(why, _, _) => WhyLocks(why)
    case CloseWant(c, _) => CauseLocks(c)
    case CloseBusy(c, p) => CauseLocks(c) + {LProv(p)}
    case CloseDelete(c, p) => CauseLocks(c) + {LProv(p)}
    case _ => {}
  }

  function PcOf(st: State, t: Tid): PC {
    if t in st.threads then st.threads[t] else Idle
  }

  predicate Free(st: State, l: Lock) {
    forall u :: u in st.threads ==> l !in Holds(st.threads[u])
  }

  /** No thread other than `t` holds the lock. */
  predicate FreeBut(st: State, t: Tid, l: Lock) {
    forall u :: u in st.threads && u != t ==> l !in Holds(st.threads[u])
  }

  // ---------- Steps ----------

  datatype Step =
    | CallSlot(t: Tid, s: SlotId, op: Op)
    | CallRelease(t: Tid, l: LeaseId)
    | CallOpen(t: Tid)
    | CallReap(t: Tid)
    | CallShutdown(t: Tid, reaper: Option<Tid>)
    | CallSandboxClose(t: Tid, p: ProvId)
    | LockSlot(t: Tid)
    | CanonicalCheck(t: Tid, cancelled: bool)
    | CanonicalUse(t: Tid, healthy: bool, l: LeaseId, now: int)
    | ExistingUse(t: Tid, l: LeaseId, now: int)
    | RestartUse(t: Tid)
    | ReleaseUse(t: Tid, now: int)
    | ShutUse(t: Tid)
    | LockAdmit(t: Tid)
    | AdmitStep(t: Tid, p: ProvId)
    | ScanSlot(t: Tid, s: SlotId)
    | ScanDone(t: Tid, sorted: seq<Cand>)
    | TryNext(t: Tid)
    | OpenReturns(t: Tid, ok: bool, e: nat)
    | Install(t: Tid, l: LeaseId, now: int)
    | LockProv(t: Tid)
    | CloseReturns(t: Tid, ok: bool)
    | DeleteOwned(t: Tid)
    | ReapSlot(t: Tid, s: SlotId, due: bool)
    | ReapDone(t: Tid)
    | ShutReady(t: Tid)
    | ShutNextSlot(t: Tid, s: SlotId)
    | ShutSlotsDone(t: Tid)
    | ShutNextProv(t: Tid, p: ProvId)
    | ShutDone(t: Tid)
    | ReleaseDone(t: Tid)

  function Goto(st: State, t: Tid, pc: PC): State {
    st.(threads := st.threads[t := pc])
  }

  function SetSlot(st: State, s: SlotId, x: Slot): State {
    st.(slots := st.slots[s := x])
  }

  predicate UsedLe(a: Cand, b: Cand) { a.used <= b.used }

  predicate SortedByUse(cands: seq<Cand>) {
    forall i, j :: 0 <= i < j < |cands| ==> cands[i].used <= cands[j].used
  }

  predicate NoneOpening(st: State) {
    forall p :: p in st.provs ==> !st.provs[p].status.Opening?
  }

  function EpochOf(st: State, p: ProvId): nat {
    if p in st.provs then st.provs[p].epoch else 0
  }

  predicate IsReleased(st: State, p: ProvId) {
    p in st.provs && (st.provs[p].status.Retiring? || st.provs[p].status.Closed?)
  }

  /** A slot whose lock is free holds an idle backend: what eviction and reaping look for. */
  predicate IdleSlot(st: State, s: SlotId) {
    Free(st, LSlot(s)) && s in st.slots && st.slots[s].backend.Some? && st.slots[s].users == 0
  }

  /** leaseLocked: pins slot `s` for one more user. */
  function AddLease(st: State, s: SlotId, p: ProvId, l: LeaseId, now: int): State
    requires s in st.slots
  {
    var x := st.slots[s];
    SetSlot(st, s, x.(users := x.users + 1, lastUsed := now)).(leases := st.leases[l := Lease(s, p, Held)])
  }

  /** closeSlotLocked and reapSlotLocked: note the generation, then start closing. */
  function BeginClose(st: State, t: Tid, s: SlotId, c: Cause): State
    requires s in st.slots && st.slots[s].backend.Some?
  {
    var p := st.slots[s].backend.value;
    Goto(SetSlot(st, s, st.slots[s].(epoch := EpochOf(st, p))), t, CloseWant(c, p))
  }

  function Detach(st: State, s: SlotId): State {
    if s in st.slots then SetSlot(st, s, st.slots[s].(backend := None)) else st
  }

  /** What the thread does once ownedProvider.Close returned. */
  function Finish(st: State, t: Tid, c: Cause, ok: bool): State {
    match c
    case Replace(s) => if ok then Goto(Detach(st, s), t, WantAdmit(ByCanonical(s))) else Goto(st, t, Idle)
    case RestartOf(s) => if ok then Goto(Detach(st, s), t, WantSlot(s, OpCanonical)) else Goto(st, t, Idle)
    case Evict(why, s, hunt) =>
      if ok then Goto(Detach(st, s), t, Admit(why, true)) else Goto(st, t, Try(why, hunt.(next := hunt.next + 1)))
    case Reap(s, todo) => Goto(if ok then Detach(st, s) else st, t, ReapScan(todo))
    case ShutSlot(s, todo) => Goto(Detach(st, s), t, ShutSlots(todo))
    case ShutOwned(left) => Goto(st, t, ShutProvs(left))
    case Sandbox => Goto(st, t, Idle)
  }

  function AfterEpoch(st: State, why: Why): nat {
    match why
    case ByCanonical(s) => if s in st.slots then st.slots[s].epoch else 0
    case ByPinned => 0
  }

  function HomeOf(why: Why): Option<SlotId> {
    match why
    case ByCanonical(s) => Some(s)
    case ByPinned => None
  }

  predicate FreshLease(st: State, l: LeaseId) { l !in st.leases }

  /** The clock has not gone back since the slot was last used. */
  predicate Later(st: State, s: SlotId, now: int) { s in st.slots ==> now >= st.slots[s].lastUsed }

  /** The thread is inside ReapIdle. */
  predicate Reaping(pc: PC) {
    || pc.ReapScan?
    || ((pc.CloseWant? || pc.CloseBusy? || pc.CloseDelete?) && pc.cause.Reap?)
  }

  /** Shutdown goes on once no open is under way and the reaper it joins has stopped. */
  predicate Quiet(st: State, reaper: Option<Tid>) {
    NoneOpening(st) && (reaper.Some? ==> !Reaping(PcOf(st, reaper.value)))
  }

  predicate Enabled(st: State, step: Step) {
    var pc := PcOf(st, step.t);
    match step
    case CallSlot(_, s, op) =>
      pc.Idle? && (op.OpCanonical? || op.OpExisting? || op.OpRestart?) && (s in st.visible || s !in st.slots)
    case CallRelease(_, l) => pc.Idle? && l in st.leases
    case CallOpen(_) => pc.Idle?
    case CallReap(_) => pc.Idle?
    case CallShutdown(_, _) => pc.Idle?
    case CallSandboxClose(_, p) =>
      pc.Idle? && p in st.provs && st.provs[p].home == None && (st.provs[p].status.Live? || IsReleased(st, p))
    case LockSlot(_) => pc.WantSlot? && Free(st, LSlot(pc.slot))
    case CanonicalCheck(_, _) => pc.InSlot? && pc.op.OpCanonical?
    case CanonicalUse(_, _, l, now) => pc.Checked? && FreshLease(st, l) && Later(st, pc.slot, now)
    case ExistingUse(_, l, now) => pc.InSlot? && pc.op.OpExisting? && FreshLease(st, l) && Later(st, pc.slot, now)
    case RestartUse(_) => pc.InSlot? && pc.op.OpRestart?
    case ReleaseUse(_, now) => pc.InSlot? && pc.op.OpRelease? && Later(st, pc.slot, now)
    case ShutUse(_) => pc.InSlot? && pc.op.OpShut?
    case LockAdmit(_) => pc.WantAdmit? && Free(st, LAdmit)
    case AdmitStep(_, p) => pc.Admit? && p !in st.provs
    case ScanSlot(_, s) => pc.Scan? && s in pc.todo
    case ScanDone(_, sorted) =>
      pc.Scan? && pc.todo == {} && multiset(sorted) == multiset(pc.hunt.cands) && SortedByUse(sorted)
    case TryNext(_) => pc.Try?
    case OpenReturns(_, ok, e) => pc.OpenBusy? && (ok ==> e > pc.after)
    case Install(_, l, now) => pc.Opened? && FreshLease(st, l) && Later(st, pc.slot, now)
    case LockProv(_) => pc.CloseWant? && Free(st, LProv(pc.prov))
    case CloseReturns(_, _) => pc.CloseBusy?
    case DeleteOwned(_) => pc.CloseDelete?
    case ReapSlot(_, s, _) => pc.ReapScan? && s in pc.todo
    case ReapDone(_) => pc.ReapScan? && pc.todo == {}
    case ShutReady(_) => pc.ShutWait? && Quiet(st, pc.reaper)
    case ShutNextSlot(_, s) => pc.ShutSlots? && s in pc.todo
    case ShutSlotsDone(_) => pc.ShutSlots? && pc.todo == {}
    case ShutNextProv(_, p) => pc.ShutProvs? && p in pc.left
    case ShutDone(_) => pc.ShutProvs? && pc.left == {}
    case ReleaseDone(_) => pc.WaitRelease? && pc.lease in st.leases && st.leases[pc.lease].state.Released?
  }

  /** slotFor: the workspace's slot in the map, or a new one. After the shutdown detached the map a
      workspace gets a new slot there; the old one is only reached by those who already hold it. */
  function DoCallSlot(st: State, t: Tid, s: SlotId, op: Op): State {
    var st1 := if s in st.slots then st
               else SetSlot(st, s, Slot(None, 0, 0, 0, [])).(visible := st.visible + {s});
    Goto(st1, t, WantSlot(s, op))
  }

  /** The returned release function: only its first call does anything, and a second one made while
      the first is under way waits for it. */
  function DoCallRelease(st: State, t: Tid, l: LeaseId): State
    requires l in st.leases
  {
    if st.leases[l].state.Held? then
      Goto(st.(leases := st.leases[l := st.leases[l].(state := Releasing(t))]), t,
           WantSlot(st.leases[l].slot, OpRelease(l)))
    else
      Goto(st, t, WaitRelease(l))
  }

  function DoCanonicalUse(st: State, t: Tid, s: SlotId, healthy: bool, l: LeaseId, now: int): State {
    if s !in st.slots then Goto(st, t, Idle)
    else
      match st.slots[s].backend
      case None => Goto(st, t, WantAdmit(ByCanonical(s)))
      case Some(p) =>
        if healthy then Goto(AddLease(st, s, p, l, now), t, Idle)
        else if st.slots[s].users != 0 then Goto(st, t, Idle)
        else BeginClose(st, t, s, Replace(s))
  }

  function DoExistingUse(st: State, t: Tid, s: SlotId, l: LeaseId, now: int): State {
    if s in st.slots && st.slots[s].backend.Some? && !st.closed then
      Goto(AddLease(st, s, st.slots[s].backend.value, l, now), t, Idle)
    else
      Goto(st, t, Idle)
  }

  function DoRestartUse(st: State, t: Tid, s: SlotId): State {
    if s !in st.slots || st.slots[s].users != 0 then Goto(st, t, Idle)
    else if st.slots[s].backend.None? then Goto(st, t, WantSlot(s, OpCanonical))
    else BeginClose(st, t, s, RestartOf(s))
  }

  function DoReleaseUse(st: State, t: Tid, s: SlotId, l: LeaseId, now: int): State {
    if s !in st.slots || l !in st.leases || st.slots[s].users == 0 then Goto(st, t, Idle)
    else
      var x := st.slots[s];
      Goto(SetSlot(st, s, x.(users := x.users - 1, lastUsed := now))
             .(leases := st.leases[l := st.leases[l].(state := Released)]), t, Idle)
  }

  /** Pool.Close closes a slot's backend whatever its users. */
  function DoShutUse(st: State, t: Tid, s: SlotId, todo: set<SlotId>): State {
    if s in st.slots && st.slots[s].backend.Some?
    then Goto(st, t, CloseWant(ShutSlot(s, todo), st.slots[s].backend.value))
    else Goto(st, t, ShutSlots(todo))
  }

  /** One turn of the loop in reserve. */
  function DoAdmit(st: State, t: Tid, why: Why, p: ProvId): State {
    if st.closed then Goto(st, t, Idle)
    else if |st.owned| < st.max then
      Goto(st.(owned := st.owned + {p}, provs := st.provs[p := Prov(HomeOf(why), Opening(t), 0)]), t,
           OpenBusy(why, p, AfterEpoch(st, why)))
    else Goto(st, t, Scan(why, st.visible, Hunt({}, [], 0)))
  }

  function DoScanSlot(st: State, t: Tid, why: Why, todo: set<SlotId>, hunt: Hunt, s: SlotId): State {
    var more := if IdleSlot(st, s) then hunt.cands + [Cand(s, st.slots[s].lastUsed)] else hunt.cands;
    Goto(st, t, Scan(why, todo - {s}, hunt.(seen := hunt.seen + {s}, cands := more)))
  }

  /** The re-check of a candidate: its lock can be taken, and it is idle and unused since it was seen. */
  predicate StillIdle(st: State, c: Cand) { IdleSlot(st, c.slot) && st.slots[c.slot].lastUsed == c.used }

  function DoTryNext(st: State, t: Tid, why: Why, hunt: Hunt): State {
    if hunt.next >= |hunt.cands| then Goto(st, t, Idle)
    else
      var c := hunt.cands[hunt.next];
      if StillIdle(st, c) then BeginClose(st, t, c.slot, Evict(why, c.slot, hunt))
      else Goto(st, t, Try(why, hunt.(next := hunt.next + 1)))
  }

  function DoOpenReturns(st: State, t: Tid, why: Why, p: ProvId, ok: bool, e: nat): State {
    if !ok then
      Goto(st.(owned := st.owned - {p}, provs := st.provs[p := Prov(HomeOf(why), Dead, 0)]), t, Idle)
    else
      var st1 := st.(provs := st.provs[p := Prov(HomeOf(why), Live, e)]);
      match why
      case ByCanonical(s) => Goto(st1, t, Opened(s, p))
      case ByPinned => Goto(st1, t, Idle)
  }

  function DoInstall(st: State, t: Tid, s: SlotId, p: ProvId, l: LeaseId, now: int): State {
    if s !in st.slots then Goto(st, t, Idle)
    else
      var x := st.slots[s];
      Goto(AddLease(SetSlot(st, s, x.(backend := Some(p), gens := x.gens + [EpochOf(st, p)])), s, p, l, now), t, Idle)
  }

  /** One turn of ReapIdle; `due` is reapSlotLocked's verdict on the slot's idle time and root. */
  function DoReapSlot(st: State, t: Tid, s: SlotId, due: bool, rest: set<SlotId>): State {
    if IdleSlot(st, s) && due then BeginClose(st, t, s, Reap(s, rest)) else Goto(st, t, ReapScan(rest))
  }

  function SetStatus(st: State, p: ProvId, status: Status): State {
    if p in st.provs then st.(provs := st.provs[p := st.provs[p].(status := status)]) else st
  }

  function Apply(st: State, step: Step): State
    requires Enabled(st, step)
  {
    var t := step.t;
    var pc := PcOf(st, t);
    match step
    case CallSlot(_, s, op) => DoCallSlot(st, t, s, op)
    case CallRelease(_, l) => DoCallRelease(st, t, l)
    case CallOpen(_) => Goto(st, t, WantAdmit(ByPinned))
    case CallReap(_) => Goto(st, t, ReapScan(st.visible))
    case CallShutdown(_, reaper) => Goto(st.(closed := true), t, ShutWait(reaper))
    case CallSandboxClose(_, p) => Goto(st, t, CloseWant(Sandbox, p))
    case LockSlot(_) => Goto(st, t, InSlot(pc.slot, pc.op))
    case CanonicalCheck(_, cancelled) =>
      if st.closed || cancelled then Goto(st, t, Idle) else Goto(st, t, Checked(pc.slot))
    case CanonicalUse(_, healthy, l, now) => DoCanonicalUse(st, t, pc.slot, healthy, l, now)
    case ExistingUse(_, l, now) => DoExistingUse(st, t, pc.slot, l, now)
    case RestartUse(_) => DoRestartUse(st, t, pc.slot)
    case ReleaseUse(_, now) => DoReleaseUse(st, t, pc.slot, pc.op.lease, now)
    case ShutUse(_) => DoShutUse(st, t, pc.slot, pc.op.todo)
    case LockAdmit(_) => Goto(st, t, Admit(pc.why, false))
    case AdmitStep(_, p) => DoAdmit(st, t, pc.why, p)
    case ScanSlot(_, s) => DoScanSlot(st, t, pc.why, pc.todo, pc.hunt, s)
    case ScanDone(_, sorted) => Goto(st, t, Try(pc.why, Hunt(pc.hunt.seen, sorted, 0)))
    case TryNext(_) => DoTryNext(st, t, pc.why, pc.hunt)
    case OpenReturns(_, ok, e) => DoOpenReturns(st, t, pc.why, pc.prov, ok, e)
    case Install(_, l, now) => DoInstall(st, t, pc.slot, pc.prov, l, now)
    case LockProv(_) =>
      if IsReleased(st, pc.prov) then Finish(st, t, pc.cause, true)
      else Goto(st, t, CloseBusy(pc.cause, pc.prov))
    case CloseReturns(_, ok) =>
      if ok then Goto(SetStatus(st, pc.prov, Retiring(t)), t, CloseDelete(pc.cause, pc.prov))
      else Finish(st, t, pc.cause, false)
    case DeleteOwned(_) =>
      Finish(SetStatus(st, pc.prov, Closed).(owned := st.owned - {pc.prov}), t, pc.cause, true)
    case ReapSlot(_, s, due) => DoReapSlot(st, t, s, due, pc.todo - {s})
    case ReapDone(_) => Goto(st, t, Idle)
    case ShutReady(_) => Goto(st.(visible := {}), t, ShutSlots(st.visible))
    case ShutNextSlot(_, s) => Goto(st, t, WantSlot(s, OpShut(pc.todo - {s})))
    case ShutSlotsDone(_) => Goto(st, t, ShutProvs(st.owned))
    case ShutNextProv(_, p) => Goto(st, t, CloseWant(ShutOwned(pc.left - {p}), p))
    case ShutDone(_) => Goto(st, t, Idle)
    case ReleaseDone(_) => Goto(st, t, Idle)
  }

  function Init(max: nat): State {
    State(max, false, {}, map[], map[], {}, map[], map[])
  }

  /** The steps of a run, each enabled where it is taken. */
  predicate IsRun(st: State, steps: seq<Step>)
    decreases |steps|
  {
    steps == [] || (Enabled(st, steps[0]) && IsRun(Apply(st, steps[0]), steps[1..]))
  }

  function After(st: State, steps: seq<Step>): State
    requires IsRun(st, steps)
    decreases |steps|
  {
    if steps == [] then st else After(Apply(st, steps[0]), steps[1..])
  }
}
