/**
 What every reachable state of the provider pool keeps: bounded reservations, lease counts,
 lock ownership, generations and shutdown.
 */
module PoolSafety {
  import opened Basics
  import opened PoolProtocol

  predicate Reserved(s: Status) { s.Opening? || s.Live? || s.Retiring? }

  predicate EverLive(s: Status) { s.Live? || s.Retiring? || s.Closed? }

  predicate AllAtMost(gens: seq<nat>, e: nat) { forall i :: 0 <= i < |gens| ==> gens[i] <= e }

  predicate Increasing(gens: seq<nat>) { forall i, j :: 0 <= i < j < |gens| ==> gens[i] < gens[j] }

  /** The leases of a slot that have not been released yet. */
  function ActiveLeases(st: State, s: SlotId): set<LeaseId> {
    set l | l in st.leases && st.leases[l].slot == s && !st.leases[l].state.Released?
  }

  /** A slot whose holder may open a backend for it: empty, and past every earlier generation. */
  predicate Vacant(st: State, s: SlotId) {
    s in st.slots && st.slots[s].backend == None && AllAtMost(st.slots[s].gens, st.slots[s].epoch)
  }

  predicate ShutPhase(st: State) { st.closed && NoneOpening(st) }

  predicate WhyOk(st: State, why: Why) {
    why.ByCanonical? ==> Vacant(st, why.slot)
  }

  /** A candidate's slot was last used no earlier than when it was seen. */
  predicate CandsOk(st: State, cands: seq<Cand>) {
    forall i :: 0 <= i < |cands| ==> cands[i].slot in st.slots && cands[i].used <= st.slots[cands[i].slot].lastUsed
  }

  predicate HuntOk(st: State, hunt: Hunt) {
    CandsOk(st, hunt.cands) && SortedByUse(hunt.cands) && hunt.next <= |hunt.cands|
  }

  /** The candidate whose slot is being closed is the one whose turn it is. */
  predicate Turn(st: State, s: SlotId, hunt: Hunt) {
    && hunt.next < |hunt.cands| && hunt.cands[hunt.next].slot == s
    && s in st.slots && st.slots[s].lastUsed == hunt.cands[hunt.next].used
  }

  predicate OpOk(st: State, t: Tid, s: SlotId, op: Op) {
    match op
    case OpRelease(l) => l in st.leases && st.leases[l].slot == s && st.leases[l].state == Releasing(t)
    case OpShut(todo) => ShutPhase(st) && todo <= st.slots.Keys
    case _ => true
  }

  /** The slot a thread closes for idleness, replacement or restart: unused, and still holding `p`. */
  predicate Retired(st: State, s: SlotId, p: ProvId) {
    && s in st.slots && p in st.provs
    && st.slots[s].backend == Some(p) && st.slots[s].users == 0 && st.slots[s].epoch == st.provs[p].epoch
  }

  predicate LeftOk(st: State, left: set<ProvId>) {
    forall p :: p in left ==> p in st.provs && EverLive(st.provs[p].status)
  }

  predicate CauseOk(st: State, c: Cause, p: ProvId) {
    match c
    case Replace(s) => Retired(st, s, p)
    case RestartOf(s) => Retired(st, s, p)
    case Evict(why, s, hunt) => Retired(st, s, p) && WhyOk(st, why) && HuntOk(st, hunt) && Turn(st, s, hunt)
    case Reap(s, todo) => Retired(st, s, p) && todo <= st.slots.Keys
    case ShutSlot(s, todo) => ShutPhase(st) && s in st.slots && todo <= st.slots.Keys
    case ShutOwned(left) => ShutPhase(st) && LeftOk(st, left)
    case Sandbox => p in st.provs && st.provs[p].home == None
  }

  predicate ThreadOk(st: State, t: Tid, pc: PC) {
    match pc
    case Idle => true
    case WantSlot(s, op) => s in st.slots && OpOk(st, t, s, op)
    case InSlot(s, op) => s in st.slots && OpOk(st, t, s, op)
    case Checked(s) => s in st.slots && (st.slots[s].backend == None ==> Vacant(st, s))
    case WantAdmit(why) => WhyOk(st, why)
    case Admit(why, evicted) => WhyOk(st, why) && (evicted && !st.closed ==> |st.owned| < st.max)
    case Scan(why, todo, hunt) => WhyOk(st, why) && todo <= st.slots.Keys && CandsOk(st, hunt.cands) && hunt.next == 0
    case Try(why, hunt) => WhyOk(st, why) && HuntOk(st, hunt)
    case OpenBusy(why, p, after) =>
      && WhyOk(st, why) && p in st.provs && st.provs[p].status == Opening(t) && st.provs[p].home == HomeOf(why)
      && (why.ByCanonical? ==> after == st.slots[why.slot].epoch)
    case Opened(s, p) =>
      && s in st.slots && st.slots[s].backend == None
      && p in st.provs && EverLive(st.provs[p].status) && st.provs[p].home == Some(s)
      && (!st.closed ==> st.provs[p].status == Live)
      && (forall i :: 0 <= i < |st.slots[s].gens| ==> st.slots[s].gens[i] < st.provs[p].epoch)
    case CloseWant(c, p) => CauseOk(st, c, p) && p in st.provs && EverLive(st.provs[p].status)
    case CloseBusy(c, p) => CauseOk(st, c, p) && p in st.provs && st.provs[p].status == Live
    case CloseDelete(c, p) => CauseOk(st, c, p) && p in st.provs && st.provs[p].status == Retiring(t)
    case ReapScan(todo) => todo <= st.slots.Keys
    case ShutWait(_) => st.closed
    case WaitRelease(l) => l in st.leases && !st.leases[l].state.Held?
    case ShutSlots(todo) => ShutPhase(st) && todo <= st.slots.Keys
    case ShutProvs(left) => ShutPhase(st) && LeftOk(st, left)
  }

  /** ThreadOk under a quantifier, so that callers establish it as one fact. */
  predicate OkFor(st: State, t: Tid, pc: PC) { forall u :: u == t ==> ThreadOk(st, u, pc) }

  /** An installed backend belongs to its slot, is its newest generation, and is live unless
      the pool is shutting down or its closer is between the close and the detach. */
  predicate BackendOk(st: State, s: SlotId, p: ProvId)
    requires s in st.slots
  {
    && p in st.provs && st.provs[p].home == Some(s) && EverLive(st.provs[p].status)
    && st.slots[s].gens != [] && st.slots[s].gens[|st.slots[s].gens| - 1] == st.provs[p].epoch
    && (st.provs[p].status == Closed ==> st.closed)
  }

  predicate SlotOk(st: State, s: SlotId)
    requires s in st.slots
  {
    && (st.slots[s].backend.Some? ==> BackendOk(st, s, st.slots[s].backend.value))
    && (st.slots[s].backend.None? && !st.closed ==> AllAtMost(st.slots[s].gens, st.slots[s].epoch))
    && Increasing(st.slots[s].gens)
    && st.slots[s].users == |ActiveLeases(st, s)|
  }

  /** A lease is on a provider opened for its slot; while it is out, that is the backend installed
      there, until shutdown. */
  predicate LeaseOk(st: State, l: LeaseId)
    requires l in st.leases
  {
    && st.leases[l].slot in st.slots
    && st.leases[l].prov in st.provs && st.provs[st.leases[l].prov].home == Some(st.leases[l].slot)
    && (!st.leases[l].state.Released? && !st.closed ==> st.slots[st.leases[l].slot].backend == Some(st.leases[l].prov))
  }

  /** Who is opening or retiring a provider is at the matching program point. */
  predicate ProvOk(st: State, p: ProvId)
    requires p in st.provs
  {
    && (Reserved(st.provs[p].status) <==> p in st.owned)
    && (match st.provs[p].status
        case Opening(t) => PcOf(st, t).OpenBusy? && PcOf(st, t).prov == p
        case Retiring(t) => PcOf(st, t).CloseDelete? && PcOf(st, t).prov == p
        case _ => true)
  }

  /** Two threads never hold the same lock. */
  predicate Exclusive(st: State) {
    forall t, u :: t in st.threads && u in st.threads && t != u ==> Holds(st.threads[t]) !! Holds(st.threads[u])
  }

  predicate Inv(st: State) {
    && |st.owned| <= st.max
    && st.owned <= st.provs.Keys
    && st.visible <= st.slots.Keys
    && Exclusive(st)
    && (forall t :: t in st.threads ==> ThreadOk(st, t, st.threads[t]))
    && (forall s :: s in st.slots ==> SlotOk(st, s))
    && (forall l :: l in st.leases ==> LeaseOk(st, l))
    && (forall p :: p in st.provs ==> ProvOk(st, p))
  }

  lemma ThreadFact(st: State, t: Tid)
    requires Inv(st)
    ensures ThreadOk(st, t, PcOf(st, t))
  {
  }

  lemma SlotFact(st: State, s: SlotId)
    requires Inv(st) && s in st.slots
    ensures SlotOk(st, s)
  {
  }

  lemma InitOk(max: nat)
    ensures Inv(Init(max))
  {
  }

  // ---------- What a step of `t` may change under other threads ----------

  predicate SlotChange(st: State, st': State, t: Tid, s: SlotId)
    requires s in st.slots && s in st'.slots
  {
    st'.slots[s] == st.slots[s] || (FreeBut(st, t, LSlot(s)) && st'.slots[s].lastUsed >= st.slots[s].lastUsed)
  }

  /** A provider that is in no slot's hands but the one it was opened for. */
  predicate HomeHas(st: State, p: ProvId)
    requires p in st.provs
  {
    st.provs[p].home.Some? ==> st.provs[p].home.value in st.slots && st.slots[st.provs[p].home.value].backend == Some(p)
  }

  predicate ProvChange(st: State, st': State, t: Tid, p: ProvId)
    requires p in st.provs && p in st'.provs
  {
    var b, b' := st.provs[p], st'.provs[p];
    && b'.home == b.home
    && (|| b' == b
        || b.status == Opening(t)
        || (b.status == Live && b'.status == Retiring(t) && b'.epoch == b.epoch && FreeBut(st, t, LProv(p)) && (st.closed || HomeHas(st, p)))
        || (b.status == Retiring(t) && b'.status == Closed && b'.epoch == b.epoch))
  }

  predicate LeaseChange(st: State, st': State, t: Tid, l: LeaseId)
    requires l in st.leases && l in st'.leases
  {
    && (st'.leases[l].state.Held? ==> st.leases[l].state.Held?)
    && (|| st'.leases[l] == st.leases[l]
        || (st'.leases[l].slot == st.leases[l].slot && !st.leases[l].state.Releasing?)
        || st.leases[l].state == Releasing(t))
  }

  predicate Evolves(st: State, st': State, t: Tid) {
    && st'.max == st.max
    && (st.closed ==> st'.closed)
    && st.slots.Keys <= st'.slots.Keys && st.provs.Keys <= st'.provs.Keys && st.leases.Keys <= st'.leases.Keys
    && (forall s :: s in st.slots ==> SlotChange(st, st', t, s))
    && (forall p :: p in st.provs ==> ProvChange(st, st', t, p))
    && (forall l :: l in st.leases ==> LeaseChange(st, st', t, l))
    && (st.closed ==> forall p :: p in st'.provs && st'.provs[p].status.Opening? ==> p in st.provs && st.provs[p].status.Opening?)
    && (st'.owned <= st.owned || FreeBut(st, t, LAdmit))
  }

  /** A slot another thread holds locked is as it was. */
  lemma HeldSlot(st: State, st': State, t: Tid, u: Tid, s: SlotId)
    requires u in st.threads && u != t && Evolves(st, st', t) && LSlot(s) in Holds(st.threads[u]) && s in st.slots
    ensures s in st'.slots && st'.slots[s] == st.slots[s]
  {
    assert SlotChange(st, st', t, s);
  }

  lemma WhyKeeps(st: State, st': State, t: Tid, u: Tid, why: Why)
    requires u in st.threads && u != t && Evolves(st, st', t) && WhyOk(st, why) && WhyLocks(why) <= Holds(st.threads[u])
    ensures WhyOk(st', why) && (why.ByCanonical? ==> st'.slots[why.slot] == st.slots[why.slot])
  {
    if why.ByCanonical? {
      assert LSlot(why.slot) in WhyLocks(why);
      HeldSlot(st, st', t, u, why.slot);
    }
  }

  lemma CallersKeep(st: State, st': State, t: Tid, u: Tid)
    requires u in st.threads && u != t && ThreadOk(st, u, st.threads[u]) && Evolves(st, st', t)
    requires var pc := st.threads[u]; pc.WantSlot? || pc.InSlot? || pc.Checked? || pc.WaitRelease?
    ensures ThreadOk(st', u, st.threads[u])
  {
    var pc := st.threads[u];
    if ShutPhase(st) { assert ShutPhase(st'); }
    if pc.WaitRelease? { assert LeaseChange(st, st', t, pc.lease); }
    else if pc.Checked? { HeldSlot(st, st', t, u, pc.slot); }
    else if pc.op.OpRelease? { assert LeaseChange(st, st', t, pc.op.lease); }
  }

  lemma AdmittersKeep(st: State, st': State, t: Tid, u: Tid)
    requires u in st.threads && u != t && ThreadOk(st, u, st.threads[u]) && Evolves(st, st', t)
    requires var pc := st.threads[u]; pc.WantAdmit? || pc.Admit? || pc.Scan? || pc.Try?
    ensures ThreadOk(st', u, st.threads[u])
  {
    var pc := st.threads[u];
    WhyKeeps(st, st', t, u, pc.why);
    if pc.Admit? {
      assert LAdmit in Holds(pc);
      CardSub(st'.owned, st.owned);
    }
    if pc.Scan? || pc.Try? { HuntKeeps(st, st', t, pc.hunt.cands); }
  }

  lemma OpenersKeep(st: State, st': State, t: Tid, u: Tid)
    requires u in st.threads && u != t && ThreadOk(st, u, st.threads[u]) && Evolves(st, st', t)
    requires st.threads[u].OpenBusy? || st.threads[u].Opened?
    ensures ThreadOk(st', u, st.threads[u])
  {
    var pc := st.threads[u];
    assert ProvChange(st, st', t, pc.prov);
    if pc.OpenBusy? { WhyKeeps(st, st', t, u, pc.why); } else { HeldSlot(st, st', t, u, pc.slot); }
  }

  lemma SweepersKeep(st: State, st': State, t: Tid, u: Tid)
    requires u in st.threads && u != t && ThreadOk(st, u, st.threads[u]) && Evolves(st, st', t)
    requires var pc := st.threads[u]; pc.Idle? || pc.ReapScan? || pc.ShutWait? || pc.ShutSlots? || pc.ShutProvs?
    ensures ThreadOk(st', u, st.threads[u])
  {
    if ShutPhase(st) { assert ShutPhase(st'); }
    LeftKeeps(st, st', t);
  }

  lemma OthersKeep(st: State, st': State, t: Tid, u: Tid)
    requires u in st.threads && u != t && ThreadOk(st, u, st.threads[u]) && Evolves(st, st', t)
    ensures ThreadOk(st', u, st.threads[u])
  {
    var pc := st.threads[u];
    if pc.WantSlot? || pc.InSlot? || pc.Checked? || pc.WaitRelease? { CallersKeep(st, st', t, u); }
    else if pc.WantAdmit? || pc.Admit? || pc.Scan? || pc.Try? { AdmittersKeep(st, st', t, u); }
    else if pc.OpenBusy? || pc.Opened? { OpenersKeep(st, st', t, u); }
    else if pc.CloseWant? || pc.CloseBusy? || pc.CloseDelete? { ClosersKeep(st, st', t, u, pc.cause, pc.prov); }
    else { SweepersKeep(st, st', t, u); }
  }

  lemma ClosersKeep(st: State, st': State, t: Tid, u: Tid, c: Cause, p: ProvId)
    requires u in st.threads && u != t && ThreadOk(st, u, st.threads[u]) && Evolves(st, st', t)
    requires st.threads[u] in {CloseWant(c, p), CloseBusy(c, p), CloseDelete(c, p)}
    ensures ThreadOk(st', u, st.threads[u])
  {
    CausesKeep(st, st', t, u, c, p);
    assert st.threads[u].CloseBusy? ==> LProv(p) in Holds(st.threads[u]);
    assert ProvChange(st, st', t, p);
  }

  lemma CausesKeep(st: State, st': State, t: Tid, u: Tid, c: Cause, p: ProvId)
    requires u in st.threads && u != t && CauseOk(st, c, p) && CauseLocks(c) <= Holds(st.threads[u]) && Evolves(st, st', t)
    requires p in st.provs && EverLive(st.provs[p].status)
    ensures CauseOk(st', c, p)
  {
    assert ProvChange(st, st', t, p);
    if c.ShutSlot? || c.ShutOwned? {
      assert ShutPhase(st');
      LeftKeeps(st, st', t);
    } else if !c.Sandbox? {
      HeldSlot(st, st', t, u, c.slot);
      if c.Evict? {
        HuntKeeps(st, st', t, c.hunt.cands);
        WhyKeeps(st, st', t, u, c.why);
      }
    }
  }

  lemma HuntKeeps(st: State, st': State, t: Tid, cands: seq<Cand>)
    requires Evolves(st, st', t) && CandsOk(st, cands)
    ensures CandsOk(st', cands)
  {
    forall i | 0 <= i < |cands| ensures cands[i].slot in st'.slots && cands[i].used <= st'.slots[cands[i].slot].lastUsed {
      assert SlotChange(st, st', t, cands[i].slot);
    }
  }

  lemma CardSub(a: set<ProvId>, b: set<ProvId>)
    ensures a <= b ==> |a| <= |b|
  {
    if a <= b { assert b == a + (b - a); }
  }

  lemma LeftKeeps(st: State, st': State, t: Tid)
    requires Evolves(st, st', t)
    ensures forall left :: LeftOk(st, left) ==> LeftOk(st', left)
  {
    forall left | LeftOk(st, left) ensures LeftOk(st', left) {
      forall p | p in left ensures p in st'.provs && EverLive(st'.provs[p].status) {
        assert ProvChange(st, st', t, p);
      }
    }
  }

  /** The locks `t` holds at `pc'` are ones it held before or ones nobody else holds. */
  predicate Acquirable(st: State, t: Tid, pc': PC) {
    forall l :: l in Holds(pc') ==> l in Holds(PcOf(st, t)) || FreeBut(st, t, l)
  }

  lemma ExclusiveKeeps(st: State, t: Tid, pc': PC)
    requires Exclusive(st) && Acquirable(st, t, pc')
    ensures Exclusive(Goto(st, t, pc'))
  {
    var st' := Goto(st, t, pc');
    forall u | u in st'.threads && u != t
      ensures Holds(pc') !! Holds(st'.threads[u])
    {
      forall l | l in Holds(pc') ensures l !in Holds(st.threads[u]) {
      }
    }
  }

  /** Everything about a step that has to be shown anew; the rest follows from Evolves. */
  lemma Combine(st: State, st': State, t: Tid, pc': PC)
    requires Inv(st) && Evolves(st, st', t) && st'.threads == st.threads[t := pc'] && Acquirable(st, t, pc')
    requires OkFor(st', t, pc')
    requires |st'.owned| <= st'.max && st'.owned <= st'.provs.Keys && st'.visible <= st'.slots.Keys
    requires forall s :: s in st'.slots ==> SlotOk(st', s)
    requires forall l :: l in st'.leases ==> LeaseOk(st', l)
    requires forall p :: p in st'.provs ==> ProvOk(st', p)
    ensures Inv(st')
  {
    ExclusiveKeeps(st, t, pc');
    assert st'.threads == Goto(st, t, pc').threads;
    forall u | u in st'.threads
      ensures ThreadOk(st', u, st'.threads[u])
    {
      if u != t { OthersKeep(st, st', t, u); }
    }
  }

  lemma ThreadSame(st: State, st': State, t: Tid, pc: PC)
    requires OkFor(st, t, pc) && st' == st.(threads := st'.threads)
    ensures OkFor(st', t, pc)
  {
    assert ThreadOk(st, t, pc);
  }

  lemma SlotsSame(st: State, st': State)
    requires (forall s :: s in st.slots ==> SlotOk(st, s)) && st' == st.(threads := st'.threads)
    ensures forall s :: s in st'.slots ==> SlotOk(st', s)
  {
    forall s | s in st'.slots ensures SlotOk(st', s) {
      assert SlotOk(st, s) && ActiveLeases(st', s) == ActiveLeases(st, s);
    }
  }

  lemma LeasesSame(st: State, st': State)
    requires (forall l :: l in st.leases ==> LeaseOk(st, l)) && st' == st.(threads := st'.threads)
    ensures forall l :: l in st'.leases ==> LeaseOk(st', l)
  {
    forall l | l in st'.leases ensures LeaseOk(st', l) { assert LeaseOk(st, l); }
  }

  lemma ProvsSame(st: State, st': State, t: Tid, pc': PC)
    requires (forall p :: p in st.provs ==> ProvOk(st, p)) && st' == Goto(st, t, pc')
    requires !PcOf(st, t).OpenBusy? && !PcOf(st, t).CloseDelete?
    ensures forall p :: p in st'.provs ==> ProvOk(st', p)
  {
    forall p | p in st'.provs ensures ProvOk(st', p) { assert ProvOk(st, p); }
  }

  lemma EvolvesSame(st: State, st': State, t: Tid)
    requires st' == st.(threads := st'.threads)
    ensures Evolves(st, st', t)
  {
  }

  /** A step that moves one thread and changes nothing else. */
  lemma PcOnly(st: State, t: Tid, pc': PC)
    requires Inv(st) && Acquirable(st, t, pc') && OkFor(st, t, pc')
    requires !PcOf(st, t).OpenBusy? && !PcOf(st, t).CloseDelete?
    ensures Inv(Goto(st, t, pc'))
  {
    var st' := Goto(st, t, pc');
    SlotsSame(st, st');
    LeasesSame(st, st');
    ProvsSame(st, st', t, pc');
    ThreadSame(st, st', t, pc');
    EvolvesSame(st, st', t);
    Combine(st, st', t, pc');
  }
}
